// Fuzzy comparison of names and addresses (src/lib/reconciliation/discrepancies.ts).
// Normalisation is not modelled: the comparisons below start from the two
// normalised texts.
module Discrepancies {
  import opened Text

  function Min3(a: nat, b: nat, c: nat): nat {
    if a <= b && a <= c then a else if b <= c then b else c
  }

  function Max(a: nat, b: nat): nat {
    if a >= b then a else b
  }

  function Cost(c: char, d: char): nat {
    if c == d then 0 else 1
  }

  /** The Levenshtein recurrence, on the ends of the two texts. */
  function Lev(a: string, b: string): nat
    decreases |a| + |b|
  {
    if a == "" then |b|
    else if b == "" then |a|
    else
      var a', b' := a[..|a| - 1], b[..|b| - 1];
      Min3(Lev(a', b) + 1, Lev(a, b') + 1, Lev(a', b') + Cost(a[|a| - 1], b[|b| - 1]))
  }

  // ----- The two-row loop -----

  /** Row `i` of the table: the distances from the first `i` characters of `a` to every prefix of `b`. */
  ghost predicate IsRow(row: seq<nat>, a: string, i: nat, b: string, width: nat)
    requires i <= |a| && width <= |b| + 1
  {
    |row| == width && forall k :: 0 <= k < width ==> row[k] == Lev(a[..i], b[..k])
  }

  method EditDistance(a: string, b: string) returns (d: nat)
    ensures d == Lev(a, b)
  {
    var m, n := |a|, |b|;
    if m == 0 { return n; }
    if n == 0 { return m; }
    var prev: seq<nat> := seq(n + 1, i => i);
    var i := 1;
    while i <= m
      invariant 1 <= i <= m + 1
      invariant IsRow(prev, a, i - 1, b, n + 1)
    {
      prev := NextRow(prev, a, i, b);
      i := i + 1;
    }
    assert a[..m] == a && b[..n] == b;
    return prev[n];
  }

  /** The inner loop: one row of the table from the row before. */
  method NextRow(prev: seq<nat>, a: string, i: nat, b: string) returns (curr: seq<nat>)
    requires 1 <= i <= |a| && IsRow(prev, a, i - 1, b, |b| + 1)
    ensures IsRow(curr, a, i, b, |b| + 1)
  {
    curr := [i];
    var j := 1;
    while j <= |b|
      invariant 1 <= j <= |b| + 1 && |curr| == j && curr[0] == i
      invariant forall k :: 1 <= k < j ==> curr[k] == Min3(prev[k] + 1, curr[k - 1] + 1, prev[k - 1] + Cost(a[i - 1], b[k - 1]))
    {
      curr := curr + [Min3(prev[j] + 1, curr[j - 1] + 1, prev[j - 1] + Cost(a[i - 1], b[j - 1]))];
      j := j + 1;
    }
    RowFollows(prev, curr, a, i, b, |b|);
  }

  lemma {:induction false} RowFollows(prev: seq<nat>, curr: seq<nat>, a: string, i: nat, b: string, j: nat)
    requires 1 <= i <= |a| && j <= |b| && |curr| == |b| + 1
    requires IsRow(prev, a, i - 1, b, |b| + 1)
    requires curr[0] == i
    requires forall k :: 1 <= k <= j ==> curr[k] == Min3(prev[k] + 1, curr[k - 1] + 1, prev[k - 1] + Cost(a[i - 1], b[k - 1]))
    ensures forall k :: 0 <= k <= j ==> curr[k] == Lev(a[..i], b[..k])
  {
    if j == 0 {
      assert b[..0] == "";
    } else {
      RowFollows(prev, curr, a, i, b, j - 1);
      CellFollows(a, i, b, j, prev[j], curr[j - 1], prev[j - 1], curr[j]);
    }
  }

  lemma CellFollows(a: string, i: nat, b: string, j: nat, up: nat, left: nat, diagonal: nat, cell: nat)
    requires 1 <= i <= |a| && 1 <= j <= |b|
    requires up == Lev(a[..i - 1], b[..j]) && left == Lev(a[..i], b[..j - 1]) && diagonal == Lev(a[..i - 1], b[..j - 1])
    requires cell == Min3(up + 1, left + 1, diagonal + Cost(a[i - 1], b[j - 1]))
    ensures cell == Lev(a[..i], b[..j])
  {
    LevCell(a, i, b, j);
  }

  /** The recurrence, read at a cell of the table. */
  lemma LevCell(a: string, i: nat, b: string, j: nat)
    requires 1 <= i <= |a| && 1 <= j <= |b|
    ensures Lev(a[..i], b[..j])
         == Min3(Lev(a[..i - 1], b[..j]) + 1, Lev(a[..i], b[..j - 1]) + 1,
                 Lev(a[..i - 1], b[..j - 1]) + Cost(a[i - 1], b[j - 1]))
  {
    assert a[..i][..i - 1] == a[..i - 1];
    assert b[..j][..j - 1] == b[..j - 1];
  }

  // ----- The distance is a metric -----

  lemma {:induction false} LevBounds(a: string, b: string)
    ensures Lev(a, b) <= Max(|a|, |b|)
    ensures |a| <= Lev(a, b) + |b|
    ensures |b| <= Lev(a, b) + |a|
    decreases |a| + |b|
  {
    if a != "" && b != "" {
      var a', b' := a[..|a| - 1], b[..|b| - 1];
      LevBounds(a', b);
      LevBounds(a, b');
      LevBounds(a', b');
    }
  }

  lemma {:induction false} LevZero(a: string, b: string)
    ensures Lev(a, b) == 0 <==> a == b
    decreases |a| + |b|
  {
    if a != "" && b != "" {
      var a', b' := a[..|a| - 1], b[..|b| - 1];
      LevZero(a', b');
      assert a == a' + [a[|a| - 1]] && b == b' + [b[|b| - 1]];
    }
  }

  lemma {:induction false} LevSymmetric(a: string, b: string)
    ensures Lev(a, b) == Lev(b, a)
    decreases |a| + |b|
  {
    if a != "" && b != "" {
      var a', b' := a[..|a| - 1], b[..|b| - 1];
      LevSymmetric(a', b);
      LevSymmetric(a, b');
      LevSymmetric(a', b');
    }
  }

  lemma {:induction false} LevTriangle(a: string, b: string, c: string)
    ensures Lev(a, c) <= Lev(a, b) + Lev(b, c)
    decreases |a| + |b| + |c|
  {
    LevBounds(a, b);
    LevBounds(b, c);
    LevBounds(a, c);
    if a != "" && b != "" && c != "" {
      var a', b', c' := a[..|a| - 1], b[..|b| - 1], c[..|c| - 1];
      LevTriangle(a', b, c);
      LevTriangle(a, b, c');
      LevTriangle(a, b', c);
      LevTriangle(a, b', c');
      LevTriangle(a', b', c);
      LevTriangle(a', b', c');
    }
  }

  // ----- The distance counts edits -----

  ghost predicate Inserted(s: string, t: string, k: nat) {
    k < |t| && s == t[..k] + t[k + 1..]
  }

  ghost predicate Replaced(s: string, t: string, k: nat) {
    k < |s| == |t| && s[..k] == t[..k] && s[k + 1..] == t[k + 1..]
  }

  /** One character inserted, deleted or replaced, at any position. */
  ghost predicate OneEdit(s: string, t: string) {
    exists k :: Inserted(s, t, k) || Inserted(t, s, k) || Replaced(s, t, k)
  }

  /** A way of turning `a` into `b`, one edit at a time. */
  ghost predicate EditPath(p: seq<string>, a: string, b: string) {
    && |p| >= 1 && p[0] == a && p[|p| - 1] == b
    && forall i :: 0 <= i < |p| - 1 ==> OneEdit(p[i], p[i + 1])
  }

  /** `Lev` is the least number of single-character edits from `a` to `b`. */
  lemma LevIsFewestEdits(a: string, b: string)
    ensures exists p :: EditPath(p, a, b) && |p| - 1 == Lev(a, b)
    ensures forall p :: EditPath(p, a, b) ==> Lev(a, b) <= |p| - 1
  {
    var q := ShortestPath(a, b);
    forall p | EditPath(p, a, b) ensures Lev(a, b) <= |p| - 1 {
      PathIsLongEnough(p, a, b);
    }
  }

  lemma {:induction false} PathIsLongEnough(p: seq<string>, a: string, b: string)
    requires EditPath(p, a, b)
    ensures Lev(a, b) <= |p| - 1
  {
    if |p| == 1 {
      LevZero(a, b);
    } else {
      assert OneEdit(p[0], p[1]);
      PathIsLongEnough(p[1..], p[1], b);
      OneEditDistance(a, p[1]);
      LevTriangle(a, p[1], b);
    }
  }

  lemma OneEditDistance(s: string, t: string)
    requires OneEdit(s, t)
    ensures Lev(s, t) <= 1
  {
    var k: nat :| Inserted(s, t, k) || Inserted(t, s, k) || Replaced(s, t, k);
    if Inserted(s, t, k) {
      InsertedDistance(s, t, k);
    } else if Inserted(t, s, k) {
      InsertedDistance(t, s, k);
      LevSymmetric(s, t);
    } else {
      ReplacedDistance(s, t, k);
    }
  }

  lemma ReplacedDistance(s: string, t: string, k: nat)
    requires Replaced(s, t, k)
    ensures Lev(s, t) <= 1
  {
    var x, y := s[..k], s[k + 1..];
    assert s == (x + [s[k]]) + y && t == (x + [t[k]]) + y;
    LevCommonEnd(x + [s[k]], x + [t[k]], y);
    LevLastReplaced(x, s[k], t[k]);
  }

  lemma LevLastReplaced(x: string, c: char, d: char)
    ensures Lev(x + [c], x + [d]) <= 1
  {
    LevZero(x, x);
    assert (x + [c])[..|x|] == x && (x + [d])[..|x|] == x;
  }

  lemma InsertedDistance(s: string, t: string, k: nat)
    requires Inserted(s, t, k)
    ensures Lev(s, t) <= 1
  {
    var x, y := t[..k], t[k + 1..];
    assert t == (x + [t[k]]) + y;
    LevCommonEnd(x, x + [t[k]], y);
    LevZero(x, x);
    assert (x + [t[k]])[..k] == x;
  }

  lemma LongerEnd(a: string, end: string)
    requires end != ""
    ensures a + end[..|end| - 1] + [end[|end| - 1]] == a + end
  {
  }

  lemma LevSameLast(a: string, b: string, c: char)
    ensures Lev(a + [c], b + [c]) <= Lev(a, b)
  {
    assert (a + [c])[..|a|] == a && (b + [c])[..|b|] == b;
  }

  lemma {:induction false} LevCommonEnd(a: string, b: string, end: string)
    ensures Lev(a + end, b + end) <= Lev(a, b)
  {
    if end == "" {
      assert a + end == a && b + end == b;
    } else {
      var end', c := end[..|end| - 1], end[|end| - 1];
      LevCommonEnd(a, b, end');
      LevSameLast(a + end', b + end', c);
      LongerEnd(a, end);
      LongerEnd(b, end);
    }
  }

  lemma {:induction false} ShortestPath(a: string, b: string) returns (p: seq<string>)
    ensures EditPath(p, a, b) && |p| - 1 == Lev(a, b)
    decreases |a| + |b|
  {
    if a == "" && b == "" {
      p := [""];
    } else if a == "" {
      p := ShortestPath(a, b[..|b| - 1]);
      p := AppendLast(p, a, b);
    } else if b == "" {
      p := ShortestPath(a[..|a| - 1], b);
      p := DropLast(p, a, b);
    } else {
      var a', b' := a[..|a| - 1], b[..|b| - 1];
      if Lev(a, b) == Lev(a', b) + 1 {
        p := ShortestPath(a', b);
        p := DropLast(p, a, b);
      } else if Lev(a, b) == Lev(a, b') + 1 {
        p := ShortestPath(a, b');
        p := AppendLast(p, a, b);
      } else {
        p := ShortestPath(a', b');
        p := ReplaceLast(p, a, b);
      }
    }
  }

  lemma ReplaceLast(p: seq<string>, a: string, b: string) returns (q: seq<string>)
    requires a != "" && b != "" && EditPath(p, a[..|a| - 1], b[..|b| - 1])
    ensures EditPath(q, a, b) && |q| == |p| + if a[|a| - 1] == b[|b| - 1] then 0 else 1
  {
    q := Lifted(p, a[..|a| - 1], b[..|b| - 1], b[|b| - 1]);
    assert b == b[..|b| - 1] + [b[|b| - 1]] && a == a[..|a| - 1] + [a[|a| - 1]];
    if a[|a| - 1] != b[|b| - 1] {
      assert Replaced(a, q[0], |a| - 1);
      q := [a] + q;
    }
  }

  lemma AppendLast(p: seq<string>, a: string, b: string) returns (q: seq<string>)
    requires b != "" && EditPath(p, a, b[..|b| - 1])
    ensures EditPath(q, a, b) && |q| == |p| + 1
  {
    assert Inserted(b[..|b| - 1], b, |b| - 1);
    q := p + [b];
  }

  lemma DropLast(p: seq<string>, a: string, b: string) returns (q: seq<string>)
    requires a != "" && EditPath(p, a[..|a| - 1], b)
    ensures EditPath(q, a, b) && |q| == |p| + 1
  {
    assert Inserted(a[..|a| - 1], a, |a| - 1);
    q := [a] + p;
  }

  lemma Lifted(p: seq<string>, a: string, b: string, c: char) returns (q: seq<string>)
    requires EditPath(p, a, b)
    ensures EditPath(q, a + [c], b + [c]) && |q| == |p|
  {
    q := seq(|p|, i requires 0 <= i < |p| => p[i] + [c]);
    forall i | 0 <= i < |q| - 1 ensures OneEdit(q[i], q[i + 1]) {
      OneEditLifted(p[i], p[i + 1], c);
    }
  }

  lemma OneEditLifted(s: string, t: string, c: char)
    requires OneEdit(s, t)
    ensures OneEdit(s + [c], t + [c])
  {
    var k: nat :| Inserted(s, t, k) || Inserted(t, s, k) || Replaced(s, t, k);
    if Inserted(s, t, k) {
      InsertedLifted(s, t, k, c);
    } else if Inserted(t, s, k) {
      InsertedLifted(t, s, k, c);
    } else {
      ReplacedLifted(s, t, k, c);
    }
  }

  lemma InsertedLifted(s: string, t: string, k: nat, c: char)
    requires Inserted(s, t, k)
    ensures Inserted(s + [c], t + [c], k)
  {
    assert (t + [c])[..k] == t[..k] && (t + [c])[k + 1..] == t[k + 1..] + [c];
  }

  lemma ReplacedLifted(s: string, t: string, k: nat, c: char)
    requires Replaced(s, t, k)
    ensures Replaced(s + [c], t + [c], k)
  {
    assert (s + [c])[..k] == s[..k] && (s + [c])[k + 1..] == s[k + 1..] + [c];
    assert (t + [c])[..k] == t[..k] && (t + [c])[k + 1..] == t[k + 1..] + [c];
  }

  // ----- Similarity and the two comparisons -----

  function OneLessRatio(d: nat, max: nat): real
    requires max > 0
  {
    1.0 - d as real / max as real
  }

  /** `1 - distance / longest`, over the reals. */
  function Similarity(a: string, b: string): real {
    var max := Max(|a|, |b|);
    if max == 0 then 1.0 else OneLessRatio(Lev(a, b), max)
  }

  /** `namesMatch`, on the two normalised names. */
  predicate NamesMatch(a: string, b: string) {
    || a == "" || b == "" || a == b
    || Includes(a, b) || Includes(b, a)
    || Similarity(a, b) >= 0.85
  }

  /** `addressesMatch`, on the two address signatures. */
  predicate AddressesMatch(a: string, b: string) {
    a == "" || b == "" || a == b || Similarity(a, b) >= 0.9
  }

  lemma SimilarityRange(a: string, b: string)
    ensures 0.0 <= Similarity(a, b) <= 1.0
    ensures Similarity(a, b) == 1.0 <==> a == b
    ensures Similarity(a, b) == Similarity(b, a)
  {
    LevBounds(a, b);
    LevZero(a, b);
    LevSymmetric(a, b);
    if Max(|a|, |b|) > 0 {
      AtLeast(Lev(a, b), Max(|a|, |b|), 1, 1);
      AtLeast(Lev(a, b), Max(|a|, |b|), 0, 1);
    }
  }

  lemma MatchesSymmetric(a: string, b: string)
    ensures NamesMatch(a, b) == NamesMatch(b, a)
    ensures AddressesMatch(a, b) == AddressesMatch(b, a)
  {
    SimilarityRange(a, b);
  }

  /** A name may differ in three characters out of twenty. */
  lemma NameTolerance(a: string, b: string)
    ensures NamesMatch(a, b) <==>
            (a == "" || b == "" || a == b || Includes(a, b) || Includes(b, a) || 20 * Lev(a, b) <= 3 * Max(|a|, |b|))
  {
    NameThreshold(a, b);
  }

  lemma NameThreshold(a: string, b: string)
    ensures Similarity(a, b) >= 0.85 <==> 20 * Lev(a, b) <= 3 * Max(|a|, |b|)
  {
    Threshold(a, b, 3, 20);
  }

  /** An address may differ in one character out of ten. */
  lemma AddressTolerance(a: string, b: string)
    ensures AddressesMatch(a, b) <==> (a == "" || b == "" || a == b || 10 * Lev(a, b) <= Max(|a|, |b|))
  {
    Threshold(a, b, 1, 10);
  }

  lemma Threshold(a: string, b: string, p: nat, q: nat)
    requires q > 0
    ensures Similarity(a, b) >= 1.0 - p as real / q as real <==> q * Lev(a, b) <= p * Max(|a|, |b|)
  {
    var d, max := Lev(a, b), Max(|a|, |b|);
    LevBounds(a, b);
    if max > 0 {
      AtLeast(d, max, p, q);
    } else {
      assert d == 0 && p as real / q as real >= 0.0;
    }
  }

  /** A real threshold of `1 - p/q` is the whole-number threshold `d/max <= p/q`. */
  lemma AtLeast(d: nat, max: nat, p: nat, q: nat)
    requires max > 0 && q > 0
    ensures OneLessRatio(d, max) >= 1.0 - p as real / q as real <==> q * d <= p * max
    ensures d >= 0 ==> OneLessRatio(d, max) <= 1.0
    ensures d > 0 ==> OneLessRatio(d, max) < 1.0
  {
    var m, r := max as real, q as real;
    var x, y := d as real / m, p as real / r;
    assert x * m == d as real && y * r == p as real;
    if x <= y {
      Scaled(x, y, m * r);
    } else {
      Scaled(y, x, m * r);
    }
    assert x * (m * r) == (x * m) * r == (q * d) as real;
    assert y * (m * r) == (y * r) * m == (p * max) as real;
  }

  lemma Scaled(x: real, y: real, k: real)
    requires x <= y && k > 0.0
    ensures x * k <= y * k
    ensures x < y ==> x * k < y * k
  {
  }
}
