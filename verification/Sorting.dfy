// The array sort of ECMAScript: sorted, a rearrangement, and stable.
module Sorting {

  ghost predicate TotalPreorder<T(!new)>(le: (T, T) -> bool) {
    && (forall x, y :: le(x, y) || le(y, x))
    && (forall x, y, z :: le(x, y) && le(y, z) ==> le(x, z))
  }

  ghost predicate SortedBy<T>(le: (T, T) -> bool, s: seq<T>) {
    forall i, j :: 0 <= i < j < |s| ==> le(s[i], s[j])
  }

  function Filter<T>(p: T -> bool, s: seq<T>): seq<T> {
    if s == [] then [] else (if p(s[0]) then [s[0]] else []) + Filter(p, s[1..])
  }

  function Insert<T>(le: (T, T) -> bool, x: T, s: seq<T>): (r: seq<T>)
    ensures multiset(r) == multiset(s) + multiset{x}
  {
    if s == [] || le(x, s[0]) then [x] + s
    else
      assert s == [s[0]] + s[1..];
      [s[0]] + Insert(le, x, s[1..])
  }

  function Sort<T>(le: (T, T) -> bool, s: seq<T>): (r: seq<T>)
    ensures multiset(r) == multiset(s)
    ensures |r| == |s|
  {
    if s == [] then []
    else
      assert s == [s[0]] + s[1..];
      var r := Insert(le, s[0], Sort(le, s[1..]));
      assert |multiset(r)| == |multiset(s)|;
      r
  }

  lemma {:induction false} InsertSorted<T(!new)>(le: (T, T) -> bool, x: T, s: seq<T>)
    requires TotalPreorder(le) && SortedBy(le, s)
    ensures SortedBy(le, Insert(le, x, s))
  {
    if s == [] || le(x, s[0]) {
    } else {
      var rest := Insert(le, x, s[1..]);
      InsertSorted(le, x, s[1..]);
      forall y | y in rest ensures le(s[0], y) {
        assert y in multiset(rest);
        assert y in multiset(s[1..]) || y == x;
      }
    }
  }

  lemma {:induction false} SortSorted<T(!new)>(le: (T, T) -> bool, s: seq<T>)
    requires TotalPreorder(le)
    ensures SortedBy(le, Sort(le, s))
  {
    if s == [] {
    } else {
      SortSorted(le, s[1..]);
      InsertSorted(le, s[0], Sort(le, s[1..]));
    }
  }

  lemma SortMembers<T>(le: (T, T) -> bool, s: seq<T>)
    ensures forall x :: x in Sort(le, s) <==> x in s
  {
    assert forall x :: x in Sort(le, s) <==> x in multiset(Sort(le, s));
    assert forall x :: x in s <==> x in multiset(s);
  }

  /** Elements the order cannot tell apart keep their order, whatever the class. */
  lemma {:induction false} SortStable<T(!new)>(le: (T, T) -> bool, p: T -> bool, s: seq<T>)
    requires TotalPreorder(le)
    requires forall x, y :: p(x) && p(y) ==> le(x, y)
    ensures Filter(p, Sort(le, s)) == Filter(p, s)
  {
    if s == [] {
    } else {
      SortStable(le, p, s[1..]);
      InsertStable(le, p, s[0], Sort(le, s[1..]));
    }
  }

  lemma {:induction false} InsertStable<T(!new)>(le: (T, T) -> bool, p: T -> bool, x: T, s: seq<T>)
    requires forall x, y :: p(x) && p(y) ==> le(x, y)
    ensures Filter(p, Insert(le, x, s)) == (if p(x) then [x] else []) + Filter(p, s)
  {
    if s == [] || le(x, s[0]) {
      assert ([x] + s)[1..] == s;
    } else {
      InsertStable(le, p, x, s[1..]);
      var rest := Insert(le, x, s[1..]);
      var r := Insert(le, x, s);
      assert r[0] == s[0] && r[1..] == rest;
      var head := if p(s[0]) then [s[0]] else [];
      var own := if p(x) then [x] else [];
      assert p(x) ==> head == [];
      calc {
        Filter(p, r);
        head + Filter(p, rest);
        head + (own + Filter(p, s[1..]));
        own + (head + Filter(p, s[1..]));
        own + Filter(p, s);
      }
    }
  }

  function Map<T, K>(f: T -> K, s: seq<T>): (r: seq<K>)
    ensures |r| == |s|
    ensures forall i :: 0 <= i < |s| ==> r[i] == f(s[i])
  {
    seq(|s|, i requires 0 <= i < |s| => f(s[i]))
  }

  /** Sorting rearranges whatever is read off the elements. */
  lemma {:induction false} SortMapped<T, K>(le: (T, T) -> bool, f: T -> K, s: seq<T>)
    ensures multiset(Map(f, Sort(le, s))) == multiset(Map(f, s))
  {
    if s == [] {
    } else {
      SortMapped(le, f, s[1..]);
      InsertMapped(le, f, s[0], Sort(le, s[1..]));
      assert Map(f, s) == [f(s[0])] + Map(f, s[1..]);
    }
  }

  lemma MapCons<T, K>(f: T -> K, x: T, s: seq<T>)
    ensures Map(f, [x] + s) == [f(x)] + Map(f, s)
    ensures multiset(Map(f, [x] + s)) == multiset{f(x)} + multiset(Map(f, s))
  {
  }

  lemma {:induction false} InsertMapped<T, K>(le: (T, T) -> bool, f: T -> K, x: T, s: seq<T>)
    ensures multiset(Map(f, Insert(le, x, s))) == multiset(Map(f, s)) + multiset{f(x)}
  {
    if s == [] || le(x, s[0]) {
      MapCons(f, x, s);
    } else {
      InsertMapped(le, f, x, s[1..]);
      MapCons(f, s[0], Insert(le, x, s[1..]));
      MapCons(f, s[0], s[1..]);
      assert s == [s[0]] + s[1..];
    }
  }

  /** Rearranging keeps the keys distinct. */
  lemma {:induction false} DistinctKeysPermuted<T, K>(a: seq<T>, b: seq<T>, key: T -> K)
    requires multiset(a) == multiset(b)
    requires forall i, j :: 0 <= i < j < |a| ==> key(a[i]) != key(a[j])
    ensures forall i, j :: 0 <= i < j < |b| ==> key(b[i]) != key(b[j])
  {
    forall i, j | 0 <= i < j < |b| ensures key(b[i]) != key(b[j]) {
      if key(b[i]) == key(b[j]) {
        assert b[i] in multiset(b) && b[j] in multiset(b);
        assert b[i] in a && b[j] in a;
        if b[i] == b[j] {
          assert b == b[..i] + [b[i]] + b[i + 1..j] + [b[j]] + b[j + 1..];
          assert multiset(b)[b[i]] >= 2;
          DistinctOnce(a, key, b[i]);
        }
      }
    }
  }

  lemma {:induction false} DistinctOnce<T, K>(a: seq<T>, key: T -> K, x: T)
    requires forall i, j :: 0 <= i < j < |a| ==> key(a[i]) != key(a[j])
    ensures multiset(a)[x] <= 1
  {
    if a == [] {
    } else {
      assert a == [a[0]] + a[1..];
      if a[0] == x {
        assert x !in a[1..];
        assert x !in multiset(a[1..]);
      } else {
        DistinctOnce(a[1..], key, x);
      }
    }
  }
}
