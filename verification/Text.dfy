// Splitting and joining delimited text.
module Text {

  /** `parts.join(sep)` for a one-character separator. */
  function Join(parts: seq<string>, sep: char): string {
    if parts == [] then ""
    else if |parts| == 1 then parts[0]
    else parts[0] + [sep] + Join(parts[1..], sep)
  }

  /** `text.split(sep)` for a one-character separator. */
  function Split(text: string, sep: char): (parts: seq<string>)
    ensures |parts| >= 1
  {
    if text == "" then [""]
    else
      var rest := Split(text[1..], sep);
      if text[0] == sep then [""] + rest
      else [[text[0]] + rest[0]] + rest[1..]
  }

  /** Splitting recovers exactly what was joined when no part holds the separator. */
  lemma {:induction false} SplitJoin(parts: seq<string>, sep: char)
    requires |parts| >= 1
    requires forall i :: 0 <= i < |parts| ==> sep !in parts[i]
    ensures Split(Join(parts, sep), sep) == parts
  {
    if |parts| == 1 {
      SplitPlain(parts[0], sep);
    } else {
      SplitJoin(parts[1..], sep);
      SplitHead(parts[0], Join(parts[1..], sep), sep);
    }
  }

  lemma {:induction false} SplitPlain(s: string, sep: char)
    requires sep !in s
    ensures Split(s, sep) == [s]
  {
    if s == "" {
    } else {
      SplitPlain(s[1..], sep);
      assert s == [s[0]] + s[1..];
    }
  }

  lemma {:induction false} SplitHead(head: string, tail: string, sep: char)
    requires sep !in head
    ensures Split(head + [sep] + tail, sep) == [head] + Split(tail, sep)
  {
    var text := head + [sep] + tail;
    if head == "" {
      assert text[1..] == tail;
    } else {
      assert text[1..] == head[1..] + [sep] + tail;
      SplitHead(head[1..], tail, sep);
      assert head == [head[0]] + head[1..];
    }
  }

  /** Joining recovers what was split, whose parts hold no separator. */
  lemma {:induction false} JoinSplit(text: string, sep: char)
    ensures Join(Split(text, sep), sep) == text
    ensures forall i :: 0 <= i < |Split(text, sep)| ==> sep !in Split(text, sep)[i]
  {
    if text == "" {
    } else {
      var rest := Split(text[1..], sep);
      JoinSplit(text[1..], sep);
      assert text == [text[0]] + text[1..];
      if text[0] == sep {
        JoinCons("", rest, sep);
      } else {
        JoinGrown(text[0], rest, sep);
      }
    }
  }

  lemma JoinCons(part: string, rest: seq<string>, sep: char)
    requires rest != []
    ensures Join([part] + rest, sep) == part + [sep] + Join(rest, sep)
  {
    assert ([part] + rest)[1..] == rest;
  }

  lemma JoinGrown(c: char, parts: seq<string>, sep: char)
    requires parts != []
    ensures Join([[c] + parts[0]] + parts[1..], sep) == [c] + Join(parts, sep)
  {
    assert ([[c] + parts[0]] + parts[1..])[1..] == parts[1..];
    if |parts| > 1 {
      assert [c] + (parts[0] + [sep] + Join(parts[1..], sep)) == [c] + parts[0] + [sep] + Join(parts[1..], sep);
    }
  }

  ghost predicate OccursAt(text: string, part: string, k: nat) {
    k + |part| <= |text| && text[k..k + |part|] == part
  }

  /** `text.includes(part)`. */
  function Includes(text: string, part: string): (r: bool)
    ensures r <==> exists k :: OccursAt(text, part, k)
  {
    if |text| < |part| then false
    else if text[..|part|] == part then
      assert OccursAt(text, part, 0);
      true
    else if text == "" then false
    else
      assert forall k: nat :: OccursAt(text[1..], part, k) ==> OccursAt(text, part, k + 1);
      assert forall k: nat :: k > 0 && OccursAt(text, part, k) ==> OccursAt(text[1..], part, k - 1);
      Includes(text[1..], part)
  }
}
