// Finite sums, used by every conservation statement in the project.
module Sums {

  function Sum<T>(s: seq<T>, f: T -> int): int {
    if s == [] then 0 else f(s[0]) + Sum(s[1..], f)
  }

  /** The part of the sum contributed by the elements whose key is `k`. */
  function SumAt<T, K(==)>(s: seq<T>, key: T -> K, k: K, f: T -> int): int {
    if s == [] then 0 else (if key(s[0]) == k then f(s[0]) else 0) + SumAt(s[1..], key, k, f)
  }

  /** Adds up the contributions of several keys. */
  function SumOverKeys<T, K(==)>(ks: seq<K>, s: seq<T>, key: T -> K, f: T -> int): int {
    if ks == [] then 0 else SumAt(s, key, ks[0], f) + SumOverKeys(ks[1..], s, key, f)
  }

  ghost predicate Distinct<K>(ks: seq<K>) {
    forall i, j :: 0 <= i < j < |ks| ==> ks[i] != ks[j]
  }

  lemma DistinctLast<K>(ks: seq<K>)
    requires Distinct(ks) && ks != []
    ensures var init, last := ks[..|ks| - 1], ks[|ks| - 1];
            ks == init + [last] && last !in init && Distinct(init)
  {
  }

  lemma {:induction false} SumAppend<T>(a: seq<T>, b: seq<T>, f: T -> int)
    ensures Sum(a + b, f) == Sum(a, f) + Sum(b, f)
  {
    if a == [] {
      assert a + b == b;
    } else {
      assert (a + b)[1..] == a[1..] + b;
      SumAppend(a[1..], b, f);
    }
  }

  lemma {:induction false} SumAtAppend<T, K>(a: seq<T>, b: seq<T>, key: T -> K, k: K, f: T -> int)
    ensures SumAt(a + b, key, k, f) == SumAt(a, key, k, f) + SumAt(b, key, k, f)
  {
    if a == [] {
      assert a + b == b;
    } else {
      assert (a + b)[1..] == a[1..] + b;
      SumAtAppend(a[1..], b, key, k, f);
    }
  }

  /** Taking one element out of a sequence takes its share out of the sum. */
  lemma SumRemove<T>(s: seq<T>, i: nat, f: T -> int)
    requires i < |s|
    ensures Sum(s, f) == f(s[i]) + Sum(s[..i] + s[i + 1..], f)
  {
    var head, tail := s[..i], s[i..];
    assert s == head + tail;
    SumAppend(head, tail, f);
    SumAppend(head, s[i + 1..], f);
    assert tail[1..] == s[i + 1..];
  }

  lemma MultisetRemove<T>(s: seq<T>, i: nat)
    requires i < |s|
    ensures multiset(s[..i] + s[i + 1..]) == multiset(s) - multiset{s[i]}
  {
    assert s == s[..i] + [s[i]] + s[i + 1..];
  }

  lemma HeadRemoved<T>(s: seq<T>)
    requires s != []
    ensures multiset(s[1..]) == multiset(s) - multiset{s[0]}
  {
    MultisetRemove(s, 0);
    assert s[..0] + s[1..] == s[1..];
  }

  /** Where another order has the first element, and what is left of both without it. */
  lemma FirstElsewhere<T>(a: seq<T>, b: seq<T>) returns (i: nat)
    requires multiset(a) == multiset(b) && a != []
    ensures i < |b| && b[i] == a[0] && multiset(a[1..]) == multiset(b[..i] + b[i + 1..])
  {
    assert a[0] in multiset(b);
    i :| 0 <= i < |b| && b[i] == a[0];
    MultisetRemove(b, i);
    HeadRemoved(a);
  }

  /** A sum can be taken in any order. */
  lemma {:induction false} SumPermuted<T>(a: seq<T>, b: seq<T>, f: T -> int)
    requires multiset(a) == multiset(b)
    ensures Sum(a, f) == Sum(b, f)
  {
    if a == [] {
      assert |b| == |multiset(b)| == 0;
    } else {
      var i := FirstElsewhere(a, b);
      SumRemove(b, i, f);
      SumPermuted(a[1..], b[..i] + b[i + 1..], f);
    }
  }

  lemma {:induction false} SumAtIsSum<T, K>(s: seq<T>, key: T -> K, k: K, f: T -> int, g: T -> int)
    requires forall x :: x in s ==> g(x) == if key(x) == k then f(x) else 0
    ensures SumAt(s, key, k, f) == Sum(s, g)
  {
    if s == [] {
    } else {
      SumAtIsSum(s[1..], key, k, f, g);
    }
  }

  lemma SumAtPermuted<T, K>(a: seq<T>, b: seq<T>, key: T -> K, k: K, f: T -> int)
    requires multiset(a) == multiset(b)
    ensures SumAt(a, key, k, f) == SumAt(b, key, k, f)
  {
    var g := (x: T) => if key(x) == k then f(x) else 0;
    SumAtIsSum(a, key, k, f, g);
    SumAtIsSum(b, key, k, f, g);
    SumPermuted(a, b, g);
  }

  lemma SumAtLast<T, K>(s: seq<T>, key: T -> K, k: K, f: T -> int)
    requires s != []
    ensures SumAt(s, key, k, f) == SumAt(s[..|s| - 1], key, k, f) + if key(s[|s| - 1]) == k then f(s[|s| - 1]) else 0
  {
    var init, x := s[..|s| - 1], s[|s| - 1];
    assert s == init + [x];
    SumAtAppend(init, [x], key, k, f);
  }

  lemma SumLast<T>(s: seq<T>, f: T -> int)
    requires s != []
    ensures Sum(s, f) == Sum(s[..|s| - 1], f) + f(s[|s| - 1])
  {
    var init, x := s[..|s| - 1], s[|s| - 1];
    assert s == init + [x];
    SumAppend(init, [x], f);
  }

  lemma {:induction false} SumAtAll<T, K>(s: seq<T>, key: T -> K, k: K, f: T -> int)
    requires forall x :: x in s ==> key(x) == k
    ensures SumAt(s, key, k, f) == Sum(s, f)
  {
    if s == [] {
    } else {
      SumAtAll(s[1..], key, k, f);
    }
  }

  lemma {:induction false} SumZero<T>(s: seq<T>, f: T -> int)
    requires forall x :: x in s ==> f(x) == 0
    ensures Sum(s, f) == 0
  {
    if s == [] {
    } else {
      SumZero(s[1..], f);
    }
  }

  lemma {:induction false} SumMonotone<T>(s: seq<T>, f: T -> int, g: T -> int)
    requires forall x :: x in s ==> f(x) <= g(x)
    ensures Sum(s, f) <= Sum(s, g)
  {
    if s == [] {
    } else {
      SumMonotone(s[1..], f, g);
    }
  }

  lemma {:induction false} SumAdds<T>(s: seq<T>, f: T -> int, g: T -> int, h: T -> int)
    requires forall x :: x in s ==> h(x) == f(x) + g(x)
    ensures Sum(s, h) == Sum(s, f) + Sum(s, g)
  {
    if s == [] {
    } else {
      SumAdds(s[1..], f, g, h);
    }
  }

  lemma {:induction false} SumAtAbsent<T, K>(s: seq<T>, key: T -> K, k: K, f: T -> int)
    requires forall x :: x in s ==> key(x) != k
    ensures SumAt(s, key, k, f) == 0
  {
    if s == [] {
    } else {
      SumAtAbsent(s[1..], key, k, f);
    }
  }

  /** Exactly one key of a duplicate-free list sees a single extra element. */
  lemma {:induction false} SumOverKeysCons<T, K>(ks: seq<K>, x: T, s: seq<T>, key: T -> K, f: T -> int)
    requires Distinct(ks)
    ensures SumOverKeys(ks, [x] + s, key, f)
         == SumOverKeys(ks, s, key, f) + if key(x) in ks then f(x) else 0
  {
    if ks == [] {
    } else {
      assert ([x] + s)[1..] == s;
      SumOverKeysCons(ks[1..], x, s, key, f);
      assert ks[0] !in ks[1..];
      assert ks == [ks[0]] + ks[1..];
    }
  }

  /** Grouping by a key loses nothing: the groups add up to the whole. */
  lemma {:induction false} SumByKeys<T, K>(ks: seq<K>, s: seq<T>, key: T -> K, f: T -> int)
    requires Distinct(ks)
    requires forall x :: x in s ==> key(x) in ks
    ensures SumOverKeys(ks, s, key, f) == Sum(s, f)
  {
    if s == [] {
      SumOverKeysEmpty(ks, key, f);
    } else {
      assert s == [s[0]] + s[1..];
      SumOverKeysCons(ks, s[0], s[1..], key, f);
      SumByKeys(ks, s[1..], key, f);
    }
  }

  lemma {:induction false} SumOverKeysEmpty<T, K>(ks: seq<K>, key: T -> K, f: T -> int)
    ensures SumOverKeys(ks, [], key, f) == 0
  {
    if ks == [] {
    } else {
      SumOverKeysEmpty(ks[1..], key, f);
    }
  }
}
