// Match scoring and greedy one-to-one proposals (src/lib/matching/similarity.ts).
// Confidences are whole hundredths, the grid the source rounds to. The texts that
// `normalizeName` and `tokenSet` derive from a name are inputs.
module Similarity {
  import Sorting
  import Sums
  import opened Text

  // ----- Scoring one pair -----

  /** A name as the scorer sees it. */
  datatype Candidate = Candidate(id: string, norm: string, tokens: set<string>, collapsed: string, domain: string)

  datatype Score = Score(confidence: nat, exact: bool)

  /** Shared tokens over all tokens; 0 when there are none. */
  function NameSimilarity(a: set<string>, b: set<string>): real {
    if a + b == {} then 0.0 else |a * b| as real / |a + b| as real
  }

  /** `jaccard`: the shared tokens are counted one by one. */
  method Jaccard(a: set<string>, b: set<string>) returns (r: real)
    ensures r == NameSimilarity(a, b)
  {
    if a == {} && b == {} {
      assert a + b == {};
      return 0.0;
    }
    var intersection, rest := 0, a;
    while rest != {}
      invariant rest <= a && intersection == |(a - rest) * b|
      decreases rest
    {
      var t :| t in rest;
      CountToken(a, b, rest, t);
      if t in b {
        intersection := intersection + 1;
      }
      rest := rest - {t};
    }
    assert (a - {}) * b == a * b;
    UnionSize(a, b);
    var union := |a| + |b| - intersection;
    r := if union == 0 then 0.0 else intersection as real / union as real;
  }

  lemma CountToken(a: set<string>, b: set<string>, rest: set<string>, t: string)
    requires rest <= a && t in rest
    ensures |(a - (rest - {t})) * b| == |(a - rest) * b| + if t in b then 1 else 0
  {
    var seen, more := (a - rest) * b, (a - (rest - {t})) * b;
    assert more == if t in b then seen + {t} else seen;
  }

  lemma UnionSize(a: set<string>, b: set<string>)
    ensures |a + b| == |a| + |b| - |a * b|
  {
  }

  function MaxReal(a: real, b: real): real {
    if a >= b then a else b
  }

  function MinReal(a: real, b: real): real {
    if a <= b then a else b
  }

  /** `Math.round(100 * x)`, in hundredths. */
  function Hundredths(x: real): int {
    (x * 100.0 + 0.5).Floor
  }

  function ScoreMatch(a: Candidate, b: Candidate): (r: Score)
    ensures r.confidence <= 100
    ensures r.exact <==> a.norm != "" && a.norm == b.norm
    ensures r.exact <==> r.confidence == 100
  {
    if a.norm != "" && a.norm == b.norm then Score(100, true)
    else
      var base := NameSimilarity(a.tokens, b.tokens) * 0.85;
      var collapsedEqual := |a.collapsed| >= 4 && a.collapsed == b.collapsed;
      var contained := |a.collapsed| >= 5 && |b.collapsed| >= 5
                       && (Includes(a.collapsed, b.collapsed) || Includes(b.collapsed, a.collapsed));
      var domainMatch := a.domain != "" && a.domain == b.domain;
      var lifted := if collapsedEqual then MaxReal(base, 0.95) else if contained then MaxReal(base, 0.7) else base;
      SimilarityIsRatio(a.tokens, b.tokens);
      var confidence := MinReal(0.99, lifted + if domainMatch then 0.5 else 0.0);
      assert 0.0 <= confidence <= 0.99;
      Score(Hundredths(confidence), false)
  }

  /** The shared tokens as a part of all of them: none for names without tokens or without a shared one, and all only for the same tokens. */
  lemma JaccardMeans(a: set<string>, b: set<string>)
    ensures NameSimilarity(a, b) * |a + b| as real == |a * b| as real && NameSimilarity(a, b) == NameSimilarity(b, a)
    ensures NameSimilarity(a, b) == 0.0 <==> a !! b
    ensures NameSimilarity(a, b) == 1.0 <==> a == b != {}
  {
    assert a + b == b + a && a * b == b * a;
    assert forall t :: t in a && t in b <==> t in a * b;
    assert a !! b <==> a * b == {};
    if a + b != {} {
      Ratio(|a * b|, |a + b|);
      if |a * b| == |a + b| {
        SameSize(a * b, a + b);
      }
      assert |a * b| == 0 <==> a * b == {};
      assert a == b ==> a * b == a + b;
    } else {
      assert a == {} && b == {};
    }
  }

  lemma Ratio(n: nat, d: nat)
    requires d > 0
    ensures var r := n as real / d as real; r * d as real == n as real && (r == 0.0 <==> n == 0) && (r == 1.0 <==> n == d)
  {
    var r := n as real / d as real;
    assert r * d as real == n as real;
    if r == 1.0 {
      assert 1.0 * d as real == d as real;
    }
  }

  lemma SameSize(part: set<string>, whole: set<string>)
    requires part <= whole && |part| == |whole|
    ensures part == whole
  {
    assert whole == part + (whole - part);
  }

  lemma NearestHundredth(x: real)
    ensures -0.5 <= Hundredths(x) as real - 100.0 * x <= 0.5
  {
  }

  /** Two collapsed names of five characters or more, one inside the other. */
  predicate Contained(a: Candidate, b: Candidate) {
    |a.collapsed| >= 5 && |b.collapsed| >= 5 && (Includes(a.collapsed, b.collapsed) || Includes(b.collapsed, a.collapsed))
  }

  /** What a pair of different names is worth before the domain is looked at, in hundredths. */
  ghost predicate WorthByName(a: Candidate, b: Candidate, worth: real) {
    if a.collapsed == b.collapsed && |a.collapsed| >= 4 then worth == 95.0
    else if Contained(a, b) then worth == if NameSimilarity(a.tokens, b.tokens) * 85.0 >= 70.0 then NameSimilarity(a.tokens, b.tokens) * 85.0 else 70.0
    else worth == NameSimilarity(a.tokens, b.tokens) * 85.0
  }

  /**
   * The confidence in a pair whose names are not equal: 95 when they collapse to the same, 70 at
   * least when one is inside the other, and 85 times the shared part of their tokens
   * otherwise; 50 more for a shared domain; never above 99; to the nearest hundredth.
   */
  lemma ScoreMeans(a: Candidate, b: Candidate) returns (worth: real)
    requires a.norm == "" || a.norm != b.norm
    ensures WorthByName(a, b, worth)
    ensures var full := worth + if a.domain != "" && a.domain == b.domain then 50.0 else 0.0;
            -0.5 <= ScoreMatch(a, b).confidence as real - (if full <= 99.0 then full else 99.0) <= 0.5
  {
    var base := NameSimilarity(a.tokens, b.tokens) * 0.85;
    SimilarityIsRatio(a.tokens, b.tokens);
    var lifted := if |a.collapsed| >= 4 && a.collapsed == b.collapsed then MaxReal(base, 0.95) else if Contained(a, b) then MaxReal(base, 0.7) else base;
    worth := 100.0 * lifted;
    NearestHundredth(MinReal(0.99, lifted + if a.domain != "" && a.domain == b.domain then 0.5 else 0.0));
  }

  /** Each sign lifts a pair over the default threshold of 45 on its own, and two make it as sure as any pair of different names. */
  lemma SignsSuffice(a: Candidate, b: Candidate)
    requires a.norm == "" || a.norm != b.norm
    ensures a.domain != "" && a.domain == b.domain ==> ScoreMatch(a, b).confidence >= 50
    ensures Contained(a, b) ==> ScoreMatch(a, b).confidence >= 70
    ensures a.collapsed == b.collapsed && |a.collapsed| >= 4 ==> ScoreMatch(a, b).confidence >= 95
    ensures a.domain != "" && a.domain == b.domain && (Contained(a, b) || (a.collapsed == b.collapsed && |a.collapsed| >= 4)) ==>
              ScoreMatch(a, b).confidence == 99
  {
    var worth := ScoreMeans(a, b);
    SimilarityIsRatio(a.tokens, b.tokens);
  }

  /** A shared domain never lowers a score, nor does a collapsed name that is the same or inside the other. */
  lemma SignsNeverLower(a: Candidate, b: Candidate)
    ensures ScoreMatch(a.(domain := ""), b).confidence <= ScoreMatch(a, b).confidence
    ensures ScoreMatch(a.(collapsed := ""), b).confidence <= ScoreMatch(a, b).confidence
  {
    if a.norm == "" || a.norm != b.norm {
      SimilarityIsRatio(a.tokens, b.tokens);
      var base := NameSimilarity(a.tokens, b.tokens) * 0.85;
      var lifted := if |a.collapsed| >= 4 && a.collapsed == b.collapsed then MaxReal(base, 0.95) else if Contained(a, b) then MaxReal(base, 0.7) else base;
      var bonus := if a.domain != "" && a.domain == b.domain then 0.5 else 0.0;
      HundredthsGrow(MinReal(0.99, lifted + 0.0), MinReal(0.99, lifted + bonus));
      HundredthsGrow(MinReal(0.99, base + bonus), MinReal(0.99, lifted + bonus));
    }
  }

  lemma HundredthsGrow(x: real, y: real)
    requires x <= y
    ensures Hundredths(x) <= Hundredths(y)
  {
  }

  lemma SimilarityIsRatio(a: set<string>, b: set<string>)
    ensures 0.0 <= NameSimilarity(a, b) <= 1.0
  {
    if a + b != {} {
      UnionSize(a, b);
      var n, d := |a * b|, |a + b|;
      assert a * b <= a + b;
      assert |a + b| == |a * b| + |(a + b) - (a * b)| by {
        assert a + b == (a * b) + ((a + b) - (a * b));
      }
      assert n as real / d as real <= d as real / d as real;
    }
  }

  // ----- Proposals -----

  datatype Proposal = Proposal(sourceId: string, targetId: string, confidence: nat, exact: bool)

  function Confidence(p: Proposal): int {
    p.confidence
  }

  predicate Better(p: Proposal, q: Proposal) {
    p.confidence >= q.confidence
  }

  function Offer(s: Candidate, t: Candidate): Proposal {
    var score := ScoreMatch(s, t);
    Proposal(s.id, t.id, score.confidence, score.exact)
  }

  /** The pairs of one source that clear the threshold, in target order. */
  function OffersOf(s: Candidate, targets: seq<Candidate>, threshold: int): seq<Proposal> {
    if targets == [] then []
    else (if Offer(s, targets[0]).confidence >= threshold then [Offer(s, targets[0])] else [])
         + OffersOf(s, targets[1..], threshold)
  }

  function Offers(sources: seq<Candidate>, targets: seq<Candidate>, threshold: int): seq<Proposal> {
    if sources == [] then [] else OffersOf(sources[0], targets, threshold) + Offers(sources[1..], targets, threshold)
  }

  /** Walks the offers in order, keeping each one whose two ends are still free. */
  function Greedy(offers: seq<Proposal>, usedSource: set<string>, usedTarget: set<string>): seq<Proposal> {
    if offers == [] then []
    else
      var p := offers[0];
      if p.sourceId in usedSource || p.targetId in usedTarget then Greedy(offers[1..], usedSource, usedTarget)
      else [p] + Greedy(offers[1..], usedSource + {p.sourceId}, usedTarget + {p.targetId})
  }

  function Proposed(sources: seq<Candidate>, targets: seq<Candidate>, threshold: int): seq<Proposal> {
    Greedy(Sorting.Sort(Better, Offers(sources, targets, threshold)), {}, {})
  }

  method ProposeMatches(sources: seq<Candidate>, targets: seq<Candidate>, threshold: int) returns (result: seq<Proposal>)
    ensures result == Proposed(sources, targets, threshold)
  {
    var scored := [];
    var i := 0;
    assert sources[0..] == sources;
    while i < |sources|
      invariant 0 <= i <= |sources|
      invariant scored + Offers(sources[i..], targets, threshold) == Offers(sources, targets, threshold)
    {
      var offers := ScoreSource(sources[i], targets, threshold);
      OffersNext(sources, targets, threshold, i, scored);
      scored := scored + offers;
      i := i + 1;
    }
    assert scored == Offers(sources, targets, threshold);
    result := KeepFree(Sorting.Sort(Better, scored));
  }

  lemma OffersNext(sources: seq<Candidate>, targets: seq<Candidate>, threshold: int, i: nat, scored: seq<Proposal>)
    requires i < |sources|
    ensures scored + Offers(sources[i..], targets, threshold)
         == scored + OffersOf(sources[i], targets, threshold) + Offers(sources[i + 1..], targets, threshold)
  {
    assert sources[i..][1..] == sources[i + 1..];
  }

  method ScoreSource(s: Candidate, targets: seq<Candidate>, threshold: int) returns (scored: seq<Proposal>)
    ensures scored == OffersOf(s, targets, threshold)
  {
    scored := [];
    var j := 0;
    assert targets[0..] == targets;
    while j < |targets|
      invariant 0 <= j <= |targets|
      invariant scored + OffersOf(s, targets[j..], threshold) == OffersOf(s, targets, threshold)
    {
      var offer := Offer(s, targets[j]);
      assert targets[j..][1..] == targets[j + 1..];
      if offer.confidence >= threshold {
        scored := scored + [offer];
      }
      j := j + 1;
    }
  }

  method KeepFree(scored: seq<Proposal>) returns (result: seq<Proposal>)
    ensures result == Greedy(scored, {}, {})
  {
    var usedSource: set<string>, usedTarget: set<string> := {}, {};
    result := [];
    var k := 0;
    assert scored[0..] == scored;
    while k < |scored|
      invariant 0 <= k <= |scored|
      invariant result + Greedy(scored[k..], usedSource, usedTarget) == Greedy(scored, {}, {})
    {
      var p := scored[k];
      assert scored[k..][1..] == scored[k + 1..];
      if p.sourceId !in usedSource && p.targetId !in usedTarget {
        usedSource, usedTarget := usedSource + {p.sourceId}, usedTarget + {p.targetId};
        result := result + [p];
      }
      k := k + 1;
    }
  }

  // ----- One-to-one and stable -----

  ghost predicate OneToOne(ps: seq<Proposal>) {
    forall i, j :: 0 <= i < j < |ps| ==> ps[i].sourceId != ps[j].sourceId && ps[i].targetId != ps[j].targetId
  }

  predicate Rivals(p: Proposal, q: Proposal) {
    p.sourceId == q.sourceId || p.targetId == q.targetId
  }

  /** Some chosen pair at least as good shares an end with `p`. */
  ghost predicate Beaten(p: Proposal, chosen: seq<Proposal>) {
    exists q :: q in chosen && Rivals(p, q) && q.confidence >= p.confidence
  }

  lemma {:induction false} GreedyMembers(offers: seq<Proposal>, usedSource: set<string>, usedTarget: set<string>)
    ensures forall p :: p in Greedy(offers, usedSource, usedTarget) ==> p in offers && p.sourceId !in usedSource && p.targetId !in usedTarget
  {
    if offers == [] {
    } else {
      var p := offers[0];
      assert forall q :: q in offers[1..] ==> q in offers;
      if p.sourceId in usedSource || p.targetId in usedTarget {
        GreedyMembers(offers[1..], usedSource, usedTarget);
      } else {
        GreedyMembers(offers[1..], usedSource + {p.sourceId}, usedTarget + {p.targetId});
      }
    }
  }

  lemma {:induction false} GreedyOneToOne(offers: seq<Proposal>, usedSource: set<string>, usedTarget: set<string>)
    ensures OneToOne(Greedy(offers, usedSource, usedTarget))
  {
    if offers == [] {
    } else {
      var p := offers[0];
      if p.sourceId in usedSource || p.targetId in usedTarget {
        GreedyOneToOne(offers[1..], usedSource, usedTarget);
      } else {
        var s', t' := usedSource + {p.sourceId}, usedTarget + {p.targetId};
        GreedyOneToOne(offers[1..], s', t');
        GreedyMembers(offers[1..], s', t');
        OneMore(p, Greedy(offers[1..], s', t'));
      }
    }
  }

  lemma OneMore(p: Proposal, rest: seq<Proposal>)
    requires OneToOne(rest)
    requires forall q :: q in rest ==> q.sourceId != p.sourceId && q.targetId != p.targetId
    ensures OneToOne([p] + rest)
  {
    assert forall i :: 0 <= i < |rest| ==> rest[i] in rest;
  }

  lemma {:induction false} GreedyStable(offers: seq<Proposal>, usedSource: set<string>, usedTarget: set<string>, p: Proposal)
    requires Sorting.SortedBy(Better, offers) && p in offers
    ensures p.sourceId in usedSource || p.targetId in usedTarget || Beaten(p, Greedy(offers, usedSource, usedTarget))
  {
    var h := offers[0];
    var free := h.sourceId !in usedSource && h.targetId !in usedTarget;
    var s', t' := if free then usedSource + {h.sourceId} else usedSource, if free then usedTarget + {h.targetId} else usedTarget;
    var rest := Greedy(offers[1..], s', t');
    if p != h {
      assert p in offers[1..];
      GreedyStable(offers[1..], s', t', p);
      if Beaten(p, rest) {
        var q :| q in rest && Rivals(p, q) && q.confidence >= p.confidence;
        assert q in Greedy(offers, usedSource, usedTarget);
      } else if free && Rivals(p, h) {
        var i :| 0 <= i < |offers| && offers[i] == p;
        assert Better(offers[0], offers[i]);
        assert h in Greedy(offers, usedSource, usedTarget);
      }
    } else if free {
      assert h in Greedy(offers, usedSource, usedTarget) && Rivals(p, h);
    }
  }

  lemma BetterIsPreorder()
    ensures Sorting.TotalPreorder(Better)
  {
  }

  lemma {:induction false} GreedySorted(offers: seq<Proposal>, usedSource: set<string>, usedTarget: set<string>)
    requires Sorting.SortedBy(Better, offers)
    ensures Sorting.SortedBy(Better, Greedy(offers, usedSource, usedTarget))
  {
    if offers == [] {
    } else {
      var p := offers[0];
      if p.sourceId in usedSource || p.targetId in usedTarget {
        GreedySorted(offers[1..], usedSource, usedTarget);
      } else {
        var s', t' := usedSource + {p.sourceId}, usedTarget + {p.targetId};
        GreedySorted(offers[1..], s', t');
        GreedyMembers(offers[1..], s', t');
        var rest := Greedy(offers[1..], s', t');
        forall j | 0 <= j < |rest| ensures Better(p, rest[j]) {
          assert rest[j] in rest;
        }
      }
    }
  }

  /** Each end is used once, and every offer turned down loses to a chosen rival at least as good. */
  lemma MatchingStable(sources: seq<Candidate>, targets: seq<Candidate>, threshold: int)
    ensures var chosen := Proposed(sources, targets, threshold);
            && OneToOne(chosen) && Sorting.SortedBy(Better, chosen)
            && (forall p :: p in chosen ==> p in Offers(sources, targets, threshold))
            && (forall p :: p in Offers(sources, targets, threshold) ==> Beaten(p, chosen))
  {
    var offers := Offers(sources, targets, threshold);
    BetterIsPreorder();
    Sorting.SortSorted(Better, offers);
    Sorting.SortMembers(Better, offers);
    GreedyOneToOne(Sorting.Sort(Better, offers), {}, {});
    GreedyMembers(Sorting.Sort(Better, offers), {}, {});
    GreedySorted(Sorting.Sort(Better, offers), {}, {});
    forall p | p in offers ensures Beaten(p, Proposed(sources, targets, threshold)) {
      GreedyStable(Sorting.Sort(Better, offers), {}, {}, p);
    }
  }

  /** Exactly the pairs that clear the threshold are offered. */
  lemma {:induction false} OffersAre(sources: seq<Candidate>, targets: seq<Candidate>, threshold: int)
    ensures forall s, t :: s in sources && t in targets && Offer(s, t).confidence >= threshold ==> Offer(s, t) in Offers(sources, targets, threshold)
    ensures forall p :: p in Offers(sources, targets, threshold) ==>
              p.confidence >= threshold && exists s, t :: s in sources && t in targets && p == Offer(s, t)
  {
    if sources == [] {
    } else {
      OffersAre(sources[1..], targets, threshold);
      OffersOfAre(sources[0], targets, threshold);
      assert sources == [sources[0]] + sources[1..];
    }
  }

  lemma {:induction false} OffersOfAre(s: Candidate, targets: seq<Candidate>, threshold: int)
    ensures forall t :: t in targets && Offer(s, t).confidence >= threshold ==> Offer(s, t) in OffersOf(s, targets, threshold)
    ensures forall p :: p in OffersOf(s, targets, threshold) ==>
              p.confidence >= threshold && exists t :: t in targets && p == Offer(s, t)
  {
    if targets == [] {
    } else {
      OffersOfAre(s, targets[1..], threshold);
      assert targets == [targets[0]] + targets[1..];
    }
  }

  /** Only another exact pair can keep an exact pair out. */
  lemma ExactOnlyLosesToExact(sources: seq<Candidate>, targets: seq<Candidate>, threshold: int, p: Proposal)
    requires p in Offers(sources, targets, threshold) && p.exact
    ensures exists q :: q in Proposed(sources, targets, threshold) && Rivals(p, q) && q.exact
  {
    var chosen := Proposed(sources, targets, threshold);
    MatchingStable(sources, targets, threshold);
    OffersAre(sources, targets, threshold);
    assert Beaten(p, chosen);
    var q :| q in chosen && Rivals(p, q) && q.confidence >= p.confidence;
    assert q in Offers(sources, targets, threshold);
  }

  // ----- Half of the best possible total -----

  function SourceOf(p: Proposal): string {
    p.sourceId
  }

  function TargetOf(p: Proposal): string {
    p.targetId
  }

  /** Confidence chosen at an end of each pair, added over the pairs. */
  function Credit(ps: seq<Proposal>, chosen: seq<Proposal>, end: Proposal -> string): int {
    if ps == [] then 0 else Sums.SumAt(chosen, end, end(ps[0]), Confidence) + Credit(ps[1..], chosen, end)
  }

  lemma {:induction false} CreditIsOverKeys(ps: seq<Proposal>, chosen: seq<Proposal>, end: Proposal -> string)
    ensures Credit(ps, chosen, end) == Sums.SumOverKeys(Sorting.Map(end, ps), chosen, end, Confidence)
  {
    if ps == [] {
    } else {
      CreditIsOverKeys(ps[1..], chosen, end);
      assert Sorting.Map(end, ps)[1..] == Sorting.Map(end, ps[1..]);
    }
  }

  /** Distinct ends can claim each chosen pair at most once. */
  lemma {:induction false} CreditBounded(keys: seq<string>, chosen: seq<Proposal>, end: Proposal -> string)
    requires Sums.Distinct(keys)
    ensures Sums.SumOverKeys(keys, chosen, end, Confidence) <= Sums.Sum(chosen, Confidence)
  {
    if chosen == [] {
      Sums.SumOverKeysEmpty(keys, end, Confidence);
    } else {
      CreditBounded(keys, chosen[1..], end);
      assert chosen == [chosen[0]] + chosen[1..];
      Sums.SumOverKeysCons(keys, chosen[0], chosen[1..], end, Confidence);
    }
  }

  lemma {:induction false} ChosenAtEnd(q: Proposal, chosen: seq<Proposal>, end: Proposal -> string)
    ensures Sums.SumAt(chosen, end, end(q), Confidence) >= 0
    ensures q in chosen ==> Sums.SumAt(chosen, end, end(q), Confidence) >= q.confidence
  {
    if chosen == [] {
    } else {
      ChosenAtEnd(q, chosen[1..], end);
    }
  }

  lemma {:induction false} PaidByRivals(ps: seq<Proposal>, chosen: seq<Proposal>)
    requires forall p :: p in ps ==> Beaten(p, chosen)
    ensures Sums.Sum(ps, Confidence) <= Credit(ps, chosen, SourceOf) + Credit(ps, chosen, TargetOf)
  {
    if ps == [] {
    } else {
      PaidByRivals(ps[1..], chosen);
      var p := ps[0];
      assert Beaten(p, chosen);
      var q :| q in chosen && Rivals(p, q) && q.confidence >= p.confidence;
      ChosenAtEnd(q, chosen, SourceOf);
      ChosenAtEnd(q, chosen, TargetOf);
      ChosenAtEnd(p, chosen, SourceOf);
      ChosenAtEnd(p, chosen, TargetOf);
      assert SourceOf(p) == SourceOf(q) || TargetOf(p) == TargetOf(q);
    }
  }

  /** No one-to-one set of offered pairs is worth more than twice what was proposed. */
  lemma MatchingHalfOptimal(sources: seq<Candidate>, targets: seq<Candidate>, threshold: int, other: seq<Proposal>)
    requires OneToOne(other)
    requires forall p :: p in other ==> p in Offers(sources, targets, threshold)
    ensures Sums.Sum(other, Confidence) <= 2 * Sums.Sum(Proposed(sources, targets, threshold), Confidence)
  {
    var chosen := Proposed(sources, targets, threshold);
    MatchingStable(sources, targets, threshold);
    PaidByRivals(other, chosen);
    CreditIsOverKeys(other, chosen, SourceOf);
    CreditIsOverKeys(other, chosen, TargetOf);
    CreditBounded(Sorting.Map(SourceOf, other), chosen, SourceOf);
    CreditBounded(Sorting.Map(TargetOf, other), chosen, TargetOf);
  }
}
