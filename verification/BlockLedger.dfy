// Draws recorded on prepaid blocks, over any series of draws
// (src/lib/silverfang/block-time.ts). Everything is said of the fields of the blocks.
module BlockLedger {
  import opened BlockTime
  import Sorting
  import Sums

  predicate Lapsed(b: Block, now: int) {
    b.expiresAt.Some? && b.expiresAt.value <= now
  }

  /** Hours bought and neither used nor lapsed. */
  function Open(b: Block, now: int): nat {
    if Lapsed(b, now) || b.hoursUsed >= b.purchasedHours then 0 else b.purchasedHours - b.hoursUsed
  }

  function OpenAt(now: int): Block -> int {
    (b: Block) => Open(b, now)
  }

  /** Hours drawn from a block by the plan for `hours`. */
  function DrawnBy(blocks: seq<Block>, hours: int, now: int, b: Block): int {
    DrawnFrom(Take(Candidates(blocks, now), hours), b.id)
  }

  // ----- Balances, in terms of the fields -----

  lemma {:induction false} SumOfMap(blocks: seq<Block>, now: int, f: Balance -> int, g: Block -> int)
    requires forall b :: b in blocks ==> f(BlockBalance(b, now)) == g(b)
    ensures Sums.Sum(Balances(blocks, now), f) == Sums.Sum(blocks, g)
  {
    if blocks == [] {
    } else {
      SumOfMap(blocks[1..], now, f, g);
      assert Balances(blocks, now)[1..] == Balances(blocks[1..], now);
      assert Balances(blocks, now)[0] == BlockBalance(blocks[0], now);
    }
  }

  /** What is available is what was bought, less what was used, on blocks that have not lapsed. */
  lemma AvailableIs(blocks: seq<Block>, now: int)
    ensures AvailableHours(blocks, now) == Sums.Sum(blocks, OpenAt(now))
  {
    SumOfMap(blocks, now, Unexpired, OpenAt(now));
  }

  lemma BalanceOf(blocks: seq<Block>, now: int, b: Block)
    requires b in blocks
    ensures BlockBalance(b, now) in Balances(blocks, now)
  {
    var i :| 0 <= i < |blocks| && blocks[i] == b;
    assert Balances(blocks, now)[i] == BlockBalance(b, now);
  }

  lemma BlockOf(blocks: seq<Block>, now: int, x: Balance) returns (b: Block)
    requires x in Balances(blocks, now)
    ensures b in blocks && x == BlockBalance(b, now)
  {
    var i :| 0 <= i < |blocks| && Balances(blocks, now)[i] == x;
    b := blocks[i];
  }

  /** A draw is lawful exactly when it leaves lapsed blocks alone and uses no block beyond what was bought. */
  lemma LawfulIff(blocks: seq<Block>, now: int, draw: string -> int)
    ensures Lawful(blocks, now, draw) <==>
              forall b :: b in blocks ==>
                0 <= draw(b.id) && (draw(b.id) > 0 ==> !Lapsed(b, now) && b.hoursUsed + draw(b.id) <= b.purchasedHours)
  {
    forall b | b in blocks ensures BlockBalance(b, now) in Balances(blocks, now) {
      BalanceOf(blocks, now, b);
    }
    forall x | x in Balances(blocks, now) ensures exists b :: b in blocks && x == BlockBalance(b, now) {
      var b := BlockOf(blocks, now, x);
    }
  }

  /** Hours a block still offers at `t` after a draw. */
  function LeftOf(draw: string -> int, t: int): Block -> int {
    (b: Block) => if Lapsed(b, t) then 0 else (if b.hoursUsed < b.purchasedHours then b.purchasedHours - b.hoursUsed else 0) - draw(b.id)
  }

  /** Among all lawful draws of the same hours, none leaves more bought hours alive at a later time than the plan. */
  lemma DrawIsBestOnBlocks(blocks: seq<Block>, hours: nat, now: int, other: string -> int, t: int)
    requires DistinctIds(blocks) && now <= t
    requires forall b :: b in blocks ==>
               0 <= other(b.id) && (other(b.id) > 0 ==> !Lapsed(b, now) && b.hoursUsed + other(b.id) <= b.purchasedHours)
    requires Sums.Sum(blocks, (b: Block) => other(b.id)) == Sums.Sum(Take(Candidates(blocks, now), hours), Hours)
    ensures Sums.Sum(blocks, LeftOf(other, t)) <= Sums.Sum(blocks, LeftOf(Drawn(Take(Candidates(blocks, now), hours)), t))
  {
    var plan := Drawn(Take(Candidates(blocks, now), hours));
    LawfulIff(blocks, now, other);
    SumOfMap(blocks, now, DrawOf(other), (b: Block) => other(b.id));
    SumOfMap(blocks, now, LeftOn(other, t), LeftOf(other, t));
    SumOfMap(blocks, now, LeftOn(plan, t), LeftOf(plan, t));
    DrawIsBest(blocks, hours, now, other, t);
  }

  // ----- One draw, recorded -----

  function RecordOn(plan: seq<Allocation>): Block -> Block {
    (b: Block) => b.(hoursUsed := b.hoursUsed + DrawnFrom(plan, b.id))
  }

  /** The blocks once the ledger holds the plan. */
  function Record(blocks: seq<Block>, plan: seq<Allocation>): seq<Block> {
    Sorting.Map(RecordOn(plan), blocks)
  }

  /** The plan draws from a block no more than is open on it, and so uses no more than was bought. */
  lemma DrawsFromOpen(blocks: seq<Block>, hours: nat, now: int, b: Block)
    requires DistinctIds(blocks) && b in blocks
    ensures 0 <= DrawnBy(blocks, hours, now, b) <= Open(b, now)
  {
    NothingOverdrawn(blocks, hours, now);
    BalanceOf(blocks, now, b);
  }

  lemma {:induction false} OpenAfter(blocks: seq<Block>, plan: seq<Allocation>, now: int)
    requires forall b :: b in blocks ==> 0 <= DrawnFrom(plan, b.id) <= Open(b, now)
    ensures Sums.Sum(Record(blocks, plan), OpenAt(now)) == Sums.Sum(blocks, OpenAt(now)) - Sums.Sum(blocks, (b: Block) => DrawnFrom(plan, b.id))
  {
    if blocks == [] {
    } else {
      OpenAfter(blocks[1..], plan, now);
      assert Record(blocks, plan)[1..] == Record(blocks[1..], plan);
      assert blocks[0] in blocks;
    }
  }

  /**
   * Recording a plan takes from what is available exactly the hours drawn: what was asked, or
   * all there was.
   */
  lemma RecordTakes(blocks: seq<Block>, hours: nat, now: int)
    requires DistinctIds(blocks)
    ensures var after := Record(blocks, Take(Candidates(blocks, now), hours));
            AvailableHours(after, now) == AvailableHours(blocks, now) - Min(hours, AvailableHours(blocks, now))
  {
    var plan := Take(Candidates(blocks, now), hours);
    forall b | b in blocks ensures 0 <= DrawnFrom(plan, b.id) <= Open(b, now) {
      DrawsFromOpen(blocks, hours, now, b);
    }
    OpenAfter(blocks, plan, now);
    AvailableIs(blocks, now);
    AvailableIs(Record(blocks, plan), now);
    DrawnInTotal(blocks, hours, now);
    SumOfMap(blocks, now, DrawOf(Drawn(plan)), (b: Block) => DrawnFrom(plan, b.id));
    TakeTotal(Candidates(blocks, now), hours);
    CandidateSum(blocks, now, Unexpired, Remaining);
  }

  // ----- Which blocks go first -----

  /** Sooner to lapse, or bought earlier when they lapse together. */
  predicate GoesFirst(a: Block, b: Block) {
    if a.expiresAt == b.expiresAt then a.purchasedAt < b.purchasedAt
    else a.expiresAt.Some? && (b.expiresAt.None? || a.expiresAt.value < b.expiresAt.value)
  }

  lemma {:induction false} PurchasedAtIs(blocks: seq<Block>, b: Block)
    requires DistinctIds(blocks) && b in blocks
    ensures PurchasedAt(blocks, b.id) == b.purchasedAt
  {
    if blocks[0] != b {
      assert b in blocks[1..] && blocks[0].id != b.id;
      PurchasedAtIs(blocks[1..], b);
    }
  }

  /** In a list taken in order, what comes before something taken from has been taken whole. */
  lemma {:induction false} TakenWhole(c: seq<Balance>, hours: nat, i: nat, j: nat)
    requires i < j < |c| && forall k, l :: 0 <= k < l < |c| ==> c[k].id != c[l].id
    requires DrawnFrom(Take(c, hours), c[j].id) > 0
    ensures DrawnFrom(Take(c, hours), c[i].id) == c[i].hoursRemaining
  {
    RestDrawn(c, hours, c[j].id);
    FirstDrawn(c, hours);
    var take := Min(c[0].hoursRemaining, hours);
    if i > 0 {
      RestDrawn(c, hours, c[i].id);
      TakenWhole(c[1..], hours - take, i - 1, j - 1);
    }
  }

  lemma InOrder(blocks: seq<Block>, now: int, i: nat, j: nat)
    requires i <= j < |Candidates(blocks, now)|
    ensures ConsumedBefore(blocks, Candidates(blocks, now)[i], Candidates(blocks, now)[j])
  {
    var le := (a, b) => ConsumedBefore(blocks, a, b);
    assert Sorting.TotalPreorder(le);
    Sorting.SortSorted(le, Sorting.Filter(Usable, Balances(blocks, now)));
  }

  /** A block is not touched while one that goes before it has open hours left. */
  lemma FirstExhausted(blocks: seq<Block>, hours: nat, now: int, a: Block, b: Block)
    requires DistinctIds(blocks) && a in blocks && b in blocks && GoesFirst(a, b)
    requires DrawnBy(blocks, hours, now, b) > 0
    ensures DrawnBy(blocks, hours, now, a) == Open(a, now)
  {
    var c := Candidates(blocks, now);
    CandidatesDistinct(blocks, now);
    DrawsFromOpen(blocks, hours, now, a);
    DrawsFromOpen(blocks, hours, now, b);
    if Open(a, now) > 0 {
      BalanceOf(blocks, now, a);
      BalanceOf(blocks, now, b);
      var i :| 0 <= i < |c| && c[i] == BlockBalance(a, now);
      var j :| 0 <= j < |c| && c[j] == BlockBalance(b, now);
      PurchasedAtIs(blocks, a);
      PurchasedAtIs(blocks, b);
      if j <= i {
        InOrder(blocks, now, j, i);
      } else {
        TakenWhole(c, hours, i, j);
      }
    }
  }

  // ----- Any series of draws -----

  datatype Draw = Draw(hours: nat, now: int)

  function AfterDraw(blocks: seq<Block>, d: Draw): seq<Block> {
    Record(blocks, Take(Candidates(blocks, d.now), d.hours))
  }

  function AfterDraws(blocks: seq<Block>, draws: seq<Draw>): seq<Block> {
    if draws == [] then blocks else AfterDraw(AfterDraws(blocks, draws[..|draws| - 1]), draws[|draws| - 1])
  }

  /** The hours the plans of a series hold. */
  function PlannedOver(blocks: seq<Block>, draws: seq<Draw>): int {
    if draws == [] then 0
    else
      var before, last := AfterDraws(blocks, draws[..|draws| - 1]), draws[|draws| - 1];
      PlannedOver(blocks, draws[..|draws| - 1]) + Sums.Sum(Take(Candidates(before, last.now), last.hours), Hours)
  }

  function UsedOf(b: Block): int { b.hoursUsed }

  /** Same blocks, used as much or more, and never beyond what was bought. */
  ghost predicate UsedWithin(before: seq<Block>, after: seq<Block>) {
    && |after| == |before|
    && forall i :: 0 <= i < |before| ==>
         && after[i] == before[i].(hoursUsed := after[i].hoursUsed) && before[i].hoursUsed <= after[i].hoursUsed
         && (before[i].hoursUsed < after[i].hoursUsed ==> after[i].hoursUsed <= before[i].purchasedHours)
  }

  lemma DrawKeepsWithin(blocks: seq<Block>, d: Draw)
    requires DistinctIds(blocks)
    ensures UsedWithin(blocks, AfterDraw(blocks, d)) && DistinctIds(AfterDraw(blocks, d))
  {
    forall i | 0 <= i < |blocks| ensures 0 <= DrawnBy(blocks, d.hours, d.now, blocks[i]) <= Open(blocks[i], d.now) {
      DrawsFromOpen(blocks, d.hours, d.now, blocks[i]);
    }
  }

  lemma {:induction false} RecordAdds(blocks: seq<Block>, plan: seq<Allocation>)
    ensures Sums.Sum(Record(blocks, plan), UsedOf) == Sums.Sum(blocks, UsedOf) + Sums.Sum(blocks, (b: Block) => DrawnFrom(plan, b.id))
  {
    if blocks == [] {
    } else {
      RecordAdds(blocks[1..], plan);
      assert Record(blocks, plan)[1..] == Record(blocks[1..], plan);
    }
  }

  /** A plan is used up on the blocks, hour for hour. */
  lemma DrawUses(blocks: seq<Block>, d: Draw)
    requires DistinctIds(blocks)
    ensures Sums.Sum(AfterDraw(blocks, d), UsedOf) == Sums.Sum(blocks, UsedOf) + Sums.Sum(Take(Candidates(blocks, d.now), d.hours), Hours)
  {
    var plan := Take(Candidates(blocks, d.now), d.hours);
    RecordAdds(blocks, plan);
    DrawnInTotal(blocks, d.hours, d.now);
    SumOfMap(blocks, d.now, DrawOf(Drawn(plan)), (b: Block) => DrawnFrom(plan, b.id));
  }

  /**
   * Over any series of recorded draws, whenever they are made, no block gives more than was
   * bought and not yet used at the start, and the ledger grows by exactly the hours planned.
   */
  lemma {:induction false} NeverBeyondPurchased(blocks: seq<Block>, draws: seq<Draw>)
    requires DistinctIds(blocks)
    ensures UsedWithin(blocks, AfterDraws(blocks, draws)) && DistinctIds(AfterDraws(blocks, draws))
    ensures Sums.Sum(AfterDraws(blocks, draws), UsedOf) == Sums.Sum(blocks, UsedOf) + PlannedOver(blocks, draws)
  {
    if draws == [] {
    } else {
      var init, last := draws[..|draws| - 1], draws[|draws| - 1];
      NeverBeyondPurchased(blocks, init);
      DrawKeepsWithin(AfterDraws(blocks, init), last);
      DrawUses(AfterDraws(blocks, init), last);
    }
  }
}
