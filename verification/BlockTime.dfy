// Prepaid-hour balances and drawdown (src/lib/silverfang/block-time.ts).
// Hours are whole numbers of the 0.0001-hour grid the source rounds to.
module BlockTime {
  import Sorting
  import Sums
  import opened Wrappers

  datatype Block = Block(id: string, purchasedHours: int, purchasedAt: int, expiresAt: Option<int>, hoursUsed: int)

  datatype Balance = Balance(id: string, hoursRemaining: nat, expiresAt: Option<int>, expired: bool)

  datatype Allocation = Allocation(blockId: string, hours: int)

  function ExpiredAt(expiresAt: Option<int>, now: int): bool {
    expiresAt.Some? && expiresAt.value <= now
  }

  function BlockBalance(b: Block, now: int): Balance {
    var left := b.purchasedHours - b.hoursUsed;
    Balance(b.id, if left > 0 then left else 0, b.expiresAt, ExpiredAt(b.expiresAt, now))
  }

  function Balances(blocks: seq<Block>, now: int): seq<Balance> {
    Sorting.Map((b: Block) => BlockBalance(b, now), blocks)
  }

  function Unexpired(b: Balance): int {
    if b.expired then 0 else b.hoursRemaining
  }

  function AvailableHours(blocks: seq<Block>, now: int): int {
    Sums.Sum(Balances(blocks, now), Unexpired)
  }

  // ----- Order of consumption -----

  /** `blocks.find(x => x.id === id)?.purchasedAt ?? 0`. */
  function PurchasedAt(blocks: seq<Block>, id: string): int {
    if blocks == [] then 0
    else if blocks[0].id == id then blocks[0].purchasedAt
    else PurchasedAt(blocks[1..], id)
  }

  /** No expiry counts as expiring after everything else. */
  predicate ExpiresBefore(a: Option<int>, b: Option<int>) {
    a.Some? && (b.None? || a.value < b.value)
  }

  predicate ConsumedBefore(blocks: seq<Block>, a: Balance, b: Balance) {
    if a.expiresAt != b.expiresAt then ExpiresBefore(a.expiresAt, b.expiresAt)
    else PurchasedAt(blocks, a.id) <= PurchasedAt(blocks, b.id)
  }

  function Usable(b: Balance): bool {
    !b.expired && b.hoursRemaining > 0
  }

  function Candidates(blocks: seq<Block>, now: int): seq<Balance> {
    Sorting.Sort((a, b) => ConsumedBefore(blocks, a, b), Sorting.Filter(Usable, Balances(blocks, now)))
  }

  // ----- The draw -----

  /** What taking from the candidates in order until nothing is owed comes to. */
  function Take(c: seq<Balance>, hours: int): seq<Allocation> {
    if c == [] || hours <= 0 then []
    else
      var take := if c[0].hoursRemaining <= hours then c[0].hoursRemaining else hours;
      (if take > 0 then [Allocation(c[0].id, take)] else []) + Take(c[1..], hours - take)
  }

  function Hours(a: Allocation): int {
    a.hours
  }

  function Remaining(b: Balance): int {
    b.hoursRemaining
  }

  /** Hours drawn from one block by a plan. */
  function DrawnFrom(plan: seq<Allocation>, id: string): int {
    Sums.SumAt(plan, (a: Allocation) => a.blockId, id, Hours)
  }

  // ----- Accounting -----

  function Min(a: int, b: int): int {
    if a <= b then a else b
  }

  lemma TakeUnfolds(c: seq<Balance>, hours: nat)
    requires c != []
    ensures var take := Min(c[0].hoursRemaining, hours);
            Sums.Sum(Take(c, hours), Hours) == take + Sums.Sum(Take(c[1..], hours - take), Hours)
  {
    var take := Min(c[0].hoursRemaining, hours);
    if hours > 0 {
      var head := if take > 0 then [Allocation(c[0].id, take)] else [];
      assert Take(c, hours) == head + Take(c[1..], hours - take);
      assert Sums.Sum(head, Hours) == take;
      Sums.SumAppend(head, Take(c[1..], hours - take), Hours);
    }
  }

  lemma {:induction false} TakeTotal(c: seq<Balance>, hours: nat)
    ensures Sums.Sum(Take(c, hours), Hours) == Min(hours, Sums.Sum(c, Remaining))
  {
    if c == [] {
    } else {
      var take := Min(c[0].hoursRemaining, hours);
      TakeTotal(c[1..], hours - take);
      TakeUnfolds(c, hours);
      SumNonNegative(c[1..]);
    }
  }

  lemma {:induction false} SumNonNegative(c: seq<Balance>)
    ensures Sums.Sum(c, Remaining) >= 0
  {
    if c == [] {
    } else {
      SumNonNegative(c[1..]);
    }
  }

  /** Unusable blocks contribute nothing, so a sum over the usable ones is the sum over all. */
  lemma {:induction false} UsableSum(b: seq<Balance>, f: Balance -> int, g: Balance -> int)
    requires forall x :: x in b ==> if Usable(x) then g(x) == f(x) else f(x) == 0
    ensures Sums.Sum(Sorting.Filter(Usable, b), g) == Sums.Sum(b, f)
  {
    if b == [] {
    } else {
      UsableSum(b[1..], f, g);
      var head := if Usable(b[0]) then [b[0]] else [];
      assert Sums.Sum(head, g) == f(b[0]);
      assert Sorting.Filter(Usable, b) == head + Sorting.Filter(Usable, b[1..]);
      Sums.SumAppend(head, Sorting.Filter(Usable, b[1..]), g);
    }
  }

  lemma CandidateSum(blocks: seq<Block>, now: int, f: Balance -> int, g: Balance -> int)
    requires forall x :: x in Balances(blocks, now) ==> if Usable(x) then g(x) == f(x) else f(x) == 0
    ensures Sums.Sum(Candidates(blocks, now), g) == Sums.Sum(Balances(blocks, now), f)
  {
    Sums.SumPermuted(Candidates(blocks, now), Sorting.Filter(Usable, Balances(blocks, now)), g);
    UsableSum(Balances(blocks, now), f, g);
  }

  /** Drawn hours and overage add up to what was asked, and overage is exactly the shortfall. */
  lemma DrawAccounts(blocks: seq<Block>, hours: int, now: int)
    requires hours > 0
    ensures var plan := Take(Candidates(blocks, now), hours);
            Sums.Sum(plan, Hours) == Min(hours, AvailableHours(blocks, now))
  {
    TakeTotal(Candidates(blocks, now), hours);
    CandidateSum(blocks, now, Unexpired, Remaining);
  }

  lemma AvailableNonNegative(blocks: seq<Block>, now: int)
    ensures AvailableHours(blocks, now) >= 0
  {
    CandidateSum(blocks, now, Unexpired, Remaining);
    SumNonNegative(Candidates(blocks, now));
  }

  method PlanDraw(blocks: seq<Block>, hours: int, now: int) returns (allocations: seq<Allocation>, overageHours: int)
    ensures allocations == Take(Candidates(blocks, now), hours)
    ensures hours > 0 ==> Sums.Sum(allocations, Hours) + overageHours == hours
    ensures overageHours == if hours > 0 && hours > AvailableHours(blocks, now) then hours - AvailableHours(blocks, now) else 0
  {
    if hours <= 0 {
      return [], 0;
    }
    var remaining;
    allocations, remaining := DrawInOrder(Candidates(blocks, now), hours);
    overageHours := if remaining > 0 then remaining else 0;
    DrawAccounts(blocks, hours, now);
  }

  method DrawInOrder(candidates: seq<Balance>, hours: nat) returns (allocations: seq<Allocation>, remaining: nat)
    ensures allocations == Take(candidates, hours)
    ensures remaining == hours - Sums.Sum(allocations, Hours)
  {
    allocations, remaining := [], hours;
    var k := 0;
    assert candidates[0..] == candidates;
    while k < |candidates| && remaining > 0
      invariant 0 <= k <= |candidates|
      invariant allocations + Take(candidates[k..], remaining) == Take(candidates, hours)
      invariant remaining == hours - Sums.Sum(allocations, Hours)
    {
      var c := candidates[k];
      var take := Min(c.hoursRemaining, remaining);
      TakeStep(candidates, k, remaining, allocations);
      assert 0 <= take <= remaining;
      if take > 0 {
        allocations := allocations + [Allocation(c.id, take)];
        remaining := remaining - take;
      }
      k := k + 1;
    }
    assert Take(candidates[k..], remaining) == [];
  }

  lemma TakeStep(c: seq<Balance>, k: nat, remaining: int, plan: seq<Allocation>)
    requires k < |c| && remaining > 0
    ensures var take := Min(c[k].hoursRemaining, remaining);
            var plan' := if take > 0 then plan + [Allocation(c[k].id, take)] else plan;
            && plan + Take(c[k..], remaining) == plan' + Take(c[k + 1..], remaining - take)
            && Sums.Sum(plan', Hours) == Sums.Sum(plan, Hours) + take
  {
    var take := Min(c[k].hoursRemaining, remaining);
    assert c[k..][1..] == c[k + 1..];
    if take > 0 {
      Sums.SumAppend(plan, [Allocation(c[k].id, take)], Hours);
      assert Sums.Sum([Allocation(c[k].id, take)], Hours) == take;
    }
  }

  // ----- No other draw leaves more hours alive later -----

  ghost predicate DistinctIds(blocks: seq<Block>) {
    forall i, j :: 0 <= i < j < |blocks| ==> blocks[i].id != blocks[j].id
  }

  function Drawn(plan: seq<Allocation>): string -> int {
    id => DrawnFrom(plan, id)
  }

  function DrawOf(draw: string -> int): Balance -> int {
    (b: Balance) => draw(b.id)
  }

  /** The part of a draw taken from blocks that will have lapsed by `t`. */
  function LapsedDraw(draw: string -> int, t: int): Balance -> int {
    (b: Balance) => if ExpiredAt(b.expiresAt, t) then draw(b.id) else 0
  }

  function LapsedRemaining(t: int): Balance -> int {
    (b: Balance) => if ExpiredAt(b.expiresAt, t) then b.hoursRemaining else 0
  }

  /** Hours one block still offers at `t` after the draw. */
  function LeftOn(draw: string -> int, t: int): Balance -> int {
    (b: Balance) => if ExpiredAt(b.expiresAt, t) then 0 else b.hoursRemaining - draw(b.id)
  }

  function LeftAt(blocks: seq<Block>, now: int, draw: string -> int, t: int): int {
    Sums.Sum(Balances(blocks, now), LeftOn(draw, t))
  }

  /** A draw that never takes more from a block than it has, and nothing from an expired one. */
  ghost predicate Lawful(blocks: seq<Block>, now: int, draw: string -> int) {
    forall b :: b in Balances(blocks, now) ==> 0 <= draw(b.id) <= Unexpired(b)
  }

  lemma CandidatesSorted(blocks: seq<Block>, now: int)
    ensures forall i, j :: 0 <= i < j < |Candidates(blocks, now)| ==>
              !ExpiresBefore(Candidates(blocks, now)[j].expiresAt, Candidates(blocks, now)[i].expiresAt)
  {
    var le := (a, b) => ConsumedBefore(blocks, a, b);
    assert Sorting.TotalPreorder(le);
    Sorting.SortSorted(le, Sorting.Filter(Usable, Balances(blocks, now)));
  }

  lemma {:induction false} FilterMembers(b: seq<Balance>)
    ensures forall x :: x in Sorting.Filter(Usable, b) <==> x in b && Usable(x)
    ensures (forall i, j :: 0 <= i < j < |b| ==> b[i].id != b[j].id) ==>
            forall i, j :: 0 <= i < j < |Sorting.Filter(Usable, b)| ==> Sorting.Filter(Usable, b)[i].id != Sorting.Filter(Usable, b)[j].id
  {
    if b == [] {
    } else {
      FilterMembers(b[1..]);
      var head := if Usable(b[0]) then [b[0]] else [];
      var tail := Sorting.Filter(Usable, b[1..]);
      assert Sorting.Filter(Usable, b) == head + tail;
      assert b == [b[0]] + b[1..];
      assert forall k :: 0 <= k < |tail| ==> tail[k] in b[1..];
    }
  }

  lemma CandidatesDistinct(blocks: seq<Block>, now: int)
    requires DistinctIds(blocks)
    ensures forall i, j :: 0 <= i < j < |Candidates(blocks, now)| ==> Candidates(blocks, now)[i].id != Candidates(blocks, now)[j].id
    ensures forall x :: x in Candidates(blocks, now) <==> x in Balances(blocks, now) && Usable(x)
  {
    var usable := Sorting.Filter(Usable, Balances(blocks, now));
    FilterMembers(Balances(blocks, now));
    Sorting.DistinctKeysPermuted(usable, Candidates(blocks, now), (b: Balance) => b.id);
    Sorting.SortMembers((a, b) => ConsumedBefore(blocks, a, b), usable);
  }

  /** What one block gives up under the greedy draw. */
  lemma {:induction false} TakeFrom(c: seq<Balance>, hours: nat, id: string)
    requires forall i, j :: 0 <= i < j < |c| ==> c[i].id != c[j].id
    ensures (forall b :: b in c ==> b.id != id) ==> DrawnFrom(Take(c, hours), id) == 0
    ensures forall b :: b in c && b.id == id ==> 0 <= DrawnFrom(Take(c, hours), id) <= b.hoursRemaining
  {
    if c != [] && hours > 0 {
      var take := Min(c[0].hoursRemaining, hours);
      var head := if take > 0 then [Allocation(c[0].id, take)] else [];
      TakeFrom(c[1..], hours - take, id);
      Sums.SumAtAppend(head, Take(c[1..], hours - take), (a: Allocation) => a.blockId, id, Hours);
      assert Take(c, hours) == head + Take(c[1..], hours - take);
    }
  }

  /** The greedy draw exhausts the lapsing blocks before it touches any other. */
  lemma {:induction false} LapsedTaken(c: seq<Balance>, hours: nat, t: int, draw: string -> int)
    requires forall i, j :: 0 <= i < j < |c| ==> c[i].id != c[j].id
    requires forall i, j :: 0 <= i < j < |c| ==> !ExpiresBefore(c[j].expiresAt, c[i].expiresAt)
    requires forall b :: b in c ==> draw(b.id) == DrawnFrom(Take(c, hours), b.id)
    ensures Sums.Sum(c, LapsedDraw(draw, t)) == Min(hours, Sums.Sum(c, LapsedRemaining(t)))
  {
    if c == [] {
    } else if !ExpiredAt(c[0].expiresAt, t) {
      NothingLapsed(c, LapsedDraw(draw, t), t);
      NothingLapsed(c, LapsedRemaining(t), t);
    } else {
      var take := Min(c[0].hoursRemaining, hours);
      FirstDrawn(c, hours);
      forall b | b in c[1..] ensures draw(b.id) == DrawnFrom(Take(c[1..], hours - take), b.id) {
        RestDrawn(c, hours, b.id);
      }
      LapsedTaken(c[1..], hours - take, t, draw);
      LapsedNonNegative(c[1..], t);
    }
  }

  lemma {:induction false} NothingLapsed(c: seq<Balance>, f: Balance -> int, t: int)
    requires forall b :: b in c && !ExpiredAt(b.expiresAt, t) ==> f(b) == 0
    requires c != [] ==> !ExpiredAt(c[0].expiresAt, t)
    requires forall i, j :: 0 <= i < j < |c| ==> !ExpiresBefore(c[j].expiresAt, c[i].expiresAt)
    ensures Sums.Sum(c, f) == 0
  {
    if c == [] {
    } else {
      NothingLapsed(c[1..], f, t);
    }
  }

  lemma {:induction false} LapsedNonNegative(c: seq<Balance>, t: int)
    ensures Sums.Sum(c, LapsedRemaining(t)) >= 0
  {
    if c == [] {
    } else {
      LapsedNonNegative(c[1..], t);
    }
  }

  lemma RestDrawn(c: seq<Balance>, hours: nat, id: string)
    requires c != [] && c[0].id != id
    ensures DrawnFrom(Take(c, hours), id) == DrawnFrom(Take(c[1..], hours - Min(c[0].hoursRemaining, hours)), id)
  {
    var take := Min(c[0].hoursRemaining, hours);
    if hours > 0 {
      var head := if take > 0 then [Allocation(c[0].id, take)] else [];
      assert Take(c, hours) == head + Take(c[1..], hours - take);
      Sums.SumAtAppend(head, Take(c[1..], hours - take), (a: Allocation) => a.blockId, id, Hours);
    }
  }

  lemma FirstDrawn(c: seq<Balance>, hours: nat)
    requires c != [] && forall i, j :: 0 <= i < j < |c| ==> c[i].id != c[j].id
    ensures DrawnFrom(Take(c, hours), c[0].id) == Min(c[0].hoursRemaining, hours)
  {
    var take := Min(c[0].hoursRemaining, hours);
    if hours > 0 {
      var head := if take > 0 then [Allocation(c[0].id, take)] else [];
      assert Take(c, hours) == head + Take(c[1..], hours - take);
      Sums.SumAtAppend(head, Take(c[1..], hours - take), (a: Allocation) => a.blockId, c[0].id, Hours);
      TakeFrom(c[1..], hours - take, c[0].id);
    }
  }

  lemma BalanceIds(blocks: seq<Block>, now: int)
    requires DistinctIds(blocks)
    ensures forall x, y :: x in Balances(blocks, now) && y in Balances(blocks, now) && x.id == y.id ==> x == y
  {
  }

  /** No block is overdrawn, and an expired block is not drawn at all. */
  lemma NothingOverdrawn(blocks: seq<Block>, hours: nat, now: int)
    requires DistinctIds(blocks)
    ensures Lawful(blocks, now, Drawn(Take(Candidates(blocks, now), hours)))
  {
    var c := Candidates(blocks, now);
    CandidatesDistinct(blocks, now);
    BalanceIds(blocks, now);
    forall b | b in Balances(blocks, now) ensures 0 <= DrawnFrom(Take(c, hours), b.id) <= Unexpired(b) {
      TakeFrom(c, hours, b.id);
    }
  }

  /** Everything the plan draws is drawn from the client's blocks. */
  lemma DrawnInTotal(blocks: seq<Block>, hours: nat, now: int)
    requires DistinctIds(blocks)
    ensures var plan := Take(Candidates(blocks, now), hours);
            Sums.Sum(Balances(blocks, now), DrawOf(Drawn(plan))) == Sums.Sum(plan, Hours)
  {
    var c := Candidates(blocks, now);
    var draw := Drawn(Take(c, hours));
    CandidatesDistinct(blocks, now);
    NothingOverdrawn(blocks, hours, now);
    CandidateSum(blocks, now, DrawOf(draw), DrawOf(draw));
    TakeAddsUp(c, hours, draw);
  }

  lemma {:induction false} TakeAddsUp(c: seq<Balance>, hours: nat, draw: string -> int)
    requires forall i, j :: 0 <= i < j < |c| ==> c[i].id != c[j].id
    requires forall b :: b in c ==> draw(b.id) == DrawnFrom(Take(c, hours), b.id)
    ensures Sums.Sum(c, DrawOf(draw)) == Sums.Sum(Take(c, hours), Hours)
  {
    if c == [] {
    } else {
      var take := Min(c[0].hoursRemaining, hours);
      FirstDrawn(c, hours);
      forall b | b in c[1..] ensures draw(b.id) == DrawnFrom(Take(c[1..], hours - take), b.id) {
        RestDrawn(c, hours, b.id);
      }
      TakeAddsUp(c[1..], hours - take, draw);
      TakeUnfolds(c, hours);
    }
  }

  /**
   * Among all ways of drawing the same hours from the same blocks, none leaves
   * more hours alive at any later time than the plan does.
   */
  lemma DrawIsBest(blocks: seq<Block>, hours: nat, now: int, other: string -> int, t: int)
    requires DistinctIds(blocks) && now <= t
    requires Lawful(blocks, now, other)
    requires Sums.Sum(Balances(blocks, now), DrawOf(other)) == Sums.Sum(Take(Candidates(blocks, now), hours), Hours)
    ensures LeftAt(blocks, now, other, t) <= LeftAt(blocks, now, Drawn(Take(Candidates(blocks, now), hours)), t)
  {
    var c, b := Candidates(blocks, now), Balances(blocks, now);
    var plan := Drawn(Take(c, hours));
    CandidatesDistinct(blocks, now);
    CandidatesSorted(blocks, now);
    NothingOverdrawn(blocks, hours, now);
    DrawnInTotal(blocks, hours, now);
    LapsedTaken(c, hours, t, plan);
    LapsedBound(c, other, t);
    TakeTotal(c, hours);
    CandidateSum(blocks, now, DrawOf(other), DrawOf(other));
    CandidateSum(blocks, now, LapsedDraw(other, t), LapsedDraw(other, t));
    CandidateSum(blocks, now, LapsedDraw(plan, t), LapsedDraw(plan, t));
    LeftSplits(b, other, t);
    LeftSplits(b, plan, t);
  }

  lemma LapsedBound(c: seq<Balance>, draw: string -> int, t: int)
    requires forall b :: b in c ==> 0 <= draw(b.id) <= b.hoursRemaining
    ensures Sums.Sum(c, LapsedDraw(draw, t)) <= Sums.Sum(c, LapsedRemaining(t))
    ensures Sums.Sum(c, LapsedDraw(draw, t)) <= Sums.Sum(c, DrawOf(draw))
  {
    Sums.SumMonotone(c, LapsedDraw(draw, t), LapsedRemaining(t));
    Sums.SumMonotone(c, LapsedDraw(draw, t), DrawOf(draw));
  }

  /** What is left alive is what was alive, less what was drawn, plus what was drawn from lapsing blocks. */
  lemma LeftSplits(b: seq<Balance>, draw: string -> int, t: int)
    ensures Sums.Sum(b, LeftOn(draw, t)) + Sums.Sum(b, DrawOf(draw))
         == Sums.Sum(b, LeftOn(_ => 0, t)) + Sums.Sum(b, LapsedDraw(draw, t))
  {
    var total := (x: Balance) => LeftOn(draw, t)(x) + DrawOf(draw)(x);
    Sums.SumAdds(b, LeftOn(draw, t), DrawOf(draw), total);
    Sums.SumAdds(b, LeftOn(_ => 0, t), LapsedDraw(draw, t), total);
  }
}
