// An agreement's hours over several runs of the generator. A run starts from the whole
// inclusion or block balance, whatever earlier runs covered: covering hours records no draw
// (src/lib/sfbilling/generate.ts, section 1 of `generateSfBillingLines`).
module SfCapacity {
  import BlockTime
  import opened SfGenerate
  import Sorting
  import Sums
  import opened Wrappers

  /** The hours of an agreement that a run takes off its capacity. */
  function Absorbed(ctx: Context, timeEntries: seq<TimeEntry>, id: string): int {
    var before, left := InitialCapacity(ctx.agreements), Apportioned(ctx, timeEntries).capacity;
    if id in before && id in left then before[id] - left[id] else 0
  }

  /** The hours of a run that go through the agreement. */
  function Asked(ctx: Context, timeEntries: seq<TimeEntry>, id: string): int {
    Qualifying(ctx, OldestFirst(timeEntries), id)
  }

  /** What a series of runs absorbs, and what it asks for. */
  function AbsorbedOver(ctx: Context, runs: seq<seq<TimeEntry>>, id: string): int {
    if runs == [] then 0
    else AbsorbedOver(ctx, runs[..|runs| - 1], id) + Absorbed(ctx, runs[|runs| - 1], id)
  }

  function AskedOver(ctx: Context, runs: seq<seq<TimeEntry>>, id: string): int {
    if runs == [] then 0
    else AskedOver(ctx, runs[..|runs| - 1], id) + Asked(ctx, runs[|runs| - 1], id)
  }

  /** How many runs ask for any. */
  function RunsAsking(ctx: Context, runs: seq<seq<TimeEntry>>, id: string): nat {
    if runs == [] then 0
    else RunsAsking(ctx, runs[..|runs| - 1], id) + if Asked(ctx, runs[|runs| - 1], id) > 0 then 1 else 0
  }

  ghost predicate Loggable(runs: seq<seq<TimeEntry>>) {
    forall r :: r in runs ==> NoNegativeHours(r)
  }

  lemma AbsorbedIs(ctx: Context, timeEntries: seq<TimeEntry>, id: string)
    requires NoNegativeHours(timeEntries) && AgreementById(ctx.agreements, id).Some?
    ensures Asked(ctx, timeEntries, id) >= 0
    ensures Absorbed(ctx, timeEntries, id) == Min(CapacityOf(AgreementById(ctx.agreements, id).value), Asked(ctx, timeEntries, id))
  {
    AbsorbedInTotal(ctx, timeEntries, id);
    Sorting.SortMembers(WorkedBefore, timeEntries);
    QualifyingNonNegative(ctx, OldestFirst(timeEntries), id);
  }

  /** Everything asked for while it fits; all of the capacity from one run; more than it from two. */
  lemma {:induction false} AbsorbedOverRuns(ctx: Context, runs: seq<seq<TimeEntry>>, id: string)
    requires Loggable(runs) && AgreementById(ctx.agreements, id).Some?
    ensures var capacity := CapacityOf(AgreementById(ctx.agreements, id).value);
            var absorbed, asked, busy := AbsorbedOver(ctx, runs, id), AskedOver(ctx, runs, id), RunsAsking(ctx, runs, id);
            && 0 <= absorbed <= asked && (busy == 0 <==> asked == 0) && (capacity == 0 ==> absorbed == 0)
            && (asked <= capacity ==> absorbed == asked) && (busy <= 1 ==> absorbed <= capacity)
            && (asked > capacity > 0 ==> absorbed >= capacity) && (asked > capacity > 0 && busy >= 2 ==> absorbed > capacity)
  {
    if runs == [] {
    } else {
      var init, last := runs[..|runs| - 1], runs[|runs| - 1];
      assert runs == init + [last];
      AbsorbedOverRuns(ctx, init, id);
      AbsorbedIs(ctx, last, id);
    }
  }

  /**
   * Over any series of runs an agreement covers no more hours than it has if and only if it
   * has none, or all the hours asked of it fit, or one run alone asks for any.
   */
  lemma WithinCapacityIff(ctx: Context, runs: seq<seq<TimeEntry>>, id: string)
    requires Loggable(runs) && AgreementById(ctx.agreements, id).Some?
    ensures var capacity := CapacityOf(AgreementById(ctx.agreements, id).value);
            AbsorbedOver(ctx, runs, id) <= capacity <==>
              capacity == 0 || AskedOver(ctx, runs, id) <= capacity || RunsAsking(ctx, runs, id) <= 1
  {
    AbsorbedOverRuns(ctx, runs, id);
  }

  /**
   * A run covers for a block-time agreement exactly the hours that a draw from its blocks
   * would take: the balance it starts from is what is available on them.
   */
  lemma CoversWhatADrawTakes(ctx: Context, timeEntries: seq<TimeEntry>, a: Agreement, blocks: seq<BlockTime.Block>, now: int)
    requires NoNegativeHours(timeEntries) && AgreementById(ctx.agreements, a.id) == Some(a)
    requires a.kind.BLOCK_TIME? && a.blockBalanceHours == BlockTime.AvailableHours(blocks, now)
    requires Asked(ctx, timeEntries, a.id) > 0
    ensures Absorbed(ctx, timeEntries, a.id)
         == Sums.Sum(BlockTime.Take(BlockTime.Candidates(blocks, now), Asked(ctx, timeEntries, a.id)), BlockTime.Hours)
  {
    AbsorbedIs(ctx, timeEntries, a.id);
    BlockTime.DrawAccounts(blocks, Asked(ctx, timeEntries, a.id), now);
    BlockTime.AvailableNonNegative(blocks, now);
  }

  lemma Alone(ctx: Context, e: TimeEntry, id: string)
    ensures Asked(ctx, [e], id) == QualifyingHours(ctx, e, id)
  {
    assert [e][1..] == [] && OldestFirst([e]) == [e];
    assert [e][..0] == [] && Qualifying(ctx, [e], id) == Qualifying(ctx, [], id) + QualifyingHours(ctx, e, id);
  }

  /** One included hour, and two hours in each of two runs of the month: both runs cover an hour. */
  lemma CoveredTwice() returns (ctx: Context, first: TimeEntry, second: TimeEntry)
    ensures first.id != second.id && first.hours == second.hours == 20_000
    ensures AgreementById(ctx.agreements, "ag1").Some? && CapacityOf(AgreementById(ctx.agreements, "ag1").value) == 10_000
    ensures AbsorbedOver(ctx, [[first], [second]], "ag1") == 20_000
  {
    var a := Agreement("ag1", MANAGED_SERVICES, Some(10_000), None, Some(1_000_000), 0);
    ctx := Context([a], [], CHARGE_CODE);
    first := TimeEntry("te1", 0, 20_000, None, true, "cc", Some("ag1"), None, None);
    second := TimeEntry("te2", 0, 20_000, None, true, "cc", Some("ag1"), None, None);
    assert AgreementById([a], "ag1") == Some(a);
    Alone(ctx, first, "ag1");
    Alone(ctx, second, "ag1");
    AbsorbedIs(ctx, [first], "ag1");
    AbsorbedIs(ctx, [second], "ag1");
    var runs := [[first], [second]];
    assert runs[..1] == [[first]] && runs[..1][..0] == [];
    assert AbsorbedOver(ctx, runs[..1], "ag1") == 10_000;
  }
}
