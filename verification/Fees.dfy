// Fixed-fee periods and prepaid-block prices
// (src/lib/sfbilling/generate.ts, with the watermark step of src/lib/sfbilling/push.ts).
// Instants are whole milliseconds.
module Fees {
  import opened Arith
  import opened Money
  import opened Wrappers

  const DAY_MS := 86_400_000
  const MAX_FEE_PERIODS := 24

  datatype Project = Project(startDate: Option<int>, feeBilledThroughAt: Option<int>, billingIntervalDays: int)

  function Anchor(p: Project): Option<int> {
    if p.feeBilledThroughAt.Some? then p.feeBilledThroughAt else p.startDate
  }

  function IntervalMs(p: Project): (ms: int)
    ensures ms > 0
  {
    (if p.billingIntervalDays > 0 then p.billingIntervalDays else 30) * DAY_MS
  }

  function FeePeriodsDue(p: Project, asOf: int): nat {
    if Anchor(p).None? then 0
    else
      var elapsed := asOf - Anchor(p).value;
      if elapsed < IntervalMs(p) then 0 else elapsed / IntervalMs(p)
  }

  /** The quantity on the fee line a run generated at `asOf` carries (0: no line). */
  function FeeQuantity(p: Project, asOf: int): nat {
    var due := FeePeriodsDue(p, asOf);
    if due <= MAX_FEE_PERIODS then due else MAX_FEE_PERIODS
  }

  /** Pushing a fee line moves the watermark by exactly the periods billed. */
  function PushFee(p: Project, quantity: nat): Project {
    if Anchor(p).None? || quantity == 0 then p
    else p.(feeBilledThroughAt := Some(Anchor(p).value + quantity * IntervalMs(p)))
  }

  // ----- One push -----

  lemma DueIsFloor(p: Project, asOf: int)
    requires Anchor(p).Some? && Anchor(p).value <= asOf
    ensures var due, i := FeePeriodsDue(p, asOf), IntervalMs(p);
            due * i <= asOf - Anchor(p).value < (due + 1) * i
  {
    var elapsed, i := asOf - Anchor(p).value, IntervalMs(p);
    assert elapsed == (elapsed / i) * i + elapsed % i;
    assert (elapsed / i + 1) * i == (elapsed / i) * i + i;
    if elapsed < i {
      assert (0 + 1) * i == i;
    }
  }

  /** A run bills the whole intervals that have passed, up to 24 at once. */
  lemma AtMostTwoYears(p: Project, asOf: int)
    ensures FeeQuantity(p, asOf) <= 24
    ensures var from, interval := if p.feeBilledThroughAt.Some? then p.feeBilledThroughAt else p.startDate,
                                  (if p.billingIntervalDays > 0 then p.billingIntervalDays else 30) * 86_400_000;
            from.Some? && from.value <= asOf ==>
              && from.value + FeeQuantity(p, asOf) * interval <= asOf
              && (FeeQuantity(p, asOf) < 24 ==> asOf < from.value + (FeeQuantity(p, asOf) + 1) * interval)
  {
    if Anchor(p).Some? && Anchor(p).value <= asOf {
      DueIsFloor(p, asOf);
      RoomFor(asOf - Anchor(p).value, IntervalMs(p), FeePeriodsDue(p, asOf), FeeQuantity(p, asOf));
    }
  }

  /** Some period is due exactly when a whole interval, of 30 days unless it says otherwise, has passed since the watermark. */
  lemma SomeDue(p: Project, asOf: int)
    ensures var from := if p.feeBilledThroughAt.Some? then p.feeBilledThroughAt else p.startDate;
            FeeQuantity(p, asOf) > 0 <==>
              from.Some? && from.value + (if p.billingIntervalDays > 0 then p.billingIntervalDays else 30) * 86_400_000 <= asOf
  {
    if Anchor(p).Some? && Anchor(p).value <= asOf {
      DueIsFloor(p, asOf);
      RoomFor(asOf - Anchor(p).value, IntervalMs(p), FeePeriodsDue(p, asOf), 1);
    }
  }

  lemma PushFeeMoves(p: Project, quantity: nat)
    requires Anchor(p).Some?
    ensures Anchor(PushFee(p, quantity)) == Some(Anchor(p).value + quantity * IntervalMs(p))
    ensures IntervalMs(PushFee(p, quantity)) == IntervalMs(p) && PushFee(p, quantity).startDate == p.startDate
    ensures PushFee(p, quantity).billingIntervalDays == p.billingIntervalDays
  {
    assert quantity == 0 ==> quantity * IntervalMs(p) == 0;
  }

  lemma RoomFor(elapsed: int, i: int, due: nat, k: nat)
    requires i > 0 && due * i <= elapsed < (due + 1) * i
    ensures k * i <= elapsed <==> k <= due
  {
    if k <= due {
      ScaleLe(k, due, i);
    } else {
      ScaleLe(due + 1, k, i);
    }
  }

  /**
   * A run generated when `due` periods were owed, and pushed after `between` other
   * periods were billed, stays within its date exactly when there was room for them:
   * with no cap in play, exactly when nothing was billed in between.
   */
  lemma PushWithinDate(p: Project, asOf: int, between: nat)
    requires Anchor(p).Some? && Anchor(p).value <= asOf
    ensures var later := PushFee(PushFee(p, between), FeeQuantity(p, asOf));
            Anchor(later).Some? && (Anchor(later).value <= asOf <==> between <= FeePeriodsDue(p, asOf) - FeeQuantity(p, asOf))
  {
    var i, due, q := IntervalMs(p), FeePeriodsDue(p, asOf), FeeQuantity(p, asOf);
    DueIsFloor(p, asOf);
    PushFeeMoves(p, between);
    PushFeeMoves(PushFee(p, between), q);
    assert between * i + q * i == (between + q) * i;
    RoomFor(asOf - Anchor(p).value, i, due, between + q);
  }

  /** Two runs generated on the same day and both pushed: the second bills a period that has not ended. */
  lemma TwoRunsOneDay() returns (p: Project, asOf: int)
    ensures FeePeriodsDue(p, asOf) == 1
    ensures var q := FeeQuantity(p, asOf); Anchor(PushFee(PushFee(p, q), q)).value > asOf
  {
    p, asOf := Project(Some(0), None, 30), 30 * DAY_MS;
    assert FeePeriodsDue(p, asOf) == 1;
  }

  // ----- A whole series of runs -----

  /** One run: the date it is generated at, and whether it gets pushed before the next one. */
  datatype Run = Run(asOf: int, pushed: bool)

  /** What a project looks like after a series of runs, and the periods billed so far. */
  function AfterRuns(p: Project, runs: seq<Run>): (Project, nat) {
    if runs == [] then (p, 0)
    else
      var (before, billed) := AfterRuns(p, runs[..|runs| - 1]);
      var run := runs[|runs| - 1];
      if run.pushed then (PushFee(before, FeeQuantity(before, run.asOf)), billed + FeeQuantity(before, run.asOf))
      else (before, billed)
  }

  /** The stretch of time a fee line bills: from the watermark before it, as long as the periods on the line. */
  function BilledStretch(watermark: Option<int>, length: int): seq<(int, int)> {
    if watermark.Some? && length > 0 then [(watermark.value, watermark.value + length)] else []
  }

  /** The billed stretch of time of each pushed run, in order. */
  function BilledSpans(p: Project, runs: seq<Run>): seq<(int, int)> {
    if runs == [] then []
    else
      var before, run := AfterRuns(p, runs[..|runs| - 1]).0, runs[|runs| - 1];
      BilledSpans(p, runs[..|runs| - 1])
      + if run.pushed then BilledStretch(Anchor(before), FeeQuantity(before, run.asOf) * IntervalMs(p)) else []
  }

  /** Stretches that follow one another from one instant to another. */
  ghost predicate Tile(billed: seq<(int, int)>, from: int, to: int) {
    && (forall k :: 0 <= k < |billed| ==> billed[k].0 < billed[k].1)
    && (forall k :: 0 < k < |billed| ==> billed[k].0 == billed[k - 1].1)
    && (if billed == [] then to == from else billed[0].0 == from && billed[|billed| - 1].1 == to)
  }

  lemma TileNext(billed: seq<(int, int)>, from: int, mid: int, length: int)
    requires length >= 0
    ensures Tile(billed + BilledStretch(Some(mid), length), from, mid + length) <==> Tile(billed, from, mid)
  {
    var all := billed + BilledStretch(Some(mid), length);
    if length == 0 {
      assert all == billed;
    } else {
      assert all[|billed|] == (mid, mid + length);
      assert forall k :: 0 <= k < |billed| ==> all[k] == billed[k];
    }
  }

  /** A stretch billed without the watermark moving breaks the row. */
  lemma TileBroken(billed: seq<(int, int)>, from: int, mid: int, length: int)
    requires length > 0
    ensures !Tile(billed + BilledStretch(Some(mid), length), from, mid)
  {
    var all := billed + BilledStretch(Some(mid), length);
    assert all[|all| - 1] == (mid, mid + length);
  }

  ghost predicate NonDecreasing(runs: seq<Run>) {
    forall i, j :: 0 <= i < j < |runs| ==> runs[i].asOf <= runs[j].asOf
  }

  /** A run pushed straight away moves the watermark on by what it billed, and not beyond its own date. */
  lemma PushStaysWithin(p: Project, asOf: int)
    requires Anchor(p).Some? && FeeQuantity(p, asOf) > 0
    ensures var q := FeeQuantity(p, asOf); var after := PushFee(p, q);
            && after.startDate == p.startDate && after.billingIntervalDays == p.billingIntervalDays
            && Anchor(after) == Some(Anchor(p).value + q * IntervalMs(p)) && Anchor(after).value <= asOf
  {
    PushFeeMoves(p, FeeQuantity(p, asOf));
    PushFeeMoves(p, 0);
    PushWithinDate(p, asOf, 0);
    assert PushFee(p, 0) == p;
  }

  lemma Adds(a: int, b: int, i: int)
    ensures a * i + b * i == (a + b) * i
  {
  }

  /** Between runs the watermark is the start plus what has been billed, and never beyond the last run. */
  lemma {:induction false} WatermarkIsWhatWasBilled(p: Project, runs: seq<Run>)
    requires Anchor(p).Some? && NonDecreasing(runs)
    ensures var (after, billed) := AfterRuns(p, runs);
            && after.startDate == p.startDate && after.billingIntervalDays == p.billingIntervalDays
            && Anchor(after) == Some(Anchor(p).value + billed * IntervalMs(p))
            && (billed > 0 ==> runs != [] && Anchor(after).value <= runs[|runs| - 1].asOf)
  {
    var i := IntervalMs(p);
    assert 0 * i == 0;
    if runs == [] {
    } else {
      var init, run := runs[..|runs| - 1], runs[|runs| - 1];
      WatermarkIsWhatWasBilled(p, init);
      var (before, billed) := AfterRuns(p, init);
      var q := FeeQuantity(before, run.asOf);
      if run.pushed && q > 0 {
        PushStaysWithin(before, run.asOf);
        Adds(billed, q, i);
      }
    }
  }

  lemma QuotientAfter(n: int, i: int, billed: int, due: int)
    requires i > 0 && due * i <= n - billed * i < (due + 1) * i
    ensures n / i == billed + due
  {
    assert (billed + due) * i == billed * i + due * i;
    assert (due + 1) * i == due * i + i;
    QuotientIs(n, i, billed + due);
  }

  /** Nothing lost: once a pushed run was not cut by the cap, every complete interval up to it has been billed. */
  lemma BilledInFull(p: Project, runs: seq<Run>)
    requires Anchor(p).Some? && NonDecreasing(runs) && runs != [] && runs[|runs| - 1].pushed
    requires Anchor(p).value <= runs[|runs| - 1].asOf
    requires FeePeriodsDue(AfterRuns(p, runs[..|runs| - 1]).0, runs[|runs| - 1].asOf) <= MAX_FEE_PERIODS
    ensures AfterRuns(p, runs).1 == (runs[|runs| - 1].asOf - Anchor(p).value) / IntervalMs(p)
  {
    var i, init, asOf := IntervalMs(p), runs[..|runs| - 1], runs[|runs| - 1].asOf;
    var (before, billed) := AfterRuns(p, init);
    WatermarkIsWhatWasBilled(p, init);
    assert billed == 0 ==> billed * i == 0;
    DueIsFloor(before, asOf);
    QuotientAfter(asOf - Anchor(p).value, i, billed, FeePeriodsDue(before, asOf));
  }

  /** The last run bills a stretch as long as the watermark moves. */
  lemma PushedStretch(p: Project, runs: seq<Run>) returns (length: int)
    requires Anchor(p).Some? && NonDecreasing(runs) && runs != []
    ensures var before, after := AfterRuns(p, runs[..|runs| - 1]).0, AfterRuns(p, runs).0;
            && Anchor(before).Some? && Anchor(after).Some?
            && length >= 0 && Anchor(after).value == Anchor(before).value + length
            && BilledSpans(p, runs) == BilledSpans(p, runs[..|runs| - 1]) + BilledStretch(Anchor(before), length)
  {
    var before, run := AfterRuns(p, runs[..|runs| - 1]).0, runs[|runs| - 1];
    WatermarkIsWhatWasBilled(p, runs[..|runs| - 1]);
    PushFeeMoves(before, FeeQuantity(before, run.asOf));
    length := if run.pushed then FeeQuantity(before, run.asOf) * IntervalMs(p) else 0;
  }

  /**
   * Nothing billed twice and nothing left out: the stretches that the fee lines bill follow
   * one another from the start to the watermark.
   */
  lemma {:induction false} SpansTile(p: Project, runs: seq<Run>)
    requires Anchor(p).Some? && NonDecreasing(runs)
    ensures Anchor(AfterRuns(p, runs).0).Some?
    ensures Tile(BilledSpans(p, runs), Anchor(p).value, Anchor(AfterRuns(p, runs).0).value)
  {
    if runs == [] {
    } else {
      var init := runs[..|runs| - 1];
      SpansTile(p, init);
      var length := PushedStretch(p, runs);
      TileNext(BilledSpans(p, init), Anchor(p).value, Anchor(AfterRuns(p, init).0).value, length);
    }
  }

  // ----- Prepaid block lines -----

  /** What a block costs, on the 0.0001 grid: its amount, or its hours at its rate rounded to cents. */
  function BlockAmount(purchasedHours: int, rate: Option<int>, amount: Option<int>): Option<int> {
    if amount.Some? then amount
    else if rate.Some? then Some(100 * RoundDiv(purchasedHours * rate.value, 1_000_000))
    else None
  }

  /** Total in cents of a block's line; no line without an amount to bill. */
  function BlockLineTotal(purchasedHours: int, rate: Option<int>, amount: Option<int>): Option<int>
    requires purchasedHours > 0
  {
    var due := BlockAmount(purchasedHours, rate, amount);
    if due.None? || due.value <= 0 then None
    else Some(ComputeLine(purchasedHours, UnitPrice(10_000 * due.value, purchasedHours), 0, 0).total)
  }

  /**
   * The block line is within half a cent per hour, plus half a cent, of the purchase
   * amount; without an amount it is as near, and half a cent more, to hours times rate.
   */
  lemma BlockLineNear(purchasedHours: int, rate: Option<int>, amount: Option<int>)
    requires purchasedHours > 0
    ensures BlockLineTotal(purchasedHours, rate, amount).Some? <==>
              if amount.Some? then amount.value > 0 else rate.Some? && 2 * purchasedHours * rate.value >= 1_000_000
    ensures var total := BlockLineTotal(purchasedHours, rate, amount);
            total.Some? ==>
              if amount.Some? then
                -(50 * purchasedHours + 500_000) <= 1_000_000 * total.value - 10_000 * amount.value <= 50 * purchasedHours + 500_000
              else
                -(50 * purchasedHours + 1_000_000) <= 1_000_000 * total.value - purchasedHours * rate.value <= 50 * purchasedHours + 1_000_000
  {
    var due := BlockAmount(purchasedHours, rate, amount);
    if due.Some? {
      RolledUpNear(10_000 * due.value, purchasedHours);
      if amount.None? {
        RoundDivNear(purchasedHours * rate.value, 1_000_000);
      }
    }
  }
}
