// The fixed-fee watermarks over every history of billing runs, however the runs are
// generated, edited and pushed in between each other.
module SfFees {
  import opened Arith
  import Fees
  import opened SfRuns
  import opened SfStore
  import opened Sums
  import opened Wrappers

  function AllFees(invoices: seq<Invoice>): seq<(string, int)> {
    if invoices == [] then [] else AllFees(invoices[..|invoices| - 1]) + FeesOn(invoices[|invoices| - 1].lines)
  }

  /** The quantity of a project's periods invoiced so far, in units of 0.0001. */
  function FeesInvoiced(s: Store, project: string): int {
    FeeSum(AllFees(s.invoices), project)
  }

  /** The same on recorded invoices only. */
  function FeesRecorded(s: Store, project: string): int {
    FeeSum(AllFees(Those(s.invoices, true)), project)
  }

  function Watermark(s: Store, project: string): Option<int>
    requires project in s.projects
  {
    Fees.Anchor(s.projects[project])
  }

  lemma {:induction false} NoFee(fees: seq<(string, int)>, p: string)
    ensures FeeCount(fees, p) >= 0
    ensures FeeCount(fees, p) == 0 ==> FeeSum(fees, p) == 0
  {
    if fees == [] {
    } else {
      NoFee(fees[1..], p);
    }
  }

  lemma {:induction false} FeesNonNegative(fees: seq<(string, int)>, p: string)
    requires forall f :: f in fees ==> f.1 >= 0
    ensures FeeSum(fees, p) >= 0
  {
    if fees == [] {
    } else {
      FeesNonNegative(fees[1..], p);
      assert fees[0] in fees;
    }
  }

  /** With one fee line at most, a project's watermark moves by what that line bills. */
  lemma {:induction false} AdvancedBy(projects: map<string, Fees.Project>, fees: seq<(string, int)>, p: string)
    requires p in projects && FeeCount(fees, p) <= 1
    ensures p in Advanced(projects, fees)
    ensures Advanced(projects, fees)[p]
         == if FeeCount(fees, p) == 0 then projects[p] else Advance(projects[p], FeeSum(fees, p))
  {
    if fees == [] {
    } else {
      var init := fees[..|fees| - 1];
      SumAtLast(fees, FeeProject, p, OneFee);
      SumAtLast(fees, FeeProject, p, FeeQuantity);
      NoFee(init, p);
      AdvancedBy(projects, init, p);
    }
  }

  /** A watermark moved on by a quantity of periods. */
  ghost predicate Moves(before: Fees.Project, after: Fees.Project, quantity: int) {
    && Fees.Anchor(before).Some? && quantity >= 0 && Tick(after) == Tick(before)
    && Fees.Anchor(after) == Some(Fees.Anchor(before).value + quantity * Tick(before))
  }

  lemma MovesOn(a: Fees.Project, b: Fees.Project, c: Fees.Project, first: int, more: int, all: int)
    requires Moves(a, b, first) && Moves(b, c, more) && all == first + more
    ensures Moves(a, c, all)
  {
    assert all * Tick(a) == first * Tick(a) + more * Tick(a);
  }

  lemma StandsStill(a: Fees.Project, none: int)
    requires Fees.Anchor(a).Some? && none == 0
    ensures Moves(a, a, none)
  {
    assert none * Tick(a) == 0;
  }

  lemma FeesPushed(invoices: seq<Invoice>, invoice: Invoice, p: string)
    ensures FeeSum(AllFees(invoices + [invoice]), p) == FeeSum(AllFees(invoices), p) + FeeSum(FeesOn(invoice.lines), p)
  {
    assert (invoices + [invoice])[..|invoices|] == invoices;
    SumAtAppend(AllFees(invoices), FeesOn(invoice.lines), FeeProject, p, FeeQuantity);
  }

  lemma SentFees(s: Store, lines: seq<RunLine>, p: string)
    requires LinesSound(s, lines)
    ensures FeeCount(FeesOn(Eligible(lines)), p) <= 1
    ensures FeeSum(FeesOn(Eligible(lines)), p) >= 0
  {
    SentSound(s, lines);
    FeesNonNegative(FeesOn(Eligible(lines)), p);
  }

  lemma AdvancedMoves(projects: map<string, Fees.Project>, fees: seq<(string, int)>, p: string)
    requires p in projects && Fees.Anchor(projects[p]).Some?
    requires FeeCount(fees, p) <= 1 && FeeSum(fees, p) >= 0
    ensures p in Advanced(projects, fees)
    ensures Moves(projects[p], Advanced(projects, fees)[p], FeeSum(fees, p))
  {
    AdvancedBy(projects, fees, p);
    NoFee(fees, p);
    StandsStill(projects[p], 0);
  }

  // ----- What each push bills -----

  /** The quantity of a project's periods a step sends out. */
  ghost function Billed(s: Store, step: Step, p: string): int {
    if Sends(s, step) then FeeSum(FeesOn(Sent(s, step).lines), p) else 0
  }

  /** A step after which only its invoice, if any, tells that fees have been billed. */
  lemma OnlyPushesMove(s: Store, step: Step)
    ensures Apply(s, step).projects
         == if Sends(s, step) && !Loses(s, step) then Advanced(s.projects, FeesOn(Sent(s, step).lines)) else s.projects
  {
  }

  lemma BilledIsInvoiced(s: Store, step: Step, p: string)
    ensures FeesInvoiced(Apply(s, step), p) == FeesInvoiced(s, p) + Billed(s, step, p)
    ensures FeesRecorded(Apply(s, step), p) == FeesRecorded(s, p) + if Loses(s, step) then 0 else Billed(s, step, p)
  {
    InvoicesAfter(s, step);
    if Sends(s, step) {
      FeesPushed(s.invoices, Sent(s, step), p);
      ThosePushed(s.invoices, Sent(s, step), true);
      if !Loses(s, step) {
        FeesPushed(Those(s.invoices, true), Sent(s, step), p);
      } else {
        assert Those(s.invoices, true) + [] == Those(s.invoices, true);
      }
    }
  }

  lemma BilledNotNegative(s: Store, step: Step, p: string)
    requires Sound(s)
    ensures Billed(s, step, p) >= 0
  {
    if Sends(s, step) {
      assert LinesSound(s, s.runs[step.runId].lines);
      SentFees(s, s.runs[step.runId].lines, p);
    }
  }

  /** How far a step moves a project's watermark. */
  ghost function Noted(s: Store, step: Step, p: string): int {
    if Loses(s, step) then 0 else Billed(s, step, p)
  }

  /** Whatever the step, a watermark moves by exactly the quantity that the step invoices, or stays if the commit fails. */
  lemma StepMovesWatermark(s: Store, step: Step, p: string)
    requires Sound(s) && p in s.projects && Watermark(s, p).Some?
    ensures var s' := Apply(s, step);
            && p in s'.projects && Moves(s.projects[p], s'.projects[p], Noted(s, step, p))
            && FeesInvoiced(s', p) == FeesInvoiced(s, p) + Billed(s, step, p)
  {
    OnlyPushesMove(s, step);
    BilledIsInvoiced(s, step, p);
    if Sends(s, step) && !Loses(s, step) {
      assert LinesSound(s, s.runs[step.runId].lines);
      SentFees(s, s.runs[step.runId].lines, p);
      AdvancedMoves(s.projects, FeesOn(Sent(s, step).lines), p);
    } else {
      StandsStill(s.projects[p], 0);
    }
  }

  /** A commit that fails, of an invoice with a fee of the project. */
  ghost predicate LosesFee(s: Store, step: Step, p: string) {
    Loses(s, step) && Billed(s, step, p) > 0
  }

  ghost function LosingFee(p: string): (Store, Step) -> bool {
    (s: Store, step: Step) => LosesFee(s, step, p)
  }

  lemma StepNotes(s: Store, step: Step, p: string)
    requires Sound(s) && p in s.projects && Watermark(s, p).Some?
    ensures p in Apply(s, step).projects && Moves(s.projects[p], Apply(s, step).projects[p], Noted(s, step, p))
    ensures FeesRecorded(Apply(s, step), p) == FeesRecorded(s, p) + Noted(s, step, p)
  {
    StepMovesWatermark(s, step, p);
    BilledIsInvoiced(s, step, p);
  }

  lemma RecordedNext(start: Fees.Project, s: Store, step: Step, p: string)
    requires Sound(s) && p in s.projects && Moves(start, s.projects[p], FeesRecorded(s, p))
    ensures var s' := Apply(s, step); p in s'.projects && Moves(start, s'.projects[p], FeesRecorded(s', p))
  {
    StepNotes(s, step, p);
    MovesOn(start, s.projects[p], Apply(s, step).projects[p], FeesRecorded(s, p), Noted(s, step, p), FeesRecorded(Apply(s, step), p));
  }

  /** Over every history the watermark is where it started plus every period on recorded invoices. */
  lemma {:induction false} WatermarkIsRecorded(s: Store, steps: seq<Step>, p: string)
    requires Initial(s) && p in s.projects && Watermark(s, p).Some?
    ensures var now := After(s, steps);
            p in now.projects && Watermark(now, p).Some? && Moves(s.projects[p], now.projects[p], FeesRecorded(now, p))
  {
    if steps == [] {
      StandsStill(s.projects[p], FeesRecorded(s, p));
    } else {
      WatermarkIsRecorded(s, steps[..|steps| - 1], p);
      AlwaysSound(s, steps[..|steps| - 1]);
      RecordedNext(s.projects[p], After(s, steps[..|steps| - 1]), steps[|steps| - 1], p);
    }
  }

  /** All that is invoiced is recorded exactly when no commit of the project's fee failed. */
  lemma {:induction false} RecordedIff(s: Store, steps: seq<Step>, p: string)
    requires Initial(s)
    ensures var now := After(s, steps);
            && FeesRecorded(now, p) <= FeesInvoiced(now, p)
            && (FeesRecorded(now, p) == FeesInvoiced(now, p) <==> Never(LosingFee(p), s, steps))
  {
    if steps == [] {
    } else {
      var before, step := After(s, steps[..|steps| - 1]), steps[|steps| - 1];
      RecordedIff(s, steps[..|steps| - 1], p);
      AlwaysSound(s, steps[..|steps| - 1]);
      BilledIsInvoiced(before, step, p);
      BilledNotNegative(before, step, p);
    }
  }

  /** It is where it started plus every period invoiced if and only if no commit of the project's fee failed. */
  lemma WatermarkIsInvoicedIff(s: Store, steps: seq<Step>, p: string)
    requires Initial(s) && p in s.projects && Watermark(s, p).Some?
    ensures var now := After(s, steps);
            && p in now.projects
            && (Moves(s.projects[p], now.projects[p], FeesInvoiced(now, p)) <==> Never(LosingFee(p), s, steps))
  {
    var now := After(s, steps);
    WatermarkIsRecorded(s, steps, p);
    RecordedIff(s, steps, p);
    SameProduct(FeesRecorded(now, p), FeesInvoiced(now, p), Tick(s.projects[p]));
  }

  lemma SameProduct(n: int, m: int, k: int)
    requires k > 0 && n <= m
    ensures n * k == m * k <==> n == m
  {
    if n < m {
      ScaleLe(n + 1, m, k);
    }
  }

  /** The stretch of time a step bills for a project: from the watermark, as long as the periods it sends. */
  ghost function BilledBy(s: Store, step: Step, p: string): seq<(int, int)> {
    if p in s.projects then Fees.BilledStretch(Watermark(s, p), Billed(s, step, p) * Tick(s.projects[p])) else []
  }

  /** The stretch of time each push of the history billed for a project, in order. */
  ghost function Stretches(s: Store, steps: seq<Step>, p: string): seq<(int, int)> {
    if steps == [] then []
    else Stretches(s, steps[..|steps| - 1], p) + BilledBy(After(s, steps[..|steps| - 1]), steps[|steps| - 1], p)
  }

  lemma PositiveProduct(n: int, k: int)
    requires n >= 0 && k > 0
    ensures n * k >= 0 && (n * k > 0 <==> n > 0)
  {
  }

  /** A step's stretch continues the row exactly when the watermark moves along with it. */
  lemma StretchContinues(s: Store, step: Step, p: string, billed: seq<(int, int)>, from: int)
    requires Sound(s) && p in s.projects && Watermark(s, p).Some?
    ensures p in Apply(s, step).projects && Watermark(Apply(s, step), p).Some?
    ensures Fees.Tile(billed + BilledBy(s, step, p), from, Watermark(Apply(s, step), p).value)
       <==> Fees.Tile(billed, from, Watermark(s, p).value) && !LosesFee(s, step, p)
  {
    var length := Billed(s, step, p) * Tick(s.projects[p]);
    StepMovesWatermark(s, step, p);
    BilledNotNegative(s, step, p);
    PositiveProduct(Billed(s, step, p), Tick(s.projects[p]));
    if LosesFee(s, step, p) {
      Fees.TileBroken(billed, from, Watermark(s, p).value, length);
    } else {
      Fees.TileNext(billed, from, Watermark(s, p).value, length);
    }
  }

  /**
   * Over every history, however the runs interleave: no stretch of time is billed twice and
   * none is left out (the stretches that pushes bill follow one another from the start to the
   * watermark) if and only if no commit of the project's fee failed.
   */
  lemma {:induction false} FeeStretchesTileIff(s: Store, steps: seq<Step>, p: string)
    requires Initial(s) && p in s.projects && Watermark(s, p).Some?
    ensures p in After(s, steps).projects && Watermark(After(s, steps), p).Some?
    ensures Fees.Tile(Stretches(s, steps, p), Watermark(s, p).value, Watermark(After(s, steps), p).value) <==> Never(LosingFee(p), s, steps)
  {
    if steps == [] {
    } else {
      var init, step := steps[..|steps| - 1], steps[|steps| - 1];
      FeeStretchesTileIff(s, init, p);
      AlwaysSound(s, init);
      StretchContinues(After(s, init), step, p, Stretches(s, init, p), Watermark(s, p).value);
    }
  }

  // ----- Whether what is billed is complete by the end of the run's period -----

  /** The quantity of a project's periods complete by a date, in units of 0.0001. */
  function DueQuantity(p: Fees.Project, asOf: int): int {
    if Fees.Anchor(p).None? || asOf < Fees.Anchor(p).value then 0 else (asOf - Fees.Anchor(p).value) / Tick(p)
  }

  /** Whole periods are within it exactly when they are within the periods due. */
  lemma DueQuantityIs(p: Fees.Project, asOf: int, k: nat)
    ensures 10_000 * k <= DueQuantity(p, asOf) <==> k <= Fees.FeePeriodsDue(p, asOf)
  {
    if Fees.Anchor(p).Some? && Fees.Anchor(p).value <= asOf {
      var elapsed := asOf - Fees.Anchor(p).value;
      Fees.DueIsFloor(p, asOf);
      WithinQuotient(elapsed, Tick(p), 10_000 * k);
      Fees.RoomFor(elapsed, Fees.IntervalMs(p), Fees.FeePeriodsDue(p, asOf), k);
      Periods(p, k);
    }
  }

  lemma Periods(p: Fees.Project, k: int)
    ensures (10_000 * k) * Tick(p) == k * Fees.IntervalMs(p)
  {
    assert 10_000 * Tick(p) == Fees.IntervalMs(p);
    assert (10_000 * k) * Tick(p) == k * (10_000 * Tick(p));
  }

  lemma WithinQuotient(n: int, d: int, k: int)
    requires d > 0
    ensures k <= n / d <==> k * d <= n
  {
    var q := n / d;
    assert n == q * d + n % d;
    if k <= q {
      ScaleLe(k, q, d);
    } else {
      ScaleLe(q + 1, k, d);
      assert (q + 1) * d == q * d + d;
    }
  }

  /** What a caller can check before a push: it sends more of a fee than is due at the end of the run's period. */
  ghost predicate Overbills(s: Store, step: Step, p: string) {
    && Sends(s, step) && p in s.projects
    && Billed(s, step, p) > DueQuantity(s.projects[p], s.runs[step.runId].period.end)
  }

  ghost function Overbilling(p: string): (Store, Step) -> bool {
    (s: Store, step: Step) => Overbills(s, step, p)
  }

  ghost predicate EndBy(stretches: seq<(int, int)>, date: int) {
    forall stretch :: stretch in stretches ==> stretch.1 <= date
  }

  /** Every stretch billed was over by the end of the period of the run that billed it. */
  ghost predicate BilledWhenComplete(s: Store, steps: seq<Step>, p: string) {
    if steps == [] then true
    else
      var before, step := After(s, steps[..|steps| - 1]), steps[|steps| - 1];
      && BilledWhenComplete(s, steps[..|steps| - 1], p)
      && (Sends(before, step) ==> EndBy(BilledBy(before, step, p), before.runs[step.runId].period.end))
  }

  lemma StretchEnds(p: Fees.Project, billed: int, date: int)
    requires Fees.Anchor(p).Some? && billed >= 0
    ensures EndBy(Fees.BilledStretch(Fees.Anchor(p), billed * Tick(p)), date) <==> billed <= DueQuantity(p, date)
  {
    var from, length := Fees.Anchor(p).value, billed * Tick(p);
    WithinQuotient(date - from, Tick(p), billed);
    PositiveProduct(billed, Tick(p));
    if length > 0 {
      assert Fees.BilledStretch(Fees.Anchor(p), length) == [(from, from + length)];
      assert (from, from + length) in Fees.BilledStretch(Fees.Anchor(p), length);
    } else {
      assert Fees.BilledStretch(Fees.Anchor(p), length) == [];
    }
  }

  lemma CompleteStep(s: Store, step: Step, p: string)
    requires Sound(s) && p in s.projects && Watermark(s, p).Some? && Sends(s, step)
    ensures EndBy(BilledBy(s, step, p), s.runs[step.runId].period.end) <==> !Overbills(s, step, p)
  {
    BilledNotNegative(s, step, p);
    StretchEnds(s.projects[p], Billed(s, step, p), s.runs[step.runId].period.end);
  }

  /**
   * Over every history a fixed fee is billed for time that is over by the end of the run's
   * period if and only if no push sent more of it than was due then.
   */
  lemma {:induction false} BilledWhenCompleteIff(s: Store, steps: seq<Step>, p: string)
    requires Initial(s) && p in s.projects && Watermark(s, p).Some?
    ensures BilledWhenComplete(s, steps, p) <==> Never(Overbilling(p), s, steps)
  {
    if steps == [] {
    } else {
      var init, step := steps[..|steps| - 1], steps[|steps| - 1];
      BilledWhenCompleteIff(s, init, p);
      WatermarkIsRecorded(s, init, p);
      AlwaysSound(s, init);
      if Sends(After(s, init), step) {
        CompleteStep(After(s, init), step, p);
      }
    }
  }

  /** A fee line of whole periods moves the watermark as one run on its own does. */
  lemma AdvanceIsPushFee(p: Fees.Project, periods: nat)
    requires periods > 0
    ensures Advance(p, 10_000 * periods) == Fees.PushFee(p, periods)
  {
    assert 10_000 * Tick(p) == Fees.IntervalMs(p);
    assert (10_000 * periods) * Tick(p) == periods * (10_000 * Tick(p));
  }
}
