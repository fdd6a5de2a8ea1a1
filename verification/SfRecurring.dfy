// How often a recurring fee is billed, over every history of billing runs. Nothing marks a
// fee as billed: whether it goes out again hangs on the periods of the runs alone.
module SfRecurring {
  import opened Agreements
  import Anniversaries
  import opened SfRuns
  import opened SfStore

  predicate Carries(lines: seq<RunLine>, id: string) {
    Count(ClaimsOn(lines), Recurring(id)) > 0
  }

  /** How often an agreement's fee is on invoices whose period covers an instant. */
  function BillsAt(invoices: seq<Invoice>, id: string, t: int): int {
    if invoices == [] then 0
    else
      var last := invoices[|invoices| - 1];
      BillsAt(invoices[..|invoices| - 1], id, t) + if Covers(last.period, t) then Count(ClaimsOn(last.lines), Recurring(id)) else 0
  }

  /** No month is charged for twice; of a yearly agreement, no anniversary. */
  ghost predicate FeeBilledOnce(s: Store, id: string) {
    id in s.agreements ==> forall t :: Owed(s.agreements[id], t) ==> BillsAt(s.invoices, id, t) <= 1
  }

  /** An invoice carries the fee for a period that bills for the same. */
  ghost predicate BilledFor(invoices: seq<Invoice>, id: string, a: Agreement, period: Period) {
    exists i :: 0 <= i < |invoices| && Carries(invoices[i].lines, id) && Share(a, invoices[i].period, period)
  }

  /** What a caller can check before a push: the fee is about to be sent, and has been for an overlapping period. */
  ghost predicate Repeats(s: Store, step: Step, id: string) {
    && Sends(s, step) && id in s.agreements
    && Carries(Eligible(s.runs[step.runId].lines), id)
    && BilledFor(s.invoices, id, s.agreements[id], s.runs[step.runId].period)
  }

  ghost function Repeating(id: string): (Store, Step) -> bool {
    (s: Store, step: Step) => Repeats(s, step, id)
  }

  lemma BillsPushed(invoices: seq<Invoice>, invoice: Invoice, id: string, t: int)
    ensures BillsAt(invoices + [invoice], id, t)
         == BillsAt(invoices, id, t) + if Covers(invoice.period, t) then Count(ClaimsOn(invoice.lines), Recurring(id)) else 0
  {
    assert (invoices + [invoice])[..|invoices|] == invoices;
  }

  ghost predicate BilledAround(invoices: seq<Invoice>, id: string, t: int) {
    exists i :: 0 <= i < |invoices| && Carries(invoices[i].lines, id) && Covers(invoices[i].period, t)
  }

  lemma BilledAroundLast(invoices: seq<Invoice>, id: string, t: int)
    requires invoices != []
    ensures var last := invoices[|invoices| - 1];
            BilledAround(invoices, id, t) <==>
              BilledAround(invoices[..|invoices| - 1], id, t) || (Carries(last.lines, id) && Covers(last.period, t))
  {
    var init := invoices[..|invoices| - 1];
    if i :| 0 <= i < |init| && Carries(init[i].lines, id) && Covers(init[i].period, t) {
      assert invoices[i] == init[i];
    }
  }

  /** An instant is billed exactly when an invoice of a period around it carries the fee. */
  lemma {:induction false} BillsAtIff(invoices: seq<Invoice>, id: string, t: int)
    ensures BillsAt(invoices, id, t) >= 0
    ensures BillsAt(invoices, id, t) > 0 <==> BilledAround(invoices, id, t)
  {
    if invoices == [] {
    } else {
      var last := invoices[|invoices| - 1];
      BillsAtIff(invoices[..|invoices| - 1], id, t);
      CountedNotNegative(last.lines, id);
      BilledAroundLast(invoices, id, t);
    }
  }

  lemma CountedNotNegative(lines: seq<RunLine>, id: string)
    ensures Count(ClaimsOn(lines), Recurring(id)) >= 0
  {
    CountedIffClaimed(ClaimsOn(lines), Recurring(id));
  }

  lemma SameTerms(s: Store, step: Step)
    ensures Apply(s, step).agreements == s.agreements
  {
  }

  lemma {:induction false} SameTermsAfter(s: Store, steps: seq<Step>)
    ensures After(s, steps).agreements == s.agreements
  {
    if steps == [] {
    } else {
      SameTermsAfter(s, steps[..|steps| - 1]);
      SameTerms(After(s, steps[..|steps| - 1]), steps[|steps| - 1]);
    }
  }

  lemma SentOnce(s: Store, step: Step, id: string)
    requires Sound(s) && Sends(s, step)
    ensures 0 <= Count(ClaimsOn(Sent(s, step).lines), Recurring(id)) <= 1
  {
    SentSound(s, s.runs[step.runId].lines);
    CountedIffClaimed(ClaimsOn(Sent(s, step).lines), Recurring(id));
  }

  /** One more invoice bills nothing again exactly when no earlier one with the fee shares its period. */
  lemma OnceMore(invoices: seq<Invoice>, invoice: Invoice, id: string, a: Agreement, t: int)
    requires 0 <= Count(ClaimsOn(invoice.lines), Recurring(id)) <= 1 && Owed(a, t) && BillsAt(invoices, id, t) <= 1
    requires !(Carries(invoice.lines, id) && BilledFor(invoices, id, a, invoice.period))
    ensures BillsAt(invoices + [invoice], id, t) <= 1
  {
    BillsPushed(invoices, invoice, id, t);
    BillsAtIff(invoices, id, t);
    if Covers(invoice.period, t) && Carries(invoice.lines, id) && BillsAt(invoices, id, t) > 0 {
      var i :| 0 <= i < |invoices| && Carries(invoices[i].lines, id) && Covers(invoices[i].period, t);
      ShareIff(a, invoices[i].period, invoice.period);
    }
  }

  lemma TwiceThere(invoices: seq<Invoice>, invoice: Invoice, id: string, a: Agreement) returns (t: int)
    requires Carries(invoice.lines, id) && BilledFor(invoices, id, a, invoice.period)
    ensures Owed(a, t) && BillsAt(invoices + [invoice], id, t) >= 2
  {
    var i :| 0 <= i < |invoices| && Carries(invoices[i].lines, id) && Share(a, invoices[i].period, invoice.period);
    ShareIff(a, invoices[i].period, invoice.period);
    t :| Owed(a, t) && Covers(invoices[i].period, t) && Covers(invoice.period, t);
    BillsAtIff(invoices, id, t);
    BillsPushed(invoices, invoice, id, t);
  }

  lemma FeeStep(s: Store, step: Step, id: string)
    requires Sound(s) && FeeBilledOnce(s, id)
    ensures FeeBilledOnce(Apply(s, step), id) <==> !Repeats(s, step, id)
  {
    SameTerms(s, step);
    InvoicesAfter(s, step);
    if Sends(s, step) && id in s.agreements {
      SentOnce(s, step, id);
      if Repeats(s, step, id) {
        var t := TwiceThere(s.invoices, Sent(s, step), id, s.agreements[id]);
      } else {
        forall t | Owed(s.agreements[id], t) ensures BillsAt(Apply(s, step).invoices, id, t) <= 1 {
          OnceMore(s.invoices, Sent(s, step), id, s.agreements[id], t);
        }
      }
    }
  }

  lemma BillsNeverFall(s: Store, step: Step, id: string, t: int)
    ensures BillsAt(s.invoices, id, t) <= BillsAt(Apply(s, step).invoices, id, t)
  {
    InvoicesAfter(s, step);
    if Sends(s, step) {
      BillsPushed(s.invoices, Sent(s, step), id, t);
      CountedIffClaimed(ClaimsOn(Sent(s, step).lines), Recurring(id));
    }
  }

  /**
   * Over every history an agreement's fee is billed once for each month (each anniversary of
   * a yearly agreement) if and only if no push sent it for a period that shares an instant
   * (an anniversary) with an invoice that carries it.
   */
  lemma {:induction false} FeeBilledOnceIff(s: Store, steps: seq<Step>, id: string)
    requires Initial(s)
    ensures FeeBilledOnce(After(s, steps), id) <==> Never(Repeating(id), s, steps)
  {
    if steps == [] {
    } else {
      var init, step := steps[..|steps| - 1], steps[|steps| - 1];
      var before := After(s, init);
      FeeBilledOnceIff(s, init, id);
      AlwaysSound(s, init);
      if FeeBilledOnce(before, id) {
        FeeStep(before, step, id);
      } else {
        var t :| Owed(before.agreements[id], t) && BillsAt(before.invoices, id, t) > 1;
        BillsNeverFall(before, step, id, t);
        SameTerms(before, step);
      }
    }
  }

  // ----- Fees on runs are due in the run's period -----

  ghost predicate DueThere(agreements: map<string, Agreement>, period: Period, claims: seq<Claim>) {
    forall c :: c in claims && c.thing.Recurring? ==> c.thing.id in agreements && RecurringDue(agreements[c.thing.id], period)
  }

  /** Runs and invoices charge for fees that are due in their period, and invoices for each thing once. */
  ghost predicate EachBillDue(s: Store) {
    && (forall r :: r in s.runs ==> DueThere(s.agreements, s.runs[r].period, ClaimsOn(s.runs[r].lines)))
    && (forall i :: 0 <= i < |s.invoices| ==> InvoiceDue(s.agreements, s.invoices[i]))
  }

  ghost predicate InvoiceDue(agreements: map<string, Agreement>, invoice: Invoice) {
    DueThere(agreements, invoice.period, ClaimsOn(invoice.lines)) && OnceEach(ClaimsOn(invoice.lines))
  }

  lemma DuePart(agreements: map<string, Agreement>, period: Period, a: seq<RunLine>, b: seq<RunLine>)
    requires Part(a, b) && DueThere(agreements, period, ClaimsOn(b))
    ensures DueThere(agreements, period, ClaimsOn(a))
  {
  }

  lemma LineStepDue(s: Store, step: Step)
    requires EachBillDue(s) && (step.EditLine? || step.AddManual? || step.DeleteManual?)
    ensures EachBillDue(Apply(s, step))
  {
    if Enabled(s, step) {
      var s' := Apply(s, step);
      LineStepPart(s, step);
      assert DueThere(s.agreements, s.runs[step.runId].period, ClaimsOn(s.runs[step.runId].lines));
      DuePart(s.agreements, s.runs[step.runId].period, s'.runs[step.runId].lines, s.runs[step.runId].lines);
    }
  }

  lemma PushDue(s: Store, step: Step)
    requires Sound(s) && EachBillDue(s) && Sends(s, step)
    ensures EachBillDue(Apply(s, step))
  {
    SentIsDue(s, step);
    InvoicesAfter(s, step);
    SameTerms(s, step);
    LinesKept(s, step);
  }

  lemma SentIsDue(s: Store, step: Step)
    requires Sound(s) && EachBillDue(s) && Sends(s, step)
    ensures InvoiceDue(s.agreements, Sent(s, step))
  {
    var run := s.runs[step.runId];
    assert LinesSound(s, run.lines) && DueThere(s.agreements, run.period, ClaimsOn(run.lines));
    EligiblePart(run.lines);
    SentSound(s, run.lines);
    DuePart(s.agreements, run.period, Eligible(run.lines), run.lines);
  }

  /** A push changes no run's lines or period. */
  lemma LinesKept(s: Store, step: Step)
    requires Sends(s, step)
    ensures Apply(s, step).runs.Keys == s.runs.Keys
    ensures forall r :: r in s.runs ==> Apply(s, step).runs[r].lines == s.runs[r].lines && Apply(s, step).runs[r].period == s.runs[r].period
  {
  }

  lemma GenerateDue(s: Store, step: Step)
    requires EachBillDue(s) && step.Generate?
    ensures EachBillDue(Apply(s, step))
  {
    if Enabled(s, step) {
      forall c | c in ClaimsOn(step.lines) && c.thing.Recurring?
        ensures c.thing.id in s.agreements && RecurringDue(s.agreements[c.thing.id], step.period)
      {
        assert Ready(s, step.period, c.thing);
      }
      assert DueThere(s.agreements, step.period, ClaimsOn(step.lines));
    }
  }

  lemma StepDue(s: Store, step: Step)
    requires Sound(s) && EachBillDue(s)
    ensures EachBillDue(Apply(s, step))
  {
    if step.EditLine? || step.AddManual? || step.DeleteManual? {
      LineStepDue(s, step);
    } else if step.Generate? {
      GenerateDue(s, step);
    } else if Sends(s, step) {
      PushDue(s, step);
    }
  }

  lemma {:induction false} AlwaysDue(s: Store, steps: seq<Step>)
    requires Initial(s)
    ensures EachBillDue(After(s, steps))
  {
    if steps == [] {
    } else {
      AlwaysDue(s, steps[..|steps| - 1]);
      AlwaysSound(s, steps[..|steps| - 1]);
      StepDue(After(s, steps[..|steps| - 1]), steps[|steps| - 1]);
    }
  }

  // ----- How many anniversaries the fees of a yearly agreement bill -----

  /** The anniversaries in the periods of the invoices that carry the fee, by year. */
  function YearsBilled(invoices: seq<Invoice>, id: string, d: Date): set<int> {
    if invoices == [] then {}
    else
      var last := invoices[|invoices| - 1];
      YearsBilled(invoices[..|invoices| - 1], id, d)
      + if Carries(last.lines, id) then Anniversaries.YearsDue(d, last.period.start, last.period.end) else {}
  }

  lemma {:induction false} YearsBilledAre(invoices: seq<Invoice>, id: string, d: Date, y: int)
    ensures y in YearsBilled(invoices, id, d) <==> BillsAt(invoices, id, Anniversaries.Anniversary(d, y)) > 0
  {
    if invoices == [] {
    } else {
      var init, last := invoices[..|invoices| - 1], invoices[|invoices| - 1];
      YearsBilledAre(init, id, d, y);
      Anniversaries.YearsDueAre(d, last.period.start, last.period.end);
      CountedIffClaimed(ClaimsOn(last.lines), Recurring(id));
      BillsAtIff(init, id, Anniversaries.Anniversary(d, y));
    }
  }

  /** No period of an invoice with the fee holds two anniversaries. */
  ghost predicate SingleYears(invoices: seq<Invoice>, id: string, d: Date) {
    forall i :: 0 <= i < |invoices| && Carries(invoices[i].lines, id) ==>
      |Anniversaries.YearsDue(d, invoices[i].period.start, invoices[i].period.end)| <= 1
  }

  ghost predicate YearlyBills(invoices: seq<Invoice>, id: string, d: Date) {
    && (forall i :: 0 <= i < |invoices| && Carries(invoices[i].lines, id) ==>
          Anniversaries.Due(d, invoices[i].period.start, invoices[i].period.end) && OnceEach(ClaimsOn(invoices[i].lines)))
    && (forall y :: BillsAt(invoices, id, Anniversaries.Anniversary(d, y)) <= 1)
  }

  lemma YearlyBillsInit(invoices: seq<Invoice>, id: string, d: Date)
    requires invoices != [] && YearlyBills(invoices, id, d)
    ensures YearlyBills(invoices[..|invoices| - 1], id, d)
  {
    var init, last := invoices[..|invoices| - 1], invoices[|invoices| - 1];
    assert forall i :: 0 <= i < |init| ==> init[i] == invoices[i];
    forall y ensures BillsAt(init, id, Anniversaries.Anniversary(d, y)) <= 1 {
      CountedIffClaimed(ClaimsOn(last.lines), Recurring(id));
      assert BillsAt(invoices, id, Anniversaries.Anniversary(d, y)) <= 1;
    }
  }

  lemma YearsApart(invoices: seq<Invoice>, id: string, d: Date)
    requires invoices != [] && YearlyBills(invoices, id, d) && Carries(invoices[|invoices| - 1].lines, id)
    ensures var last := invoices[|invoices| - 1].period;
            YearsBilled(invoices[..|invoices| - 1], id, d) !! Anniversaries.YearsDue(d, last.start, last.end)
  {
    var init, last := invoices[..|invoices| - 1], invoices[|invoices| - 1].period;
    Anniversaries.YearsDueAre(d, last.start, last.end);
    forall y | y in Anniversaries.YearsDue(d, last.start, last.end) ensures y !in YearsBilled(init, id, d) {
      YearsBilledAre(init, id, d, y);
      assert BillsAt(invoices, id, Anniversaries.Anniversary(d, y)) <= 1;
    }
  }

  lemma SingleYearsLast(invoices: seq<Invoice>, id: string, d: Date)
    requires invoices != []
    ensures var last := invoices[|invoices| - 1];
            SingleYears(invoices, id, d) <==>
              SingleYears(invoices[..|invoices| - 1], id, d)
              && (Carries(last.lines, id) ==> |Anniversaries.YearsDue(d, last.period.start, last.period.end)| <= 1)
  {
    var init := invoices[..|invoices| - 1];
    assert forall i :: 0 <= i < |init| ==> init[i] == invoices[i];
  }

  /** The last invoice adds one fee and the anniversaries of its period, or neither. */
  lemma LastYears(invoices: seq<Invoice>, id: string, d: Date)
    requires invoices != [] && YearlyBills(invoices, id, d)
    ensures var init, last := invoices[..|invoices| - 1], invoices[|invoices| - 1];
            var years := if Carries(last.lines, id) then |Anniversaries.YearsDue(d, last.period.start, last.period.end)| else 0;
            && |YearsBilled(invoices, id, d)| == |YearsBilled(init, id, d)| + years
            && Count(AllClaims(invoices), Recurring(id)) == Count(AllClaims(init), Recurring(id)) + (if Carries(last.lines, id) then 1 else 0)
            && (Carries(last.lines, id) ==> years >= 1)
  {
    var init, last := invoices[..|invoices| - 1], invoices[|invoices| - 1];
    CountJoin(AllClaims(init), ClaimsOn(last.lines), Recurring(id));
    CountedNotNegative(last.lines, id);
    if Carries(last.lines, id) {
      YearsApart(invoices, id, d);
      Anniversaries.DueMeansSome(d, last.period.start, last.period.end);
      assert OnceEach(ClaimsOn(last.lines));
    }
  }

  lemma {:induction false} YearsCounted(invoices: seq<Invoice>, id: string, d: Date)
    requires YearlyBills(invoices, id, d)
    ensures Count(AllClaims(invoices), Recurring(id)) <= |YearsBilled(invoices, id, d)|
    ensures Count(AllClaims(invoices), Recurring(id)) == |YearsBilled(invoices, id, d)| <==> SingleYears(invoices, id, d)
  {
    if invoices == [] {
    } else {
      YearlyBillsInit(invoices, id, d);
      YearsCounted(invoices[..|invoices| - 1], id, d);
      SingleYearsLast(invoices, id, d);
      LastYears(invoices, id, d);
    }
  }

  lemma YearlyInvoices(s: Store, id: string)
    requires EachBillDue(s) && id in s.agreements && s.agreements[id].yearly && FeeBilledOnce(s, id)
    ensures YearlyBills(s.invoices, id, s.agreements[id].startDay)
  {
    var d := s.agreements[id].startDay;
    forall i | 0 <= i < |s.invoices| && Carries(s.invoices[i].lines, id)
      ensures Anniversaries.Due(d, s.invoices[i].period.start, s.invoices[i].period.end) && OnceEach(ClaimsOn(s.invoices[i].lines))
    {
      CountedIffClaimed(ClaimsOn(s.invoices[i].lines), Recurring(id));
      assert InvoiceDue(s.agreements, s.invoices[i]);
    }
    forall y ensures BillsAt(s.invoices, id, Anniversaries.Anniversary(d, y)) <= 1 {
      assert Owed(s.agreements[id], Anniversaries.Anniversary(d, y));
    }
  }

  /**
   * Over every history that repeats no fee, a yearly agreement is charged for at most as
   * often as there are anniversaries in its invoices' periods, and exactly as often if and
   * only if none of those periods holds two.
   */
  lemma YearlyFeesCounted(s: Store, steps: seq<Step>, id: string)
    requires Initial(s) && id in s.agreements && s.agreements[id].yearly && Never(Repeating(id), s, steps)
    ensures var now, d := After(s, steps), s.agreements[id].startDay;
            && TimesInvoiced(now, Recurring(id)) <= |YearsBilled(now.invoices, id, d)|
            && (TimesInvoiced(now, Recurring(id)) == |YearsBilled(now.invoices, id, d)| <==> SingleYears(now.invoices, id, d))
  {
    FeeBilledOnceIff(s, steps, id);
    AlwaysDue(s, steps);
    SameTermsAfter(s, steps);
    YearlyInvoices(After(s, steps), id);
    YearsCounted(After(s, steps).invoices, id, s.agreements[id].startDay);
  }

  // ----- Runs of consecutive periods -----

  /** Invoices of consecutive periods, with the fee on each whose period holds an anniversary. */
  ghost predicate Consecutive(invoices: seq<Invoice>, bounds: seq<int>, id: string, d: Date) {
    && |bounds| == |invoices| + 1
    && (forall k :: 0 <= k < |invoices| ==> invoices[k].period == Period(bounds[k], bounds[k + 1]) && bounds[k] <= bounds[k + 1])
    && (forall k :: 0 <= k < |invoices| ==>
          Count(ClaimsOn(invoices[k].lines), Recurring(id)) == if Anniversaries.Due(d, bounds[k], bounds[k + 1]) then 1 else 0)
  }

  lemma ConsecutiveInit(invoices: seq<Invoice>, bounds: seq<int>, id: string, d: Date)
    requires invoices != [] && Consecutive(invoices, bounds, id, d)
    ensures Consecutive(invoices[..|invoices| - 1], bounds[..|bounds| - 1], id, d)
  {
  }

  lemma {:induction false} EachAnniversaryOnce(invoices: seq<Invoice>, bounds: seq<int>, id: string, d: Date, y: int)
    requires Consecutive(invoices, bounds, id, d)
    ensures bounds[0] <= bounds[|bounds| - 1]
    ensures BillsAt(invoices, id, Anniversaries.Anniversary(d, y))
         == if bounds[0] <= Anniversaries.Anniversary(d, y) < bounds[|bounds| - 1] then 1 else 0
  {
    if invoices == [] {
    } else {
      ConsecutiveInit(invoices, bounds, id, d);
      EachAnniversaryOnce(invoices[..|invoices| - 1], bounds[..|bounds| - 1], id, d, y);
      assert invoices[|invoices| - 1].period == Period(bounds[|bounds| - 2], bounds[|bounds| - 1]);
    }
  }

  lemma {:induction false} FeesAreDuePeriods(invoices: seq<Invoice>, bounds: seq<int>, id: string, d: Date)
    requires Consecutive(invoices, bounds, id, d)
    ensures Count(AllClaims(invoices), Recurring(id)) == Anniversaries.DuePeriods(d, bounds)
  {
    if invoices == [] {
    } else {
      var init, last := invoices[..|invoices| - 1], invoices[|invoices| - 1];
      ConsecutiveInit(invoices, bounds, id, d);
      FeesAreDuePeriods(init, bounds[..|bounds| - 1], id, d);
      CountJoin(AllClaims(init), ClaimsOn(last.lines), Recurring(id));
      assert bounds[..|bounds| - 1][|bounds| - 2] == bounds[|bounds| - 2];
    }
  }

  /**
   * Runs pushed for consecutive periods, with the fee on each that holds an anniversary, bill
   * every anniversary once; with no period longer than 365 days there is one fee for each.
   */
  lemma ConsecutiveFees(s: Store, steps: seq<Step>, id: string, bounds: seq<int>)
    requires Initial(s) && id in s.agreements && s.agreements[id].yearly
    requires var invoices, d := After(s, steps).invoices, s.agreements[id].startDay;
             && |bounds| == |invoices| + 1
             && (forall k :: 0 <= k < |invoices| ==> invoices[k].period == Period(bounds[k], bounds[k + 1]) && bounds[k] <= bounds[k + 1])
             && (forall k :: 0 <= k < |invoices| && Anniversaries.Due(d, bounds[k], bounds[k + 1]) ==> Carries(invoices[k].lines, id))
    ensures var invoices, d := After(s, steps).invoices, s.agreements[id].startDay;
            && (forall y :: bounds[0] <= Anniversaries.Anniversary(d, y) < bounds[|bounds| - 1] ==>
                  BillsAt(invoices, id, Anniversaries.Anniversary(d, y)) == 1)
            && ((forall k :: 0 < k < |bounds| ==> bounds[k] <= bounds[k - 1] + 365 * Anniversaries.DAY_MS) ==>
                  TimesInvoiced(After(s, steps), Recurring(id)) == |Anniversaries.YearsDue(d, bounds[0], bounds[|bounds| - 1])|)
  {
    var now, d := After(s, steps), s.agreements[id].startDay;
    AlwaysDue(s, steps);
    SameTermsAfter(s, steps);
    FeesWhereDue(now, id, bounds);
    forall y | bounds[0] <= Anniversaries.Anniversary(d, y) < bounds[|bounds| - 1]
      ensures BillsAt(now.invoices, id, Anniversaries.Anniversary(d, y)) == 1
    {
      EachAnniversaryOnce(now.invoices, bounds, id, d, y);
    }
    FeesAreDuePeriods(now.invoices, bounds, id, d);
    if forall k :: 0 < k < |bounds| ==> bounds[k] <= bounds[k - 1] + 365 * Anniversaries.DAY_MS {
      forall k | 0 < k < |bounds| ensures bounds[k - 1] <= bounds[k] {
        assert now.invoices[k - 1].period == Period(bounds[k - 1], bounds[k - 1 + 1]);
      }
      Anniversaries.BilledOncePerAnniversary(d, bounds);
    }
  }

  lemma FeesWhereDue(s: Store, id: string, bounds: seq<int>)
    requires EachBillDue(s) && id in s.agreements && s.agreements[id].yearly && |bounds| == |s.invoices| + 1
    requires forall k :: 0 <= k < |s.invoices| ==> s.invoices[k].period == Period(bounds[k], bounds[k + 1]) && bounds[k] <= bounds[k + 1]
    requires var d := s.agreements[id].startDay;
             forall k :: 0 <= k < |s.invoices| && Anniversaries.Due(d, bounds[k], bounds[k + 1]) ==> Carries(s.invoices[k].lines, id)
    ensures Consecutive(s.invoices, bounds, id, s.agreements[id].startDay)
  {
    var d := s.agreements[id].startDay;
    forall k | 0 <= k < |s.invoices|
      ensures Count(ClaimsOn(s.invoices[k].lines), Recurring(id)) == if Anniversaries.Due(d, bounds[k], bounds[k + 1]) then 1 else 0
    {
      CountedIffClaimed(ClaimsOn(s.invoices[k].lines), Recurring(id));
      assert InvoiceDue(s.agreements, s.invoices[k]);
    }
  }

  // ----- A discipline under which no fee is repeated -----

  predicate WillCarry(s: Store, r: nat, id: string) {
    Unsent(s, r) && Carries(s.runs[r].lines, id)
  }

  /** A run that could still be sent carries the fee for a period that bills for the same. */
  ghost predicate Planned(s: Store, id: string, a: Agreement, period: Period) {
    exists r :: WillCarry(s, r, id) && Share(a, s.runs[r].period, period)
  }

  /** Generates a fee that is planned or billed already, or pushes a run that has an invoice, recorded or not. */
  ghost predicate CarelessFee(s: Store, step: Step, id: string) {
    || (step.Generate? && id in s.agreements && Carries(step.lines, id)
        && (Planned(s, id, s.agreements[id], step.period) || BilledFor(s.invoices, id, s.agreements[id], step.period)))
    || (step.Push? && HasInvoice(s.invoices, step.runId))
  }

  ghost function CarelessAbout(id: string): (Store, Step) -> bool {
    (s: Store, step: Step) => CarelessFee(s, step, id)
  }

  /** Unsent runs with the fee bill for what no invoice and no other unsent run bills for. */
  ghost predicate FeeApart(s: Store, id: string) {
    id in s.agreements ==>
      var a := s.agreements[id];
      && (forall r :: WillCarry(s, r, id) ==> !BilledFor(s.invoices, id, a, s.runs[r].period))
      && (forall q, r :: q != r && WillCarry(s, q, id) && WillCarry(s, r, id) ==> !Share(a, s.runs[q].period, s.runs[r].period))
  }

  /** A step that sends nothing, after which every run that will carry the fee is one that would have. */
  lemma CarryLess(s: Store, s': Store, id: string)
    requires FeeApart(s, id) && s'.agreements == s.agreements && s'.invoices == s.invoices
    requires forall r :: WillCarry(s', r, id) ==> WillCarry(s, r, id) && s'.runs[r].period == s.runs[r].period
    ensures FeeApart(s', id)
  {
  }

  lemma ShareSymmetric(a: Agreement, p: Period, q: Period)
    ensures Share(a, p, q) <==> Share(a, q, p)
  {
    ShareIff(a, p, q);
    ShareIff(a, q, p);
  }

  lemma GenerateKeepsFeeApart(s: Store, step: Step, id: string)
    requires FeeApart(s, id) && step.Generate? && Enabled(s, step) && !CarelessFee(s, step, id)
    ensures FeeApart(Apply(s, step), id)
  {
    if id in s.agreements {
      var s', a := Apply(s, step), s.agreements[id];
      forall q | WillCarry(s', q, id) && q != step.runId && WillCarry(s', step.runId, id)
        ensures !Share(a, s.runs[q].period, step.period) && !Share(a, step.period, s.runs[q].period)
      {
        assert WillCarry(s, q, id);
        ShareSymmetric(a, s.runs[q].period, step.period);
      }
      forall q | WillCarry(s', q, id) && q != step.runId ensures WillCarry(s, q, id) {
      }
    }
  }

  lemma BilledForMore(invoices: seq<Invoice>, invoice: Invoice, id: string, a: Agreement, period: Period)
    ensures BilledFor(invoices + [invoice], id, a, period) <==>
              BilledFor(invoices, id, a, period) || (Carries(invoice.lines, id) && Share(a, invoice.period, period))
  {
    var more := invoices + [invoice];
    assert more[|invoices|] == invoice && forall i :: 0 <= i < |invoices| ==> more[i] == invoices[i];
  }

  lemma SentWouldCarry(s: Store, step: Step, id: string)
    requires Sends(s, step) && !HasInvoice(s.invoices, step.runId) && Carries(Sent(s, step).lines, id)
    ensures WillCarry(s, step.runId, id)
  {
    SentIsOnRun(s, step, Recurring(id));
  }

  /** What carries the fee after a push would have before, and bills for nothing that went out. */
  lemma StillApart(s: Store, step: Step, id: string, q: nat)
    requires FeeApart(s, id) && id in s.agreements && Sends(s, step) && !HasInvoice(s.invoices, step.runId)
    requires WillCarry(Apply(s, step), q, id)
    ensures WillCarry(s, q, id) && Apply(s, step).runs[q].period == s.runs[q].period
    ensures !BilledFor(s.invoices + [Sent(s, step)], id, s.agreements[id], s.runs[q].period)
  {
    StillUnsent(s, step, q);
    LinesKept(s, step);
    assert WillCarry(s, q, id);
    BilledForMore(s.invoices, Sent(s, step), id, s.agreements[id], s.runs[q].period);
    if Carries(Sent(s, step).lines, id) {
      SentWouldCarry(s, step, id);
    }
  }

  lemma PushKeepsFeeApart(s: Store, step: Step, id: string)
    requires FeeApart(s, id) && Sends(s, step) && !HasInvoice(s.invoices, step.runId)
    ensures FeeApart(Apply(s, step), id)
  {
    SameTerms(s, step);
    InvoicesAfter(s, step);
    if id in s.agreements {
      forall q | WillCarry(Apply(s, step), q, id)
        ensures WillCarry(s, q, id) && Apply(s, step).runs[q].period == s.runs[q].period
        ensures !BilledFor(Apply(s, step).invoices, id, s.agreements[id], s.runs[q].period)
      {
        StillApart(s, step, id, q);
      }
    }
  }

  /** Other steps leave a run that will carry the fee as it was, or one that would have. */
  lemma CarriedBefore(s: Store, step: Step, id: string, r: nat)
    requires !step.Generate? && !Sends(s, step) && WillCarry(Apply(s, step), r, id)
    ensures WillCarry(s, r, id) && Apply(s, step).runs[r].period == s.runs[r].period
  {
    HeldBefore(s, step, r, Recurring(id));
  }

  lemma StepKeepsFeeApart(s: Store, step: Step, id: string)
    requires FeeApart(s, id) && !CarelessFee(s, step, id)
    ensures FeeApart(Apply(s, step), id)
  {
    if step.Generate? && Enabled(s, step) {
      GenerateKeepsFeeApart(s, step, id);
    } else if Sends(s, step) {
      PushKeepsFeeApart(s, step, id);
    } else if !step.Generate? {
      SameTerms(s, step);
      InvoicesAfter(s, step);
      forall r | WillCarry(Apply(s, step), r, id) ensures WillCarry(s, r, id) && Apply(s, step).runs[r].period == s.runs[r].period {
        CarriedBefore(s, step, id, r);
      }
      CarryLess(s, Apply(s, step), id);
    }
  }

  lemma CarefulRepeatsNothing(s: Store, step: Step, id: string)
    requires FeeApart(s, id) && !CarelessFee(s, step, id)
    ensures !Repeats(s, step, id)
  {
    if Repeats(s, step, id) {
      SentWouldCarry(s, step, id);
      assert false;
    }
  }

  /** Under that discipline no agreement's month or anniversary is charged for twice. */
  lemma {:induction false} CarefulFeeBilledOnce(s: Store, steps: seq<Step>, id: string)
    requires Initial(s) && Never(CarelessAbout(id), s, steps)
    ensures FeeApart(After(s, steps), id) && Never(Repeating(id), s, steps) && FeeBilledOnce(After(s, steps), id)
  {
    FeeBilledOnceIff(s, steps, id);
    if steps == [] {
    } else {
      var init, step := steps[..|steps| - 1], steps[|steps| - 1];
      CarefulFeeBilledOnce(s, init, id);
      StepKeepsFeeApart(After(s, init), step, id);
      CarefulRepeatsNothing(After(s, init), step, id);
    }
  }
}
