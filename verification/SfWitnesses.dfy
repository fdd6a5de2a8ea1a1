// Short histories of billing runs that break what a reader of the store might expect.
module SfWitnesses {
  import opened Agreements
  import Anniversaries
  import Fees
  import SfGenerate
  import opened SfFees
  import opened SfRecurring
  import opened SfRuns
  import opened SfStore
  import opened Wrappers

  function Hour(): SfGenerate.TimeEntry {
    SfGenerate.TimeEntry("te1", 0, 10_000, None, true, "cc", None, None, None)
  }

  /** One hour of `te1`, mapped to a QuickBooks item. */
  function Mapped(): RunLine {
    RunLine(HOURS(SfGenerate.TIME), 10_000, 10_000, Some("item"), [("te1", 10_000)])
  }

  /** A line no QuickBooks item is mapped to. */
  function Unmapped(): RunLine {
    RunLine(PROJECT_DEPOSIT("p1"), 10_000, 10_000, None, [])
  }

  function Month(): Period {
    Period(0, 31 * Anniversaries.DAY_MS)
  }

  function Nothing(): Store {
    Store(map[], map[], {}, {}, map[], map[], [])
  }

  function WithHour(status: EntryStatus): Store {
    Nothing().(entries := map["te1" := Entry(Hour(), status)])
  }

  /** The hour has been logged, submitted and approved. */
  lemma HourApproved() returns (steps: seq<Step>)
    ensures After(Nothing(), steps) == WithHour(READY)
  {
    var saved := [] + [SaveEntry(Hour())];
    AfterOneMore(Nothing(), [], SaveEntry(Hour()));
    var submitted := MoveHour(saved, DRAFTED, SUBMITTED);
    steps := MoveHour(submitted, SUBMITTED, READY);
  }

  lemma MoveHour(steps: seq<Step>, from: EntryStatus, to: EntryStatus) returns (more: seq<Step>)
    requires After(Nothing(), steps) == WithHour(from) && to in EntryMoves(from)
    ensures After(Nothing(), more) == WithHour(to)
  {
    more := steps + [MoveEntry("te1", to)];
    AfterOneMore(Nothing(), steps, MoveEntry("te1", to));
    HourMoves(from, to);
  }

  lemma HourMoves(from: EntryStatus, to: EntryStatus)
    requires to in EntryMoves(from)
    ensures Apply(WithHour(from), MoveEntry("te1", to)) == WithHour(to)
  {
    assert map["te1" := Entry(Hour(), from)]["te1" := Entry(Hour(), to)] == map["te1" := Entry(Hour(), to)];
  }

  lemma MappedLine()
    ensures LineClaims(Mapped()) == [Claim(Time("te1"), 10_000)] && FeeOf(Mapped()) == []
    ensures LineClaims(Unmapped()) == [Claim(Deposit("p1"), 0)] && FeeOf(Unmapped()) == []
  {
    assert TimeClaims(Mapped().entries) == [Claim(Time("te1"), 10_000)] + TimeClaims([]);
  }

  lemma MappedClaims(lines: seq<RunLine>)
    requires lines == [Mapped()] || lines == [Mapped(), Unmapped()]
    ensures Eligible(lines) == [Mapped()] && FeesOn(lines) == []
    ensures ClaimsOn([Mapped()]) == [Claim(Time("te1"), 10_000)]
    ensures ClaimsOn(lines) == [Claim(Time("te1"), 10_000)] + if |lines| == 1 then [] else [Claim(Deposit("p1"), 0)]
  {
    MappedLine();
    OneLineOn(Mapped());
    if |lines| == 2 {
      OneLineOn(Unmapped());
      assert lines == [Mapped()] + [Unmapped()];
      ClaimsCons(Mapped(), [Unmapped()]);
    }
    MappedEligible(lines);
  }

  lemma MappedEligible(lines: seq<RunLine>)
    requires lines == [Mapped()] || lines == [Mapped(), Unmapped()]
    ensures Eligible(lines) == [Mapped()]
  {
    EligibleHead(lines);
    if |lines| == 2 {
      EligibleHead(lines[1..]);
    }
  }

  lemma MappedGenerable(s: Store, lines: seq<RunLine>)
    requires lines == [Mapped()] || lines == [Mapped(), Unmapped()]
    requires "te1" in s.entries && s.entries["te1"] == Entry(Hour(), READY) && s.deposits == {}
    ensures Generable(s, Month(), lines)
  {
    MappedClaims(lines);
    NoFees(s, Month());
    MappedOnce(ClaimsOn(lines));
    MappedReady(s, ClaimsOn(lines));
  }

  lemma MappedReady(s: Store, claims: seq<Claim>)
    requires claims == [Claim(Time("te1"), 10_000)] || claims == [Claim(Time("te1"), 10_000), Claim(Deposit("p1"), 0)]
    requires "te1" in s.entries && s.entries["te1"] == Entry(Hour(), READY) && s.deposits == {}
    ensures ClaimsReady(s, Month(), claims)
  {
  }

  lemma MappedOnce(claims: seq<Claim>)
    requires claims == [Claim(Time("te1"), 10_000)] || claims == [Claim(Time("te1"), 10_000), Claim(Deposit("p1"), 0)]
    ensures OnceEach(claims)
  {
    forall t ensures Count(claims, t) <= 1 {
      CountedOne(claims[0], t);
      CountJoin([claims[0]], claims[1..], t);
      assert claims == [claims[0]] + claims[1..];
      if |claims| > 1 {
        CountedOne(claims[1], t);
        assert claims[1..] == [claims[1]];
      }
    }
  }

  lemma StepTo(s: Store, steps: seq<Step>, r: nat, run: Run, to: Status) returns (more: seq<Step>)
    requires r in After(s, steps).runs && After(s, steps).runs[r] == run && to in Transitions(run.status)
    ensures more == steps + [Transition(r, to)]
    ensures After(s, more) == After(s, steps).(runs := After(s, steps).runs[r := Moved(run, to)])
  {
    more := steps + [Transition(r, to)];
    AfterOneMore(s, steps, Transition(r, to));
  }

  function Draft(period: Period, lines: seq<RunLine>): Run {
    Run(DRAFT, period, lines, false, None)
  }

  function Passed(period: Period, lines: seq<RunLine>): Run {
    Run(APPROVED, period, lines, false, Some(lines))
  }

  /** A run generated, reviewed and approved, on top of any history. */
  lemma Approve(s: Store, steps: seq<Step>, r: nat, period: Period, lines: seq<RunLine>) returns (more: seq<Step>)
    requires Enabled(After(s, steps), Generate(r, period, lines))
    ensures After(s, more) == After(s, steps).(runs := After(s, steps).runs[r := Passed(period, lines)])
    ensures more == steps + [Generate(r, period, lines)] + [Transition(r, REVIEWED)] + [Transition(r, APPROVED)]
  {
    var generated := steps + [Generate(r, period, lines)];
    AfterOneMore(s, steps, Generate(r, period, lines));
    var reviewed := StepTo(s, generated, r, Draft(period, lines), REVIEWED);
    more := StepTo(s, reviewed, r, Moved(Draft(period, lines), REVIEWED), APPROVED);
  }

  /** Each push of the mapped line that goes out charges for the hour once more. */
  lemma PushAgain(s: Store, steps: seq<Step>, r: nat, lines: seq<RunLine>, outcome: Outcome) returns (more: seq<Step>)
    requires lines == [Mapped()] || lines == [Mapped(), Unmapped()]
    requires var now := After(s, steps); r in now.runs && now.runs[r].lines == lines && CanPush(now.runs[r].status)
    requires outcome != REFUSED
    ensures more == steps + [Push(r, outcome)]
    ensures var now := After(s, steps);
            && After(s, more) == (if outcome == RECORDED then Invoiced(now, r, Eligible(lines)) else Lost(now, r, Eligible(lines)))
            && TimesInvoiced(After(s, more), Time("te1")) == TimesInvoiced(now, Time("te1")) + 1
  {
    more := steps + [Push(r, outcome)];
    AfterOneMore(s, steps, Push(r, outcome));
    MappedClaims(lines);
    CountsAfter(After(s, steps), Push(r, outcome), Time("te1"));
    CountedOne(Claim(Time("te1"), 10_000), Time("te1"));
  }

  /** The commit after the invoice fails, and the retry that is offered then bills the hour again; nothing was marked. */
  lemma RetryAfterLostCommit() returns (lost: seq<Step>, retried: seq<Step>)
    ensures Initial(Nothing())
    ensures TimesInvoiced(After(Nothing(), lost), Time("te1")) == 1 && !IsBilled(After(Nothing(), lost), Time("te1"))
    ensures retried == lost + [Push(1, RECORDED)] && Enabled(After(Nothing(), lost), Push(1, RECORDED))
    ensures TimesInvoiced(After(Nothing(), retried), Time("te1")) == 2
  {
    var lines := [Mapped()];
    var approved := HourApproved();
    MappedGenerable(After(Nothing(), approved), lines);
    var ready := Approve(Nothing(), approved, 1, Month(), lines);
    MappedClaims(lines);
    lost := PushAgain(Nothing(), ready, 1, lines, UNRECORDED);
    assert After(Nothing(), lost).runs[1] == Passed(Month(), lines).(status := PARTIALLY_FAILED);
    retried := PushAgain(Nothing(), lost, 1, lines, RECORDED);
  }

  /** One mapped line and one unmapped: the first push sends the mapped one, the retry sends it again. */
  lemma RetryBillsTwice() returns (steps: seq<Step>)
    ensures Initial(Nothing()) && TimesInvoiced(After(Nothing(), steps), Time("te1")) == 2
  {
    var lines := [Mapped(), Unmapped()];
    var approved := HourApproved();
    MappedGenerable(After(Nothing(), approved), lines);
    var ready := Approve(Nothing(), approved, 1, Month(), lines);
    var pushed := PushAgain(Nothing(), ready, 1, lines, RECORDED);
    MappedClaims(lines);
    assert After(Nothing(), pushed).runs[1].status == PARTIALLY_FAILED;
    steps := PushAgain(Nothing(), pushed, 1, lines, RECORDED);
  }

  /** Two drafts of the same approved hour, both approved and pushed. */
  lemma TwoDraftsBillTwice() returns (steps: seq<Step>)
    ensures Initial(Nothing()) && TimesInvoiced(After(Nothing(), steps), Time("te1")) == 2
  {
    var lines := [Mapped()];
    var approved := HourApproved();
    MappedGenerable(After(Nothing(), approved), lines);
    var first := Approve(Nothing(), approved, 1, Month(), lines);
    MappedGenerable(After(Nothing(), first), lines);
    var second := Approve(Nothing(), first, 2, Month(), lines);
    var pushed := PushAgain(Nothing(), second, 1, lines, RECORDED);
    assert After(Nothing(), pushed).runs[2] == Passed(Month(), lines);
    steps := PushAgain(Nothing(), pushed, 2, lines, RECORDED);
  }

  /** A run of a mapped line, moved to PUSHED by hand: it is finished, and nothing was ever invoiced. */
  lemma PushedByHand() returns (steps: seq<Step>)
    ensures Initial(Nothing())
    ensures var now := After(Nothing(), steps);
            && 1 in now.runs && now.runs[1].status == PUSHED && Eligible(now.runs[1].lines) == [Mapped()]
            && now.invoices == [] && !HasInvoice(now.invoices, 1)
  {
    var lines := [Mapped()];
    var approved := HourApproved();
    MappedGenerable(After(Nothing(), approved), lines);
    var ready := Approve(Nothing(), approved, 1, Month(), lines);
    MappedClaims(lines);
    AfterOneMore(Nothing(), ready, Transition(1, PUSHED));
    steps := ready + [Transition(1, PUSHED)];
  }

  lemma CancelAndDelete(s: Store, steps: seq<Step>, r: nat) returns (more: seq<Step>)
    requires var now := After(s, steps); r in now.runs && now.runs[r].status == PARTIALLY_FAILED
    ensures After(s, more) == After(s, steps).(runs := After(s, steps).runs - {r})
  {
    var cancelled := steps + [Transition(r, CANCELLED)];
    more := cancelled + [DeleteRun(r)];
    AfterOneMore(s, steps, Transition(r, CANCELLED));
    AfterOneMore(s, cancelled, DeleteRun(r));
    var now, later := After(s, steps), After(s, cancelled);
    assert later == now.(runs := now.runs[r := now.runs[r].(status := CANCELLED)]);
    assert After(s, more).runs == now.runs - {r};
  }

  /** A run that went out in part, was cancelled and deleted: its invoice has no run any more. */
  lemma InvoiceForgotten() returns (steps: seq<Step>)
    ensures Initial(Nothing())
    ensures var now := After(Nothing(), steps); 1 !in now.runs && HasInvoice(now.invoices, 1)
  {
    var lines := [Mapped(), Unmapped()];
    var approved := HourApproved();
    MappedGenerable(After(Nothing(), approved), lines);
    var ready := Approve(Nothing(), approved, 1, Month(), lines);
    var pushed := PushAgain(Nothing(), ready, 1, lines, RECORDED);
    MappedClaims(lines);
    InvoiceAdded([], Invoice(1, Month(), [Mapped()], true), 1);
    assert After(Nothing(), pushed).runs[1].status == PARTIALLY_FAILED;
    steps := CancelAndDelete(Nothing(), pushed, 1);
  }

  // ----- A recurring fee that goes out twice -----

  function FeeLine(id: string): RunLine {
    RunLine(RECURRING(id), 10_000, 10_000, Some("item"), [])
  }

  function OneAgreement(id: string, a: Agreement): Store {
    Nothing().(agreements := map[id := a])
  }

  lemma FeeClaims(id: string)
    ensures Eligible([FeeLine(id)]) == [FeeLine(id)] && FeesOn([FeeLine(id)]) == []
    ensures ClaimsOn([FeeLine(id)]) == [Claim(Recurring(id), 0)]
    ensures forall t :: Count(ClaimsOn([FeeLine(id)]), t) == if t == Recurring(id) then 1 else 0
  {
    assert [FeeLine(id)][1..] == [];
    OneLineOn(FeeLine(id));
    assert ClaimsOn([FeeLine(id)]) == [Claim(Recurring(id), 0)];
    forall t ensures Count(ClaimsOn([FeeLine(id)]), t) == if t == Recurring(id) then 1 else 0 {
      CountedOne(Claim(Recurring(id), 0), t);
    }
  }

  lemma FeeGenerable(s: Store, id: string, period: Period)
    requires id in s.agreements && RecurringDue(s.agreements[id], period)
    ensures Generable(s, period, [FeeLine(id)])
  {
    FeeClaims(id);
    NoFees(s, period);
  }

  /** Neither the discipline of SfRuns is broken nor anything marked sent again. */
  ghost predicate Blameless(s: Store, steps: seq<Step>) {
    Never(Careless, s, steps) && Never(SendsBilled, s, steps)
  }

  lemma BlamelessStep(s: Store, steps: seq<Step>, step: Step)
    requires Blameless(s, steps) && !Careless(After(s, steps), step) && !SendsBilled(After(s, steps), step)
    ensures Blameless(s, steps + [step])
  {
    assert (steps + [step])[..|steps|] == steps;
  }

  /** A run of the fee alone, generated and approved. */
  lemma FeeApproved(s: Store, steps: seq<Step>, r: nat, id: string, period: Period) returns (more: seq<Step>)
    requires Enabled(After(s, steps), Generate(r, period, [FeeLine(id)])) && Blameless(s, steps)
    ensures After(s, more) == After(s, steps).(runs := After(s, steps).runs[r := Passed(period, [FeeLine(id)])])
    ensures Blameless(s, more)
  {
    var lines := [FeeLine(id)];
    FeeClaims(id);
    more := Approve(s, steps, r, period, lines);
    BlamelessStep(s, steps, Generate(r, period, lines));
    var generated := steps + [Generate(r, period, lines)];
    BlamelessStep(s, generated, Transition(r, REVIEWED));
    BlamelessStep(s, generated + [Transition(r, REVIEWED)], Transition(r, APPROVED));
  }

  lemma FeePushed(s: Store, steps: seq<Step>, r: nat, id: string, period: Period) returns (more: seq<Step>)
    requires r in After(s, steps).runs && After(s, steps).runs[r] == Passed(period, [FeeLine(id)]) && Blameless(s, steps)
    requires !HasInvoice(After(s, steps).invoices, r)
    ensures var now, later := After(s, steps), After(s, more);
            && later.invoices == now.invoices + [Invoice(r, period, [FeeLine(id)], true)]
            && later.agreements == now.agreements && later.runs.Keys == now.runs.Keys
    ensures Blameless(s, more)
  {
    FeeClaims(id);
    more := steps + [Push(r, RECORDED)];
    AfterOneMore(s, steps, Push(r, RECORDED));
    BlamelessStep(s, steps, Push(r, RECORDED));
  }

  /** A run of the fee alone, generated, approved and pushed. */
  lemma FeeSent(s: Store, steps: seq<Step>, r: nat, id: string, period: Period) returns (more: seq<Step>)
    requires var now := After(s, steps);
             && id in now.agreements && RecurringDue(now.agreements[id], period)
             && r !in now.runs && !HasInvoice(now.invoices, r)
    requires Blameless(s, steps)
    ensures var now, later := After(s, steps), After(s, more);
            && later.invoices == now.invoices + [Invoice(r, period, [FeeLine(id)], true)]
            && later.agreements == now.agreements && later.runs.Keys == now.runs.Keys + {r}
    ensures Blameless(s, more)
  {
    FeeGenerable(After(s, steps), id, period);
    var approved := FeeApproved(s, steps, r, id, period);
    more := FeePushed(s, approved, r, id, period);
  }

  /**
   * Whatever the agreement, and whichever two periods it is due in: a run of each carries
   * the fee, and nothing is refused, marked or called careless. What the periods share is
   * charged for twice.
   */
  lemma FeeGoesOutTwice(id: string, a: Agreement, p: Period, q: Period) returns (steps: seq<Step>)
    requires RecurringDue(a, p) && RecurringDue(a, q)
    ensures Initial(OneAgreement(id, a)) && Blameless(OneAgreement(id, a), steps)
    ensures forall t :: Covers(p, t) && Covers(q, t) ==> BillsAt(After(OneAgreement(id, a), steps).invoices, id, t) == 2
  {
    var s := OneAgreement(id, a);
    var first := FeeSent(s, [], 1, id, p);
    InvoiceAdded([], Invoice(1, p, [FeeLine(id)], true), 2);
    assert [] + [Invoice(1, p, [FeeLine(id)], true)] == [Invoice(1, p, [FeeLine(id)], true)];
    steps := FeeSent(s, first, 2, id, q);
    FeeClaims(id);
    forall t | Covers(p, t) && Covers(q, t) ensures BillsAt(After(s, steps).invoices, id, t) == 2 {
      BillsPushed([], Invoice(1, p, [FeeLine(id)], true), id, t);
      BillsPushed([Invoice(1, p, [FeeLine(id)], true)], Invoice(2, q, [FeeLine(id)], true), id, t);
    }
  }

  /** A monthly fee is charged for twice by two runs of one month, a yearly one by two runs around its anniversary. */
  lemma FeesBilledTwice(yearly: bool) returns (a: Agreement, steps: seq<Step>)
    ensures a.yearly == yearly && Initial(OneAgreement("a", a)) && Blameless(OneAgreement("a", a), steps)
    ensures !FeeBilledOnce(After(OneAgreement("a", a), steps), "a")
  {
    var day := Anniversaries.MonthDay(1, 1);
    a := Agreement(true, Some(1_000_000), yearly, 0, day, None);
    var later := Period(0, 92 * Anniversaries.DAY_MS);
    assert Anniversaries.Anniversary(day, 1970) == 0;
    steps := FeeGoesOutTwice("a", a, Month(), later);
    SameTermsAfter(OneAgreement("a", a), steps);
    assert Owed(a, 0) && Covers(Month(), 0) && Covers(later, 0);
  }

  // ----- A fixed fee whose commit fails -----

  /** A project of 30-day periods from day 0, and one of its periods on a line. */
  function OneProject(): Store {
    Nothing().(projects := map["p1" := Fees.Project(Some(0), None, 30)])
  }

  function PeriodLine(): RunLine {
    RunLine(PROJECT_FEE("p1"), 10_000, 10_000, Some("item"), [])
  }

  lemma PeriodFees()
    ensures Eligible([PeriodLine()]) == [PeriodLine()] && ClaimsOn([PeriodLine()]) == []
    ensures FeesOn([PeriodLine()]) == [("p1", 10_000)] && FeeSum([("p1", 10_000)], "p1") == 10_000
    ensures FeesOnce([("p1", 10_000)])
  {
    assert [PeriodLine()][1..] == [] && [("p1", 10_000)][1..] == [];
    OneLineOn(PeriodLine());
    assert FeeProject(("p1", 10_000)) == "p1" && FeeQuantity(("p1", 10_000)) == 10_000;
    forall p ensures FeeCount([("p1", 10_000)], p) <= 1 {
      assert FeeCount([("p1", 10_000)], p) == (if FeeProject(("p1", 10_000)) == p then 1 else 0) + FeeCount([], p);
    }
  }

  lemma PeriodGenerable()
    ensures Generable(OneProject(), Month(), [PeriodLine()])
  {
    PeriodFees();
    var days := Month().end / Anniversaries.DAY_MS;
    assert days == 31 && Fees.FeePeriodsDue(OneProject().projects["p1"], Month().end) == 1;
    assert forall t :: Count([], t) == 0;
  }

  /** The invoice is there and the watermark stays, so the same stretch is billed by the next run. */
  lemma LostFee() returns (steps: seq<Step>)
    ensures Initial(OneProject()) && After(OneProject(), steps).projects == OneProject().projects
    ensures FeesInvoiced(After(OneProject(), steps), "p1") == 10_000
    ensures !Fees.Tile(Stretches(OneProject(), steps, "p1"), 0, Watermark(After(OneProject(), steps), "p1").value)
  {
    var s := OneProject();
    PeriodFees();
    PeriodGenerable();
    var ready := Approve(s, [], 1, Month(), [PeriodLine()]);
    steps := ready + [Push(1, UNRECORDED)];
    AfterOneMore(s, ready, Push(1, UNRECORDED));
    BilledIsInvoiced(After(s, ready), Push(1, UNRECORDED), "p1");
    assert LosesFee(After(s, ready), Push(1, UNRECORDED), "p1");
    assert steps[..|steps| - 1] == ready;
    FeeStretchesTileIff(s, steps, "p1");
  }
}
