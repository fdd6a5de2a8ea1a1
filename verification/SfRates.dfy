// What becomes of each hour, and at what rate, in terms of the fields of entries,
// agreements and projects (src/lib/sfbilling/generate.ts, section 1 of
// `generateSfBillingLines`).
module SfRates {
  import opened SfGenerate
  import opened SfPricing
  import Sorting
  import opened Sums
  import opened Wrappers

  /** `a` is the agreement an id names: the last one that has it. */
  ghost predicate Names(ctx: Context, id: Option<string>, a: Agreement) {
    && id.Some? && id.value != ""
    && exists i :: 0 <= i < |ctx.agreements| && ctx.agreements[i] == a && a.id == id.value
                   && forall j :: i < j < |ctx.agreements| ==> ctx.agreements[j].id != id.value
  }

  /** The entry is work on a fixed-fee project: the last project that has its project's id is one. */
  ghost predicate OnFixedFee(ctx: Context, id: Option<string>) {
    && id.Some? && id.value != ""
    && exists i :: 0 <= i < |ctx.projects| && ctx.projects[i].id == id.value && ctx.projects[i].fixedFee
                   && forall j :: i < j < |ctx.projects| ==> ctx.projects[j].id != id.value
  }

  lemma {:induction false} LastAgreement(agreements: seq<Agreement>, id: string, a: Agreement)
    ensures AgreementById(agreements, id) == Some(a) <==>
              exists i :: 0 <= i < |agreements| && agreements[i] == a && a.id == id && forall j :: i < j < |agreements| ==> agreements[j].id != id
  {
    if agreements == [] {
    } else {
      var init, last := agreements[..|agreements| - 1], agreements[|agreements| - 1];
      LastAgreement(init, id, a);
      if last.id == id {
        assert agreements[|agreements| - 1].id == id;
      } else {
        assert forall j :: 0 <= j < |init| ==> init[j] == agreements[j];
      }
    }
  }

  lemma {:induction false} LastProject(projects: seq<Project>, id: string)
    ensures ProjectById(projects, id).Some? && ProjectById(projects, id).value.fixedFee <==>
              exists i :: 0 <= i < |projects| && projects[i].id == id && projects[i].fixedFee && forall j :: i < j < |projects| ==> projects[j].id != id
  {
    if projects == [] {
    } else {
      var init, last := projects[..|projects| - 1], projects[|projects| - 1];
      LastProject(init, id);
      if last.id == id {
        assert projects[|projects| - 1].id == id;
      } else {
        assert forall j :: 0 <= j < |init| ==> init[j] == projects[j];
      }
    }
  }

  lemma NamesIs(ctx: Context, id: Option<string>, a: Agreement)
    ensures Names(ctx, id, a) <==> AgreementOf(ctx, id) == Some(a)
  {
    if id.Some? {
      LastAgreement(ctx.agreements, id.value, a);
    }
  }

  lemma OnFixedFeeIs(ctx: Context, id: Option<string>)
    ensures OnFixedFee(ctx, id) <==> IsFixedFee(ctx, id)
  {
    if id.Some? {
      LastProject(ctx.projects, id.value);
    }
  }

  // ----- The rate of a charge -----

  /** Overage is under an agreement that is found, other time under none. */
  ghost predicate KindTells(ctx: Context, charges: seq<Charge>) {
    forall c :: c in charges ==> (c.kind.OVERAGE? <==> AgreementOf(ctx, c.entry.agreementId).Some?)
  }

  lemma StepKind(ctx: Context, capacity: map<string, int>, e: TimeEntry)
    requires CapacityOk(ctx, capacity)
    ensures KindTells(ctx, Apportion1(ctx, capacity, e).charges)
  {
    GatedHasCapacity(ctx, capacity, e);
  }

  lemma {:induction false} ApportionKinds(ctx: Context, capacity: map<string, int>, entries: seq<TimeEntry>)
    requires CapacityOk(ctx, capacity)
    ensures KindTells(ctx, Apportion(ctx, capacity, entries).charges)
  {
    if entries == [] {
    } else {
      var init, e := entries[..|entries| - 1], entries[|entries| - 1];
      ApportionKinds(ctx, capacity, init);
      ApportionKeepsCapacity(ctx, capacity, init);
      StepKind(ctx, Apportion(ctx, capacity, init).capacity, e);
    }
  }

  /**
   * Every charge is some hours of an entry, at a positive rate: the entry's own where it has
   * one; else the agreement's overage rate where it has one, whatever its standard rate; else
   * the standard rate. Without an agreement there is only the entry's own.
   */
  lemma ChargeRates(ctx: Context, timeEntries: seq<TimeEntry>, c: Charge)
    requires c in Apportioned(ctx, timeEntries).charges
    ensures exists e :: e in timeEntries && c.entry == e.(hours := c.entry.hours)
    ensures c.rate > 0
    ensures c.entry.rate.Some? ==> c.rate == c.entry.rate.value
    ensures c.entry.rate.None? ==>
              exists a :: Names(ctx, c.entry.agreementId, a)
                          && (if a.overageRate.Some? then c.rate == a.overageRate.value else a.standardRate == Some(c.rate))
  {
    var capacity, sorted := InitialCapacity(ctx.agreements), OldestFirst(timeEntries);
    InitialCapacityOk(ctx.agreements);
    ChargesFrom(ctx, timeEntries);
    assert ChargeFrom(timeEntries, c);
    ApportionRates(ctx, capacity, sorted);
    ApportionKinds(ctx, capacity, sorted);
    if c.entry.rate.None? {
      var a := AgreementOf(ctx, c.entry.agreementId);
      NamesIs(ctx, c.entry.agreementId, a.value);
    }
  }

  lemma {:induction false} AtOneRate(ctx: Context, entries: seq<TimeEntry>, kind: Kind, rate: int)
    requires forall e :: e in entries ==> ResolveRate(ctx, e, kind) == Some(rate)
    ensures ResolvedValue(ctx, entries, kind) == Sum(entries, HoursOf) * rate
  {
    if entries == [] {
    } else {
      AtOneRate(ctx, entries[1..], kind, rate);
      assert entries[0] in entries;
      assert (entries[0].hours + Sum(entries[1..], HoursOf)) * rate == entries[0].hours * rate + Sum(entries[1..], HoursOf) * rate;
    }
  }

  /** An entry some of whose hours are on the line. */
  predicate IsOn(line: HoursLine, e: TimeEntry) {
    exists p :: p in line.timeEntries && p.0 == e.id
  }

  lemma {:induction false} ConsumedHas(entries: seq<TimeEntry>, e: TimeEntry)
    requires e in entries
    ensures (e.id, e.hours) in Consumed(entries)
  {
    if entries[0] != e {
      ConsumedHas(entries[1..], e);
    }
  }

  lemma LineEntryRate(ctx: Context, timeEntries: seq<TimeEntry>, k: nat, a: Agreement, rate: int, e: TimeEntry)
    requires CleanEntries(timeEntries) && k < |HourLines(ctx, timeEntries)|
    requires HourLines(ctx, timeEntries)[k].kind.OVERAGE? && Names(ctx, HourLines(ctx, timeEntries)[k].agreementId, a)
    requires if a.overageRate.Some? then rate == a.overageRate.value else a.standardRate == Some(rate)
    requires forall x :: x in timeEntries && IsOn(HourLines(ctx, timeEntries)[k], x) ==> x.rate.None?
    requires k < |Group(ctx, Apportioned(ctx, timeEntries).charges)| && e in Group(ctx, Apportioned(ctx, timeEntries).charges)[k].entries
    ensures ResolveRate(ctx, e, OVERAGE) == Some(rate)
  {
    var charges, line := Apportioned(ctx, timeEntries).charges, HourLines(ctx, timeEntries)[k];
    var b := Group(ctx, charges)[k];
    LinesAreBuckets(ctx, timeEntries, k);
    assert EntryOk(e, b, ctx, charges);
    ChargesFrom(ctx, timeEntries);
    var c :| c in charges && c.entry == e && c.kind == b.kind;
    assert ChargeFrom(timeEntries, c);
    var x :| x in timeEntries && c.entry == x.(hours := c.entry.hours);
    ConsumedHas(b.entries, e);
    assert IsOn(line, x);
    NamesIs(ctx, line.agreementId, a);
  }

  /** The line's total is near its hours times a rate. */
  ghost predicate NearRate(line: HoursLine, rate: int) {
    line.quantity > 0 ==> -(50 * line.quantity + 500_000) <= 1_000_000 * line.total - line.quantity * rate <= 50 * line.quantity + 500_000
  }

  lemma BucketAtRate(ctx: Context, b: Bucket, charges: seq<Charge>, rate: int)
    requires BucketOk(b, ctx, charges) && forall e :: e in b.entries ==> ResolveRate(ctx, e, b.kind) == Some(rate)
    ensures NearRate(LineOf(ctx, b), rate)
  {
    BucketPriced(ctx, b, charges);
    AtOneRate(ctx, b.entries, b.kind, rate);
  }

  /**
   * A line of hours beyond an agreement's capacity, none of which has a rate of its own, totals
   * its hours times the agreement's overage rate, or times its standard rate if it has no
   * other, within half a cent per hour plus half a cent.
   */
  lemma LineAtAgreementRate(ctx: Context, timeEntries: seq<TimeEntry>, k: nat, a: Agreement, rate: int)
    requires CleanEntries(timeEntries) && k < |HourLines(ctx, timeEntries)|
    requires HourLines(ctx, timeEntries)[k].kind.OVERAGE? && Names(ctx, HourLines(ctx, timeEntries)[k].agreementId, a)
    requires if a.overageRate.Some? then rate == a.overageRate.value else a.standardRate == Some(rate)
    requires forall e :: e in timeEntries && IsOn(HourLines(ctx, timeEntries)[k], e) ==> e.rate.None?
    ensures NearRate(HourLines(ctx, timeEntries)[k], rate)
  {
    var charges := Apportioned(ctx, timeEntries).charges;
    LinesAreBuckets(ctx, timeEntries, k);
    var b := Group(ctx, charges)[k];
    forall e | e in b.entries ensures ResolveRate(ctx, e, b.kind) == Some(rate) {
      LineEntryRate(ctx, timeEntries, k, a, rate, e);
    }
    BucketAtRate(ctx, b, charges, rate);
  }

  // ----- Where the hours of one entry go -----

  function CoveredKey(c: Covered): (string, Reason) { (c.id, c.reason) }

  /** Hours of an entry that a run covers for a reason. */
  function CoveredAs(ctx: Context, timeEntries: seq<TimeEntry>, id: string, reason: Reason): int {
    SumAt(Apportioned(ctx, timeEntries).covered, CoveredKey, (id, reason), CoveredHours)
  }

  /** Hours of an entry that its lines bill. */
  function BilledHours(ctx: Context, timeEntries: seq<TimeEntry>, id: string): int {
    SumAt(Billed(HourLines(ctx, timeEntries)), PairId, id, PairHours)
  }

  /** Hours go to one list, for one reason. */
  ghost predicate AllTo(hours: int, reason: Reason, covered: Reason -> int) {
    forall r :: covered(r) == if r == reason then hours else 0
  }

  /** Of hours that are to be charged: all billed where there is a positive rate, and all covered as having none elsewhere. */
  ghost predicate ChargedOrNot(rate: Option<int>, hours: int, billed: int, unrated: int) {
    if rate.Some? && rate.value > 0 then billed == hours && unrated == 0 else billed == 0 && unrated == hours
  }

  /** The rate of an entry's hours beyond an agreement's capacity. */
  function OverageRate(e: TimeEntry, a: Agreement): Option<int> {
    if e.rate.Some? then e.rate else if a.overageRate.Some? then a.overageRate else a.standardRate
  }

  /** What becomes of an entry of which an agreement, if it has one, has `absorbed` hours to spare. */
  ghost predicate Outcome(ctx: Context, e: TimeEntry, absorbed: int, billed: int, covered: Reason -> int) {
    if !e.billable then billed == 0 && AllTo(e.hours, NOT_BILLABLE, covered)
    else if OnFixedFee(ctx, e.projectId) then billed == 0 && AllTo(e.hours, FIXED_FEE_PROJECT, covered)
    else
      && covered(NOT_BILLABLE) == 0 && covered(FIXED_FEE_PROJECT) == 0
      && (forall a :: Names(ctx, e.agreementId, a) ==>
            && ChargedOrNot(OverageRate(e, a), e.hours - absorbed, billed, covered(NO_RATE))
            && covered(PREPAID_BLOCK) == (if a.kind.BLOCK_TIME? then absorbed else 0)
            && covered(AGREEMENT_INCLUSION) == (if a.kind.BLOCK_TIME? then 0 else absorbed))
      && ((forall a :: !Names(ctx, e.agreementId, a)) ==>
            ChargedOrNot(e.rate, e.hours, billed, covered(NO_RATE)) && covered(PREPAID_BLOCK) == covered(AGREEMENT_INCLUSION) == 0)
  }

  function ReasonsOf(covered: seq<Covered>, id: string): Reason -> int {
    (r: Reason) => SumAt(covered, CoveredKey, (id, r), CoveredHours)
  }

  lemma ReasonsOfFew(covered: seq<Covered>, id: string, r: Reason)
    requires |covered| <= 2
    ensures ReasonsOf(covered, id)(r)
         == (if |covered| > 0 && covered[0].id == id && covered[0].reason == r then covered[0].hours else 0)
            + (if |covered| > 1 && covered[1].id == id && covered[1].reason == r then covered[1].hours else 0)
  {
    if |covered| == 2 {
      assert covered == [covered[0]] + [covered[1]];
      SumAtAppend([covered[0]], [covered[1]], CoveredKey, (id, r), CoveredHours);
    }
    if covered != [] {
      OneCovered(covered[0], id, r);
      OneCovered(covered[|covered| - 1], id, r);
      assert |covered| == 1 ==> covered == [covered[0]];
    }
  }

  lemma OneCovered(c: Covered, id: string, r: Reason)
    ensures SumAt([c], CoveredKey, (id, r), CoveredHours) == if c.id == id && c.reason == r then c.hours else 0
  {
    assert [c][1..] == [];
  }

  /** The hours an agreement has to spare for an entry. */
  function Spare(ctx: Context, capacity: map<string, int>, e: TimeEntry): int {
    var gate := Gate(ctx, e);
    if gate.Some? && gate.value in capacity then Min(capacity[gate.value], e.hours) else 0
  }

  /** What a step of at most one charge and two covered records comes to. */
  ghost predicate Few(s: Step, id: string) {
    && |s.charges| <= 1 && |s.covered| <= 2
    && SumAt(s.charges, ChargeId, id, ChargeHours) == (if s.charges != [] && s.charges[0].entry.id == id then s.charges[0].entry.hours else 0)
    && forall r :: ReasonsOf(s.covered, id)(r)
         == (if |s.covered| > 0 && s.covered[0].id == id && s.covered[0].reason == r then s.covered[0].hours else 0)
            + (if |s.covered| > 1 && s.covered[1].id == id && s.covered[1].reason == r then s.covered[1].hours else 0)
  }

  lemma StepIsFew(ctx: Context, capacity: map<string, int>, e: TimeEntry)
    ensures Few(Apportion1(ctx, capacity, e), e.id)
  {
    var s := Apportion1(ctx, capacity, e);
    assert |s.covered| <= 2 && |s.charges| <= 1;
    assert s.charges != [] ==> s.charges[1..] == [];
    forall r ensures ReasonsOf(s.covered, e.id)(r)
                  == (if |s.covered| > 0 && s.covered[0].id == e.id && s.covered[0].reason == r then s.covered[0].hours else 0)
                     + (if |s.covered| > 1 && s.covered[1].id == e.id && s.covered[1].reason == r then s.covered[1].hours else 0)
    {
      ReasonsOfFew(s.covered, e.id, r);
    }
  }

  lemma OutcomeUnder(ctx: Context, capacity: map<string, int>, e: TimeEntry)
    requires CapacityOk(ctx, capacity) && e.hours > 0 && e.billable && !IsFixedFee(ctx, e.projectId) && AgreementOf(ctx, e.agreementId).Some?
    ensures var s := Apportion1(ctx, capacity, e);
            Outcome(ctx, e, Spare(ctx, capacity, e), SumAt(s.charges, ChargeId, e.id, ChargeHours), ReasonsOf(s.covered, e.id))
  {
    GatedHasCapacity(ctx, capacity, e);
    OnFixedFeeIs(ctx, e.projectId);
    StepIsFew(ctx, capacity, e);
    forall a ensures Names(ctx, e.agreementId, a) <==> AgreementOf(ctx, e.agreementId) == Some(a) {
      NamesIs(ctx, e.agreementId, a);
    }
  }

  lemma OutcomeAlone(ctx: Context, capacity: map<string, int>, e: TimeEntry)
    requires e.hours > 0 && (!e.billable || IsFixedFee(ctx, e.projectId) || AgreementOf(ctx, e.agreementId).None?)
    ensures var s := Apportion1(ctx, capacity, e);
            Outcome(ctx, e, Spare(ctx, capacity, e), SumAt(s.charges, ChargeId, e.id, ChargeHours), ReasonsOf(s.covered, e.id))
  {
    OnFixedFeeIs(ctx, e.projectId);
    StepIsFew(ctx, capacity, e);
    forall a ensures Names(ctx, e.agreementId, a) <==> AgreementOf(ctx, e.agreementId) == Some(a) {
      NamesIs(ctx, e.agreementId, a);
    }
  }

  lemma StepOutcome(ctx: Context, capacity: map<string, int>, e: TimeEntry)
    requires CapacityOk(ctx, capacity) && e.hours > 0
    ensures var s := Apportion1(ctx, capacity, e);
            Outcome(ctx, e, Spare(ctx, capacity, e), SumAt(s.charges, ChargeId, e.id, ChargeHours), ReasonsOf(s.covered, e.id))
  {
    if e.billable && !IsFixedFee(ctx, e.projectId) && AgreementOf(ctx, e.agreementId).Some? {
      OutcomeUnder(ctx, capacity, e);
    } else {
      OutcomeAlone(ctx, capacity, e);
    }
  }

  // ----- Over a whole run -----

  ghost predicate IdsDistinct(entries: seq<TimeEntry>) {
    forall i, j :: 0 <= i < j < |entries| ==> entries[i].id != entries[j].id
  }

  ghost predicate StepIsOwn(s: Step, id: string) {
    (forall c :: c in s.covered ==> c.id == id) && (forall c :: c in s.charges ==> c.entry.id == id)
  }

  lemma StepOwn(ctx: Context, capacity: map<string, int>, e: TimeEntry)
    ensures StepIsOwn(Apportion1(ctx, capacity, e), e.id)
  {
  }

  /** Hours of an entry that are covered for a reason, and hours that are charged. */
  function CoverAt(s: Step, id: string, r: Reason): int {
    SumAt(s.covered, CoveredKey, (id, r), CoveredHours)
  }

  function ChargeAt(s: Step, id: string): int {
    SumAt(s.charges, ChargeId, id, ChargeHours)
  }

  lemma NotOwn(s: Step, own: string, id: string, r: Reason)
    requires StepIsOwn(s, own) && own != id
    ensures CoverAt(s, id, r) == 0 && ChargeAt(s, id) == 0
  {
    SumAtAbsent(s.covered, CoveredKey, (id, r), CoveredHours);
    SumAtAbsent(s.charges, ChargeId, id, ChargeHours);
  }

  /** What the entry `k` adds to the apportioning. */
  function StepAt(ctx: Context, capacity: map<string, int>, entries: seq<TimeEntry>, k: nat): Step
    requires k < |entries|
  {
    Apportion1(ctx, Apportion(ctx, capacity, entries[..k]).capacity, entries[k])
  }

  lemma OneMoreEntry(ctx: Context, capacity: map<string, int>, entries: seq<TimeEntry>, id: string, r: Reason)
    requires entries != []
    ensures var before, step, s := Apportion(ctx, capacity, entries[..|entries| - 1]), StepAt(ctx, capacity, entries, |entries| - 1), Apportion(ctx, capacity, entries);
            CoverAt(s, id, r) == CoverAt(before, id, r) + CoverAt(step, id, r) && ChargeAt(s, id) == ChargeAt(before, id) + ChargeAt(step, id)
  {
    var before, step := Apportion(ctx, capacity, entries[..|entries| - 1]), StepAt(ctx, capacity, entries, |entries| - 1);
    SumAtAppend(before.covered, step.covered, CoveredKey, (id, r), CoveredHours);
    SumAtAppend(before.charges, step.charges, ChargeId, id, ChargeHours);
  }

  lemma OtherLast(ctx: Context, capacity: map<string, int>, entries: seq<TimeEntry>, id: string, r: Reason)
    requires entries != [] && entries[|entries| - 1].id != id
    ensures var before, s := Apportion(ctx, capacity, entries[..|entries| - 1]), Apportion(ctx, capacity, entries);
            CoverAt(s, id, r) == CoverAt(before, id, r) && ChargeAt(s, id) == ChargeAt(before, id)
  {
    var last := |entries| - 1;
    OneMoreEntry(ctx, capacity, entries, id, r);
    StepOwn(ctx, Apportion(ctx, capacity, entries[..last]).capacity, entries[last]);
    NotOwn(StepAt(ctx, capacity, entries, last), entries[last].id, id, r);
  }

  /** Entries of other ids leave an id's figures alone. */
  lemma {:induction false} OthersAddNothing(ctx: Context, capacity: map<string, int>, entries: seq<TimeEntry>, id: string, r: Reason)
    requires forall e :: e in entries ==> e.id != id
    ensures CoverAt(Apportion(ctx, capacity, entries), id, r) == 0 && ChargeAt(Apportion(ctx, capacity, entries), id) == 0
  {
    if entries == [] {
    } else {
      OthersAddNothing(ctx, capacity, entries[..|entries| - 1], id, r);
      OtherLast(ctx, capacity, entries, id, r);
    }
  }

  /** An id's figures over a run are those of the step of its entry. */
  lemma {:induction false} OwnStepOnly(ctx: Context, capacity: map<string, int>, entries: seq<TimeEntry>, k: nat, r: Reason)
    requires k < |entries| && IdsDistinct(entries)
    ensures var s, step, id := Apportion(ctx, capacity, entries), StepAt(ctx, capacity, entries, k), entries[k].id;
            CoverAt(s, id, r) == CoverAt(step, id, r) && ChargeAt(s, id) == ChargeAt(step, id)
  {
    var last, id := |entries| - 1, entries[k].id;
    if k == last {
      OneMoreEntry(ctx, capacity, entries, id, r);
      OthersAddNothing(ctx, capacity, entries[..last], id, r);
    } else {
      OtherLast(ctx, capacity, entries, id, r);
      assert entries[..last][..k] == entries[..k] && entries[..last][k] == entries[k];
      OwnStepOnly(ctx, capacity, entries[..last], k, r);
    }
  }

  lemma BilledIsCharged(ctx: Context, timeEntries: seq<TimeEntry>, id: string)
    ensures BilledHours(ctx, timeEntries, id) == SumAt(Apportioned(ctx, timeEntries).charges, ChargeId, id, ChargeHours)
  {
    LinesHoldCharges(ctx, timeEntries);
    SumAtPermuted(Billed(HourLines(ctx, timeEntries)), Sorting.Map(ChargePair, Apportioned(ctx, timeEntries).charges), PairId, id, PairHours);
    PairSums(Apportioned(ctx, timeEntries).charges, id);
  }

  /** Hours asked of an agreement by the entries worked before entry `k`. */
  function AskedBefore(ctx: Context, timeEntries: seq<TimeEntry>, k: nat, id: string): int
    requires k <= |timeEntries|
  {
    Qualifying(ctx, OldestFirst(timeEntries)[..k], id)
  }

  lemma SpareIs(ctx: Context, timeEntries: seq<TimeEntry>, k: nat, a: Agreement)
    requires k < |timeEntries| && NoNegativeHours(timeEntries)
    requires Gate(ctx, OldestFirst(timeEntries)[k]) == Some(a.id) && AgreementById(ctx.agreements, a.id) == Some(a)
    ensures var e := OldestFirst(timeEntries)[k];
            Spare(ctx, Apportion(ctx, InitialCapacity(ctx.agreements), OldestFirst(timeEntries)[..k]).capacity, e)
            == Min(Max0(CapacityOf(a) - AskedBefore(ctx, timeEntries, k, a.id)), e.hours)
  {
    var capacity, sorted := InitialCapacity(ctx.agreements), OldestFirst(timeEntries);
    InitialCapacityOk(ctx.agreements);
    FoundAgreement(ctx.agreements, a.id);
    Sorting.SortMembers(WorkedBefore, timeEntries);
    CapacityLeft(ctx, capacity, sorted[..k], a.id);
  }

  lemma OldestFirstIds(timeEntries: seq<TimeEntry>)
    requires IdsDistinct(timeEntries)
    ensures IdsDistinct(OldestFirst(timeEntries))
  {
    Sorting.DistinctKeysPermuted(timeEntries, OldestFirst(timeEntries), EntryId);
  }

  /** Everything an entry's figures are made of is in its own step. */
  lemma FiguresOf(ctx: Context, timeEntries: seq<TimeEntry>, k: nat)
    requires k < |timeEntries| && IdsDistinct(timeEntries)
    ensures var capacity, sorted := InitialCapacity(ctx.agreements), OldestFirst(timeEntries);
            var step, id := StepAt(ctx, capacity, sorted, k), sorted[k].id;
            && BilledHours(ctx, timeEntries, id) == ChargeAt(step, id)
            && forall r :: CoveredAs(ctx, timeEntries, id, r) == CoverAt(step, id, r)
  {
    var capacity, sorted := InitialCapacity(ctx.agreements), OldestFirst(timeEntries);
    OldestFirstIds(timeEntries);
    BilledIsCharged(ctx, timeEntries, sorted[k].id);
    OwnStepOnly(ctx, capacity, sorted, k, NO_RATE);
    forall r ensures CoveredAs(ctx, timeEntries, sorted[k].id, r) == CoverAt(StepAt(ctx, capacity, sorted, k), sorted[k].id, r) {
      OwnStepOnly(ctx, capacity, sorted, k, r);
    }
  }

  /** How each hour of an entry is covered in a run, by reason. */
  function CoveredFor(ctx: Context, timeEntries: seq<TimeEntry>, id: string): Reason -> int {
    (r: Reason) => CoveredAs(ctx, timeEntries, id, r)
  }

  lemma SameOutcome(ctx: Context, e: TimeEntry, absorbed: int, billed: int, covered: Reason -> int, covered': Reason -> int)
    requires Outcome(ctx, e, absorbed, billed, covered) && forall r :: covered'(r) == covered(r)
    ensures Outcome(ctx, e, absorbed, billed, covered')
  {
  }

  /**
   * Where the hours of one entry go. An entry that is not billable, or of a fixed-fee project,
   * is covered whole. One under an agreement is covered as far as the agreement has hours left
   * from the entries worked before it: its block balance, or else the hours it includes. What
   * is left is billed where there is a rate, and covered as having none elsewhere.
   */
  lemma EntryOutcome(ctx: Context, timeEntries: seq<TimeEntry>, k: nat) returns (absorbed: int)
    requires k < |timeEntries| && IdsDistinct(timeEntries) && forall e :: e in timeEntries ==> e.hours > 0
    ensures var e := OldestFirst(timeEntries)[k];
            Outcome(ctx, e, absorbed, BilledHours(ctx, timeEntries, e.id), CoveredFor(ctx, timeEntries, e.id))
    ensures var e := OldestFirst(timeEntries)[k];
            forall a :: Names(ctx, e.agreementId, a) && e.billable && !OnFixedFee(ctx, e.projectId) ==>
              var most := if a.kind.BLOCK_TIME? then a.blockBalanceHours else if a.includedHours.Some? then a.includedHours.value else 0;
              absorbed == Min(Max0(Max0(most) - AskedBefore(ctx, timeEntries, k, a.id)), e.hours)
  {
    var capacity, sorted := InitialCapacity(ctx.agreements), OldestFirst(timeEntries);
    var e, left := sorted[k], Apportion(ctx, InitialCapacity(ctx.agreements), OldestFirst(timeEntries)[..k]).capacity;
    Sorting.SortMembers(WorkedBefore, timeEntries);
    assert e in timeEntries;
    InitialCapacityOk(ctx.agreements);
    ApportionKeepsCapacity(ctx, capacity, sorted[..k]);
    absorbed := Spare(ctx, left, e);
    StepOutcome(ctx, left, e);
    FiguresOf(ctx, timeEntries, k);
    SameOutcome(ctx, e, absorbed, BilledHours(ctx, timeEntries, e.id), ReasonsOf(StepAt(ctx, capacity, sorted, k).covered, e.id), CoveredFor(ctx, timeEntries, e.id));
    forall a | Names(ctx, e.agreementId, a) && e.billable && !OnFixedFee(ctx, e.projectId)
      ensures absorbed == Min(Max0(CapacityOf(a) - AskedBefore(ctx, timeEntries, k, a.id)), e.hours)
    {
      NamesIs(ctx, e.agreementId, a);
      OnFixedFeeIs(ctx, e.projectId);
      SpareIs(ctx, timeEntries, k, a);
    }
  }
}
