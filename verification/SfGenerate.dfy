// Turning a client's approved hours into billing lines
// (src/lib/sfbilling/generate.ts, section 1 of `generateSfBillingLines`).
// Hours and rates are whole numbers of the 0.0001 grid, so `roundHours` changes nothing.
module SfGenerate {
  import opened Money
  import opened Sums
  import opened Text
  import Sorting
  import opened Wrappers

  datatype Kind = TIME | OVERAGE
  datatype Reason = NOT_BILLABLE | PREPAID_BLOCK | AGREEMENT_INCLUSION | FIXED_FEE_PROJECT | NO_RATE
  datatype AgreementType = BLOCK_TIME | MANAGED_SERVICES | MANAGED_NOC
  datatype GroupBy = CHARGE_CODE | TICKET

  datatype TimeEntry = TimeEntry(
    id: string, workDate: int, hours: int, rate: Option<int>, billable: bool,
    chargeCodeId: string, agreementId: Option<string>, projectId: Option<string>, ticketNumber: Option<string>)

  datatype Agreement = Agreement(
    id: string, kind: AgreementType, includedHours: Option<int>, overageRate: Option<int>, standardRate: Option<int>,
    blockBalanceHours: int)

  datatype Project = Project(id: string, fixedFee: bool)

  datatype Covered = Covered(id: string, hours: int, reason: Reason)

  /** The chargeable part of an entry: `entry.hours` is what is left after absorption. */
  datatype Charge = Charge(entry: TimeEntry, kind: Kind, rate: int)

  datatype Bucket = Bucket(key: string, kind: Kind, agreementId: Option<string>, entries: seq<TimeEntry>)

  datatype HoursLine = HoursLine(
    kind: Kind, quantity: int, unitPrice: int, total: int,
    chargeCodeId: string, agreementId: Option<string>, timeEntries: seq<(string, int)>)

  datatype Context = Context(agreements: seq<Agreement>, projects: seq<Project>, groupBy: GroupBy)

  // ----- Lookups -----

  /** A `Map` built from a list: the last element with a key wins. */
  function AgreementById(agreements: seq<Agreement>, id: string): Option<Agreement> {
    if agreements == [] then None
    else if agreements[|agreements| - 1].id == id then Some(agreements[|agreements| - 1])
    else AgreementById(agreements[..|agreements| - 1], id)
  }

  function ProjectById(projects: seq<Project>, id: string): Option<Project> {
    if projects == [] then None
    else if projects[|projects| - 1].id == id then Some(projects[|projects| - 1])
    else ProjectById(projects[..|projects| - 1], id)
  }

  /** `id ? map.get(id) : undefined`: the empty id finds nothing. */
  function AgreementOf(ctx: Context, id: Option<string>): Option<Agreement> {
    if id.None? || id.value == "" then None else AgreementById(ctx.agreements, id.value)
  }

  function IsFixedFee(ctx: Context, id: Option<string>): bool {
    id.Some? && id.value != "" && ProjectById(ctx.projects, id.value).Some? && ProjectById(ctx.projects, id.value).value.fixedFee
  }

  function Or(a: Option<int>, b: Option<int>): Option<int> {
    if a.Some? then a else b
  }

  function Max0(n: int): nat {
    if n > 0 then n else 0
  }

  function Min(a: int, b: int): int {
    if a <= b then a else b
  }

  function CapacityOf(a: Agreement): nat {
    if a.kind.BLOCK_TIME? then Max0(a.blockBalanceHours)
    else Max0(if a.includedHours.Some? then a.includedHours.value else 0)
  }

  /** The capacity map before any entry is apportioned. */
  function InitialCapacity(agreements: seq<Agreement>): map<string, int> {
    if agreements == [] then map[]
    else
      var a := agreements[|agreements| - 1];
      InitialCapacity(agreements[..|agreements| - 1])[a.id := CapacityOf(a)]
  }

  // ----- One entry -----

  /** The rate an hour is charged at, or none. */
  function ResolveRate(ctx: Context, e: TimeEntry, kind: Kind): Option<int> {
    var agreement := AgreementOf(ctx, e.agreementId);
    Or(e.rate, Fallback(agreement, kind))
  }

  function Fallback(agreement: Option<Agreement>, kind: Kind): Option<int> {
    if agreement.None? then None
    else if kind.OVERAGE? then Or(agreement.value.overageRate, agreement.value.standardRate)
    else agreement.value.standardRate
  }

  /** An entry whose hours go through an agreement's capacity, and which one. */
  function Gate(ctx: Context, e: TimeEntry): Option<string> {
    if !e.billable || IsFixedFee(ctx, e.projectId) || AgreementOf(ctx, e.agreementId).None? then None
    else Some(AgreementOf(ctx, e.agreementId).value.id)
  }

  datatype Step = Step(capacity: map<string, int>, covered: seq<Covered>, charges: seq<Charge>)

  /** What one entry does to the capacity, the covered list and the charges. */
  function Apportion1(ctx: Context, capacity: map<string, int>, e: TimeEntry): Step {
    if !e.billable then Step(capacity, [Covered(e.id, e.hours, NOT_BILLABLE)], [])
    else if IsFixedFee(ctx, e.projectId) then Step(capacity, [Covered(e.id, e.hours, FIXED_FEE_PROJECT)], [])
    else
      var agreement := AgreementOf(ctx, e.agreementId);
      if agreement.Some? && agreement.value.id in capacity then
        var a := agreement.value;
        var absorbed := Min(capacity[a.id], e.hours);
        var capacity' := capacity[a.id := capacity[a.id] - absorbed];
        var reason := if a.kind.BLOCK_TIME? then PREPAID_BLOCK else AGREEMENT_INCLUSION;
        var covered := if absorbed > 0 then [Covered(e.id, absorbed, reason)] else [];
        if e.hours - absorbed <= 0 then Step(capacity', covered, [])
        else
          var s := Charged(ctx, e.(hours := e.hours - absorbed), OVERAGE);
          Step(capacity', covered + s.covered, s.charges)
      else
        var s := Charged(ctx, e, TIME);
        Step(capacity, s.covered, s.charges)
  }

  function Charged(ctx: Context, e: TimeEntry, kind: Kind): Step {
    var rate := ResolveRate(ctx, e, kind);
    if rate.None? || rate.value <= 0 then Step(map[], [Covered(e.id, e.hours, NO_RATE)], [])
    else Step(map[], [], [Charge(e, kind, rate.value)])
  }

  /** All entries, in the order given. */
  function Apportion(ctx: Context, capacity: map<string, int>, entries: seq<TimeEntry>): Step {
    if entries == [] then Step(capacity, [], [])
    else
      var before := Apportion(ctx, capacity, entries[..|entries| - 1]);
      var s := Apportion1(ctx, before.capacity, entries[|entries| - 1]);
      Step(s.capacity, before.covered + s.covered, before.charges + s.charges)
  }

  // ----- Buckets -----

  function KindName(kind: Kind): string {
    if kind.TIME? then "TIME" else "OVERAGE"
  }

  function KeyParts(ctx: Context, e: TimeEntry, kind: Kind): seq<string> {
    var agreement := if e.agreementId.Some? then e.agreementId.value else "-";
    if ctx.groupBy.TICKET? then
      [KindName(kind), agreement, e.chargeCodeId, if e.ticketNumber.Some? then e.ticketNumber.value else "none"]
    else
      [KindName(kind), agreement, e.chargeCodeId]
  }

  function BucketKey(ctx: Context, e: TimeEntry, kind: Kind): string {
    Join(KeyParts(ctx, e, kind), '|')
  }

  /** Appends to the bucket with the charge's key, or opens one at the end, as a `Map` would. */
  function AddCharge(ctx: Context, buckets: seq<Bucket>, c: Charge): seq<Bucket> {
    var key := BucketKey(ctx, c.entry, c.kind);
    if buckets == [] then [Bucket(key, c.kind, c.entry.agreementId, [c.entry])]
    else if buckets[0].key == key then [buckets[0].(entries := buckets[0].entries + [c.entry])] + buckets[1..]
    else [buckets[0]] + AddCharge(ctx, buckets[1..], c)
  }

  function Group(ctx: Context, charges: seq<Charge>): seq<Bucket> {
    if charges == [] then []
    else AddCharge(ctx, Group(ctx, charges[..|charges| - 1]), charges[|charges| - 1])
  }

  // ----- Lines -----

  function HoursOf(e: TimeEntry): int {
    e.hours
  }

  function RateOn(e: TimeEntry, fallback: Option<int>): int {
    var rate := Or(e.rate, fallback);
    if rate.Some? then rate.value else 0
  }

  /** Exact value of a bucket at the rates its line uses. */
  function Value(entries: seq<TimeEntry>, fallback: Option<int>): int {
    if entries == [] then 0 else entries[0].hours * RateOn(entries[0], fallback) + Value(entries[1..], fallback)
  }

  /** Weighted average rate, rounded to cents. */
  function WeightedRate(entries: seq<TimeEntry>, fallback: Option<int>): int {
    var hours := Sum(entries, HoursOf);
    if hours <= 0 then (if fallback.Some? then fallback.value else 0)
    else UnitPrice(Value(entries, fallback), hours)
  }

  /** The entries a line consumes, with the hours taken from each. */
  function Consumed(entries: seq<TimeEntry>): seq<(string, int)> {
    if entries == [] then [] else [(entries[0].id, entries[0].hours)] + Consumed(entries[1..])
  }

  function LineOf(ctx: Context, b: Bucket): HoursLine
    requires b.entries != []
  {
    var fallback := Fallback(AgreementOf(ctx, b.agreementId), b.kind);
    var quantity := Sum(b.entries, HoursOf);
    var unitPrice := WeightedRate(b.entries, fallback);
    HoursLine(b.kind, quantity, unitPrice, ComputeLine(quantity, unitPrice, 0, 0).total,
              b.entries[0].chargeCodeId, b.agreementId, Consumed(b.entries))
  }

  function Lines(ctx: Context, buckets: seq<Bucket>): seq<HoursLine> {
    if buckets == [] then []
    else (if buckets[0].entries == [] then [] else [LineOf(ctx, buckets[0])]) + Lines(ctx, buckets[1..])
  }

  // ----- The generator -----

  predicate WorkedBefore(a: TimeEntry, b: TimeEntry) {
    a.workDate <= b.workDate
  }

  function OldestFirst(timeEntries: seq<TimeEntry>): seq<TimeEntry> {
    Sorting.Sort(WorkedBefore, timeEntries)
  }

  function Apportioned(ctx: Context, timeEntries: seq<TimeEntry>): Step {
    Apportion(ctx, InitialCapacity(ctx.agreements), OldestFirst(timeEntries))
  }

  function HourLines(ctx: Context, timeEntries: seq<TimeEntry>): seq<HoursLine> {
    Lines(ctx, Group(ctx, Apportioned(ctx, timeEntries).charges))
  }

  method GenerateHourLines(ctx: Context, timeEntries: seq<TimeEntry>) returns (lines: seq<HoursLine>, covered: seq<Covered>)
    ensures covered == Apportioned(ctx, timeEntries).covered
    ensures lines == HourLines(ctx, timeEntries)
  {
    var entries := OldestFirst(timeEntries);
    var capacity := BuildCapacity(ctx.agreements);
    ghost var start := capacity;
    var billable: seq<Bucket> := [];
    ghost var charges: seq<Charge> := [];
    covered := [];
    for k := 0 to |entries|
      invariant Apportion(ctx, start, entries[..k]) == Step(capacity, covered, charges)
      invariant billable == Group(ctx, charges)
    {
      ApportionNext(ctx, start, entries, k);
      ghost var step := Apportion1(ctx, capacity, entries[k]);
      GroupNext(ctx, charges, step.charges);
      capacity, covered, billable := ApportionEntry(ctx, entries[k], capacity, covered, billable);
      charges := charges + step.charges;
    }
    assert entries[..|entries|] == entries;
    lines := BuildLines(ctx, billable);
  }

  /** The body of the apportioning loop. */
  method ApportionEntry(ctx: Context, e: TimeEntry, capacity: map<string, int>, covered: seq<Covered>, billable: seq<Bucket>)
    returns (capacity': map<string, int>, covered': seq<Covered>, billable': seq<Bucket>)
    ensures var step := Apportion1(ctx, capacity, e);
            && capacity' == step.capacity && covered' == covered + step.covered
            && billable' == AddCharges(ctx, billable, step.charges)
  {
    capacity', covered', billable' := capacity, covered, billable;
    if !e.billable {
      covered' := covered + [Covered(e.id, e.hours, NOT_BILLABLE)];
      return;
    }
    if IsFixedFee(ctx, e.projectId) {
      covered' := covered + [Covered(e.id, e.hours, FIXED_FEE_PROJECT)];
      return;
    }
    var agreement := AgreementOf(ctx, e.agreementId);
    var chargeable, kind := e, TIME;
    if agreement.Some? && agreement.value.id in capacity {
      var a := agreement.value;
      var absorbed := Min(capacity[a.id], e.hours);
      capacity' := capacity[a.id := capacity[a.id] - absorbed];
      if absorbed > 0 {
        covered' := covered + [Covered(e.id, absorbed, if a.kind.BLOCK_TIME? then PREPAID_BLOCK else AGREEMENT_INCLUSION)];
      }
      if e.hours - absorbed <= 0 {
        return;
      }
      chargeable, kind := e.(hours := e.hours - absorbed), OVERAGE;
    }
    var rate := ResolveRate(ctx, e, kind);
    if rate.None? || rate.value <= 0 {
      covered' := covered' + [Covered(e.id, chargeable.hours, NO_RATE)];
      return;
    }
    billable' := AddCharge(ctx, billable, Charge(chargeable, kind, rate.value));
  }

  function AddCharges(ctx: Context, buckets: seq<Bucket>, charges: seq<Charge>): seq<Bucket>
    decreases |charges|
  {
    if charges == [] then buckets else AddCharges(ctx, AddCharge(ctx, buckets, charges[0]), charges[1..])
  }

  lemma ApportionNext(ctx: Context, capacity: map<string, int>, entries: seq<TimeEntry>, k: nat)
    requires k < |entries|
    ensures var before := Apportion(ctx, capacity, entries[..k]);
            var step := Apportion1(ctx, before.capacity, entries[k]);
            Apportion(ctx, capacity, entries[..k + 1]) == Step(step.capacity, before.covered + step.covered, before.charges + step.charges)
  {
    assert entries[..k + 1][..k] == entries[..k];
  }

  lemma {:induction false} GroupNext(ctx: Context, charges: seq<Charge>, more: seq<Charge>)
    ensures Group(ctx, charges + more) == AddCharges(ctx, Group(ctx, charges), more)
    decreases |more|
  {
    if more == [] {
      assert charges + more == charges;
    } else {
      assert charges + more == (charges + [more[0]]) + more[1..];
      assert (charges + [more[0]])[..|charges|] == charges;
      GroupNext(ctx, charges + [more[0]], more[1..]);
    }
  }

  method BuildCapacity(agreements: seq<Agreement>) returns (capacity: map<string, int>)
    ensures capacity == InitialCapacity(agreements)
  {
    capacity := map[];
    for k := 0 to |agreements|
      invariant capacity == InitialCapacity(agreements[..k])
    {
      assert agreements[..k + 1][..k] == agreements[..k];
      capacity := capacity[agreements[k].id := CapacityOf(agreements[k])];
    }
    assert agreements[..|agreements|] == agreements;
  }

  method BuildLines(ctx: Context, buckets: seq<Bucket>) returns (lines: seq<HoursLine>)
    ensures lines == Lines(ctx, buckets)
  {
    lines := [];
    assert buckets[0..] == buckets;
    for k := 0 to |buckets|
      invariant lines + Lines(ctx, buckets[k..]) == Lines(ctx, buckets)
    {
      assert buckets[k..][1..] == buckets[k + 1..];
      if buckets[k].entries != [] {
        lines := lines + [LineOf(ctx, buckets[k])];
      }
    }
  }

  // ----- Every hour is accounted for -----

  /** Capacity never goes negative, and every agreement has some. */
  ghost predicate CapacityOk(ctx: Context, capacity: map<string, int>) {
    && (forall id :: id in capacity ==> capacity[id] >= 0)
    && (forall a :: a in ctx.agreements ==> a.id in capacity)
  }

  lemma {:induction false} InitialCapacityOk(agreements: seq<Agreement>)
    ensures forall id :: id in InitialCapacity(agreements) ==> InitialCapacity(agreements)[id] >= 0
    ensures forall a :: a in agreements ==> a.id in InitialCapacity(agreements)
  {
    if agreements == [] {
    } else {
      InitialCapacityOk(agreements[..|agreements| - 1]);
      assert agreements == agreements[..|agreements| - 1] + [agreements[|agreements| - 1]];
    }
  }

  lemma {:induction false} FoundAgreement(agreements: seq<Agreement>, id: string)
    ensures var a := AgreementById(agreements, id); a.Some? ==> a.value in agreements && a.value.id == id
    ensures AgreementById(agreements, id).Some? ==>
              id in InitialCapacity(agreements) && InitialCapacity(agreements)[id] == CapacityOf(AgreementById(agreements, id).value)
  {
    if agreements == [] {
    } else {
      FoundAgreement(agreements[..|agreements| - 1], id);
    }
  }

  lemma {:induction false} ApportionKeepsCapacity(ctx: Context, capacity: map<string, int>, entries: seq<TimeEntry>)
    requires CapacityOk(ctx, capacity)
    ensures CapacityOk(ctx, Apportion(ctx, capacity, entries).capacity)
  {
    if entries == [] {
    } else {
      ApportionKeepsCapacity(ctx, capacity, entries[..|entries| - 1]);
    }
  }

  /** The hours the loop drops: negative hours that reach an agreement's capacity. */
  function Dropped(ctx: Context): TimeEntry -> int {
    (e: TimeEntry) => if Gate(ctx, e).Some? && e.hours < 0 then e.hours else 0
  }

  function EntryId(e: TimeEntry): string { e.id }

  function CoveredId(c: Covered): string { c.id }

  function CoveredHours(c: Covered): int { c.hours }

  function ChargeId(c: Charge): string { c.entry.id }

  function ChargeHours(c: Charge): int { c.entry.hours }

  lemma StepAccounts(ctx: Context, capacity: map<string, int>, e: TimeEntry, id: string)
    requires CapacityOk(ctx, capacity)
    ensures var s := Apportion1(ctx, capacity, e);
            SumAt(s.charges, ChargeId, id, ChargeHours) + SumAt(s.covered, CoveredId, id, CoveredHours)
            == if e.id == id then e.hours - Dropped(ctx)(e) else 0
  {
    GatedHasCapacity(ctx, capacity, e);
    var s := Apportion1(ctx, capacity, e);
    assert |s.charges| <= 1 && |s.covered| <= 2;
    if |s.covered| == 2 {
      assert s.covered == [s.covered[0], s.covered[1]];
      assert SumAt(s.covered[1..], CoveredId, id, CoveredHours) == if e.id == id then s.covered[1].hours else 0;
    }
  }

  /** An agreement that is found always has capacity on record. */
  lemma GatedHasCapacity(ctx: Context, capacity: map<string, int>, e: TimeEntry)
    requires CapacityOk(ctx, capacity)
    ensures var a := AgreementOf(ctx, e.agreementId); a.Some? ==> a.value.id in capacity && a.value.id == e.agreementId.value
  {
    if AgreementOf(ctx, e.agreementId).Some? {
      FoundAgreement(ctx.agreements, e.agreementId.value);
    }
  }

  lemma {:induction false} ApportionAccounts(ctx: Context, capacity: map<string, int>, entries: seq<TimeEntry>, id: string)
    requires CapacityOk(ctx, capacity)
    ensures var s := Apportion(ctx, capacity, entries);
            SumAt(s.charges, ChargeId, id, ChargeHours) + SumAt(s.covered, CoveredId, id, CoveredHours)
            + SumAt(entries, EntryId, id, Dropped(ctx)) == SumAt(entries, EntryId, id, HoursOf)
  {
    if entries == [] {
    } else {
      var init, e := entries[..|entries| - 1], entries[|entries| - 1];
      var before := Apportion(ctx, capacity, init);
      var s := Apportion1(ctx, before.capacity, e);
      ApportionAccounts(ctx, capacity, init, id);
      ApportionKeepsCapacity(ctx, capacity, init);
      StepAccounts(ctx, before.capacity, e, id);
      SumAtAppend(before.charges, s.charges, ChargeId, id, ChargeHours);
      SumAtAppend(before.covered, s.covered, CoveredId, id, CoveredHours);
      SumAtLast(entries, EntryId, id, Dropped(ctx));
      SumAtLast(entries, EntryId, id, HoursOf);
    }
  }

  // ----- Rolling charges onto lines moves hours and loses none -----

  function Billed(lines: seq<HoursLine>): seq<(string, int)> {
    if lines == [] then [] else lines[0].timeEntries + Billed(lines[1..])
  }

  function ChargePair(c: Charge): (string, int) { (c.entry.id, c.entry.hours) }

  function PairId(p: (string, int)): string { p.0 }

  function PairHours(p: (string, int)): int { p.1 }

  /** What the lines of these buckets consume, before the lines are built. */
  function Held(buckets: seq<Bucket>): seq<(string, int)> {
    if buckets == [] then [] else Consumed(buckets[0].entries) + Held(buckets[1..])
  }

  lemma {:induction false} BilledIsHeld(ctx: Context, buckets: seq<Bucket>)
    ensures Billed(Lines(ctx, buckets)) == Held(buckets)
  {
    if buckets == [] {
    } else {
      BilledIsHeld(ctx, buckets[1..]);
      if buckets[0].entries != [] {
        var line, rest := LineOf(ctx, buckets[0]), Lines(ctx, buckets[1..]);
        assert ([line] + rest)[1..] == rest;
      } else {
        assert Lines(ctx, buckets) == Lines(ctx, buckets[1..]);
        assert Held(buckets) == Held(buckets[1..]);
      }
    }
  }

  lemma {:induction false} ConsumedAppend(entries: seq<TimeEntry>, e: TimeEntry)
    ensures Consumed(entries + [e]) == Consumed(entries) + [(e.id, e.hours)]
  {
    if entries == [] {
    } else {
      assert (entries + [e])[1..] == entries[1..] + [e];
      ConsumedAppend(entries[1..], e);
    }
  }

  lemma {:induction false} AddChargeHolds(ctx: Context, buckets: seq<Bucket>, c: Charge)
    ensures multiset(Held(AddCharge(ctx, buckets, c))) == multiset(Held(buckets)) + multiset{ChargePair(c)}
  {
    var key := BucketKey(ctx, c.entry, c.kind);
    if buckets == [] {
      assert Consumed([c.entry]) == [ChargePair(c)];
    } else if buckets[0].key == key {
      ConsumedAppend(buckets[0].entries, c.entry);
      var b := buckets[0].(entries := buckets[0].entries + [c.entry]);
      assert ([b] + buckets[1..])[1..] == buckets[1..];
    } else {
      AddChargeHolds(ctx, buckets[1..], c);
      var rest := AddCharge(ctx, buckets[1..], c);
      assert ([buckets[0]] + rest)[1..] == rest;
    }
  }

  lemma MapLast(charges: seq<Charge>)
    requires charges != []
    ensures multiset(Sorting.Map(ChargePair, charges))
         == multiset(Sorting.Map(ChargePair, charges[..|charges| - 1])) + multiset{ChargePair(charges[|charges| - 1])}
  {
    assert Sorting.Map(ChargePair, charges) == Sorting.Map(ChargePair, charges[..|charges| - 1]) + [ChargePair(charges[|charges| - 1])];
  }

  lemma {:induction false} GroupHolds(ctx: Context, charges: seq<Charge>)
    ensures multiset(Held(Group(ctx, charges))) == multiset(Sorting.Map(ChargePair, charges))
  {
    if charges == [] {
    } else {
      var init, c := charges[..|charges| - 1], charges[|charges| - 1];
      var buckets := Group(ctx, init);
      GroupHolds(ctx, init);
      AddChargeHolds(ctx, buckets, c);
      assert Group(ctx, charges) == AddCharge(ctx, buckets, c);
      MapLast(charges);
    }
  }

  lemma {:induction false} PairSums(charges: seq<Charge>, id: string)
    ensures SumAt(Sorting.Map(ChargePair, charges), PairId, id, PairHours) == SumAt(charges, ChargeId, id, ChargeHours)
  {
    if charges == [] {
    } else {
      PairSums(charges[1..], id);
      assert Sorting.Map(ChargePair, charges)[1..] == Sorting.Map(ChargePair, charges[1..]);
    }
  }

  /** The lines consume exactly the charges. */
  lemma LinesHoldCharges(ctx: Context, timeEntries: seq<TimeEntry>)
    ensures multiset(Billed(HourLines(ctx, timeEntries)))
         == multiset(Sorting.Map(ChargePair, Apportioned(ctx, timeEntries).charges))
  {
    var charges := Apportioned(ctx, timeEntries).charges;
    BilledIsHeld(ctx, Group(ctx, charges));
    GroupHolds(ctx, charges);
  }

  /**
   * For every id, hours on lines plus hours covered plus hours dropped are the
   * hours logged; and hours are dropped only when negative hours reach a capacity.
   */
  lemma HoursAccounted(ctx: Context, timeEntries: seq<TimeEntry>, id: string)
    ensures SumAt(Billed(HourLines(ctx, timeEntries)), PairId, id, PairHours)
          + SumAt(Apportioned(ctx, timeEntries).covered, CoveredId, id, CoveredHours)
          + SumAt(timeEntries, EntryId, id, Dropped(ctx))
         == SumAt(timeEntries, EntryId, id, HoursOf)
  {
    var sorted, s := OldestFirst(timeEntries), Apportioned(ctx, timeEntries);
    InitialCapacityOk(ctx.agreements);
    ApportionAccounts(ctx, InitialCapacity(ctx.agreements), sorted, id);
    SumAtPermuted(sorted, timeEntries, EntryId, id, Dropped(ctx));
    SumAtPermuted(sorted, timeEntries, EntryId, id, HoursOf);
    LinesHoldCharges(ctx, timeEntries);
    SumAtPermuted(Billed(HourLines(ctx, timeEntries)), Sorting.Map(ChargePair, s.charges), PairId, id, PairHours);
    PairSums(s.charges, id);
  }

  // ----- Which entries show up at all -----

  ghost predicate OnLine(id: string, lines: seq<HoursLine>) {
    exists p :: p in Billed(lines) && p.0 == id
  }

  ghost predicate InCharges(id: string, charges: seq<Charge>) {
    exists c :: c in charges && c.entry.id == id
  }

  ghost predicate InCovered(id: string, covered: seq<Covered>) {
    exists c :: c in covered && c.id == id
  }

  /** Hours of zero or less that reach an agreement's capacity produce nothing. */
  ghost predicate Silent(ctx: Context, e: TimeEntry) {
    Gate(ctx, e).Some? && e.hours <= 0
  }

  lemma StepShows(ctx: Context, capacity: map<string, int>, e: TimeEntry)
    requires CapacityOk(ctx, capacity)
    ensures var s := Apportion1(ctx, capacity, e);
            && (forall c :: c in s.covered ==> c.id == e.id)
            && (forall c :: c in s.charges ==> c.entry.id == e.id)
            && (s.covered == [] && s.charges == [] <==> Silent(ctx, e))
            && |s.charges| <= 1
  {
    GatedHasCapacity(ctx, capacity, e);
  }

  ghost predicate Audible(ctx: Context, entries: seq<TimeEntry>, id: string) {
    exists e :: e in entries && e.id == id && !Silent(ctx, e)
  }

  lemma {:induction false} ApportionShows(ctx: Context, capacity: map<string, int>, entries: seq<TimeEntry>, id: string)
    requires CapacityOk(ctx, capacity)
    ensures var s := Apportion(ctx, capacity, entries);
            InCharges(id, s.charges) || InCovered(id, s.covered) <==> Audible(ctx, entries, id)
  {
    if entries == [] {
    } else {
      var init, e := entries[..|entries| - 1], entries[|entries| - 1];
      var before := Apportion(ctx, capacity, init);
      var s := Apportion1(ctx, before.capacity, e);
      ApportionShows(ctx, capacity, init, id);
      ApportionKeepsCapacity(ctx, capacity, init);
      StepShows(ctx, before.capacity, e);
      assert entries == init + [e];
      if e.id == id && !Silent(ctx, e) {
        assert s.covered != [] ==> s.covered[0] in before.covered + s.covered;
        assert s.charges != [] ==> s.charges[0] in before.charges + s.charges;
      }
    }
  }

  lemma OnLineIsCharged(ctx: Context, timeEntries: seq<TimeEntry>, id: string)
    ensures OnLine(id, HourLines(ctx, timeEntries)) <==> InCharges(id, Apportioned(ctx, timeEntries).charges)
  {
    var charges, billed := Apportioned(ctx, timeEntries).charges, Billed(HourLines(ctx, timeEntries));
    LinesHoldCharges(ctx, timeEntries);
    if InCharges(id, charges) {
      var k :| 0 <= k < |charges| && charges[k].entry.id == id;
      var p := Sorting.Map(ChargePair, charges)[k];
      assert p in multiset(billed);
      assert p in billed && p.0 == id;
    }
    if OnLine(id, HourLines(ctx, timeEntries)) {
      var p :| p in billed && p.0 == id;
      assert p in multiset(Sorting.Map(ChargePair, charges));
      var k :| 0 <= k < |charges| && Sorting.Map(ChargePair, charges)[k] == p;
      assert charges[k] in charges;
    }
  }

  /** An entry is on a line or in the covered list exactly when it is not silent. */
  lemma EntryShown(ctx: Context, timeEntries: seq<TimeEntry>, i: nat)
    requires i < |timeEntries|
    requires forall j, k :: 0 <= j < k < |timeEntries| ==> timeEntries[j].id != timeEntries[k].id
    ensures OnLine(timeEntries[i].id, HourLines(ctx, timeEntries)) || InCovered(timeEntries[i].id, Apportioned(ctx, timeEntries).covered)
            <==> !Silent(ctx, timeEntries[i])
  {
    var e, sorted := timeEntries[i], OldestFirst(timeEntries);
    InitialCapacityOk(ctx.agreements);
    Sorting.SortMembers(WorkedBefore, timeEntries);
    ApportionShows(ctx, InitialCapacity(ctx.agreements), sorted, e.id);
    OnLineIsCharged(ctx, timeEntries, e.id);
    assert Audible(ctx, sorted, e.id) <==> !Silent(ctx, e);
  }

  /** An agreement on a service plan, and an entry of no hours against it: in neither list. */
  lemma EntryOfNoHoursIsLost() returns (ctx: Context, e: TimeEntry)
    ensures e.billable && e.hours == 0
    ensures !OnLine(e.id, HourLines(ctx, [e])) && !InCovered(e.id, Apportioned(ctx, [e]).covered)
  {
    var a := Agreement("ag1", MANAGED_SERVICES, Some(50_000), None, None, 0);
    ctx := Context([a], [], CHARGE_CODE);
    e := TimeEntry("te1", 0, 0, None, true, "cc", Some("ag1"), None, None);
    assert AgreementById([a], "ag1") == Some(a);
    EntryShown(ctx, [e], 0);
  }

  // ----- Capacity is used oldest first -----

  /** Hours that go through the capacity of agreement `id`. */
  function Qualifying(ctx: Context, entries: seq<TimeEntry>, id: string): int {
    if entries == [] then 0
    else Qualifying(ctx, entries[..|entries| - 1], id) + QualifyingHours(ctx, entries[|entries| - 1], id)
  }

  function QualifyingHours(ctx: Context, e: TimeEntry, id: string): int {
    if Gate(ctx, e) == Some(id) then e.hours else 0
  }

  /** The part of an entry its agreement absorbed. */
  function AbsorbedHours(covered: seq<Covered>): int {
    if covered == [] then 0
    else (if covered[0].reason.PREPAID_BLOCK? || covered[0].reason.AGREEMENT_INCLUSION? then covered[0].hours else 0)
         + AbsorbedHours(covered[1..])
  }

  ghost predicate NoNegativeHours(entries: seq<TimeEntry>) {
    forall e :: e in entries ==> e.hours >= 0
  }

  lemma {:induction false} QualifyingNonNegative(ctx: Context, entries: seq<TimeEntry>, id: string)
    requires NoNegativeHours(entries)
    ensures Qualifying(ctx, entries, id) >= 0
  {
    if entries == [] {
    } else {
      QualifyingNonNegative(ctx, entries[..|entries| - 1], id);
    }
  }

  /** After any prefix, what is left of a capacity is what the qualifying hours have not used. */
  lemma {:induction false} CapacityLeft(ctx: Context, capacity: map<string, int>, entries: seq<TimeEntry>, id: string)
    requires CapacityOk(ctx, capacity) && id in capacity && NoNegativeHours(entries)
    ensures var left := Apportion(ctx, capacity, entries).capacity;
            id in left && left[id] == Max0(capacity[id] - Qualifying(ctx, entries, id))
  {
    if entries == [] {
    } else {
      var init, e := entries[..|entries| - 1], entries[|entries| - 1];
      assert entries == init + [e];
      CapacityLeft(ctx, capacity, init, id);
      QualifyingNonNegative(ctx, init, id);
      ApportionKeepsCapacity(ctx, capacity, init);
      StepCapacity(ctx, Apportion(ctx, capacity, init).capacity, e, id);
      LeftOver(capacity[id], Qualifying(ctx, init, id), QualifyingHours(ctx, e, id));
    }
  }

  lemma LeftOver(capacity: int, used: int, hours: int)
    requires capacity >= 0 && used >= 0 && hours >= 0
    ensures Max0(capacity - used) - Min(Max0(capacity - used), hours) == Max0(capacity - (used + hours))
  {
  }

  lemma StepCapacity(ctx: Context, capacity: map<string, int>, e: TimeEntry, id: string)
    requires CapacityOk(ctx, capacity) && id in capacity && e.hours >= 0
    ensures var left := Apportion1(ctx, capacity, e).capacity;
            id in left && left[id] == capacity[id] - Min(capacity[id], QualifyingHours(ctx, e, id))
  {
    GatedHasCapacity(ctx, capacity, e);
  }

  /**
   * With entries in date order, entry `k` is absorbed exactly to the extent that the
   * running total of qualifying hours is within the capacity, and charged for the rest.
   */
  lemma OldestAbsorbedFirst(ctx: Context, capacity: map<string, int>, entries: seq<TimeEntry>, k: nat, id: string)
    requires CapacityOk(ctx, capacity) && id in capacity && NoNegativeHours(entries)
    requires k < |entries| && Gate(ctx, entries[k]) == Some(id)
    ensures var s := Apportion1(ctx, Apportion(ctx, capacity, entries[..k]).capacity, entries[k]);
            var before, after := Qualifying(ctx, entries[..k], id), Qualifying(ctx, entries[..k + 1], id);
            && AbsorbedHours(s.covered) == Min(capacity[id], after) - Min(capacity[id], before)
            && entries[k].hours - AbsorbedHours(s.covered) == Max0(after - capacity[id]) - Max0(before - capacity[id])
            && (forall c :: c in s.charges ==> c.kind.OVERAGE? && c.entry.hours == entries[k].hours - AbsorbedHours(s.covered))
  {
    var left := Apportion(ctx, capacity, entries[..k]).capacity;
    CapacityLeft(ctx, capacity, entries[..k], id);
    QualifyingNonNegative(ctx, entries[..k], id);
    ApportionKeepsCapacity(ctx, capacity, entries[..k]);
    StepAbsorbs(ctx, left, entries[k], id);
    assert entries[..k + 1][..k] == entries[..k];
    assert entries[..k + 1][k] == entries[k];
  }

  lemma StepAbsorbs(ctx: Context, capacity: map<string, int>, e: TimeEntry, id: string)
    requires CapacityOk(ctx, capacity) && id in capacity && Gate(ctx, e) == Some(id) && e.hours >= 0
    ensures var s := Apportion1(ctx, capacity, e);
            && AbsorbedHours(s.covered) == Min(capacity[id], e.hours)
            && (forall c :: c in s.charges ==> c.kind.OVERAGE? && c.entry.hours == e.hours - Min(capacity[id], e.hours))
  {
    GatedHasCapacity(ctx, capacity, e);
    var s := Apportion1(ctx, capacity, e);
    assert |s.covered| == 2 ==> s.covered == [s.covered[0], s.covered[1]] && AbsorbedHours(s.covered[1..]) == 0;
  }

  /** Over the whole period an agreement absorbs the lesser of its capacity and its qualifying hours. */
  lemma AbsorbedInTotal(ctx: Context, timeEntries: seq<TimeEntry>, id: string)
    requires NoNegativeHours(timeEntries) && AgreementById(ctx.agreements, id).Some?
    ensures var capacity := InitialCapacity(ctx.agreements);
            var left := Apportioned(ctx, timeEntries).capacity;
            && id in capacity && id in left
            && capacity[id] == CapacityOf(AgreementById(ctx.agreements, id).value)
            && capacity[id] - left[id] == Min(capacity[id], Qualifying(ctx, OldestFirst(timeEntries), id))
  {
    InitialCapacityOk(ctx.agreements);
    FoundAgreement(ctx.agreements, id);
    Sorting.SortMembers(WorkedBefore, timeEntries);
    CapacityLeft(ctx, InitialCapacity(ctx.agreements), OldestFirst(timeEntries), id);
  }

  function WorkedOn(date: int): TimeEntry -> bool {
    (e: TimeEntry) => e.workDate == date
  }

  /** The entries are taken in the order the work happened, those of one date in the order given. */
  lemma WorkOrder(timeEntries: seq<TimeEntry>)
    ensures forall i, j :: 0 <= i < j < |OldestFirst(timeEntries)| ==> OldestFirst(timeEntries)[i].workDate <= OldestFirst(timeEntries)[j].workDate
    ensures multiset(OldestFirst(timeEntries)) == multiset(timeEntries)
    ensures forall date :: Sorting.Filter(WorkedOn(date), OldestFirst(timeEntries)) == Sorting.Filter(WorkedOn(date), timeEntries)
  {
    Sorting.SortSorted(WorkedBefore, timeEntries);
    forall date ensures Sorting.Filter(WorkedOn(date), OldestFirst(timeEntries)) == Sorting.Filter(WorkedOn(date), timeEntries) {
      Sorting.SortStable(WorkedBefore, WorkedOn(date), timeEntries);
    }
  }

  // ----- No hour is on two lines, and none is charged beyond what was logged -----

  /** A charge is an entry with hours left out: some remain, and no more than were logged. */
  ghost predicate ChargeFrom(entries: seq<TimeEntry>, c: Charge) {
    exists e :: e in entries && c.entry == e.(hours := c.entry.hours) && (e.hours > 0 ==> 0 < c.entry.hours <= e.hours)
  }

  lemma {:induction false} ChargesFromEntries(ctx: Context, capacity: map<string, int>, entries: seq<TimeEntry>)
    requires CapacityOk(ctx, capacity)
    ensures forall c :: c in Apportion(ctx, capacity, entries).charges ==> ChargeFrom(entries, c)
  {
    if entries == [] {
    } else {
      var init, e := entries[..|entries| - 1], entries[|entries| - 1];
      var before := Apportion(ctx, capacity, init);
      assert entries == init + [e];
      ChargesFromEntries(ctx, capacity, init);
      ApportionKeepsCapacity(ctx, capacity, init);
      forall c | c in before.charges ensures ChargeFrom(entries, c) {
        assert ChargeFrom(init, c);
      }
      forall c | c in Apportion1(ctx, before.capacity, e).charges ensures ChargeFrom(entries, c) {
        StepCharges(ctx, before.capacity, e, c);
      }
    }
  }

  lemma StepCharges(ctx: Context, capacity: map<string, int>, e: TimeEntry, c: Charge)
    requires CapacityOk(ctx, capacity) && c in Apportion1(ctx, capacity, e).charges
    ensures c.entry == e.(hours := c.entry.hours) && (e.hours > 0 ==> 0 < c.entry.hours <= e.hours)
  {
    GatedHasCapacity(ctx, capacity, e);
  }

  /** What the lines take from an entry is some of its hours, and no more than it has. */
  lemma BilledWithinLogged(ctx: Context, timeEntries: seq<TimeEntry>, p: (string, int))
    requires p in Billed(HourLines(ctx, timeEntries))
    ensures exists e :: e in timeEntries && e.id == p.0 && (e.hours > 0 ==> 0 < p.1 <= e.hours)
  {
    var charges, sorted := Apportioned(ctx, timeEntries).charges, OldestFirst(timeEntries);
    LinesHoldCharges(ctx, timeEntries);
    assert p in multiset(Sorting.Map(ChargePair, charges));
    var k :| 0 <= k < |charges| && Sorting.Map(ChargePair, charges)[k] == p;
    InitialCapacityOk(ctx.agreements);
    ChargesFromEntries(ctx, InitialCapacity(ctx.agreements), sorted);
    assert ChargeFrom(sorted, charges[k]);
    Sorting.SortMembers(WorkedBefore, timeEntries);
  }

  lemma {:induction false} ApportionCounts(ctx: Context, capacity: map<string, int>, entries: seq<TimeEntry>, id: string)
    requires CapacityOk(ctx, capacity)
    ensures SumAt(Apportion(ctx, capacity, entries).charges, ChargeId, id, (c: Charge) => 1)
         <= SumAt(entries, EntryId, id, (e: TimeEntry) => 1)
  {
    if entries == [] {
    } else {
      var init, e := entries[..|entries| - 1], entries[|entries| - 1];
      var before := Apportion(ctx, capacity, init);
      var s := Apportion1(ctx, before.capacity, e);
      ApportionCounts(ctx, capacity, init, id);
      ApportionKeepsCapacity(ctx, capacity, init);
      StepShows(ctx, before.capacity, e);
      SumAtAppend(before.charges, s.charges, ChargeId, id, (c: Charge) => 1);
      SumAtLast(entries, EntryId, id, (e: TimeEntry) => 1);
      assert SumAt(s.charges, ChargeId, id, (c: Charge) => 1) <= if e.id == id then 1 else 0;
    }
  }

  lemma {:induction false} PairCounts(charges: seq<Charge>, id: string)
    ensures SumAt(Sorting.Map(ChargePair, charges), PairId, id, (p: (string, int)) => 1) == SumAt(charges, ChargeId, id, (c: Charge) => 1)
  {
    if charges == [] {
    } else {
      PairCounts(charges[1..], id);
      assert Sorting.Map(ChargePair, charges)[1..] == Sorting.Map(ChargePair, charges[1..]);
    }
  }

  /** An id is on lines no more often than it is among the entries: once, when ids are distinct. */
  lemma BilledAtMostOnce(ctx: Context, timeEntries: seq<TimeEntry>, id: string)
    ensures SumAt(Billed(HourLines(ctx, timeEntries)), PairId, id, (p: (string, int)) => 1)
         <= SumAt(timeEntries, EntryId, id, (e: TimeEntry) => 1)
  {
    var charges := Apportioned(ctx, timeEntries).charges;
    InitialCapacityOk(ctx.agreements);
    ApportionCounts(ctx, InitialCapacity(ctx.agreements), OldestFirst(timeEntries), id);
    SumAtPermuted(OldestFirst(timeEntries), timeEntries, EntryId, id, (e: TimeEntry) => 1);
    LinesHoldCharges(ctx, timeEntries);
    SumAtPermuted(Billed(HourLines(ctx, timeEntries)), Sorting.Map(ChargePair, charges), PairId, id, (p: (string, int)) => 1);
    PairCounts(charges, id);
  }

  // ----- The run's hour totals -----

  /** `sumSfLineHours`, on the lines that carry hours. */
  function SumLineHours(lines: seq<HoursLine>): int {
    Sum(lines, (l: HoursLine) => l.quantity)
  }

  lemma {:induction false} ConsumedTotal(entries: seq<TimeEntry>)
    ensures Sum(Consumed(entries), PairHours) == Sum(entries, HoursOf)
  {
    if entries == [] {
    } else {
      ConsumedTotal(entries[1..]);
      assert Consumed(entries)[1..] == Consumed(entries[1..]);
    }
  }

  lemma {:induction false} LinesTotal(ctx: Context, buckets: seq<Bucket>)
    ensures SumLineHours(Lines(ctx, buckets)) == Sum(Billed(Lines(ctx, buckets)), PairHours)
  {
    if buckets == [] {
    } else {
      LinesTotal(ctx, buckets[1..]);
      if buckets[0].entries != [] {
        var line, rest := LineOf(ctx, buckets[0]), Lines(ctx, buckets[1..]);
        assert ([line] + rest)[1..] == rest;
        ConsumedTotal(buckets[0].entries);
        SumAppend(line.timeEntries, Billed(rest), PairHours);
      } else {
        assert Lines(ctx, buckets) == Lines(ctx, buckets[1..]);
      }
    }
  }

  lemma {:induction false} StepTotal(ctx: Context, capacity: map<string, int>, entries: seq<TimeEntry>)
    requires CapacityOk(ctx, capacity)
    ensures var s := Apportion(ctx, capacity, entries);
            Sum(s.charges, ChargeHours) + Sum(s.covered, CoveredHours) + Sum(entries, Dropped(ctx)) == Sum(entries, HoursOf)
  {
    if entries == [] {
    } else {
      var init, e := entries[..|entries| - 1], entries[|entries| - 1];
      var before := Apportion(ctx, capacity, init);
      var s := Apportion1(ctx, before.capacity, e);
      StepTotal(ctx, capacity, init);
      ApportionKeepsCapacity(ctx, capacity, init);
      StepAccounts(ctx, before.capacity, e, e.id);
      StepShows(ctx, before.capacity, e);
      SumAtAll(s.charges, ChargeId, e.id, ChargeHours);
      SumAtAll(s.covered, CoveredId, e.id, CoveredHours);
      SumAppend(before.charges, s.charges, ChargeHours);
      SumAppend(before.covered, s.covered, CoveredHours);
      SumLast(entries, Dropped(ctx));
      SumLast(entries, HoursOf);
    }
  }

  lemma {:induction false} PairTotal(charges: seq<Charge>)
    ensures Sum(Sorting.Map(ChargePair, charges), PairHours) == Sum(charges, ChargeHours)
  {
    if charges == [] {
    } else {
      PairTotal(charges[1..]);
      assert Sorting.Map(ChargePair, charges)[1..] == Sorting.Map(ChargePair, charges[1..]);
    }
  }

  /** Hours on the lines, hours covered and hours dropped add up to the hours logged; none are dropped unless negative. */
  lemma RunHoursConserved(ctx: Context, timeEntries: seq<TimeEntry>)
    ensures SumLineHours(HourLines(ctx, timeEntries)) + Sum(Apportioned(ctx, timeEntries).covered, CoveredHours)
          + Sum(timeEntries, Dropped(ctx)) == Sum(timeEntries, HoursOf)
    ensures NoNegativeHours(timeEntries) ==> Sum(timeEntries, Dropped(ctx)) == 0
  {
    var sorted, charges := OldestFirst(timeEntries), Apportioned(ctx, timeEntries).charges;
    InitialCapacityOk(ctx.agreements);
    StepTotal(ctx, InitialCapacity(ctx.agreements), sorted);
    LinesTotal(ctx, Group(ctx, charges));
    LinesHoldCharges(ctx, timeEntries);
    SumPermuted(Billed(HourLines(ctx, timeEntries)), Sorting.Map(ChargePair, charges), PairHours);
    PairTotal(charges);
    SumPermuted(sorted, timeEntries, HoursOf);
    SumPermuted(sorted, timeEntries, Dropped(ctx));
    if NoNegativeHours(timeEntries) {
      SumZero(timeEntries, Dropped(ctx));
    }
  }
}
