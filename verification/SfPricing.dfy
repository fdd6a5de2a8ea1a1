// Whether a billing line is priced at the rates of its own entries
// (src/lib/sfbilling/generate.ts, section 1 of `generateSfBillingLines`).
module SfPricing {
  import opened Money
  import opened SfGenerate
  import Sorting
  import opened Sums
  import opened Text
  import opened Wrappers

  // ----- What a bucket key tells -----

  /** How an agreement appears inside a bucket key. */
  function Shown(id: Option<string>): string {
    if id.Some? then id.value else "-"
  }

  /** Two agreements that a bucket key can confuse: one, followed by a bar, begins the other. */
  ghost predicate Clash(a: Option<string>, b: Option<string>) {
    a != b && (Shown(a) + ['|'] <= Shown(b) + ['|'] || Shown(b) + ['|'] <= Shown(a) + ['|'])
  }

  /** An agreement that a lookup can find. */
  predicate Named(id: Option<string>) {
    id.Some? && id.value != ""
  }

  /** Two agreements of which entries can end up on one line, priced by one of them. */
  ghost predicate Mistakable(a: Option<string>, b: Option<string>) {
    Clash(a, b) && Named(a) && Named(b)
  }

  /** Entries with the same key have the same kind, and agreements that are equal or clash. */
  lemma KeyTellsAgreement(ctx: Context, a: TimeEntry, k: Kind, b: TimeEntry, l: Kind)
    requires BucketKey(ctx, a, k) == BucketKey(ctx, b, l)
    ensures k == l && (a.agreementId == b.agreementId || Clash(a.agreementId, b.agreementId))
  {
    KeyStarts(ctx, a, k);
    KeyStarts(ctx, b, l);
    var x, y := Shown(a.agreementId) + ['|'], Shown(b.agreementId) + ['|'];
    assert BucketKey(ctx, a, k)[0] == BucketKey(ctx, b, l)[0];
    assert (x + KeyRest(ctx, a))[..] == BucketKey(ctx, a, k)[|KindName(k)| + 1..] == y + KeyRest(ctx, b);
    if |x| <= |y| {
      assert (x + KeyRest(ctx, a))[..|x|] == x && (y + KeyRest(ctx, b))[..|x|] == y[..|x|];
    } else {
      assert (x + KeyRest(ctx, a))[..|y|] == x[..|y|] && (y + KeyRest(ctx, b))[..|y|] == y;
    }
  }

  /** What follows the agreement in a bucket key. */
  function KeyRest(ctx: Context, e: TimeEntry): string {
    Join(KeyParts(ctx, e, TIME)[2..], '|')
  }

  lemma KeyStarts(ctx: Context, e: TimeEntry, k: Kind)
    ensures BucketKey(ctx, e, k) == KindName(k) + ['|'] + (Shown(e.agreementId) + ['|'] + KeyRest(ctx, e))
  {
    var parts := KeyParts(ctx, e, k);
    assert parts[1..][1..] == KeyParts(ctx, e, TIME)[2..];
    assert Join(parts[1..], '|') == parts[1] + ['|'] + Join(parts[1..][1..], '|');
  }

  /** A billable hour of no project, without a rate of its own. */
  predicate HourOf(e: TimeEntry) {
    e.hours == 10_000 && e.billable && e.rate.None? && e.projectId.None? && e.workDate == 0
  }

  /** Every clash happens: some two entries of clashing agreements share a key. */
  lemma ClashCollides(ctx: Context, k: Kind, a: Option<string>, b: Option<string>) returns (x: TimeEntry, y: TimeEntry)
    requires Clash(a, b)
    ensures x.agreementId == a && y.agreementId == b && BucketKey(ctx, x, k) == BucketKey(ctx, y, k) && HourOf(x) && HourOf(y)
  {
    if Shown(a) + ['|'] <= Shown(b) + ['|'] {
      x, y := Colliding(ctx, k, a, b);
    } else {
      y, x := Colliding(ctx, k, b, a);
    }
  }

  lemma Colliding(ctx: Context, k: Kind, a: Option<string>, b: Option<string>) returns (x: TimeEntry, y: TimeEntry)
    requires Shown(a) + ['|'] <= Shown(b) + ['|']
    ensures x.agreementId == a && y.agreementId == b && BucketKey(ctx, x, k) == BucketKey(ctx, y, k) && HourOf(x) && HourOf(y)
  {
    var s, t := Shown(a) + ['|'], Shown(b) + ['|'];
    var more := t[|s|..];
    assert t == s + more;
    x := TimeEntry("te1", 0, 10_000, None, true, more + "cc", a, None, None);
    y := TimeEntry("te2", 0, 10_000, None, true, "cc", b, None, None);
    KeyStarts(ctx, x, k);
    KeyStarts(ctx, y, k);
    RestGrows(ctx, x, y, more);
    Regroup(s, more, KeyRest(ctx, y));
  }

  lemma Regroup(a: string, b: string, c: string)
    ensures a + (b + c) == (a + b) + c
  {
  }

  lemma RestGrows(ctx: Context, x: TimeEntry, y: TimeEntry, more: string)
    requires x.chargeCodeId == more + y.chargeCodeId && x.ticketNumber == y.ticketNumber
    ensures KeyRest(ctx, x) == more + KeyRest(ctx, y)
  {
    var p, q := KeyParts(ctx, x, TIME)[2..], KeyParts(ctx, y, TIME)[2..];
    assert p[0] == more + q[0] && p[1..] == q[1..];
    if |p| > 1 {
      assert Join(p, '|') == p[0] + ['|'] + Join(p[1..], '|');
      assert Join(q, '|') == q[0] + ['|'] + Join(q[1..], '|');
    }
  }

  /** Generated ids hold no bar and are never a dash; such ids do not clash. */
  lemma PlainIdsDoNotClash(a: Option<string>, b: Option<string>)
    requires '|' !in Shown(a) && '|' !in Shown(b) && a != Some("-") && b != Some("-")
    ensures !Clash(a, b)
  {
    if Shown(a) + ['|'] <= Shown(b) + ['|'] {
      OnlyWhole(Shown(a), Shown(b));
    } else if Shown(b) + ['|'] <= Shown(a) + ['|'] {
      OnlyWhole(Shown(b), Shown(a));
    }
  }

  lemma OnlyWhole(s: string, t: string)
    requires s + ['|'] <= t + ['|'] && '|' !in t
    ensures s == t
  {
    assert (t + ['|'])[|s|] == (s + ['|'])[|s|] == '|';
    assert (t + ['|'])[..|s|] == (s + ['|'])[..|s|] == s;
  }

  /** Every entry of a bucket came in as a charge of the bucket's kind, with the bucket's agreement or a rate of its own. */
  ghost predicate BucketOk(b: Bucket, ctx: Context, charges: seq<Charge>) {
    && b.entries != []
    && forall e :: e in b.entries ==> EntryOk(e, b, ctx, charges)
  }

  ghost predicate EntryOk(e: TimeEntry, b: Bucket, ctx: Context, charges: seq<Charge>) {
    b.key == BucketKey(ctx, e, b.kind) && (b.agreementId == e.agreementId || e.rate.Some?) && FromCharge(e, b.kind, charges)
    && (b.kind.OVERAGE? ==> b.agreementId == e.agreementId)
  }

  ghost predicate FromCharge(e: TimeEntry, kind: Kind, charges: seq<Charge>) {
    exists c :: c in charges && c.entry == e && c.kind == kind
  }

  /** Overage is for an agreement that was found; other time is charged at a rate of its own. */
  ghost predicate Told(c: Charge) {
    if c.kind.OVERAGE? then Named(c.entry.agreementId) else c.entry.rate.Some?
  }

  ghost predicate AllTold(charges: seq<Charge>) {
    forall c :: c in charges ==> Told(c)
  }

  ghost predicate NoneMistakable(charges: seq<Charge>) {
    forall c, d :: c in charges && d in charges ==> !Mistakable(c.entry.agreementId, d.entry.agreementId)
  }

  ghost predicate CleanCharges(charges: seq<Charge>) {
    AllTold(charges) && NoneMistakable(charges)
  }

  /** No two entries are of agreements that a bucket key can confuse. */
  ghost predicate CleanEntries(entries: seq<TimeEntry>) {
    forall a, b :: a in entries && b in entries ==> !Mistakable(a.agreementId, b.agreementId)
  }

  lemma StepTold(ctx: Context, capacity: map<string, int>, e: TimeEntry)
    requires CapacityOk(ctx, capacity)
    ensures AllTold(Apportion1(ctx, capacity, e).charges)
  {
    GatedHasCapacity(ctx, capacity, e);
  }

  lemma {:induction false} ApportionTold(ctx: Context, capacity: map<string, int>, entries: seq<TimeEntry>)
    requires CapacityOk(ctx, capacity)
    ensures AllTold(Apportion(ctx, capacity, entries).charges)
  {
    if entries == [] {
    } else {
      var init, e := entries[..|entries| - 1], entries[|entries| - 1];
      ApportionTold(ctx, capacity, init);
      ApportionKeepsCapacity(ctx, capacity, init);
      StepTold(ctx, Apportion(ctx, capacity, init).capacity, e);
    }
  }

  lemma StillFrom(e: TimeEntry, kind: Kind, charges: seq<Charge>, c: Charge)
    requires FromCharge(e, kind, charges)
    ensures FromCharge(e, kind, charges + [c])
  {
    var d :| d in charges && d.entry == e && d.kind == kind;
    assert d in charges + [c];
  }

  lemma MoreCharges(b: Bucket, ctx: Context, charges: seq<Charge>, c: Charge)
    requires BucketOk(b, ctx, charges)
    ensures BucketOk(b, ctx, charges + [c])
  {
    forall e | e in b.entries ensures EntryOk(e, b, ctx, charges + [c]) {
      StillFrom(e, b.kind, charges, c);
    }
  }

  /** A charge that shares a bucket's key shares its agreement, or has a rate of its own. */
  lemma SharesBucket(e: TimeEntry, b: Bucket, ctx: Context, charges: seq<Charge>, c: Charge)
    requires EntryOk(e, b, ctx, charges) && CleanCharges(charges) && c in charges && b.key == BucketKey(ctx, c.entry, c.kind)
    ensures EntryOk(c.entry, b, ctx, charges)
  {
    KeyTellsAgreement(ctx, e, b.kind, c.entry, c.kind);
    var d :| d in charges && d.entry == e && d.kind == b.kind;
    assert Told(c) && Told(d);
    assert !Mistakable(d.entry.agreementId, c.entry.agreementId);
    assert FromCharge(c.entry, c.kind, charges);
  }

  lemma GrownBucket(b: Bucket, ctx: Context, charges: seq<Charge>, c: Charge)
    requires BucketOk(b, ctx, charges) && CleanCharges(charges + [c])
    requires b.key == BucketKey(ctx, c.entry, c.kind)
    ensures BucketOk(b.(entries := b.entries + [c.entry]), ctx, charges + [c])
  {
    MoreCharges(b, ctx, charges, c);
    assert c in charges + [c];
    SharesBucket(b.entries[0], b, ctx, charges + [c], c);
  }

  lemma NewBucket(ctx: Context, charges: seq<Charge>, c: Charge)
    ensures BucketOk(Bucket(BucketKey(ctx, c.entry, c.kind), c.kind, c.entry.agreementId, [c.entry]), ctx, charges + [c])
  {
    assert c in charges + [c];
    assert FromCharge(c.entry, c.kind, charges + [c]);
  }

  ghost predicate AllOk(buckets: seq<Bucket>, ctx: Context, charges: seq<Charge>) {
    forall b :: b in buckets ==> BucketOk(b, ctx, charges)
  }

  lemma {:induction false} AddChargeOk(ctx: Context, buckets: seq<Bucket>, charges: seq<Charge>, c: Charge)
    requires CleanCharges(charges + [c]) && AllOk(buckets, ctx, charges)
    ensures AllOk(AddCharge(ctx, buckets, c), ctx, charges + [c])
  {
    if buckets == [] {
      NewBucket(ctx, charges, c);
    } else {
      assert buckets[0] in buckets && forall b :: b in buckets[1..] ==> b in buckets;
      if buckets[0].key == BucketKey(ctx, c.entry, c.kind) {
        GrownBucket(buckets[0], ctx, charges, c);
        forall b | b in buckets[1..] ensures BucketOk(b, ctx, charges + [c]) {
          MoreCharges(b, ctx, charges, c);
        }
      } else {
        MoreCharges(buckets[0], ctx, charges, c);
        AddChargeOk(ctx, buckets[1..], charges, c);
      }
    }
  }

  lemma CleanInit(charges: seq<Charge>)
    requires CleanCharges(charges) && charges != []
    ensures CleanCharges(charges[..|charges| - 1])
  {
    assert forall c :: c in charges[..|charges| - 1] ==> c in charges;
  }

  lemma {:induction false} GroupOk(ctx: Context, charges: seq<Charge>)
    requires CleanCharges(charges)
    ensures AllOk(Group(ctx, charges), ctx, charges)
  {
    if charges == [] {
    } else {
      var init, c := charges[..|charges| - 1], charges[|charges| - 1];
      assert charges == init + [c];
      CleanInit(charges);
      GroupOk(ctx, init);
      AddChargeOk(ctx, Group(ctx, init), init, c);
    }
  }

  /** A charge carries the positive rate that was resolved for its entry. */
  ghost predicate RatedCharges(ctx: Context, charges: seq<Charge>) {
    forall c :: c in charges ==> c.rate > 0 && ResolveRate(ctx, c.entry, c.kind) == Some(c.rate)
  }

  lemma StepRates(ctx: Context, capacity: map<string, int>, e: TimeEntry)
    ensures RatedCharges(ctx, Apportion1(ctx, capacity, e).charges)
  {
  }

  lemma {:induction false} ApportionRates(ctx: Context, capacity: map<string, int>, entries: seq<TimeEntry>)
    ensures RatedCharges(ctx, Apportion(ctx, capacity, entries).charges)
  {
    if entries == [] {
    } else {
      var init, e := entries[..|entries| - 1], entries[|entries| - 1];
      ApportionRates(ctx, capacity, init);
      StepRates(ctx, Apportion(ctx, capacity, init).capacity, e);
    }
  }

  /** Exact value of entries at the rates resolved for them. */
  ghost function ResolvedValue(ctx: Context, entries: seq<TimeEntry>, kind: Kind): int {
    if entries == [] then 0
    else
      var rate := ResolveRate(ctx, entries[0], kind);
      entries[0].hours * (if rate.Some? then rate.value else 0) + ResolvedValue(ctx, entries[1..], kind)
  }

  lemma {:induction false} ValuesAgree(ctx: Context, entries: seq<TimeEntry>, kind: Kind, agreementId: Option<string>)
    requires forall e :: e in entries ==> e.agreementId == agreementId || e.rate.Some?
    ensures Value(entries, Fallback(AgreementOf(ctx, agreementId), kind)) == ResolvedValue(ctx, entries, kind)
  {
    if entries == [] {
    } else {
      ValuesAgree(ctx, entries[1..], kind, agreementId);
      assert entries[0] in entries;
    }
  }

  lemma {:induction false} LinePerBucket(ctx: Context, buckets: seq<Bucket>, k: nat)
    requires forall b :: b in buckets ==> b.entries != []
    ensures |Lines(ctx, buckets)| == |buckets|
    ensures k < |buckets| ==> Lines(ctx, buckets)[k] == LineOf(ctx, buckets[k])
  {
    if buckets == [] {
    } else {
      assert buckets[0] in buckets;
      LinePerBucket(ctx, buckets[1..], if k > 0 then k - 1 else 0);
    }
  }

  lemma {:induction false} HoursPositive(entries: seq<TimeEntry>)
    requires forall e :: e in entries ==> e.hours > 0
    ensures Sum(entries, HoursOf) >= 0 && (entries != [] ==> Sum(entries, HoursOf) > 0)
  {
    if entries == [] {
    } else {
      HoursPositive(entries[1..]);
      assert entries[0] in entries;
    }
  }

  lemma ChargesFrom(ctx: Context, timeEntries: seq<TimeEntry>)
    ensures forall c :: c in Apportioned(ctx, timeEntries).charges ==> ChargeFrom(timeEntries, c)
  {
    var charges, sorted := Apportioned(ctx, timeEntries).charges, OldestFirst(timeEntries);
    InitialCapacityOk(ctx.agreements);
    ChargesFromEntries(ctx, InitialCapacity(ctx.agreements), sorted);
    Sorting.SortMembers(WorkedBefore, timeEntries);
    forall c | c in charges ensures ChargeFrom(timeEntries, c) {
      assert ChargeFrom(sorted, c);
    }
  }

  lemma ChargesClean(ctx: Context, timeEntries: seq<TimeEntry>)
    requires CleanEntries(timeEntries)
    ensures CleanCharges(Apportioned(ctx, timeEntries).charges)
  {
    var charges := Apportioned(ctx, timeEntries).charges;
    ChargesFrom(ctx, timeEntries);
    forall c, d | c in charges && d in charges ensures !Mistakable(c.entry.agreementId, d.entry.agreementId) {
      assert ChargeFrom(timeEntries, c) && ChargeFrom(timeEntries, d);
    }
    InitialCapacityOk(ctx.agreements);
    ApportionTold(ctx, InitialCapacity(ctx.agreements), OldestFirst(timeEntries));
  }

  /** A line's total is within half a cent per hour, plus half a cent, of its hours times the rates resolved for them. */
  ghost predicate Priced(ctx: Context, b: Bucket, line: HoursLine) {
    line.quantity > 0 ==>
      -(50 * line.quantity + 500_000) <= 1_000_000 * line.total - ResolvedValue(ctx, b.entries, b.kind) <= 50 * line.quantity + 500_000
  }

  lemma BucketPriced(ctx: Context, b: Bucket, charges: seq<Charge>)
    requires BucketOk(b, ctx, charges)
    ensures Priced(ctx, b, LineOf(ctx, b))
  {
    forall e | e in b.entries ensures e.agreementId == b.agreementId || e.rate.Some? {
      assert EntryOk(e, b, ctx, charges);
    }
    ValuesAgree(ctx, b.entries, b.kind, b.agreementId);
    var quantity := Sum(b.entries, HoursOf);
    if quantity > 0 {
      RolledUpNear(Value(b.entries, Fallback(AgreementOf(ctx, b.agreementId), b.kind)), quantity);
    }
  }

  /** Every entry of a bucket was charged at a positive rate. */
  lemma BucketRated(ctx: Context, b: Bucket, charges: seq<Charge>, e: TimeEntry)
    requires BucketOk(b, ctx, charges) && RatedCharges(ctx, charges) && e in b.entries
    ensures FromCharge(e, b.kind, charges) && ResolveRate(ctx, e, b.kind).Some? && ResolveRate(ctx, e, b.kind).value > 0
  {
    assert EntryOk(e, b, ctx, charges);
    var c :| c in charges && c.entry == e && c.kind == b.kind;
  }

  lemma BucketHours(ctx: Context, b: Bucket, timeEntries: seq<TimeEntry>)
    requires BucketOk(b, ctx, Apportioned(ctx, timeEntries).charges)
    requires forall e :: e in timeEntries ==> e.hours > 0
    ensures LineOf(ctx, b).quantity > 0
  {
    var charges := Apportioned(ctx, timeEntries).charges;
    ChargesFrom(ctx, timeEntries);
    forall e | e in b.entries ensures e.hours > 0 {
      assert EntryOk(e, b, ctx, charges);
      var c :| c in charges && c.entry == e && c.kind == b.kind;
      assert ChargeFrom(timeEntries, c);
    }
    HoursPositive(b.entries);
  }

  lemma LinesAreBuckets(ctx: Context, timeEntries: seq<TimeEntry>, k: nat)
    requires CleanEntries(timeEntries) && k < |HourLines(ctx, timeEntries)|
    ensures var charges := Apportioned(ctx, timeEntries).charges;
            && |Group(ctx, charges)| == |HourLines(ctx, timeEntries)| && BucketOk(Group(ctx, charges)[k], ctx, charges)
            && HourLines(ctx, timeEntries)[k] == LineOf(ctx, Group(ctx, charges)[k])
  {
    var charges := Apportioned(ctx, timeEntries).charges;
    ChargesClean(ctx, timeEntries);
    GroupOk(ctx, charges);
    forall b | b in Group(ctx, charges) ensures b.entries != [] {
      assert BucketOk(b, ctx, charges);
    }
    LinePerBucket(ctx, Group(ctx, charges), k);
    assert Group(ctx, charges)[k] in Group(ctx, charges);
  }

  /**
   * Each line is one bucket. Every entry on it was charged at a positive rate, and the
   * line's total is within half a cent per hour plus half a cent of hours times those
   * rates. A line of no positive hours has the agreement's own rate for its unit price, or none.
   */
  lemma LinePricesItsHours(ctx: Context, timeEntries: seq<TimeEntry>, k: nat)
    requires CleanEntries(timeEntries)
    requires k < |HourLines(ctx, timeEntries)|
    ensures var charges := Apportioned(ctx, timeEntries).charges;
            && |Group(ctx, charges)| == |HourLines(ctx, timeEntries)|
            && var b, line := Group(ctx, charges)[k], HourLines(ctx, timeEntries)[k];
            && line.timeEntries == Consumed(b.entries) && line.kind == b.kind && Priced(ctx, b, line)
            && (forall e :: e in b.entries ==> FromCharge(e, b.kind, charges) && ResolveRate(ctx, e, b.kind).Some? && ResolveRate(ctx, e, b.kind).value > 0)
            && (line.quantity <= 0 ==>
                  var rate := Fallback(AgreementOf(ctx, b.agreementId), b.kind);
                  line.unitPrice == (if rate.Some? then rate.value else 0)
                  && -1_000_000 <= 2 * (1_000_000 * line.total - line.quantity * line.unitPrice) <= 1_000_000)
            && ((forall e :: e in timeEntries ==> e.hours > 0) ==> line.quantity > 0)
  {
    var charges := Apportioned(ctx, timeEntries).charges;
    LinesAreBuckets(ctx, timeEntries, k);
    var b, line := Group(ctx, charges)[k], HourLines(ctx, timeEntries)[k];
    BucketPriced(ctx, b, charges);
    ApportionRates(ctx, InitialCapacity(ctx.agreements), OldestFirst(timeEntries));
    forall e | e in b.entries
      ensures FromCharge(e, b.kind, charges) && ResolveRate(ctx, e, b.kind).Some? && ResolveRate(ctx, e, b.kind).value > 0
    {
      BucketRated(ctx, b, charges, e);
    }
    RoundDivNear(line.quantity * line.unitPrice, 1_000_000);
    if forall e :: e in timeEntries ==> e.hours > 0 {
      BucketHours(ctx, b, timeEntries);
    }
  }

  // ----- Exactly which agreements are priced for themselves -----

  /** Every line of a run is priced at its own entries' rates. */
  ghost predicate AllPriced(ctx: Context, timeEntries: seq<TimeEntry>) {
    var buckets, lines := Group(ctx, Apportioned(ctx, timeEntries).charges), HourLines(ctx, timeEntries);
    |buckets| == |lines| && forall k :: 0 <= k < |lines| ==> Priced(ctx, buckets[k], lines[k])
  }

  /** Entries of the two agreements and no other. */
  ghost predicate Only(timeEntries: seq<TimeEntry>, a: Option<string>, b: Option<string>) {
    forall e :: e in timeEntries ==> e.hours > 0 && (e.agreementId == a || e.agreementId == b)
  }

  /** A service plan without hours of its own, at an overage rate. */
  function Plan(id: string, rate: int): Agreement {
    Agreement(id, MANAGED_SERVICES, None, Some(rate), None, 0)
  }

  function Two(a: string, b: string): Context {
    Context([Plan(a, 1_000_000), Plan(b, 2_000_000)], [], CHARGE_CODE)
  }

  lemma TwoFound(a: string, b: string)
    requires a != b
    ensures AgreementById(Two(a, b).agreements, a) == Some(Plan(a, 1_000_000))
    ensures AgreementById(Two(a, b).agreements, b) == Some(Plan(b, 2_000_000))
    ensures InitialCapacity(Two(a, b).agreements) == map[a := 0, b := 0]
  {
    var agreements := Two(a, b).agreements;
    assert agreements[..1] == [Plan(a, 1_000_000)] && agreements[..1][..0] == [];
    assert InitialCapacity(agreements[..1]) == map[a := 0];
  }

  lemma TwoCharges(a: string, b: string, x: TimeEntry, y: TimeEntry)
    requires a != b && a != "" && b != "" && x.agreementId == Some(a) && y.agreementId == Some(b)
    requires x.billable && y.billable && x.rate == y.rate == None && x.projectId == y.projectId == None
    requires x.hours > 0 && y.hours > 0
    ensures Apportion(Two(a, b), map[a := 0, b := 0], [x, y]).charges == [Charge(x, OVERAGE, 1_000_000), Charge(y, OVERAGE, 2_000_000)]
  {
    var ctx, capacity := Two(a, b), map[a := 0, b := 0];
    TwoFound(a, b);
    assert capacity[a := 0] == capacity && capacity[b := 0] == capacity;
    assert x.(hours := x.hours - 0) == x && y.(hours := y.hours - 0) == y;
    assert Apportion1(ctx, capacity, x) == Step(capacity, [], [Charge(x, OVERAGE, 1_000_000)]);
    assert Apportion1(ctx, capacity, y) == Step(capacity, [], [Charge(y, OVERAGE, 2_000_000)]);
    assert [x, y][..1] == [x] && [x][..0] == [];
    assert Apportion(ctx, capacity, [x]) == Step(capacity, [], [Charge(x, OVERAGE, 1_000_000)]);
  }

  lemma InOrder(x: TimeEntry, y: TimeEntry)
    requires x.workDate <= y.workDate
    ensures OldestFirst([x, y]) == [x, y]
  {
    assert [x, y][1..] == [y] && [y][1..] == [];
    assert Sorting.Sort(WorkedBefore, [y]) == [y];
  }

  lemma OneBucket(ctx: Context, x: TimeEntry, y: TimeEntry, r: int, s: int)
    requires BucketKey(ctx, x, OVERAGE) == BucketKey(ctx, y, OVERAGE)
    ensures Group(ctx, [Charge(x, OVERAGE, r), Charge(y, OVERAGE, s)])
         == [Bucket(BucketKey(ctx, x, OVERAGE), OVERAGE, x.agreementId, [x, y])]
  {
    var charges := [Charge(x, OVERAGE, r), Charge(y, OVERAGE, s)];
    assert charges[..1] == [Charge(x, OVERAGE, r)] && charges[..1][..0] == [];
    assert Group(ctx, charges[..1]) == [Bucket(BucketKey(ctx, x, OVERAGE), OVERAGE, x.agreementId, [x])];
    assert [x] + [y] == [x, y];
  }

  /** An hour at 100.00 and one at 200.00 on one line, at the first one's rate: 200.00 instead of 300.00. */
  lemma Underpriced(a: string, b: string, key: string, x: TimeEntry, y: TimeEntry)
    requires a != b && a != "" && b != "" && x.agreementId == Some(a) && y.agreementId == Some(b)
    requires x.rate == y.rate == None && x.hours == y.hours == 10_000
    ensures var bucket := Bucket(key, OVERAGE, Some(a), [x, y]);
            LineOf(Two(a, b), bucket).total == 20_000 && ResolvedValue(Two(a, b), bucket.entries, OVERAGE) == 30_000 * 1_000_000
  {
    TwoFound(a, b);
    var ctx, entries := Two(a, b), [x, y];
    assert entries[1..] == [y] && [y][1..] == [];
    assert Sum([y], HoursOf) == 10_000 && Sum(entries, HoursOf) == 20_000;
    assert Value([y], Some(1_000_000)) == 10_000 * 1_000_000;
    assert Value(entries, Some(1_000_000)) == 20_000 * 1_000_000;
    assert ResolvedValue(ctx, [y], OVERAGE) == 10_000 * 2_000_000;
  }

  /** Every pair that can be mistaken is: two entries, one of each, land on one line at the rate of the first. */
  lemma MistakenRate(a: Option<string>, b: Option<string>) returns (ctx: Context, timeEntries: seq<TimeEntry>)
    requires Mistakable(a, b)
    ensures Only(timeEntries, a, b) && !AllPriced(ctx, timeEntries)
  {
    ctx := Two(a.value, b.value);
    var x, y := ClashCollides(ctx, OVERAGE, a, b);
    timeEntries := [x, y];
    InOrder(x, y);
    TwoFound(a.value, b.value);
    TwoCharges(a.value, b.value, x, y);
    OneBucket(ctx, x, y, 1_000_000, 2_000_000);
    var bucket := Bucket(BucketKey(ctx, x, OVERAGE), OVERAGE, a, [x, y]);
    Underpriced(a.value, b.value, bucket.key, x, y);
    var buckets := Group(ctx, Apportioned(ctx, timeEntries).charges);
    assert buckets == [bucket] && buckets[1..] == [];
    assert HourLines(ctx, timeEntries) == [LineOf(ctx, bucket)] + Lines(ctx, []);
    assert LineOf(ctx, bucket).quantity == 20_000 by {
      assert [x, y][1..] == [y] && [y][1..] == [];
      assert Sum([y], HoursOf) == 10_000;
    }
    assert !Priced(ctx, buckets[0], HourLines(ctx, timeEntries)[0]);
  }

  /** Two agreements are priced for themselves in every context and for all entries exactly when no key can confuse them. */
  lemma PricedIff(a: Option<string>, b: Option<string>)
    ensures (forall ctx, timeEntries :: Only(timeEntries, a, b) ==> AllPriced(ctx, timeEntries)) <==> !Mistakable(a, b)
  {
    if Mistakable(a, b) {
      var ctx, timeEntries := MistakenRate(a, b);
    } else {
      forall ctx, timeEntries | Only(timeEntries, a, b) ensures AllPriced(ctx, timeEntries) {
        OnlyIsClean(timeEntries, a, b);
        CleanIsPriced(ctx, timeEntries);
      }
    }
  }

  lemma OnlyIsClean(timeEntries: seq<TimeEntry>, a: Option<string>, b: Option<string>)
    requires Only(timeEntries, a, b) && !Mistakable(a, b)
    ensures CleanEntries(timeEntries)
  {
    assert Mistakable(b, a) ==> Mistakable(a, b);
  }

  lemma CleanIsPriced(ctx: Context, timeEntries: seq<TimeEntry>)
    requires CleanEntries(timeEntries)
    ensures AllPriced(ctx, timeEntries)
  {
    var buckets := Group(ctx, Apportioned(ctx, timeEntries).charges);
    forall k | 0 <= k < |HourLines(ctx, timeEntries)|
      ensures |buckets| == |HourLines(ctx, timeEntries)| && Priced(ctx, buckets[k], HourLines(ctx, timeEntries)[k])
    {
      LinePricesItsHours(ctx, timeEntries, k);
    }
    ChargesClean(ctx, timeEntries);
    GroupOk(ctx, Apportioned(ctx, timeEntries).charges);
    forall bucket | bucket in buckets ensures bucket.entries != [] {
      assert BucketOk(bucket, ctx, Apportioned(ctx, timeEntries).charges);
    }
    LinePerBucket(ctx, buckets, 0);
  }
}
