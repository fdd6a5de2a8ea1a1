// Billing runs as steps on the store: log and approve time, generate, edit, transition,
// delete and push (src/lib/sfbilling/state.ts, service.ts and push.ts; the edits are those
// of src/app/(app)/silverfang-billing/actions.ts, the time entries those of
// src/app/(app)/silverfang/actions.ts and timesheet-actions.ts). A push may be
// refused by QuickBooks, or taken without the transaction that follows being committed.
// Quantities are whole numbers of 0.0001.
module SfStore {
  import opened Agreements
  import Fees
  import SfGenerate
  import opened Sums
  import opened Wrappers

  // ----- The state machine of one run -----

  datatype Status = DRAFT | REVIEWED | APPROVED | PARTIALLY_FAILED | PUSHED | CANCELLED

  function Transitions(from: Status): set<Status> {
    match from
    case DRAFT => {REVIEWED, CANCELLED}
    case REVIEWED => {APPROVED, DRAFT, CANCELLED}
    case APPROVED => {PUSHED, PARTIALLY_FAILED, REVIEWED, CANCELLED}
    case PARTIALLY_FAILED => {PUSHED, APPROVED, CANCELLED}
    case PUSHED => {}
    case CANCELLED => {}
  }

  predicate CanPush(status: Status) {
    status == APPROVED || status == PARTIALLY_FAILED
  }

  predicate LinesEditable(status: Status) {
    status == DRAFT
  }

  predicate Deletable(status: Status) {
    status == DRAFT || status == CANCELLED
  }

  // ----- Lines and what they charge for -----

  datatype Kind = HOURS(kind: SfGenerate.Kind) | RECURRING(agreement: string) | BLOCK_PURCHASE(block: string)
                | PROJECT_DEPOSIT(depositOn: string) | PROJECT_FEE(project: string) | MANUAL

  datatype RunLine = RunLine(kind: Kind, quantity: int, total: int, qboItemId: Option<string>, entries: seq<(string, int)>)

  /** What a line charges for: a thing of its own, or an agreement's fee for the run's period. */
  datatype Thing = Time(id: string) | Block(id: string) | Deposit(id: string) | Recurring(id: string)

  /** What must be charged for only once, whatever the period. */
  predicate OneOff(t: Thing) {
    !t.Recurring?
  }

  /** A charge for a thing; for a time entry, how many of its hours. */
  datatype Claim = Claim(thing: Thing, hours: int)

  function TimeClaims(entries: seq<(string, int)>): seq<Claim> {
    if entries == [] then [] else [Claim(Time(entries[0].0), entries[0].1)] + TimeClaims(entries[1..])
  }

  function KindClaims(kind: Kind): seq<Claim> {
    match kind
    case BLOCK_PURCHASE(id) => [Claim(Block(id), 0)]
    case PROJECT_DEPOSIT(id) => [Claim(Deposit(id), 0)]
    case RECURRING(id) => [Claim(Recurring(id), 0)]
    case _ => []
  }

  function LineClaims(l: RunLine): seq<Claim> {
    TimeClaims(l.entries) + KindClaims(l.kind)
  }

  function ClaimsOn(lines: seq<RunLine>): seq<Claim> {
    if lines == [] then [] else LineClaims(lines[0]) + ClaimsOn(lines[1..])
  }

  function ThingOf(c: Claim): Thing { c.thing }

  function HoursOf(c: Claim): int { c.hours }

  function One(c: Claim): int { 1 }

  /** How many of the claims are for a thing. */
  function Count(claims: seq<Claim>, t: Thing): int {
    SumAt(claims, ThingOf, t, One)
  }

  function FeeOf(l: RunLine): seq<(string, int)> {
    if l.kind.PROJECT_FEE? then [(l.kind.project, l.quantity)] else []
  }

  /** The fixed-fee lines: a project and a quantity of its periods. */
  function FeesOn(lines: seq<RunLine>): seq<(string, int)> {
    if lines == [] then []
    else FeeOf(lines[0]) + FeesOn(lines[1..])
  }

  function FeeProject(f: (string, int)): string { f.0 }

  function FeeQuantity(f: (string, int)): int { f.1 }

  function OneFee(f: (string, int)): int { 1 }

  /** How many of the fees are a project's. */
  function FeeCount(fees: seq<(string, int)>, project: string): int {
    SumAt(fees, FeeProject, project, OneFee)
  }

  /** The quantity of a project's periods among the fees. */
  function FeeSum(fees: seq<(string, int)>, project: string): int {
    SumAt(fees, FeeProject, project, FeeQuantity)
  }

  ghost predicate OnceEach(claims: seq<Claim>) {
    forall t :: Count(claims, t) <= 1
  }

  ghost predicate FeesOnce(fees: seq<(string, int)>) {
    forall p :: FeeCount(fees, p) <= 1
  }

  /** The lines QuickBooks can take. */
  function Eligible(lines: seq<RunLine>): seq<RunLine> {
    if lines == [] then []
    else (if lines[0].qboItemId.Some? then [lines[0]] else []) + Eligible(lines[1..])
  }

  lemma {:induction false} EligibleShorter(lines: seq<RunLine>)
    ensures |Eligible(lines)| <= |lines|
  {
    if lines == [] {
    } else {
      EligibleShorter(lines[1..]);
    }
  }

  // ----- The store -----

  /** `approved` records the lines as they stood at the last approval; the source keeps only its time. */
  datatype Run = Run(status: Status, period: Period, lines: seq<RunLine>, invoiced: bool, approved: Option<seq<RunLine>>)

  /** READY is an approved entry. */
  datatype EntryStatus = DRAFTED | SUBMITTED | REJECTED | READY | INVOICED

  /** What submitting, approving, rejecting and reopening a timesheet does to its entries. */
  function EntryMoves(from: EntryStatus): set<EntryStatus> {
    match from
    case DRAFTED => {SUBMITTED}
    case SUBMITTED => {READY, REJECTED, DRAFTED}
    case REJECTED => {SUBMITTED}
    case READY => {}
    case INVOICED => {}
  }

  /** `timeEntryEditable`. */
  predicate EntryEditable(status: EntryStatus) {
    status == DRAFTED || status == REJECTED
  }

  predicate Approved(status: EntryStatus) {
    status == READY || status == INVOICED
  }

  datatype Entry = Entry(time: SfGenerate.TimeEntry, status: EntryStatus)

  /** An invoice in QuickBooks; `recorded` says whether the transaction that follows it was committed. */
  datatype Invoice = Invoice(runId: nat, period: Period, lines: seq<RunLine>, recorded: bool)

  /** `blocks` and `deposits` are those marked as invoiced. */
  datatype Store = Store(agreements: map<string, Agreement>, entries: map<string, Entry>, blocks: set<string>, deposits: set<string>,
                         projects: map<string, Fees.Project>, runs: map<nat, Run>, invoices: seq<Invoice>)

  /** The guard of `loadTimeEntries`: approved, and not invoiced yet. */
  predicate Loadable(entries: map<string, Entry>, id: string) {
    id in entries && entries[id].status == READY
  }

  /** Marked as billed. A recurring fee leaves no mark. */
  predicate IsBilled(s: Store, t: Thing) {
    match t
    case Time(id) => id in s.entries && s.entries[id].status == INVOICED
    case Block(id) => id in s.blocks
    case Deposit(id) => id in s.deposits
    case Recurring(_) => false
  }

  /**
   * The guards of the generator: approved time, blocks and deposits not marked yet, and
   * fees of agreements that bill in the period.
   */
  ghost predicate Ready(s: Store, period: Period, t: Thing) {
    match t
    case Time(id) => Loadable(s.entries, id)
    case Block(id) => id !in s.blocks
    case Deposit(id) => id !in s.deposits
    case Recurring(id) => id in s.agreements && RecurringDue(s.agreements[id], period)
  }

  predicate HasInvoice(invoices: seq<Invoice>, runId: nat) {
    exists i :: 0 <= i < |invoices| && invoices[i].runId == runId
  }

  /** Charges are for hours that are there: some of an entry's, and no more than it has. */
  predicate Within(entries: map<string, Entry>, c: Claim) {
    c.thing.Time? ==> c.thing.id in entries && 0 < c.hours <= entries[c.thing.id].time.hours
  }

  ghost predicate ClaimsReady(s: Store, period: Period, claims: seq<Claim>) {
    forall c :: c in claims ==> Ready(s, period, c.thing) && Within(s.entries, c)
  }

  /** The fee lines of a new run: what each project owes by the end of the period. */
  ghost predicate FeesDue(s: Store, period: Period, fees: seq<(string, int)>) {
    forall f :: f in fees ==> f.0 in s.projects && f.1 == 10_000 * Fees.FeeQuantity(s.projects[f.0], period.end)
  }

  /** What a generated run holds: each thing once and ready to bill, each project's fee once and due. */
  ghost predicate Generable(s: Store, period: Period, lines: seq<RunLine>) {
    && ClaimsReady(s, period, ClaimsOn(lines)) && OnceEach(ClaimsOn(lines))
    && FeesDue(s, period, FeesOn(lines)) && FeesOnce(FeesOn(lines))
  }

  // ----- Steps -----

  datatype Step =
    | SaveEntry(time: SfGenerate.TimeEntry)
    | MoveEntry(id: string, status: EntryStatus)
    | DropEntry(id: string)
    | Generate(runId: nat, period: Period, lines: seq<RunLine>)
    | Transition(runId: nat, to: Status)
    | EditLine(runId: nat, index: nat, quantity: nat, total: int, qboItemId: Option<string>)
    | AddManual(runId: nat, quantity: nat, total: int, qboItemId: Option<string>)
    | DeleteManual(runId: nat, index: nat)
    | DeleteRun(runId: nat)
    | Push(runId: nat, outcome: Outcome)

  /** QuickBooks refuses the invoice, or takes it and the commit succeeds, or takes it and the commit fails. */
  datatype Outcome = REFUSED | RECORDED | UNRECORDED

  predicate Editable(s: Store, runId: nat) {
    runId in s.runs && LinesEditable(s.runs[runId].status)
  }

  predicate OpenEntry(entries: map<string, Entry>, id: string) {
    id in entries && EntryEditable(entries[id].status)
  }

  /** Whether the source carries the step out; otherwise it refuses and changes nothing. A new run has a new id. */
  ghost predicate Enabled(s: Store, step: Step) {
    match step
    case SaveEntry(time) => time.hours > 0 && (time.id !in s.entries || OpenEntry(s.entries, time.id))
    case MoveEntry(id, to) => id in s.entries && to in EntryMoves(s.entries[id].status)
    case DropEntry(id) => OpenEntry(s.entries, id)
    case Generate(r, period, lines) => r !in s.runs && !HasInvoice(s.invoices, r) && Generable(s, period, lines)
    case Transition(r, to) => r in s.runs && to in Transitions(s.runs[r].status)
    case EditLine(r, k, _, _, _) => Editable(s, r) && k < |s.runs[r].lines|
    case AddManual(r, _, _, _) => Editable(s, r)
    case DeleteManual(r, k) => Editable(s, r) && k < |s.runs[r].lines| && s.runs[r].lines[k].kind.MANUAL?
    case DeleteRun(r) => r in s.runs && Deletable(s.runs[r].status)
    case Push(r, _) => r in s.runs && CanPush(s.runs[r].status) && Eligible(s.runs[r].lines) != []
  }

  function Edited(lines: seq<RunLine>, k: nat, quantity: nat, total: int, item: Option<string>): seq<RunLine>
    requires k < |lines|
  {
    lines[k := lines[k].(quantity := quantity, total := total, qboItemId := item)]
  }

  function WithLines(s: Store, runId: nat, lines: seq<RunLine>): Store
    requires runId in s.runs
  {
    s.(runs := s.runs[runId := s.runs[runId].(lines := lines)])
  }

  function Moved(run: Run, to: Status): Run {
    run.(status := to, approved := if to == APPROVED then Some(run.lines) else run.approved)
  }

  /** Marks the time entries charged for. */
  function SetInvoiced(entries: map<string, Entry>, claims: seq<Claim>): map<string, Entry> {
    map id | id in entries :: if exists c :: c in claims && c.thing == Time(id) then entries[id].(status := INVOICED) else entries[id]
  }

  function BlocksIn(claims: seq<Claim>): set<string> {
    set c | c in claims && c.thing.Block? :: c.thing.id
  }

  function DepositsIn(claims: seq<Claim>): set<string> {
    set c | c in claims && c.thing.Deposit? :: c.thing.id
  }

  /** One 0.0001 of a project's billing interval, in milliseconds. */
  function Tick(p: Fees.Project): int {
    (if p.billingIntervalDays > 0 then p.billingIntervalDays else 30) * 8640
  }

  /** Moves a watermark on by a quantity of periods; a project with no date to count from stays. */
  function Advance(p: Fees.Project, quantity: int): Fees.Project {
    if Fees.Anchor(p).None? then p
    else p.(feeBilledThroughAt := Some(Fees.Anchor(p).value + quantity * Tick(p)))
  }

  /** The watermarks after a push, each counted from where it stood before. */
  function Advanced(projects: map<string, Fees.Project>, fees: seq<(string, int)>): map<string, Fees.Project> {
    if fees == [] then projects
    else
      var f := fees[|fees| - 1];
      var before := Advanced(projects, fees[..|fees| - 1]);
      if f.0 in projects then before[f.0 := Advance(projects[f.0], f.1)] else before
  }

  /** The store after QuickBooks has taken the lines `sent` of a run. */
  function Invoiced(s: Store, runId: nat, sent: seq<RunLine>): Store
    requires runId in s.runs
  {
    var run, claims := s.runs[runId], ClaimsOn(sent);
    Store(s.agreements, SetInvoiced(s.entries, claims), s.blocks + BlocksIn(claims), s.deposits + DepositsIn(claims),
          Advanced(s.projects, FeesOn(sent)),
          s.runs[runId := run.(status := if |sent| < |run.lines| then PARTIALLY_FAILED else PUSHED, invoiced := true)],
          s.invoices + [Invoice(runId, run.period, sent, true)])
  }

  function Failed(s: Store, runId: nat): Store
    requires runId in s.runs
  {
    s.(runs := s.runs[runId := s.runs[runId].(status := PARTIALLY_FAILED)])
  }

  /** The store after QuickBooks has taken the lines and the commit has failed: only the run's status changes. */
  function Lost(s: Store, runId: nat, sent: seq<RunLine>): Store
    requires runId in s.runs
  {
    Failed(s, runId).(invoices := s.invoices + [Invoice(runId, s.runs[runId].period, sent, false)])
  }

  /** A new entry is a draft; an edited one keeps its status. */
  function Saved(entries: map<string, Entry>, time: SfGenerate.TimeEntry): map<string, Entry> {
    entries[time.id := Entry(time, if time.id in entries then entries[time.id].status else DRAFTED)]
  }

  ghost function Apply(s: Store, step: Step): Store {
    if !Enabled(s, step) then s
    else
      match step
      case SaveEntry(time) => s.(entries := Saved(s.entries, time))
      case MoveEntry(id, to) => s.(entries := s.entries[id := s.entries[id].(status := to)])
      case DropEntry(id) => s.(entries := s.entries - {id})
      case Generate(r, period, lines) => s.(runs := s.runs[r := Run(DRAFT, period, lines, false, None)])
      case Transition(r, to) => s.(runs := s.runs[r := Moved(s.runs[r], to)])
      case EditLine(r, k, quantity, total, item) => WithLines(s, r, Edited(s.runs[r].lines, k, quantity, total, item))
      case AddManual(r, quantity, total, item) => WithLines(s, r, s.runs[r].lines + [RunLine(MANUAL, quantity, total, item, [])])
      case DeleteManual(r, k) => WithLines(s, r, s.runs[r].lines[..k] + s.runs[r].lines[k + 1..])
      case DeleteRun(r) => s.(runs := s.runs - {r})
      case Push(r, outcome) =>
        match outcome
        case REFUSED => Failed(s, r)
        case RECORDED => Invoiced(s, r, Eligible(s.runs[r].lines))
        case UNRECORDED => Lost(s, r, Eligible(s.runs[r].lines))
  }

  /** The store after a series of steps. */
  ghost function After(s: Store, steps: seq<Step>): Store {
    if steps == [] then s else Apply(After(s, steps[..|steps| - 1]), steps[|steps| - 1])
  }

  /** Nothing has been logged, generated or billed; agreements and projects may exist. */
  ghost predicate Initial(s: Store) {
    s.entries == map[] && s.blocks == {} && s.deposits == {} && s.runs == map[] && s.invoices == []
  }

  // ----- From the generator's lines to a run's -----

  /** The QuickBooks items charge codes and line kinds are mapped to. */
  datatype Items = Items(byCode: map<string, string>, byKind: map<string, string>)

  function KindName(kind: Kind): string {
    match kind
    case HOURS(k) => SfGenerate.KindName(k)
    case RECURRING(_) => "RECURRING"
    case BLOCK_PURCHASE(_) => "BLOCK_PURCHASE"
    case PROJECT_DEPOSIT(_) => "PROJECT_DEPOSIT"
    case PROJECT_FEE(_) => "PROJECT_FEE"
    case MANUAL => "MANUAL"
  }

  function ItemFor(items: Items, chargeCodeId: Option<string>, kind: Kind): Option<string> {
    if chargeCodeId.Some? && chargeCodeId.value in items.byCode then Some(items.byCode[chargeCodeId.value])
    else if KindName(kind) in items.byKind then Some(items.byKind[KindName(kind)])
    else None
  }

  function HourRunLine(l: SfGenerate.HoursLine, items: Items): RunLine {
    RunLine(HOURS(l.kind), l.quantity, l.total, ItemFor(items, Some(l.chargeCodeId), HOURS(l.kind)), l.timeEntries)
  }

  function HourRunLines(lines: seq<SfGenerate.HoursLine>, items: Items): seq<RunLine> {
    if lines == [] then [] else [HourRunLine(lines[0], items)] + HourRunLines(lines[1..], items)
  }

  /** Approved time among the rows of a query, in the order of the query. */
  function Loaded(entries: map<string, Entry>, rows: seq<string>): seq<SfGenerate.TimeEntry> {
    if rows == [] then []
    else
      var last := rows[|rows| - 1];
      Loaded(entries, rows[..|rows| - 1]) + if Loadable(entries, last) then [entries[last].time] else []
  }

  /** Entries are stored under their own id and have hours to bill. */
  ghost predicate EntriesOk(entries: map<string, Entry>) {
    forall id :: id in entries ==> entries[id].time.id == id && entries[id].time.hours > 0
  }

  lemma {:induction false} LoadedAre(entries: map<string, Entry>, rows: seq<string>)
    requires EntriesOk(entries)
    ensures forall e :: e in Loaded(entries, rows) ==> e.id in rows && Loadable(entries, e.id) && entries[e.id].time == e
  {
    if rows == [] {
    } else {
      var init, last := rows[..|rows| - 1], rows[|rows| - 1];
      assert rows == init + [last];
      LoadedAre(entries, init);
    }
  }

  lemma {:induction false} LoadedOnce(entries: map<string, Entry>, rows: seq<string>, id: string)
    requires EntriesOk(entries) && Distinct(rows)
    ensures SumAt(Loaded(entries, rows), SfGenerate.EntryId, id, (e: SfGenerate.TimeEntry) => 1) <= 1
  {
    if rows == [] {
    } else {
      var init, last := rows[..|rows| - 1], rows[|rows| - 1];
      assert rows == init + [last] && last !in init;
      LoadedOnce(entries, init, id);
      LoadedAre(entries, init);
      if Loadable(entries, last) {
        SumAtAppend(Loaded(entries, init), [entries[last].time], SfGenerate.EntryId, id, (e: SfGenerate.TimeEntry) => 1);
        if id == last {
          SumAtAbsent(Loaded(entries, init), SfGenerate.EntryId, id, (e: SfGenerate.TimeEntry) => 1);
        }
      } else {
        assert Loaded(entries, rows) == Loaded(entries, init);
      }
    }
  }

  lemma {:induction false} TimeClaimsAre(entries: seq<(string, int)>, t: Thing)
    ensures forall c :: c in TimeClaims(entries) <==> c.thing.Time? && (c.thing.id, c.hours) in entries
    ensures Count(TimeClaims(entries), t)
         == if t.Time? then SumAt(entries, SfGenerate.PairId, t.id, (p: (string, int)) => 1) else 0
  {
    if entries == [] {
    } else {
      TimeClaimsAre(entries[1..], t);
    }
  }

  /** Hour lines claim exactly what the generator's lines take from the entries. */
  lemma {:induction false} HourClaims(lines: seq<SfGenerate.HoursLine>, items: Items)
    ensures ClaimsOn(HourRunLines(lines, items)) == TimeClaims(SfGenerate.Billed(lines))
    ensures FeesOn(HourRunLines(lines, items)) == []
  {
    if lines == [] {
    } else {
      var line, rest := HourRunLine(lines[0], items), HourRunLines(lines[1..], items);
      HourClaims(lines[1..], items);
      ClaimsCons(line, rest);
      assert LineClaims(line) == TimeClaims(lines[0].timeEntries) && FeeOf(line) == [];
      TimeClaimsJoin(lines[0].timeEntries, SfGenerate.Billed(lines[1..]));
    }
  }

  lemma {:induction false} TimeClaimsJoin(a: seq<(string, int)>, b: seq<(string, int)>)
    ensures TimeClaims(a + b) == TimeClaims(a) + TimeClaims(b)
  {
    if a == [] {
      assert a + b == b;
    } else {
      assert (a + b)[1..] == a[1..] + b;
      TimeClaimsJoin(a[1..], b);
    }
  }

  lemma BilledClaimFits(s: Store, ctx: SfGenerate.Context, rows: seq<string>, period: Period, c: Claim)
    requires EntriesOk(s.entries)
    ensures c in TimeClaims(SfGenerate.Billed(SfGenerate.HourLines(ctx, Loaded(s.entries, rows)))) ==> Ready(s, period, c.thing) && Within(s.entries, c)
  {
    var loaded := Loaded(s.entries, rows);
    LoadedAre(s.entries, rows);
    TimeClaimsAre(SfGenerate.Billed(SfGenerate.HourLines(ctx, loaded)), c.thing);
    if c in TimeClaims(SfGenerate.Billed(SfGenerate.HourLines(ctx, loaded))) {
      SfGenerate.BilledWithinLogged(ctx, loaded, (c.thing.id, c.hours));
    }
  }

  lemma BilledThingOnce(s: Store, ctx: SfGenerate.Context, rows: seq<string>, t: Thing)
    requires EntriesOk(s.entries) && Distinct(rows)
    ensures Count(TimeClaims(SfGenerate.Billed(SfGenerate.HourLines(ctx, Loaded(s.entries, rows)))), t) <= 1
  {
    TimeClaimsAre(SfGenerate.Billed(SfGenerate.HourLines(ctx, Loaded(s.entries, rows))), t);
    if t.Time? {
      SfGenerate.BilledAtMostOnce(ctx, Loaded(s.entries, rows), t.id);
      LoadedOnce(s.entries, rows, t.id);
    }
  }

  lemma BilledClaimsReady(s: Store, ctx: SfGenerate.Context, rows: seq<string>, period: Period)
    requires EntriesOk(s.entries)
    ensures ClaimsReady(s, period, TimeClaims(SfGenerate.Billed(SfGenerate.HourLines(ctx, Loaded(s.entries, rows)))))
  {
    forall c | c in TimeClaims(SfGenerate.Billed(SfGenerate.HourLines(ctx, Loaded(s.entries, rows))))
      ensures Ready(s, period, c.thing) && Within(s.entries, c)
    {
      BilledClaimFits(s, ctx, rows, period, c);
    }
  }

  lemma BilledOnceEach(s: Store, ctx: SfGenerate.Context, rows: seq<string>)
    requires EntriesOk(s.entries) && Distinct(rows)
    ensures OnceEach(TimeClaims(SfGenerate.Billed(SfGenerate.HourLines(ctx, Loaded(s.entries, rows)))))
  {
    forall t ensures Count(TimeClaims(SfGenerate.Billed(SfGenerate.HourLines(ctx, Loaded(s.entries, rows)))), t) <= 1 {
      BilledThingOnce(s, ctx, rows, t);
    }
  }

  lemma NoFees(s: Store, period: Period)
    ensures FeesDue(s, period, []) && FeesOnce([])
  {
  }

  /** The generator's hour lines are fit to be stored: each entry once, approved, and within its hours. */
  lemma HourLinesGenerable(s: Store, ctx: SfGenerate.Context, rows: seq<string>, period: Period, items: Items)
    requires EntriesOk(s.entries) && Distinct(rows)
    ensures Generable(s, period, HourRunLines(SfGenerate.HourLines(ctx, Loaded(s.entries, rows)), items))
  {
    HourClaims(SfGenerate.HourLines(ctx, Loaded(s.entries, rows)), items);
    BilledClaimsReady(s, ctx, rows, period);
    BilledOnceEach(s, ctx, rows);
    NoFees(s, period);
  }

  // ----- Joining lines -----

  lemma ClaimsCons(l: RunLine, rest: seq<RunLine>)
    ensures ClaimsOn([l] + rest) == LineClaims(l) + ClaimsOn(rest) && FeesOn([l] + rest) == FeeOf(l) + FeesOn(rest)
  {
    assert ([l] + rest)[1..] == rest;
  }

  lemma {:induction false} ClaimsJoin(a: seq<RunLine>, b: seq<RunLine>)
    ensures ClaimsOn(a + b) == ClaimsOn(a) + ClaimsOn(b) && FeesOn(a + b) == FeesOn(a) + FeesOn(b)
  {
    if a == [] {
      assert a + b == b;
    } else {
      assert (a + b)[1..] == a[1..] + b;
      ClaimsJoin(a[1..], b);
    }
  }

  lemma CountJoin(a: seq<Claim>, b: seq<Claim>, t: Thing)
    ensures Count(a + b, t) == Count(a, t) + Count(b, t)
  {
    SumAtAppend(a, b, ThingOf, t, One);
  }

  lemma CountedOne(c: Claim, t: Thing)
    ensures Count([c], t) == if c.thing == t then 1 else 0
  {
    assert [c][1..] == [];
    assert Count([c], t) == (if ThingOf(c) == t then One(c) else 0) + SumAt([], ThingOf, t, One);
  }

  /** A thing is counted exactly when some claim is for it. */
  lemma {:induction false} CountedIffClaimed(claims: seq<Claim>, t: Thing)
    ensures Count(claims, t) >= 0
    ensures Count(claims, t) > 0 <==> exists c :: c in claims && c.thing == t
  {
    if claims == [] {
    } else {
      CountedIffClaimed(claims[1..], t);
      assert claims[0] in claims;
      assert forall c :: c in claims <==> c == claims[0] || c in claims[1..];
    }
  }

  /** Claims that have no thing in common. */
  ghost predicate NothingShared(a: seq<Claim>, b: seq<Claim>) {
    forall c, d :: c in a && d in b ==> c.thing != d.thing
  }

  lemma OnceEachJoin(a: seq<Claim>, b: seq<Claim>)
    requires OnceEach(a) && OnceEach(b) && NothingShared(a, b)
    ensures OnceEach(a + b)
  {
    forall t ensures Count(a + b, t) <= 1 {
      CountJoin(a, b, t);
      CountedIffClaimed(a, t);
      CountedIffClaimed(b, t);
      assert Count(a, t) <= 1 && Count(b, t) <= 1;
    }
  }

  /** Lines for time and lines for other things can be put together. */
  lemma GenerableTogether(s: Store, period: Period, hours: seq<RunLine>, others: seq<RunLine>)
    requires Generable(s, period, hours) && Generable(s, period, others)
    requires FeesOn(hours) == [] && NothingShared(ClaimsOn(hours), ClaimsOn(others))
    ensures Generable(s, period, hours + others)
  {
    ClaimsJoin(hours, others);
    assert FeesOn(hours + others) == FeesOn(others);
    OnceEachJoin(ClaimsOn(hours), ClaimsOn(others));
  }

  lemma HoursClaimTime(lines: seq<SfGenerate.HoursLine>, items: Items)
    ensures FeesOn(HourRunLines(lines, items)) == []
    ensures forall c :: c in ClaimsOn(HourRunLines(lines, items)) ==> c.thing.Time?
  {
    HourClaims(lines, items);
    TimeClaimsAre(SfGenerate.Billed(lines), Time(""));
  }

  // ----- The steps as the database sees them -----

  /** `loadTimeEntries`. */
  method LoadTimeEntries(entries: map<string, Entry>, rows: seq<string>) returns (loaded: seq<SfGenerate.TimeEntry>)
    ensures loaded == Loaded(entries, rows)
  {
    loaded := [];
    for k := 0 to |rows|
      invariant loaded == Loaded(entries, rows[..k])
    {
      assert rows[..k + 1][..k] == rows[..k];
      if rows[k] in entries && entries[rows[k]].status == READY {
        loaded := loaded + [entries[rows[k]].time];
      }
    }
    assert rows[..|rows|] == rows;
  }

  /** The watermark updates of a push, one for each fee line. */
  method AdvanceFees(projects: map<string, Fees.Project>, fees: seq<(string, int)>) returns (advanced: map<string, Fees.Project>)
    ensures advanced == Advanced(projects, fees)
  {
    advanced := projects;
    for k := 0 to |fees|
      invariant advanced == Advanced(projects, fees[..k])
    {
      assert fees[..k + 1][..k] == fees[..k];
      var (project, quantity) := fees[k];
      if project in projects {
        advanced := advanced[project := Advance(projects[project], quantity)];
      }
    }
    assert fees[..|fees|] == fees;
  }

  class Database {
    var agreements: map<string, Agreement>
    var entries: map<string, Entry>
    var blocks: set<string>
    var deposits: set<string>
    var projects: map<string, Fees.Project>
    var runs: map<nat, Run>
    var invoices: seq<Invoice>

    ghost function State(): Store
      reads this
    {
      Store(agreements, entries, blocks, deposits, projects, runs, invoices)
    }

    ghost predicate Valid()
      reads this
    {
      EntriesOk(entries)
    }

    constructor (agreements: map<string, Agreement>, projects: map<string, Fees.Project>)
      ensures Valid() && State() == Store(agreements, map[], {}, {}, projects, map[], [])
    {
      this.agreements, this.projects := agreements, projects;
      entries, blocks, deposits, runs, invoices := map[], {}, {}, map[], [];
    }

    method SaveEntry(time: SfGenerate.TimeEntry) returns (ok: bool)
      requires Valid()
      modifies this`entries
      ensures Valid() && ok == old(Enabled(State(), Step.SaveEntry(time)))
      ensures State() == old(Apply(State(), Step.SaveEntry(time)))
    {
      ok := time.hours > 0;
      var status := DRAFTED;
      if time.id in entries {
        status := entries[time.id].status;
        ok := ok && EntryEditable(status);
      }
      if ok {
        entries := entries[time.id := Entry(time, status)];
      }
    }

    method MoveEntry(id: string, to: EntryStatus) returns (ok: bool)
      requires Valid()
      modifies this`entries
      ensures Valid() && ok == old(Enabled(State(), Step.MoveEntry(id, to)))
      ensures State() == old(Apply(State(), Step.MoveEntry(id, to)))
    {
      ok := id in entries && to in EntryMoves(entries[id].status);
      if ok {
        entries := entries[id := entries[id].(status := to)];
      }
    }

    method DropEntry(id: string) returns (ok: bool)
      requires Valid()
      modifies this`entries
      ensures Valid() && ok == old(Enabled(State(), Step.DropEntry(id)))
      ensures State() == old(Apply(State(), Step.DropEntry(id)))
    {
      ok := id in entries && EntryEditable(entries[id].status);
      if ok {
        entries := entries - {id};
      }
    }

    /** Loads the approved time among the rows of the query, generates its lines and saves the run. */
    method CreateRun(runId: nat, period: Period, ctx: SfGenerate.Context, rows: seq<string>, items: Items, others: seq<RunLine>)
      returns (lines: seq<RunLine>)
      requires Valid() && Distinct(rows)
      requires runId !in runs && !HasInvoice(invoices, runId)
      requires Generable(State(), period, others) && forall c :: c in ClaimsOn(others) ==> !c.thing.Time?
      modifies this`runs
      ensures Valid() && old(Enabled(State(), Generate(runId, period, lines)))
      ensures State() == old(Apply(State(), Generate(runId, period, lines)))
      ensures lines == HourRunLines(SfGenerate.HourLines(ctx, Loaded(entries, rows)), items) + others
    {
      var timeEntries := LoadTimeEntries(entries, rows);
      var hourLines, covered := SfGenerate.GenerateHourLines(ctx, timeEntries);
      lines := HourRunLines(hourLines, items) + others;
      HourLinesGenerable(State(), ctx, rows, period, items);
      HoursClaimTime(hourLines, items);
      GenerableTogether(State(), period, HourRunLines(hourLines, items), others);
      runs := runs[runId := Run(DRAFT, period, lines, false, None)];
    }

    method EditLine(runId: nat, index: nat, quantity: nat, total: int, qboItemId: Option<string>) returns (ok: bool)
      modifies this`runs
      ensures ok == old(Enabled(State(), Step.EditLine(runId, index, quantity, total, qboItemId)))
      ensures State() == old(Apply(State(), Step.EditLine(runId, index, quantity, total, qboItemId)))
    {
      ok := runId in runs && LinesEditable(runs[runId].status) && index < |runs[runId].lines|;
      if ok {
        runs := runs[runId := runs[runId].(lines := Edited(runs[runId].lines, index, quantity, total, qboItemId))];
      }
    }

    method AddManual(runId: nat, quantity: nat, total: int, qboItemId: Option<string>) returns (ok: bool)
      modifies this`runs
      ensures ok == old(Enabled(State(), Step.AddManual(runId, quantity, total, qboItemId)))
      ensures State() == old(Apply(State(), Step.AddManual(runId, quantity, total, qboItemId)))
    {
      ok := runId in runs && LinesEditable(runs[runId].status);
      if ok {
        runs := runs[runId := runs[runId].(lines := runs[runId].lines + [RunLine(MANUAL, quantity, total, qboItemId, [])])];
      }
    }

    method DeleteManual(runId: nat, index: nat) returns (ok: bool)
      modifies this`runs
      ensures ok == old(Enabled(State(), Step.DeleteManual(runId, index)))
      ensures State() == old(Apply(State(), Step.DeleteManual(runId, index)))
    {
      ok := runId in runs && LinesEditable(runs[runId].status) && index < |runs[runId].lines| && runs[runId].lines[index].kind.MANUAL?;
      if ok {
        runs := runs[runId := runs[runId].(lines := runs[runId].lines[..index] + runs[runId].lines[index + 1..])];
      }
    }

    method TransitionRun(runId: nat, to: Status) returns (ok: bool)
      modifies this`runs
      ensures ok == old(Enabled(State(), Transition(runId, to)))
      ensures State() == old(Apply(State(), Transition(runId, to)))
    {
      if runId !in runs || to !in Transitions(runs[runId].status) {
        return false;
      }
      var run := runs[runId];
      run := run.(status := to);
      if to == APPROVED {
        run := run.(approved := Some(run.lines));
      }
      runs := runs[runId := run];
      return true;
    }

    method DeleteRun(runId: nat) returns (ok: bool)
      modifies this`runs
      ensures ok == old(Enabled(State(), Step.DeleteRun(runId)))
      ensures State() == old(Apply(State(), Step.DeleteRun(runId)))
    {
      ok := runId in runs && Deletable(runs[runId].status);
      if ok {
        runs := runs - {runId};
      }
    }

    /** The transaction that follows an invoice of the lines `sent`. */
    method RecordInvoice(runId: nat, sent: seq<RunLine>, finalStatus: Status)
      requires Valid() && runId in runs
      requires finalStatus == if |sent| < |runs[runId].lines| then PARTIALLY_FAILED else PUSHED
      modifies this
      ensures Valid() && State() == old(Invoiced(State(), runId, sent))
    {
      var run, consumed := runs[runId], ClaimsOn(sent);
      projects := AdvanceFees(projects, FeesOn(sent));
      invoices := invoices + [Invoice(runId, run.period, sent, true)];
      runs := runs[runId := run.(status := finalStatus, invoiced := true)];
      entries := SetInvoiced(entries, consumed);
      blocks := blocks + BlocksIn(consumed);
      deposits := deposits + DepositsIn(consumed);
    }

    /** `matched`: the client has a QuickBooks customer. */
    method PushRun(runId: nat, matched: bool, outcome: Outcome) returns (ok: bool)
      requires Valid()
      modifies this
      ensures Valid() && ok == (matched && old(Enabled(State(), Push(runId, outcome))))
      ensures State() == if ok then old(Apply(State(), Push(runId, outcome))) else old(State())
    {
      if runId !in runs || !CanPush(runs[runId].status) || !matched {
        return false;
      }
      var run := runs[runId];
      var eligible := Eligible(run.lines);
      if |eligible| == 0 {
        return false;
      }
      EligibleShorter(run.lines);
      var skipped := |run.lines| - |eligible|;
      if outcome != REFUSED {
        if outcome == RECORDED {
          var finalStatus := if skipped > 0 then PARTIALLY_FAILED else PUSHED;
          assert run.status != finalStatus ==> finalStatus in Transitions(run.status);
          RecordInvoice(runId, eligible, finalStatus);
          return true;
        }
        invoices := invoices + [Invoice(runId, run.period, eligible, false)];
      }
      runs := runs[runId := run.(status := PARTIALLY_FAILED)];
      return true;
    }
  }
}
