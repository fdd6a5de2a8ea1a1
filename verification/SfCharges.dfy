// The lines of a billing run that charge for no hours: recurring fees, prepaid blocks,
// project deposits and fixed fees (src/lib/sfbilling/generate.ts, sections 2 to 4 of
// `generateSfBillingLines`). Amounts, rates and percentages are whole numbers of 0.0001.
module SfCharges {
  import opened Agreements
  import Anniversaries
  import Fees
  import opened Money
  import SfGenerate
  import opened SfStore
  import opened Sums
  import opened Wrappers

  /** The form that records a block takes a positive number of hours only. */
  type Hours = n: int | 0 < n witness 1

  datatype BlockRow = BlockRow(id: string, purchasedHours: Hours, rate: Option<int>, amount: Option<int>, purchasedAt: int)

  datatype ProjectRow = ProjectRow(id: string, fixedFee: bool, fixedFeeAmount: Option<int>, budgetAmount: Option<int>,
                                   depositPercent: Option<int>, depositAmount: Option<int>)

  /** Rounded to cents. */
  function RoundMoney(amount: int): int {
    100 * RoundDiv(amount, 100)
  }

  function ChargeLine(items: Items, kind: Kind, quantity: int, unitPrice: int): RunLine {
    RunLine(kind, quantity, ComputeLine(quantity, unitPrice, 0, 0).total, ItemFor(items, None, kind), [])
  }

  // ----- Recurring fees -----

  ghost function RecurringLine(agreements: map<string, Agreement>, id: string, period: Period, items: Items): seq<RunLine> {
    if id in agreements && RecurringDue(agreements[id], period)
    then [ChargeLine(items, RECURRING(id), 10_000, RoundMoney(agreements[id].monthlyAmount.value))]
    else []
  }

  /** The fees of the client's agreements, in the order of the query. */
  ghost function RecurringLines(agreements: map<string, Agreement>, rows: seq<string>, period: Period, items: Items): seq<RunLine> {
    if rows == [] then []
    else RecurringLines(agreements, rows[..|rows| - 1], period, items) + RecurringLine(agreements, rows[|rows| - 1], period, items)
  }

  method GenerateRecurring(agreements: map<string, Agreement>, rows: seq<string>, period: Period, items: Items) returns (lines: seq<RunLine>)
    ensures lines == RecurringLines(agreements, rows, period, items)
  {
    lines := [];
    for k := 0 to |rows|
      invariant lines == RecurringLines(agreements, rows[..k], period, items)
    {
      assert rows[..k + 1][..k] == rows[..k];
      if rows[k] in agreements {
        var a := agreements[rows[k]];
        if a.managed && ActiveInPeriod(a, period) && Positive(a.monthlyAmount) {
          var due := Anniversaries.RecurringDueInPeriod(a.yearly, a.startDay, period.start, period.end);
          if due {
            lines := lines + [ChargeLine(items, RECURRING(rows[k]), 10_000, RoundMoney(a.monthlyAmount.value))];
          }
        }
      }
    }
    assert rows[..|rows|] == rows;
  }

  // ----- Prepaid blocks -----

  /** The line of a block bought in the period, unless it is marked as invoiced or has no price. */
  function BlockLines(b: BlockRow, invoiced: set<string>, period: Period, items: Items): seq<RunLine> {
    if b.id in invoiced || b.purchasedAt < period.start || b.purchasedAt >= period.end then []
    else
      var total := Fees.BlockLineTotal(b.purchasedHours, b.rate, b.amount);
      if total.None? then []
      else [RunLine(BLOCK_PURCHASE(b.id), b.purchasedHours, total.value, ItemFor(items, None, BLOCK_PURCHASE(b.id)), [])]
  }

  function AllBlockLines(blocks: seq<BlockRow>, invoiced: set<string>, period: Period, items: Items): seq<RunLine> {
    if blocks == [] then []
    else AllBlockLines(blocks[..|blocks| - 1], invoiced, period, items) + BlockLines(blocks[|blocks| - 1], invoiced, period, items)
  }

  method GenerateBlocks(blocks: seq<BlockRow>, invoiced: set<string>, period: Period, items: Items) returns (lines: seq<RunLine>)
    ensures lines == AllBlockLines(blocks, invoiced, period, items)
  {
    lines := [];
    for k := 0 to |blocks|
      invariant lines == AllBlockLines(blocks[..k], invoiced, period, items)
    {
      assert blocks[..k + 1][..k] == blocks[..k];
      lines := lines + BlockLines(blocks[k], invoiced, period, items);
    }
    assert blocks[..|blocks|] == blocks;
  }

  // ----- Project deposits and fixed fees -----

  /** A deposit as it is planned, or else its percentage of the total; the total is the fee or the budget. */
  function DepositAmount(p: ProjectRow): Option<int> {
    var total := if p.fixedFee then p.fixedFeeAmount else p.budgetAmount;
    if !Positive(p.depositPercent) then None
    else if p.depositAmount.Some? then p.depositAmount
    else if Positive(total) then Some(100 * RoundDiv(total.value * p.depositPercent.value, 100_000_000))
    else None
  }

  function DepositLines(p: ProjectRow, invoiced: set<string>, items: Items): seq<RunLine> {
    if p.id in invoiced || !Positive(DepositAmount(p)) then []
    else [ChargeLine(items, PROJECT_DEPOSIT(p.id), 10_000, DepositAmount(p).value)]
  }

  function FeeLines(p: ProjectRow, projects: map<string, Fees.Project>, period: Period, items: Items): seq<RunLine> {
    if !p.fixedFee || !Positive(p.fixedFeeAmount) || p.id !in projects || Fees.FeeQuantity(projects[p.id], period.end) == 0 then []
    else [ChargeLine(items, PROJECT_FEE(p.id), 10_000 * Fees.FeeQuantity(projects[p.id], period.end), RoundMoney(p.fixedFeeAmount.value))]
  }

  function ProjectLines(rows: seq<ProjectRow>, s: Store, period: Period, items: Items): seq<RunLine> {
    if rows == [] then []
    else
      var last := rows[|rows| - 1];
      ProjectLines(rows[..|rows| - 1], s, period, items)
      + (DepositLines(last, s.deposits, items) + FeeLines(last, s.projects, period, items))
  }

  method GenerateProjects(rows: seq<ProjectRow>, deposits: set<string>, projects: map<string, Fees.Project>, period: Period, items: Items, ghost s: Store)
    returns (lines: seq<RunLine>)
    requires s.deposits == deposits && s.projects == projects
    ensures lines == ProjectLines(rows, s, period, items)
  {
    lines := [];
    for k := 0 to |rows|
      invariant lines == ProjectLines(rows[..k], s, period, items)
    {
      assert rows[..k + 1][..k] == rows[..k];
      var charged := DepositLines(rows[k], deposits, items);
      charged := charged + FeeLines(rows[k], projects, period, items);
      lines := lines + charged;
    }
    assert rows[..|rows|] == rows;
  }

  // ----- These lines are fit to be stored -----

  ghost predicate NoTime(claims: seq<Claim>) {
    forall c :: c in claims ==> !c.thing.Time?
  }

  /** Lines that charge for nothing twice, for nothing billed, and for no time. */
  ghost predicate Chargeable(s: Store, period: Period, lines: seq<RunLine>) {
    Generable(s, period, lines) && NoTime(ClaimsOn(lines))
  }

  /** Fees that have no project in common. */
  ghost predicate NoProjectShared(a: seq<(string, int)>, b: seq<(string, int)>) {
    forall f, g :: f in a && g in b ==> f.0 != g.0
  }

  /** Two lists of lines that have nothing in common. */
  ghost predicate Unrelated(a: seq<RunLine>, b: seq<RunLine>) {
    NothingShared(ClaimsOn(a), ClaimsOn(b)) && NoProjectShared(FeesOn(a), FeesOn(b))
  }

  lemma {:induction false} FeeCounted(fees: seq<(string, int)>, p: string)
    ensures FeeCount(fees, p) >= 0
    ensures FeeCount(fees, p) > 0 <==> exists f :: f in fees && f.0 == p
  {
    if fees == [] {
    } else {
      FeeCounted(fees[1..], p);
      assert fees[0] in fees && forall f :: f in fees <==> f == fees[0] || f in fees[1..];
    }
  }

  lemma FeesOnceJoin(a: seq<(string, int)>, b: seq<(string, int)>)
    requires FeesOnce(a) && FeesOnce(b) && NoProjectShared(a, b)
    ensures FeesOnce(a + b)
  {
    forall p ensures FeeCount(a + b, p) <= 1 {
      SumAtAppend(a, b, FeeProject, p, OneFee);
      FeeCounted(a, p);
      FeeCounted(b, p);
      assert FeeCount(a, p) <= 1 && FeeCount(b, p) <= 1;
    }
  }

  lemma ReadyJoin(s: Store, period: Period, a: seq<Claim>, b: seq<Claim>)
    requires ClaimsReady(s, period, a) && ClaimsReady(s, period, b) && NoTime(a) && NoTime(b)
    ensures ClaimsReady(s, period, a + b) && NoTime(a + b)
  {
  }

  lemma DueJoin(s: Store, period: Period, a: seq<(string, int)>, b: seq<(string, int)>)
    requires FeesDue(s, period, a) && FeesDue(s, period, b)
    ensures FeesDue(s, period, a + b)
  {
  }

  lemma Together(s: Store, period: Period, a: seq<RunLine>, b: seq<RunLine>)
    requires Chargeable(s, period, a) && Chargeable(s, period, b) && Unrelated(a, b)
    ensures Chargeable(s, period, a + b)
  {
    ClaimsJoin(a, b);
    OnceEachJoin(ClaimsOn(a), ClaimsOn(b));
    FeesOnceJoin(FeesOn(a), FeesOn(b));
    ReadyJoin(s, period, ClaimsOn(a), ClaimsOn(b));
    DueJoin(s, period, FeesOn(a), FeesOn(b));
  }

  /** What one line charges for. */
  lemma OneLine(line: RunLine)
    requires line.entries == []
    ensures ClaimsOn([line]) == KindClaims(line.kind)
    ensures FeesOn([line]) == FeeOf(line)
  {
    assert [line][1..] == [];
  }

  lemma OneClaim(claims: seq<Claim>)
    requires |claims| <= 1
    ensures OnceEach(claims)
  {
    forall t ensures Count(claims, t) <= 1 {
      if claims != [] {
        CountedOne(claims[0], t);
        assert claims == [claims[0]];
      }
    }
  }

  lemma OneFeeOnce(fees: seq<(string, int)>)
    requires |fees| <= 1
    ensures FeesOnce(fees)
  {
    forall p ensures FeeCount(fees, p) <= 1 {
      if fees != [] {
        assert fees[1..] == [] && FeeCount(fees, p) == (if fees[0].0 == p then 1 else 0) + FeeCount([], p);
      }
    }
  }

  lemma OneChargeable(s: Store, period: Period, line: RunLine)
    requires line.entries == []
    requires line.kind.RECURRING? ==> line.kind.agreement in s.agreements && RecurringDue(s.agreements[line.kind.agreement], period)
    requires line.kind.BLOCK_PURCHASE? ==> line.kind.block !in s.blocks
    requires line.kind.PROJECT_DEPOSIT? ==> line.kind.depositOn !in s.deposits
    requires line.kind.PROJECT_FEE? ==>
               line.kind.project in s.projects && line.quantity == 10_000 * Fees.FeeQuantity(s.projects[line.kind.project], period.end)
    ensures Chargeable(s, period, [line])
  {
    OneLine(line);
    OneClaim(ClaimsOn([line]));
    OneFeeOnce(FeesOn([line]));
  }

  lemma Empty(s: Store, period: Period)
    ensures Chargeable(s, period, [])
  {
    OneClaim([]);
    OneFeeOnce([]);
  }

  /** Lines that charge only for the fees of the listed agreements. */
  ghost predicate OnlyFees(claims: seq<Claim>, rows: seq<string>) {
    forall c :: c in claims ==> c.thing.Recurring? && c.thing.id in rows
  }

  ghost predicate FeeDue(agreements: map<string, Agreement>, id: string, period: Period) {
    id in agreements && RecurringDue(agreements[id], period)
  }

  lemma RecurringClaims(agreements: map<string, Agreement>, id: string, period: Period, items: Items)
    ensures var lines := RecurringLine(agreements, id, period, items);
            ClaimsOn(lines) == (if FeeDue(agreements, id, period) then [Claim(Recurring(id), 0)] else []) && FeesOn(lines) == []
  {
    if FeeDue(agreements, id, period) {
      OneLine(ChargeLine(items, RECURRING(id), 10_000, RoundMoney(agreements[id].monthlyAmount.value)));
    }
  }

  lemma RecurringCharges(s: Store, id: string, period: Period, items: Items)
    ensures var lines := RecurringLine(s.agreements, id, period, items);
            Chargeable(s, period, lines) && FeesOn(lines) == [] && OnlyFees(ClaimsOn(lines), [id])
  {
    RecurringClaims(s.agreements, id, period, items);
    if FeeDue(s.agreements, id, period) {
      OneChargeable(s, period, ChargeLine(items, RECURRING(id), 10_000, RoundMoney(s.agreements[id].monthlyAmount.value)));
    } else {
      Empty(s, period);
    }
  }

  lemma JoinsRecurring(s: Store, period: Period, before: seq<RunLine>, more: seq<RunLine>, init: seq<string>, last: string)
    requires Chargeable(s, period, before) && Chargeable(s, period, more) && FeesOn(before) == [] && FeesOn(more) == []
    requires OnlyFees(ClaimsOn(before), init) && OnlyFees(ClaimsOn(more), [last]) && last !in init
    ensures Chargeable(s, period, before + more) && FeesOn(before + more) == [] && OnlyFees(ClaimsOn(before + more), init + [last])
  {
    ClaimsJoin(before, more);
    Together(s, period, before, more);
  }

  /** Each fee that is due is charged for once, and nothing else. */
  lemma {:induction false} RecurringChargeable(s: Store, rows: seq<string>, period: Period, items: Items)
    requires Distinct(rows)
    ensures var lines := RecurringLines(s.agreements, rows, period, items);
            Chargeable(s, period, lines) && FeesOn(lines) == [] && OnlyFees(ClaimsOn(lines), rows)
  {
    if rows == [] {
      Empty(s, period);
    } else {
      var init, last := rows[..|rows| - 1], rows[|rows| - 1];
      var before, more := RecurringLines(s.agreements, init, period, items), RecurringLine(s.agreements, last, period, items);
      RecurringChargeable(s, init, period, items);
      RecurringCharges(s, last, period, items);
      DistinctLast(rows);
      JoinsRecurring(s, period, before, more, init, last);
    }
  }

  lemma OneFeeCounted(agreements: map<string, Agreement>, last: string, period: Period, items: Items, id: string)
    ensures Count(ClaimsOn(RecurringLine(agreements, last, period, items)), Recurring(id))
         == if id == last && FeeDue(agreements, id, period) then 1 else 0
  {
    RecurringClaims(agreements, last, period, items);
    CountedOne(Claim(Recurring(last), 0), Recurring(id));
  }

  lemma {:induction false} RecurringCounted(agreements: map<string, Agreement>, rows: seq<string>, period: Period, items: Items, id: string)
    requires Distinct(rows)
    ensures Count(ClaimsOn(RecurringLines(agreements, rows, period, items)), Recurring(id))
         == if id in rows && FeeDue(agreements, id, period) then 1 else 0
  {
    if rows == [] {
    } else {
      var init, last := rows[..|rows| - 1], rows[|rows| - 1];
      var before, more := RecurringLines(agreements, init, period, items), RecurringLine(agreements, last, period, items);
      RecurringCounted(agreements, init, period, items, id);
      OneFeeCounted(agreements, last, period, items, id);
      DistinctLast(rows);
      ClaimsJoin(before, more);
      CountJoin(ClaimsOn(before), ClaimsOn(more), Recurring(id));
    }
  }

  ghost predicate BlockIdsDistinct(blocks: seq<BlockRow>) {
    forall i, j :: 0 <= i < j < |blocks| ==> blocks[i].id != blocks[j].id
  }

  ghost predicate ProjectIdsDistinct(rows: seq<ProjectRow>) {
    forall i, j :: 0 <= i < j < |rows| ==> rows[i].id != rows[j].id
  }

  lemma {:induction false} BlocksChargeable(s: Store, blocks: seq<BlockRow>, period: Period, items: Items)
    requires BlockIdsDistinct(blocks)
    ensures var lines := AllBlockLines(blocks, s.blocks, period, items);
            && Chargeable(s, period, lines) && FeesOn(lines) == []
            && (forall c :: c in ClaimsOn(lines) ==> c.thing.Block? && exists i :: 0 <= i < |blocks| && blocks[i].id == c.thing.id)
  {
    if blocks == [] {
      Empty(s, period);
    } else {
      var init, last := blocks[..|blocks| - 1], blocks[|blocks| - 1];
      var before, more := AllBlockLines(init, s.blocks, period, items), BlockLines(last, s.blocks, period, items);
      BlocksChargeable(s, init, period, items);
      if more == [] {
        assert AllBlockLines(blocks, s.blocks, period, items) == before;
      } else {
        OneLine(more[0]);
        OneChargeable(s, period, more[0]);
        assert more == [more[0]];
        Together(s, period, before, more);
        ClaimsJoin(before, more);
        assert blocks[|blocks| - 1].id == last.id;
      }
    }
  }

  /** What one project's lines charge for. */
  lemma ProjectChargeable(s: Store, p: ProjectRow, period: Period, items: Items)
    ensures var lines := DepositLines(p, s.deposits, items) + FeeLines(p, s.projects, period, items);
            && Chargeable(s, period, lines)
            && (forall c :: c in ClaimsOn(lines) ==> c.thing == Deposit(p.id)) && (forall f :: f in FeesOn(lines) ==> f.0 == p.id)
  {
    var deposit, fee := DepositLines(p, s.deposits, items), FeeLines(p, s.projects, period, items);
    Empty(s, period);
    if deposit != [] {
      OneLine(deposit[0]);
      OneChargeable(s, period, deposit[0]);
      assert deposit == [deposit[0]];
    }
    if fee != [] {
      OneLine(fee[0]);
      OneChargeable(s, period, fee[0]);
      assert fee == [fee[0]];
    }
    ClaimsJoin(deposit, fee);
    Together(s, period, deposit, fee);
  }

  /** Some project of the list has the id. */
  ghost predicate Lists(rows: seq<ProjectRow>, id: string) {
    exists i :: 0 <= i < |rows| && rows[i].id == id
  }

  lemma ListsLast(rows: seq<ProjectRow>, id: string)
    requires rows != []
    ensures Lists(rows, id) <==> Lists(rows[..|rows| - 1], id) || rows[|rows| - 1].id == id
  {
    var init := rows[..|rows| - 1];
    if Lists(init, id) {
      var i :| 0 <= i < |init| && init[i].id == id;
      assert rows[i].id == id;
    }
  }

  /** Lines that charge only for the deposits and fees of the listed projects. */
  ghost predicate OnlyFor(lines: seq<RunLine>, rows: seq<ProjectRow>) {
    && (forall c :: c in ClaimsOn(lines) ==> c.thing.Deposit? && Lists(rows, c.thing.id))
    && (forall f :: f in FeesOn(lines) ==> Lists(rows, f.0))
  }

  lemma {:induction false} ProjectsChargeable(s: Store, rows: seq<ProjectRow>, period: Period, items: Items)
    requires ProjectIdsDistinct(rows)
    ensures Chargeable(s, period, ProjectLines(rows, s, period, items)) && OnlyFor(ProjectLines(rows, s, period, items), rows)
  {
    if rows == [] {
      Empty(s, period);
    } else {
      var init, last := rows[..|rows| - 1], rows[|rows| - 1];
      var before, more := ProjectLines(init, s, period, items), DepositLines(last, s.deposits, items) + FeeLines(last, s.projects, period, items);
      ProjectsChargeable(s, init, period, items);
      ProjectChargeable(s, last, period, items);
      MoreProjects(s, period, rows, before, more);
    }
  }

  lemma MoreProjects(s: Store, period: Period, rows: seq<ProjectRow>, before: seq<RunLine>, more: seq<RunLine>)
    requires rows != [] && ProjectIdsDistinct(rows)
    requires Chargeable(s, period, before) && OnlyFor(before, rows[..|rows| - 1]) && Chargeable(s, period, more)
    requires forall c :: c in ClaimsOn(more) ==> c.thing == Deposit(rows[|rows| - 1].id)
    requires forall f :: f in FeesOn(more) ==> f.0 == rows[|rows| - 1].id
    ensures Chargeable(s, period, before + more) && OnlyFor(before + more, rows)
  {
    ClaimsJoin(before, more);
    assert !Lists(rows[..|rows| - 1], rows[|rows| - 1].id);
    Together(s, period, before, more);
    forall id ensures Lists(rows, id) <==> Lists(rows[..|rows| - 1], id) || rows[|rows| - 1].id == id {
      ListsLast(rows, id);
    }
  }

  // ----- A whole run -----

  /** All lines of a run that charge for no hours, in the generator's order. */
  ghost function OtherLines(s: Store, agreements: seq<string>, blocks: seq<BlockRow>, rows: seq<ProjectRow>, period: Period, items: Items): seq<RunLine> {
    RecurringLines(s.agreements, agreements, period, items) + AllBlockLines(blocks, s.blocks, period, items)
    + ProjectLines(rows, s, period, items)
  }

  lemma OthersChargeable(s: Store, agreements: seq<string>, blocks: seq<BlockRow>, rows: seq<ProjectRow>, period: Period, items: Items)
    requires Distinct(agreements) && BlockIdsDistinct(blocks) && ProjectIdsDistinct(rows)
    ensures Chargeable(s, period, OtherLines(s, agreements, blocks, rows, period, items))
  {
    var recurring, bought := RecurringLines(s.agreements, agreements, period, items), AllBlockLines(blocks, s.blocks, period, items);
    RecurringChargeable(s, agreements, period, items);
    BlocksChargeable(s, blocks, period, items);
    ProjectsChargeable(s, rows, period, items);
    ClaimsJoin(recurring, bought);
    Together(s, period, recurring, bought);
    Together(s, period, recurring + bought, ProjectLines(rows, s, period, items));
  }

  /** A run carries the fee of an agreement once if it is due in the run's period, and not at all otherwise. */
  lemma GeneratedFee(s: Store, agreements: seq<string>, blocks: seq<BlockRow>, rows: seq<ProjectRow>, period: Period, items: Items, id: string)
    requires Distinct(agreements) && BlockIdsDistinct(blocks) && ProjectIdsDistinct(rows)
    ensures Count(ClaimsOn(OtherLines(s, agreements, blocks, rows, period, items)), Recurring(id))
         == if id in agreements && id in s.agreements && RecurringDue(s.agreements[id], period) then 1 else 0
  {
    var recurring, bought := RecurringLines(s.agreements, agreements, period, items), AllBlockLines(blocks, s.blocks, period, items);
    var charged := ProjectLines(rows, s, period, items);
    RecurringCounted(s.agreements, agreements, period, items, id);
    BlocksChargeable(s, blocks, period, items);
    ProjectsChargeable(s, rows, period, items);
    ClaimsJoin(recurring, bought);
    ClaimsJoin(recurring + bought, charged);
    CountJoin(ClaimsOn(recurring), ClaimsOn(bought), Recurring(id));
    CountJoin(ClaimsOn(recurring) + ClaimsOn(bought), ClaimsOn(charged), Recurring(id));
    CountedIffClaimed(ClaimsOn(bought), Recurring(id));
    CountedIffClaimed(ClaimsOn(charged), Recurring(id));
  }

  /** `generateAndSaveSfBillingRun`: what it saves is a step the store allows, whatever is in the store. */
  method GenerateAndSave(db: Database, runId: nat, ctx: SfGenerate.Context, entryRows: seq<string>, agreementRows: seq<string>,
                         blocks: seq<BlockRow>, projectRows: seq<ProjectRow>, period: Period, items: Items)
    returns (lines: seq<RunLine>)
    requires db.Valid() && runId !in db.runs && !HasInvoice(db.invoices, runId)
    requires Distinct(entryRows) && Distinct(agreementRows) && BlockIdsDistinct(blocks) && ProjectIdsDistinct(projectRows)
    modifies db`runs
    ensures db.Valid() && old(Enabled(db.State(), Generate(runId, period, lines)))
    ensures db.State() == old(Apply(db.State(), Generate(runId, period, lines)))
    ensures lines == HourRunLines(SfGenerate.HourLines(ctx, Loaded(db.entries, entryRows)), items)
                     + old(OtherLines(db.State(), agreementRows, blocks, projectRows, period, items))
  {
    var others := GenerateRecurring(db.agreements, agreementRows, period, items);
    var bought := GenerateBlocks(blocks, db.blocks, period, items);
    var charged := GenerateProjects(projectRows, db.deposits, db.projects, period, items, db.State());
    others := others + bought + charged;
    OthersChargeable(db.State(), agreementRows, blocks, projectRows, period, items);
    lines := db.CreateRun(runId, period, ctx, entryRows, items, others);
  }
}
