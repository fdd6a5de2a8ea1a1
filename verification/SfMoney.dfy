// The money on generated lines, and on what is invoiced over any history
// (src/lib/sfbilling/generate.ts, sections 2 to 4 of `generateSfBillingLines`, with
// src/lib/billing/line.ts). Amounts are whole numbers of 0.0001, totals are in cents.
module SfMoney {
  import opened Agreements
  import Anniversaries
  import Fees
  import opened Money
  import opened SfCharges
  import opened SfFees
  import opened SfRuns
  import opened SfStore
  import opened Sums

  /** `cents` is the amount to the nearest cent. */
  predicate NearestCents(cents: int, amount: int) {
    -50 <= 100 * cents - amount <= 50
  }

  lemma CentsOf(amount: int)
    ensures NearestCents(RoundDiv(amount, 100), amount) && RoundMoney(amount) == 100 * RoundDiv(amount, 100)
  {
    RoundDivNear(amount, 100);
  }

  /** A price of whole cents for whole units is charged exactly. */
  lemma WholeTotal(units: int, cents: int)
    ensures ComputeLine(10_000 * units, 100 * cents, 0, 0).total == units * cents
  {
    var x := units * cents;
    assert (10_000 * units) * (100 * cents) == 1_000_000 * x;
    RoundDivNear(1_000_000 * x, 1_000_000);
  }

  // ----- Generated lines -----

  /** One monthly amount, to the nearest cent. */
  ghost predicate RecurringPriced(s: Store, l: RunLine) {
    l.kind.RECURRING? ==>
      && l.kind.agreement in s.agreements && s.agreements[l.kind.agreement].monthlyAmount.Some?
      && l.quantity == 10_000 && NearestCents(l.total, s.agreements[l.kind.agreement].monthlyAmount.value)
  }

  /** The fee to the nearest cent, for each of the periods due. */
  ghost predicate FeePriced(s: Store, rows: seq<ProjectRow>, period: Period, l: RunLine) {
    l.kind.PROJECT_FEE? ==>
      exists i, cents :: 0 <= i < |rows| && rows[i].id == l.kind.project && rows[i].fixedFee
                         && rows[i].fixedFeeAmount.Some? && rows[i].fixedFeeAmount.value > 0 && NearestCents(cents, rows[i].fixedFeeAmount.value)
                         && rows[i].id in s.projects && l.quantity == 10_000 * Fees.FeeQuantity(s.projects[rows[i].id], period.end)
                         && l.total == Fees.FeeQuantity(s.projects[rows[i].id], period.end) * cents
  }

  /** A deposit as it is planned, or its percentage of the fee of a fixed-fee project, and of the budget of any other. */
  ghost predicate DepositOf(p: ProjectRow, l: RunLine) {
    && p.depositPercent.Some? && p.depositPercent.value > 0 && l.quantity == 10_000
    && (if p.depositAmount.Some? then p.depositAmount.value > 0 && NearestCents(l.total, p.depositAmount.value)
        else
          var whole := if p.fixedFee then p.fixedFeeAmount else p.budgetAmount;
          whole.Some? && whole.value > 0 && l.total > 0
          && -50_000_000 <= 100_000_000 * l.total - whole.value * p.depositPercent.value <= 50_000_000)
  }

  ghost predicate DepositPriced(rows: seq<ProjectRow>, l: RunLine) {
    l.kind.PROJECT_DEPOSIT? ==> exists i :: 0 <= i < |rows| && rows[i].id == l.kind.depositOn && DepositOf(rows[i], l)
  }

  /** A block's amount, or else its hours at its rate, for its hours. */
  ghost predicate BlockOf(b: BlockRow, period: Period, l: RunLine) {
    && l.quantity == b.purchasedHours && period.start <= b.purchasedAt < period.end
    && (if b.amount.Some? then
          b.amount.value > 0
          && -(50 * b.purchasedHours + 500_000) <= 1_000_000 * l.total - 10_000 * b.amount.value <= 50 * b.purchasedHours + 500_000
        else
          b.rate.Some? && 2 * b.purchasedHours * b.rate.value >= 1_000_000
          && -(50 * b.purchasedHours + 1_000_000) <= 1_000_000 * l.total - b.purchasedHours * b.rate.value <= 50 * b.purchasedHours + 1_000_000)
  }

  ghost predicate BlockPriced(blocks: seq<BlockRow>, period: Period, l: RunLine) {
    l.kind.BLOCK_PURCHASE? ==> exists i :: 0 <= i < |blocks| && blocks[i].id == l.kind.block && BlockOf(blocks[i], period, l)
  }

  lemma {:induction false} RecurringTotals(s: Store, agreements: seq<string>, period: Period, items: Items, l: RunLine)
    requires l in RecurringLines(s.agreements, agreements, period, items)
    ensures l.kind.RECURRING? && RecurringPriced(s, l)
  {
    var init, last := agreements[..|agreements| - 1], agreements[|agreements| - 1];
    if l in RecurringLines(s.agreements, init, period, items) {
      RecurringTotals(s, init, period, items, l);
    } else {
      var amount := s.agreements[last].monthlyAmount.value;
      CentsOf(amount);
      WholeTotal(1, RoundDiv(amount, 100));
    }
  }

  lemma BlockTotal(b: BlockRow, invoiced: set<string>, period: Period, items: Items, l: RunLine)
    requires l in BlockLines(b, invoiced, period, items)
    ensures l.kind == BLOCK_PURCHASE(b.id) && BlockOf(b, period, l)
  {
    Fees.BlockLineNear(b.purchasedHours, b.rate, b.amount);
  }

  lemma {:induction false} BlockTotals(blocks: seq<BlockRow>, invoiced: set<string>, period: Period, items: Items, l: RunLine)
    requires l in AllBlockLines(blocks, invoiced, period, items)
    ensures l.kind.BLOCK_PURCHASE? && BlockPriced(blocks, period, l)
  {
    var init, last := blocks[..|blocks| - 1], blocks[|blocks| - 1];
    if l in AllBlockLines(init, invoiced, period, items) {
      BlockTotals(init, invoiced, period, items, l);
      var i :| 0 <= i < |init| && init[i].id == l.kind.block && BlockOf(init[i], period, l);
      assert blocks[i] == init[i];
    } else {
      BlockTotal(last, invoiced, period, items, l);
      assert blocks[|blocks| - 1] == last;
    }
  }

  lemma DepositTotal(p: ProjectRow, invoiced: set<string>, items: Items, l: RunLine)
    requires l in DepositLines(p, invoiced, items)
    ensures l.kind == PROJECT_DEPOSIT(p.id) && DepositOf(p, l)
  {
    var amount := DepositAmount(p).value;
    assert l.total == ComputeLine(10_000, amount, 0, 0).total == RoundDiv(10_000 * amount, 1_000_000);
    RoundDivNear(10_000 * amount, 1_000_000);
    if p.depositAmount.None? {
      var whole := if p.fixedFee then p.fixedFeeAmount else p.budgetAmount;
      var x := whole.value * p.depositPercent.value;
      RoundDivNear(x, 100_000_000);
      WholeTotal(1, RoundDiv(x, 100_000_000));
    }
  }

  lemma FeeTotal(p: ProjectRow, projects: map<string, Fees.Project>, period: Period, items: Items, l: RunLine) returns (cents: int)
    requires l in FeeLines(p, projects, period, items)
    ensures l.kind == PROJECT_FEE(p.id) && p.fixedFee && p.id in projects && p.fixedFeeAmount.Some? && p.fixedFeeAmount.value > 0
    ensures NearestCents(cents, p.fixedFeeAmount.value) && l.quantity == 10_000 * Fees.FeeQuantity(projects[p.id], period.end)
    ensures l.total == Fees.FeeQuantity(projects[p.id], period.end) * cents
  {
    cents := RoundDiv(p.fixedFeeAmount.value, 100);
    CentsOf(p.fixedFeeAmount.value);
    WholeTotal(Fees.FeeQuantity(projects[p.id], period.end), cents);
  }

  lemma ProjectTotal(s: Store, rows: seq<ProjectRow>, k: nat, period: Period, items: Items, l: RunLine)
    requires k < |rows| && l in DepositLines(rows[k], s.deposits, items) + FeeLines(rows[k], s.projects, period, items)
    ensures (l.kind.PROJECT_DEPOSIT? || l.kind.PROJECT_FEE?) && DepositPriced(rows, l) && FeePriced(s, rows, period, l)
  {
    if l in DepositLines(rows[k], s.deposits, items) {
      DepositTotal(rows[k], s.deposits, items, l);
    } else {
      var cents := FeeTotal(rows[k], s.projects, period, items, l);
    }
  }

  lemma {:induction false} ProjectTotals(s: Store, rows: seq<ProjectRow>, n: nat, period: Period, items: Items, l: RunLine)
    requires n <= |rows| && l in ProjectLines(rows[..n], s, period, items)
    ensures (l.kind.PROJECT_DEPOSIT? || l.kind.PROJECT_FEE?) && DepositPriced(rows, l) && FeePriced(s, rows, period, l)
  {
    if n > 0 {
      assert rows[..n][..n - 1] == rows[..n - 1];
      if l in ProjectLines(rows[..n - 1], s, period, items) {
        ProjectTotals(s, rows, n - 1, period, items, l);
      } else {
        ProjectTotal(s, rows, n - 1, period, items, l);
      }
    }
  }

  /** What every line of a run that charges for no hours totals, in terms of the agreement, block or project it is for. */
  lemma GeneratedTotals(s: Store, agreements: seq<string>, blocks: seq<BlockRow>, rows: seq<ProjectRow>, period: Period, items: Items, l: RunLine)
    requires l in OtherLines(s, agreements, blocks, rows, period, items)
    ensures RecurringPriced(s, l) && BlockPriced(blocks, period, l) && DepositPriced(rows, l) && FeePriced(s, rows, period, l)
  {
    if l in RecurringLines(s.agreements, agreements, period, items) {
      RecurringTotals(s, agreements, period, items, l);
    } else if l in AllBlockLines(blocks, s.blocks, period, items) {
      BlockTotals(blocks, s.blocks, period, items, l);
    } else {
      assert rows[..|rows|] == rows;
      ProjectTotals(s, rows, |rows|, period, items, l);
    }
  }

  /** A project has a deposit line exactly when its deposit is not marked, has a percentage, and comes to something. */
  lemma DepositIff(p: ProjectRow, invoiced: set<string>, items: Items)
    ensures DepositLines(p, invoiced, items) != [] <==>
              && p.id !in invoiced && p.depositPercent.Some? && p.depositPercent.value > 0
              && if p.depositAmount.Some? then p.depositAmount.value > 0
                 else
                   var whole := if p.fixedFee then p.fixedFeeAmount else p.budgetAmount;
                   whole.Some? && whole.value > 0 && 2 * whole.value * p.depositPercent.value >= 100_000_000
  {
    var whole := if p.fixedFee then p.fixedFeeAmount else p.budgetAmount;
    if p.depositAmount.None? && whole.Some? && p.depositPercent.Some? {
      var x := whole.value * p.depositPercent.value;
      assert 2 * whole.value * p.depositPercent.value == 2 * x;
      RoundDivNear(x, 100_000_000);
    }
  }

  /** An agreement has a line exactly when it is managed, has an amount, is active in the period and, if it is yearly, has an anniversary in it. */
  lemma RecurringIff(agreements: map<string, Agreement>, id: string, period: Period, items: Items)
    ensures RecurringLine(agreements, id, period, items) != [] <==>
              && id in agreements
              && var a := agreements[id];
                 && a.managed && a.monthlyAmount.Some? && a.monthlyAmount.value > 0
                 && a.startDate < period.end && (a.endDate.Some? ==> period.start <= a.endDate.value)
                 && (a.yearly ==> exists y :: period.start <= Anniversaries.Anniversary(a.startDay, y) < period.end)
  {
  }

  /** A block has a line exactly when it is not marked, was bought in the period, and has an amount, or hours at a rate that come to half a cent. */
  lemma BlockIff(b: BlockRow, invoiced: set<string>, period: Period, items: Items)
    ensures BlockLines(b, invoiced, period, items) != [] <==>
              && b.id !in invoiced && period.start <= b.purchasedAt < period.end
              && if b.amount.Some? then b.amount.value > 0 else b.rate.Some? && 2 * b.purchasedHours * b.rate.value >= 1_000_000
  {
    Fees.BlockLineNear(b.purchasedHours, b.rate, b.amount);
  }

  /** It has a fee line exactly when it has a fixed fee, a date to count from, and an interval of it is over by the end of the period. */
  lemma FeeIff(p: ProjectRow, projects: map<string, Fees.Project>, period: Period, items: Items)
    ensures FeeLines(p, projects, period, items) != [] <==>
              && p.fixedFee && p.fixedFeeAmount.Some? && p.fixedFeeAmount.value > 0 && p.id in projects
              && var q := projects[p.id];
                 var from := if q.feeBilledThroughAt.Some? then q.feeBilledThroughAt else q.startDate;
                 from.Some? && from.value + (if q.billingIntervalDays > 0 then q.billingIntervalDays else 30) * 86_400_000 <= period.end
  {
    if p.id in projects {
      Fees.SomeDue(projects[p.id], period.end);
    }
  }

  // ----- What is invoiced -----

  function KindOf(l: RunLine): Kind { l.kind }

  function TotalOf(l: RunLine): int { l.total }

  function QuantityOf(l: RunLine): int { l.quantity }

  function AllLines(invoices: seq<Invoice>): seq<RunLine> {
    if invoices == [] then [] else AllLines(invoices[..|invoices| - 1]) + invoices[|invoices| - 1].lines
  }

  /** The cents invoiced for one kind of line. */
  function MoneyFor(invoices: seq<Invoice>, kind: Kind): int {
    SumAt(AllLines(invoices), KindOf, kind, TotalOf)
  }

  /** Lines of a kind obey a rule. */
  ghost predicate Obey(lines: seq<RunLine>, kind: Kind, rule: RunLine -> bool) {
    forall l :: l in lines && l.kind == kind ==> rule(l)
  }

  /** Generates a line of the kind against the rule, or edits one so that it is. */
  ghost predicate Breaks(s: Store, step: Step, kind: Kind, rule: RunLine -> bool) {
    match step
    case Generate(_, _, lines) => !Obey(lines, kind, rule)
    case EditLine(r, k, quantity, total, item) =>
      Enabled(s, step) && s.runs[r].lines[k].kind == kind && !rule(s.runs[r].lines[k].(quantity := quantity, total := total, qboItemId := item))
    case _ => false
  }

  ghost function Breaking(kind: Kind, rule: RunLine -> bool): (Store, Step) -> bool {
    (s: Store, step: Step) => Breaks(s, step, kind, rule)
  }

  ghost predicate AllObey(s: Store, kind: Kind, rule: RunLine -> bool) {
    && (forall r :: r in s.runs ==> Obey(s.runs[r].lines, kind, rule))
    && Obey(AllLines(s.invoices), kind, rule)
  }

  lemma {:induction false} EligibleLines(lines: seq<RunLine>)
    ensures forall l :: l in Eligible(lines) ==> l in lines
  {
    if lines == [] {
    } else {
      EligibleLines(lines[1..]);
      EligibleHead(lines);
    }
  }

  lemma LinesPushed(invoices: seq<Invoice>, invoice: Invoice)
    ensures AllLines(invoices + [invoice]) == AllLines(invoices) + invoice.lines
  {
    assert (invoices + [invoice])[..|invoices|] == invoices;
  }

  lemma PushObeys(s: Store, step: Step, kind: Kind, rule: RunLine -> bool)
    requires AllObey(s, kind, rule) && Sends(s, step)
    ensures AllObey(Apply(s, step), kind, rule)
  {
    InvoicesAfter(s, step);
    LinesPushed(s.invoices, Sent(s, step));
    EligibleLines(s.runs[step.runId].lines);
    assert Obey(s.runs[step.runId].lines, kind, rule);
  }

  lemma EditObeys(s: Store, step: Step, kind: Kind, rule: RunLine -> bool)
    requires AllObey(s, kind, rule) && step.EditLine? && Enabled(s, step) && !Breaks(s, step, kind, rule)
    ensures AllObey(Apply(s, step), kind, rule)
  {
    var lines := s.runs[step.runId].lines;
    var edited := Edited(lines, step.index, step.quantity, step.total, step.qboItemId);
    assert Obey(lines, kind, rule);
    forall l | l in edited && l.kind == kind ensures rule(l) {
      var i :| 0 <= i < |edited| && edited[i] == l;
      assert i != step.index ==> l == lines[i];
    }
  }

  lemma OtherStepObeys(s: Store, step: Step, kind: Kind, rule: RunLine -> bool)
    requires AllObey(s, kind, rule) && !kind.MANUAL? && !Sends(s, step) && !step.EditLine? && !Breaks(s, step, kind, rule)
    ensures AllObey(Apply(s, step), kind, rule)
  {
    InvoicesAfter(s, step);
    if Enabled(s, step) && step.DeleteManual? {
      assert Obey(s.runs[step.runId].lines, kind, rule);
    }
  }

  /** Where every line generated or edited obeys the rule, so does every line on a run or an invoice. */
  lemma {:induction false} AlwaysObey(s: Store, steps: seq<Step>, kind: Kind, rule: RunLine -> bool)
    requires Initial(s) && !kind.MANUAL? && Never(Breaking(kind, rule), s, steps)
    ensures AllObey(After(s, steps), kind, rule)
  {
    if steps == [] {
    } else {
      var before, step := After(s, steps[..|steps| - 1]), steps[|steps| - 1];
      AlwaysObey(s, steps[..|steps| - 1], kind, rule);
      if Sends(before, step) {
        PushObeys(before, step, kind, rule);
      } else if step.EditLine? && Enabled(before, step) {
        EditObeys(before, step, kind, rule);
      } else if !step.EditLine? {
        OtherStepObeys(before, step, kind, rule);
      }
    }
  }

  // ----- The money of a fixed fee -----

  /** A whole price for each period. */
  function PerPeriod(cents: int): RunLine -> bool {
    (l: RunLine) => 10_000 * l.total == l.quantity * cents
  }

  lemma {:induction false} FeesAreLines(lines: seq<RunLine>, p: string)
    ensures FeeSum(FeesOn(lines), p) == SumAt(lines, KindOf, PROJECT_FEE(p), QuantityOf)
  {
    if lines == [] {
    } else {
      var l, rest := lines[0], lines[1..];
      FeesAreLines(rest, p);
      assert lines == [l] + rest;
      ClaimsCons(l, rest);
      SumAtAppend(FeeOf(l), FeesOn(rest), FeeProject, p, FeeQuantity);
      if l.kind.PROJECT_FEE? {
        assert FeeOf(l)[1..] == [];
      }
    }
  }

  lemma {:induction false} AllFeesAreLines(invoices: seq<Invoice>)
    ensures AllFees(invoices) == FeesOn(AllLines(invoices))
  {
    if invoices == [] {
    } else {
      AllFeesAreLines(invoices[..|invoices| - 1]);
      ClaimsJoin(AllLines(invoices[..|invoices| - 1]), invoices[|invoices| - 1].lines);
    }
  }

  lemma {:induction false} MoneyOfLines(lines: seq<RunLine>, kind: Kind, cents: int)
    requires Obey(lines, kind, PerPeriod(cents))
    ensures 10_000 * SumAt(lines, KindOf, kind, TotalOf) == SumAt(lines, KindOf, kind, QuantityOf) * cents
  {
    if lines == [] {
    } else {
      var q, rest := lines[0].quantity, SumAt(lines[1..], KindOf, kind, QuantityOf);
      MoneyOfLines(lines[1..], kind, cents);
      assert (q + rest) * cents == q * cents + rest * cents;
      assert lines[0] in lines;
    }
  }

  lemma {:induction false} ThoseObey(invoices: seq<Invoice>, recorded: bool, kind: Kind, rule: RunLine -> bool)
    requires Obey(AllLines(invoices), kind, rule)
    ensures Obey(AllLines(Those(invoices, recorded)), kind, rule)
  {
    if invoices == [] {
    } else {
      var init, last := invoices[..|invoices| - 1], invoices[|invoices| - 1];
      assert invoices == init + [last];
      LinesPushed(init, last);
      ThoseObey(init, recorded, kind, rule);
      ThosePushed(init, last, recorded);
      LinesPushed(Those(init, recorded), last);
      assert Those(init, recorded) + [] == Those(init, recorded);
    }
  }

  /** The money invoiced for a project's fee is the periods invoiced at its price. */
  lemma FeeMoney(invoices: seq<Invoice>, p: string, cents: int)
    requires Obey(AllLines(invoices), PROJECT_FEE(p), PerPeriod(cents))
    ensures 10_000 * MoneyFor(invoices, PROJECT_FEE(p)) == FeeSum(AllFees(invoices), p) * cents
  {
    AllFeesAreLines(invoices);
    FeesAreLines(AllLines(invoices), p);
    MoneyOfLines(AllLines(invoices), PROJECT_FEE(p), cents);
  }

  lemma RecordedMoney(s: Store, p: string, cents: int)
    requires Obey(AllLines(Those(s.invoices, true)), PROJECT_FEE(p), PerPeriod(cents))
    ensures 10_000 * MoneyFor(Those(s.invoices, true), PROJECT_FEE(p)) == FeesRecorded(s, p) * cents
  {
    FeeMoney(Those(s.invoices, true), p, cents);
  }

  /** Watermark moved by `quantity` ticks: so many intervals for so much money. */
  lemma MoneyMoves(before: Fees.Project, after: Fees.Project, quantity: int, money: int, cents: int)
    requires Moves(before, after, quantity) && 10_000 * money == quantity * cents
    ensures (Fees.Anchor(after).value - Fees.Anchor(before).value) * cents == money * Fees.IntervalMs(before)
  {
    var tick := Tick(before);
    assert Fees.IntervalMs(before) == 10_000 * tick;
    assert (quantity * tick) * cents == (quantity * cents) * tick;
    assert money * (10_000 * tick) == (10_000 * money) * tick;
  }

  /**
   * Over every history whose runs bill a project's fee at `cents` a period, edited lines
   * included, the money on recorded invoices is the fee times the intervals that the
   * watermark has moved.
   */
  lemma FeeMoneyIsTimeBilled(s: Store, steps: seq<Step>, p: string, cents: int)
    requires Initial(s) && p in s.projects && Watermark(s, p).Some? && Never(Breaking(PROJECT_FEE(p), PerPeriod(cents)), s, steps)
    ensures var now := After(s, steps);
            && p in now.projects && Watermark(now, p).Some?
            && (Watermark(now, p).value - Watermark(s, p).value) * cents
               == MoneyFor(Those(now.invoices, true), PROJECT_FEE(p)) * Fees.IntervalMs(s.projects[p])
  {
    var now := After(s, steps);
    AlwaysObey(s, steps, PROJECT_FEE(p), PerPeriod(cents));
    ThoseObey(now.invoices, true, PROJECT_FEE(p), PerPeriod(cents));
    RecordedMoney(now, p, cents);
    WatermarkIsRecorded(s, steps, p);
    MoneyMoves(s.projects[p], now.projects[p], FeesRecorded(now, p), MoneyFor(Those(now.invoices, true), PROJECT_FEE(p)), cents);
  }

  /** The generator's fee lines are at a whole price a period: the fee to the nearest cent. */
  lemma GeneratedAtPrice(s: Store, agreements: seq<string>, blocks: seq<BlockRow>, rows: seq<ProjectRow>, period: Period, items: Items, k: nat)
    requires k < |rows| && ProjectIdsDistinct(rows) && rows[k].fixedFeeAmount.Some?
    ensures var cents := RoundDiv(rows[k].fixedFeeAmount.value, 100);
            && NearestCents(cents, rows[k].fixedFeeAmount.value)
            && Obey(OtherLines(s, agreements, blocks, rows, period, items), PROJECT_FEE(rows[k].id), PerPeriod(cents))
  {
    CentsOf(rows[k].fixedFeeAmount.value);
    forall l | l in OtherLines(s, agreements, blocks, rows, period, items) && l.kind == PROJECT_FEE(rows[k].id)
      ensures PerPeriod(RoundDiv(rows[k].fixedFeeAmount.value, 100))(l)
    {
      FeeLineAtPrice(s, agreements, blocks, rows, period, items, k, l);
    }
  }

  lemma FeeLineAtPrice(s: Store, agreements: seq<string>, blocks: seq<BlockRow>, rows: seq<ProjectRow>, period: Period, items: Items, k: nat, l: RunLine)
    requires k < |rows| && ProjectIdsDistinct(rows) && rows[k].fixedFeeAmount.Some?
    requires l in OtherLines(s, agreements, blocks, rows, period, items) && l.kind == PROJECT_FEE(rows[k].id)
    ensures 10_000 * l.total == l.quantity * RoundDiv(rows[k].fixedFeeAmount.value, 100)
  {
    if l in RecurringLines(s.agreements, agreements, period, items) {
      RecurringTotals(s, agreements, period, items, l);
    } else if l in AllBlockLines(blocks, s.blocks, period, items) {
      BlockTotals(blocks, s.blocks, period, items, l);
    } else {
      assert rows[..|rows|] == rows;
      FeeLineOf(s, rows, |rows|, period, items, k, l);
    }
  }

  lemma {:induction false} FeeLineOf(s: Store, rows: seq<ProjectRow>, n: nat, period: Period, items: Items, k: nat, l: RunLine)
    requires n <= |rows| && k < |rows| && ProjectIdsDistinct(rows) && rows[k].fixedFeeAmount.Some?
    requires l in ProjectLines(rows[..n], s, period, items) && l.kind == PROJECT_FEE(rows[k].id)
    ensures 10_000 * l.total == l.quantity * RoundDiv(rows[k].fixedFeeAmount.value, 100)
  {
    assert n > 0;
    var m := n - 1;
    assert rows[..n][..m] == rows[..m] && rows[..n][m] == rows[m];
    if l in ProjectLines(rows[..m], s, period, items) {
      FeeLineOf(s, rows, m, period, items, k, l);
    } else {
      if l in DepositLines(rows[m], s.deposits, items) {
        DepositTotal(rows[m], s.deposits, items, l);
      }
      assert rows[m].id == rows[k].id;
      assert m == k;
      FeeLineExact(rows[m], s.projects, period, items, l);
    }
  }

  lemma FeeLineExact(p: ProjectRow, projects: map<string, Fees.Project>, period: Period, items: Items, l: RunLine)
    requires l in FeeLines(p, projects, period, items)
    ensures 10_000 * l.total == l.quantity * RoundDiv(p.fixedFeeAmount.value, 100)
  {
    var periods, cents := Fees.FeeQuantity(projects[p.id], period.end), RoundDiv(p.fixedFeeAmount.value, 100);
    CentsOf(p.fixedFeeAmount.value);
    WholeTotal(periods, cents);
    assert 10_000 * (periods * cents) == (10_000 * periods) * cents;
  }

  // ----- The money of a recurring fee -----

  function Costing(cents: int): RunLine -> bool {
    (l: RunLine) => l.total == cents
  }

  lemma TimeOnly(entries: seq<(string, int)>, id: string)
    ensures Count(TimeClaims(entries), Recurring(id)) == 0
  {
    TimeClaimsAre(entries, Recurring(id));
  }

  lemma OneRecurring(l: RunLine, id: string)
    ensures Count(LineClaims(l), Recurring(id)) == if l.kind == RECURRING(id) then 1 else 0
  {
    TimeOnly(l.entries, id);
    CountJoin(TimeClaims(l.entries), KindClaims(l.kind), Recurring(id));
    if KindClaims(l.kind) != [] {
      CountedOne(KindClaims(l.kind)[0], Recurring(id));
    }
  }

  lemma {:induction false} RecurringLinesMoney(lines: seq<RunLine>, id: string, cents: int)
    requires Obey(lines, RECURRING(id), Costing(cents))
    ensures SumAt(lines, KindOf, RECURRING(id), TotalOf) == Count(ClaimsOn(lines), Recurring(id)) * cents
  {
    if lines == [] {
    } else {
      RecurringLinesMoney(lines[1..], id, cents);
      assert lines[0] in lines;
      OneRecurringMore(lines, id);
      OnceMore(Count(ClaimsOn(lines[1..]), Recurring(id)), cents);
    }
  }

  lemma OnceMore(n: int, cents: int)
    ensures (n + 1) * cents == n * cents + cents
  {
  }

  lemma OneRecurringMore(lines: seq<RunLine>, id: string)
    requires lines != []
    ensures Count(ClaimsOn(lines), Recurring(id)) == Count(ClaimsOn(lines[1..]), Recurring(id)) + if lines[0].kind == RECURRING(id) then 1 else 0
  {
    assert lines == [lines[0]] + lines[1..];
    ClaimsCons(lines[0], lines[1..]);
    CountJoin(LineClaims(lines[0]), ClaimsOn(lines[1..]), Recurring(id));
    OneRecurring(lines[0], id);
  }

  lemma {:induction false} AllClaimsAreLines(invoices: seq<Invoice>)
    ensures AllClaims(invoices) == ClaimsOn(AllLines(invoices))
  {
    if invoices == [] {
    } else {
      AllClaimsAreLines(invoices[..|invoices| - 1]);
      ClaimsJoin(AllLines(invoices[..|invoices| - 1]), invoices[|invoices| - 1].lines);
    }
  }

  /** Over every history whose runs bill an agreement's fee at `cents`, the money invoiced for it is that for each time it is charged for. */
  lemma RecurringMoney(s: Store, steps: seq<Step>, id: string, cents: int)
    requires Initial(s) && Never(Breaking(RECURRING(id), Costing(cents)), s, steps)
    ensures var now := After(s, steps); MoneyFor(now.invoices, RECURRING(id)) == TimesInvoiced(now, Recurring(id)) * cents
  {
    var now := After(s, steps);
    AlwaysObey(s, steps, RECURRING(id), Costing(cents));
    AllClaimsAreLines(now.invoices);
    RecurringLinesMoney(AllLines(now.invoices), id, cents);
  }
}
