// The terms of an agreement and when its recurring fee is due
// (src/lib/sfbilling/generate.ts, section 2 of `generateSfBillingLines`). Amounts are
// whole numbers of 0.0001, instants are milliseconds.
module Agreements {
  import Anniversaries
  import opened Wrappers

  /** A billing period: the start is in it, the end is not. */
  datatype Period = Period(start: int, end: int)

  predicate Covers(period: Period, t: int) {
    period.start <= t < period.end
  }

  type Date = d: Anniversaries.MonthDay | Anniversaries.ValidDate(d) witness Anniversaries.MonthDay(1, 1)

  datatype Agreement = Agreement(managed: bool, monthlyAmount: Option<int>, yearly: bool,
                                 startDate: int, startDay: Date, endDate: Option<int>)

  predicate Positive(amount: Option<int>) {
    amount.Some? && amount.value > 0
  }

  /** Whether an agreement is live at any point in the period. */
  predicate ActiveInPeriod(a: Agreement, period: Period) {
    a.startDate < period.end && (a.endDate.Some? ==> a.endDate.value >= period.start)
  }

  ghost predicate RecurringDue(a: Agreement, period: Period) {
    && a.managed && ActiveInPeriod(a, period) && Positive(a.monthlyAmount)
    && (a.yearly ==> Anniversaries.Due(a.startDay, period.start, period.end))
  }

  /** An agreement is live from its start date to its end date, both included: at some instant of a period, exactly when it is active in it. */
  lemma ActiveIff(a: Agreement, period: Period)
    requires period.start < period.end && (a.endDate.Some? ==> a.startDate <= a.endDate.value)
    ensures ActiveInPeriod(a, period) <==> exists t :: Covers(period, t) && a.startDate <= t && (a.endDate.Some? ==> t <= a.endDate.value)
  {
    if ActiveInPeriod(a, period) {
      var t := if a.startDate < period.start then period.start else a.startDate;
      assert Covers(period, t) && a.startDate <= t;
    }
  }

  // ----- What one fee is for -----

  /** The instants a fee is owed for: of a yearly agreement its anniversaries, of any other all of them. */
  ghost predicate Owed(a: Agreement, t: int) {
    a.yearly ==> exists y :: t == Anniversaries.Anniversary(a.startDay, y)
  }

  function Common(p: Period, q: Period): Period {
    Period(if p.start <= q.start then q.start else p.start, if p.end <= q.end then p.end else q.end)
  }

  /** Two periods bill for one and the same: they overlap, and for a yearly agreement in an anniversary. */
  ghost predicate Share(a: Agreement, p: Period, q: Period) {
    var common := Common(p, q);
    if a.yearly then Anniversaries.Due(a.startDay, common.start, common.end) else common.start < common.end
  }

  lemma ShareIff(a: Agreement, p: Period, q: Period)
    ensures Share(a, p, q) <==> exists t :: Owed(a, t) && Covers(p, t) && Covers(q, t)
  {
    var common := Common(p, q);
    if Share(a, p, q) {
      if a.yearly {
        var y :| common.start <= Anniversaries.Anniversary(a.startDay, y) < common.end;
        assert Owed(a, Anniversaries.Anniversary(a.startDay, y));
      } else {
        assert Owed(a, common.start);
      }
    }
  }
}
