// Cash-flow and DSO accounting (src/lib/reports/dso.ts), before the figures are
// rounded for display. Amounts are in cents, instants in milliseconds; the calendar
// month and year of an invoice are parameters of the invoice.
module Dso {
  import opened Money
  import opened Sums
  import opened Wrappers

  const DAY_MS := 86_400_000

  datatype Invoice = Invoice(id: string, customerId: string, txnDate: int, dueDate: Option<int>, month: string, year: int, total: int)
  datatype Payment = Payment(txnDate: int, lines: seq<(string, int)>)

  function DayDiff(a: int, b: int): int {
    RoundDiv(a - b, DAY_MS)
  }

  /** The last invoice with an id wins, as in a `Map`. */
  function InvoiceById(invoices: seq<Invoice>, id: string): Option<Invoice> {
    if invoices == [] then None
    else if invoices[|invoices| - 1].id == id then Some(invoices[|invoices| - 1])
    else InvoiceById(invoices[..|invoices| - 1], id)
  }

  // ----- Matched cash -----

  /** One allocation of a payment to a known invoice. */
  datatype Cash = Cash(customer: string, month: string, year: int, amount: int, daysToCash: int, daysLate: int)

  function Matched(invoices: seq<Invoice>, paidAt: int, line: (string, int)): Option<Cash> {
    var inv := InvoiceById(invoices, line.0);
    if inv.None? || line.1 <= 0 then None
    else
      var due := if inv.value.dueDate.Some? then inv.value.dueDate.value else inv.value.txnDate;
      Some(Cash(inv.value.customerId, inv.value.month, inv.value.year, line.1, DayDiff(paidAt, inv.value.txnDate), DayDiff(paidAt, due)))
  }

  function MatchLines(invoices: seq<Invoice>, paidAt: int, lines: seq<(string, int)>): seq<Cash> {
    if lines == [] then []
    else
      var m := Matched(invoices, paidAt, lines[|lines| - 1]);
      MatchLines(invoices, paidAt, lines[..|lines| - 1]) + if m.Some? then [m.value] else []
  }

  function MatchAll(invoices: seq<Invoice>, payments: seq<Payment>): seq<Cash> {
    if payments == [] then []
    else
      var last := payments[|payments| - 1];
      MatchAll(invoices, payments[..|payments| - 1]) + MatchLines(invoices, last.txnDate, last.lines)
  }

  // ----- What is added up -----

  function Customer(c: Cash): string { c.customer }

  function Month(c: Cash): string { c.month }

  /** A customer's invoices of one calendar year. */
  function Cohort(c: Cash): (string, int) { (c.customer, c.year) }

  function Amount(c: Cash): int { c.amount }

  function WeightedDays(c: Cash): int { c.amount * c.daysToCash }

  function WeightedLate(c: Cash): int { c.amount * c.daysLate }

  function OnTime(c: Cash): int { if c.daysLate <= 0 then c.amount else 0 }

  function Drag(c: Cash): int { c.amount * if c.daysLate > 0 then c.daysLate else 0 }

  function LateOver30(c: Cash): int { if c.daysLate > 30 then c.amount else 0 }

  function ScoreOver30(c: Cash): int { if c.daysLate > 30 then c.amount * (c.daysLate - 30) else 0 }

  datatype Acc = Acc(cash: int, wDaysToCash: int, wDaysLate: int, onTimeCash: int, drag: int, lateOver30: int, scoreOver30: int,
                     maxDaysLate: int)

  const Zero := Acc(0, 0, 0, 0, 0, 0, 0, 0)

  /** The largest lateness in one group of the matched cash, or zero. */
  function MaxLate(cash: seq<Cash>, key: Cash -> string, k: string): int {
    if cash == [] then 0
    else
      var last, before := cash[|cash| - 1], MaxLate(cash[..|cash| - 1], key, k);
      if key(last) == k && last.daysLate > before then last.daysLate else before
  }

  lemma {:induction false} MaxLateIs(cash: seq<Cash>, key: Cash -> string, k: string)
    ensures var max := MaxLate(cash, key, k);
            && max >= 0 && (forall c :: c in cash && key(c) == k ==> c.daysLate <= max)
            && (max > 0 ==> exists c :: c in cash && key(c) == k && c.daysLate == max)
  {
    if cash == [] {
    } else {
      MaxLateIs(cash[..|cash| - 1], key, k);
      assert cash == cash[..|cash| - 1] + [cash[|cash| - 1]];
    }
  }

  function Add(a: Acc, c: Cash): Acc {
    Acc(a.cash + Amount(c), a.wDaysToCash + WeightedDays(c), a.wDaysLate + WeightedLate(c), a.onTimeCash + OnTime(c),
        a.drag + Drag(c), a.lateOver30 + LateOver30(c), a.scoreOver30 + ScoreOver30(c),
        if c.daysLate > a.maxDaysLate then c.daysLate else a.maxDaysLate)
  }

  /** The sums over one group of the matched cash. */
  function Over(cash: seq<Cash>, key: Cash -> string, k: string): Acc {
    Acc(SumAt(cash, key, k, Amount), SumAt(cash, key, k, WeightedDays), SumAt(cash, key, k, WeightedLate),
        SumAt(cash, key, k, OnTime), SumAt(cash, key, k, Drag), SumAt(cash, key, k, LateOver30), SumAt(cash, key, k, ScoreOver30),
        MaxLate(cash, key, k))
  }

  lemma OverNext(cash: seq<Cash>, c: Cash, key: Cash -> string, k: string)
    ensures Over(cash + [c], key, k) == if key(c) == k then Add(Over(cash, key, k), c) else Over(cash, key, k)
  {
    LastAt(cash, c, key, k, Amount);
    LastAt(cash, c, key, k, WeightedDays);
    LastAt(cash, c, key, k, WeightedLate);
    LastAt(cash, c, key, k, OnTime);
    LastAt(cash, c, key, k, Drag);
    LastAt(cash, c, key, k, LateOver30);
    LastAt(cash, c, key, k, ScoreOver30);
    assert (cash + [c])[..|cash|] == cash;
  }

  lemma LastAt<T, K>(items: seq<T>, x: T, key: T -> K, k: K, f: T -> int)
    ensures SumAt(items + [x], key, k, f) == SumAt(items, key, k, f) + if key(x) == k then f(x) else 0
    ensures Sum(items + [x], f) == Sum(items, f) + f(x)
  {
    assert (items + [x])[..|items|] == items;
    SumAtLast(items + [x], key, k, f);
    SumLast(items + [x], f);
  }

  // ----- What is invoiced -----

  function InvoicedTo(inv: Invoice): string { inv.customerId }

  function InvoicedIn(inv: Invoice): (string, int) { (inv.customerId, inv.year) }

  function Total(inv: Invoice): int { inv.total }

  // ----- The accumulating loop -----

  /** The books after some matched cash: customers with an invoice, months and cohorts with cash, and the totals. */
  datatype Books = Books(
    invoiced: map<string, int>, spend: map<(string, int), int>,
    customers: map<string, Acc>,
    monthCash: map<string, int>, monthDays: map<string, int>,
    yearCash: map<(string, int), int>, yearLate: map<(string, int), int>,
    cash: int, days: int, late: int, onTime: int, drag: int)

  const NoBooks := Books(map[], map[], map[], map[], map[], map[], map[], 0, 0, 0, 0, 0)

  /** A figure kept per key is, for every key there is, the sum over that key's items. */
  ghost predicate Kept<T(!new), K(!new)>(figures: map<K, int>, items: seq<T>, key: T -> K, f: T -> int) {
    && (forall k :: k in figures ==> figures[k] == SumAt(items, key, k, f))
    && (forall x :: x in items ==> key(x) in figures)
  }

  ghost predicate TotalsOk(b: Books, cash: seq<Cash>) {
    && b.cash == Sum(cash, Amount) && b.days == Sum(cash, WeightedDays) && b.late == Sum(cash, WeightedLate)
    && b.onTime == Sum(cash, OnTime) && b.drag == Sum(cash, Drag)
  }

  ghost predicate CustomersOk(b: Books, cash: seq<Cash>) {
    && (forall k :: k in b.customers ==> b.customers[k] == Over(cash, Customer, k))
    && (forall c :: c in cash ==> c.customer in b.customers)
  }

  /** Every figure in the books is the sum of its own part of the matched cash. */
  ghost predicate Balanced(b: Books, cash: seq<Cash>) {
    && CustomersOk(b, cash)
    && b.monthCash.Keys == b.monthDays.Keys && b.yearCash.Keys == b.yearLate.Keys
    && Kept(b.monthCash, cash, Month, Amount) && Kept(b.monthDays, cash, Month, WeightedDays)
    && Kept(b.yearCash, cash, Cohort, Amount) && Kept(b.yearLate, cash, Cohort, WeightedLate)
    && TotalsOk(b, cash)
  }

  /** Revenue by customer, and by customer and calendar year, is the sum of the customer's invoices. */
  ghost predicate RevenueOk(b: Books, invoices: seq<Invoice>) {
    Kept(b.invoiced, invoices, InvoicedTo, Total) && Kept(b.spend, invoices, InvoicedIn, Total)
  }

  method ComputeBooks(invoices: seq<Invoice>, payments: seq<Payment>) returns (b: Books)
    ensures Balanced(b, MatchAll(invoices, payments)) && RevenueOk(b, invoices)
    ensures b.customers.Keys == Customers(invoices)
  {
    b := Revenue(invoices);
    for k := 0 to |payments|
      invariant b.customers.Keys == Customers(invoices) && RevenueOk(b, invoices)
      invariant Balanced(b, MatchAll(invoices, payments[..k]))
    {
      assert payments[..k + 1][..k] == payments[..k];
      b := AddPayment(invoices, payments[k], b, MatchAll(invoices, payments[..k]));
    }
    assert payments[..|payments|] == payments;
  }

  function Customers(invoices: seq<Invoice>): set<string> {
    set i | i in invoices :: i.customerId
  }

  /** The loop over the invoices: a row for every customer, and what each was invoiced. */
  method Revenue(invoices: seq<Invoice>) returns (b: Books)
    ensures Balanced(b, []) && RevenueOk(b, invoices) && b.customers.Keys == Customers(invoices)
  {
    b := NoBooks;
    for k := 0 to |invoices|
      invariant Opened(b, invoices[..k])
    {
      var inv := invoices[k];
      assert invoices[..k + 1] == invoices[..k] + [inv];
      OpenedNext(b, invoices[..k], inv);
      b := Open(b, inv);
    }
    assert invoices[..|invoices|] == invoices;
  }

  /** Books with what was invoiced and no cash. */
  ghost predicate Opened(b: Books, invoices: seq<Invoice>) {
    && RevenueOk(b, invoices) && b.customers.Keys == Customers(invoices)
    && b == NoBooks.(customers := b.customers, invoiced := b.invoiced, spend := b.spend)
    && forall c :: c in b.customers ==> b.customers[c] == Zero
  }

  function Open(b: Books, inv: Invoice): Books {
    b.(invoiced := Post(b.invoiced, inv.customerId, inv.total), spend := Post(b.spend, (inv.customerId, inv.year), inv.total),
       customers := if inv.customerId in b.customers then b.customers else b.customers[inv.customerId := Zero])
  }

  lemma OpenedNext(b: Books, invoices: seq<Invoice>, inv: Invoice)
    requires Opened(b, invoices)
    ensures Opened(Open(b, inv), invoices + [inv])
  {
    PostKeeps(b.invoiced, invoices, inv, InvoicedTo, Total);
    PostKeeps(b.spend, invoices, inv, InvoicedIn, Total);
    assert Customers(invoices + [inv]) == Customers(invoices) + {inv.customerId};
  }

  method AddPayment(invoices: seq<Invoice>, p: Payment, b: Books, ghost cash: seq<Cash>) returns (b': Books)
    requires Balanced(b, cash) && b.customers.Keys == Customers(invoices)
    ensures Balanced(b', cash + MatchLines(invoices, p.txnDate, p.lines)) && b'.customers.Keys == b.customers.Keys
    ensures b'.invoiced == b.invoiced && b'.spend == b.spend
  {
    b' := b;
    assert cash + [] == cash;
    for k := 0 to |p.lines|
      invariant b'.invoiced == b.invoiced && b'.spend == b.spend
      invariant Posted(invoices, p, k, b', cash)
    {
      EnterNext(invoices, p, k, b', cash);
      var m := Matched(invoices, p.txnDate, p.lines[k]);
      if m.Some? {
        b' := Enter(b', m.value);
      }
    }
    assert p.lines[..|p.lines|] == p.lines;
  }

  /** The first lines of a payment are in the books, on top of the cash before it. */
  ghost predicate Posted(invoices: seq<Invoice>, p: Payment, k: nat, b: Books, cash: seq<Cash>)
    requires k <= |p.lines|
  {
    b.customers.Keys == Customers(invoices) && Balanced(b, cash + MatchLines(invoices, p.txnDate, p.lines[..k]))
  }

  lemma EnterNext(invoices: seq<Invoice>, p: Payment, k: nat, b: Books, cash: seq<Cash>)
    requires k < |p.lines| && Posted(invoices, p, k, b, cash)
    ensures var m := Matched(invoices, p.txnDate, p.lines[k]);
            && (m.Some? ==> m.value.customer in b.customers)
            && Posted(invoices, p, k + 1, if m.Some? then Enter(b, m.value) else b, cash)
  {
    var m, soFar := Matched(invoices, p.txnDate, p.lines[k]), cash + MatchLines(invoices, p.txnDate, p.lines[..k]);
    MatchNext(invoices, p.txnDate, p.lines, k, cash);
    if m.Some? {
      StaysBalanced(b, soFar, m.value);
    } else {
      assert soFar + [] == soFar;
    }
  }

  lemma MatchNext(invoices: seq<Invoice>, paidAt: int, lines: seq<(string, int)>, k: nat, cash: seq<Cash>)
    requires k < |lines|
    ensures var m := Matched(invoices, paidAt, lines[k]);
            && cash + MatchLines(invoices, paidAt, lines[..k + 1])
               == cash + MatchLines(invoices, paidAt, lines[..k]) + (if m.Some? then [m.value] else [])
            && (m.Some? ==> m.value.customer in Customers(invoices))
  {
    assert lines[..k + 1][..k] == lines[..k];
    FoundCustomer(invoices, lines[k].0);
  }

  lemma {:induction false} FoundCustomer(invoices: seq<Invoice>, id: string)
    ensures InvoiceById(invoices, id).Some? ==> InvoiceById(invoices, id).value in invoices
  {
    if invoices == [] {
    } else {
      FoundCustomer(invoices[..|invoices| - 1], id);
    }
  }

  function Post<K>(figures: map<K, int>, k: K, amount: int): map<K, int> {
    figures[k := (if k in figures then figures[k] else 0) + amount]
  }

  /** One matched amount posted to every figure it belongs to. */
  function Enter(b: Books, c: Cash): Books
    requires c.customer in b.customers
  {
    Books(b.invoiced, b.spend, b.customers[c.customer := Add(b.customers[c.customer], c)],
          Post(b.monthCash, c.month, Amount(c)), Post(b.monthDays, c.month, WeightedDays(c)),
          Post(b.yearCash, Cohort(c), Amount(c)), Post(b.yearLate, Cohort(c), WeightedLate(c)),
          b.cash + Amount(c), b.days + WeightedDays(c), b.late + WeightedLate(c), b.onTime + OnTime(c), b.drag + Drag(c))
  }

  lemma PostKeeps<T(!new), K(!new)>(figures: map<K, int>, items: seq<T>, x: T, key: T -> K, f: T -> int)
    requires Kept(figures, items, key, f)
    ensures Kept(Post(figures, key(x), f(x)), items + [x], key, f)
  {
    forall k | k in Post(figures, key(x), f(x))
      ensures Post(figures, key(x), f(x))[k] == SumAt(items + [x], key, k, f)
    {
      LastAt(items, x, key, k, f);
      if k !in figures {
        SumAtAbsent(items, key, k, f);
      }
    }
  }

  lemma TotalsStay(b: Books, cash: seq<Cash>, c: Cash)
    requires TotalsOk(b, cash) && c.customer in b.customers
    ensures TotalsOk(Enter(b, c), cash + [c])
  {
    LastAt(cash, c, Month, c.month, Amount);
    LastAt(cash, c, Month, c.month, WeightedDays);
    LastAt(cash, c, Month, c.month, WeightedLate);
    LastAt(cash, c, Month, c.month, OnTime);
    LastAt(cash, c, Month, c.month, Drag);
  }

  lemma CustomersStay(b: Books, cash: seq<Cash>, c: Cash)
    requires CustomersOk(b, cash) && c.customer in b.customers
    ensures CustomersOk(Enter(b, c), cash + [c])
  {
    var b' := Enter(b, c);
    forall k | k in b'.customers ensures b'.customers[k] == Over(cash + [c], Customer, k) {
      OverNext(cash, c, Customer, k);
    }
  }

  /** Posting one amount keeps every figure equal to its sum. */
  lemma StaysBalanced(b: Books, cash: seq<Cash>, c: Cash)
    requires Balanced(b, cash) && c.customer in b.customers
    ensures Balanced(Enter(b, c), cash + [c])
  {
    CustomersStay(b, cash, c);
    PostKeeps(b.monthCash, cash, c, Month, Amount);
    PostKeeps(b.monthDays, cash, c, Month, WeightedDays);
    PostKeeps(b.yearCash, cash, c, Cohort, Amount);
    PostKeeps(b.yearLate, cash, c, Cohort, WeightedLate);
    TotalsStay(b, cash, c);
  }

  // ----- The books agree with each other -----

  /** The figures of a list of keys, added up. */
  function SumBooks<K>(keys: seq<K>, figures: map<K, int>): int
    requires forall k :: k in keys ==> k in figures
  {
    if keys == [] then 0 else figures[keys[0]] + SumBooks(keys[1..], figures)
  }

  lemma {:induction false} SumBooksAre<T, K>(keys: seq<K>, figures: map<K, int>, items: seq<T>, key: T -> K, f: T -> int)
    requires forall k :: k in keys ==> k in figures && figures[k] == SumAt(items, key, k, f)
    ensures SumBooks(keys, figures) == SumOverKeys(keys, items, key, f)
  {
    if keys == [] {
    } else {
      SumBooksAre(keys[1..], figures, items, key, f);
    }
  }

  /** Lists each key of a map once. */
  ghost predicate Enumerates<K(!new)>(keys: seq<K>, s: set<K>) {
    Distinct(keys) && forall k :: k in keys <==> k in s
  }

  /** A figure kept per key adds up, over its keys, to the figure for all the cash. */
  lemma KeptTotal<T(!new), K(!new)>(keys: seq<K>, figures: map<K, int>, items: seq<T>, key: T -> K, f: T -> int)
    requires Kept(figures, items, key, f) && Enumerates(keys, figures.Keys)
    ensures SumBooks(keys, figures) == Sum(items, f)
  {
    SumBooksAre(keys, figures, items, key, f);
    SumByKeys(keys, items, key, f);
  }

  /** Revenue comes to the same by customer, by customer and year, and over all invoices. */
  lemma RevenueAgrees(b: Books, invoices: seq<Invoice>, customers: seq<string>, years: seq<(string, int)>)
    requires RevenueOk(b, invoices) && Enumerates(customers, b.invoiced.Keys) && Enumerates(years, b.spend.Keys)
    ensures SumBooks(customers, b.invoiced) == SumBooks(years, b.spend) == Sum(invoices, Total)
  {
    KeptTotal(customers, b.invoiced, invoices, InvoicedTo, Total);
    KeptTotal(years, b.spend, invoices, InvoicedIn, Total);
  }

  /** One figure of every customer's accumulator. */
  function Column(customers: map<string, Acc>, figure: Acc -> int): map<string, int> {
    map k | k in customers :: figure(customers[k])
  }

  function CashOf(a: Acc): int { a.cash }

  function DaysOf(a: Acc): int { a.wDaysToCash }

  function LateOf(a: Acc): int { a.wDaysLate }

  function OnTimeOf(a: Acc): int { a.onTimeCash }

  function DragOf(a: Acc): int { a.drag }

  lemma ColumnTotal(b: Books, cash: seq<Cash>, customers: seq<string>, figure: Acc -> int, f: Cash -> int)
    requires Balanced(b, cash) && Enumerates(customers, b.customers.Keys)
    requires forall k :: figure(Over(cash, Customer, k)) == SumAt(cash, Customer, k, f)
    ensures Kept(Column(b.customers, figure), cash, Customer, f)
    ensures SumBooks(customers, Column(b.customers, figure)) == Sum(cash, f)
  {
    KeptTotal(customers, Column(b.customers, figure), cash, Customer, f);
  }

  /** Every figure comes to the same whether it is totalled globally, by customer, by month or by cohort. */
  lemma BooksAgree(b: Books, cash: seq<Cash>, customers: seq<string>, months: seq<string>, cohorts: seq<(string, int)>)
    requires Balanced(b, cash) && Enumerates(customers, b.customers.Keys)
    requires Enumerates(months, b.monthCash.Keys) && Enumerates(cohorts, b.yearCash.Keys)
    ensures SumBooks(customers, Column(b.customers, CashOf)) == b.cash == SumBooks(months, b.monthCash) == SumBooks(cohorts, b.yearCash)
    ensures SumBooks(customers, Column(b.customers, DaysOf)) == b.days == SumBooks(months, b.monthDays)
    ensures SumBooks(customers, Column(b.customers, LateOf)) == b.late == SumBooks(cohorts, b.yearLate)
    ensures SumBooks(customers, Column(b.customers, OnTimeOf)) == b.onTime
    ensures SumBooks(customers, Column(b.customers, DragOf)) == b.drag
  {
    ColumnTotal(b, cash, customers, CashOf, Amount);
    ColumnTotal(b, cash, customers, DaysOf, WeightedDays);
    ColumnTotal(b, cash, customers, LateOf, WeightedLate);
    ColumnTotal(b, cash, customers, OnTimeOf, OnTime);
    ColumnTotal(b, cash, customers, DragOf, Drag);
    KeptTotal(months, b.monthCash, cash, Month, Amount);
    KeptTotal(months, b.monthDays, cash, Month, WeightedDays);
    KeptTotal(cohorts, b.yearCash, cash, Cohort, Amount);
    KeptTotal(cohorts, b.yearLate, cash, Cohort, WeightedLate);
  }

  // ----- Portfolio DSO is a mean of the customers' -----

  lemma OneMore(days: int, cash: int, restDays: int, restCash: int, totalDays: int, totalCash: int)
    ensures (days + restDays) * totalCash == days * totalCash + restDays * totalCash
    ensures totalDays * (cash + restCash) == totalDays * cash + totalDays * restCash
  {
  }

  /** If every part with cash were above the ratio days/cash, so would be the whole. */
  lemma {:induction false} AllAbove(keys: seq<string>, cash: map<string, int>, days: map<string, int>, totalCash: int, totalDays: int)
    requires forall k :: k in keys ==> k in cash && k in days && cash[k] >= 0 && (cash[k] == 0 ==> days[k] == 0)
    requires forall k :: k in keys && cash[k] > 0 ==> days[k] * totalCash > totalDays * cash[k]
    ensures SumBooks(keys, cash) >= 0
    ensures SumBooks(keys, days) * totalCash >= totalDays * SumBooks(keys, cash)
    ensures SumBooks(keys, cash) > 0 ==> SumBooks(keys, days) * totalCash > totalDays * SumBooks(keys, cash)
  {
    if keys == [] {
    } else {
      var k := keys[0];
      AllAbove(keys[1..], cash, days, totalCash, totalDays);
      assert cash[k] == 0 ==> days[k] * totalCash == totalDays * cash[k] == 0;
      OneMore(days[k], cash[k], SumBooks(keys[1..], days), SumBooks(keys[1..], cash), totalDays, totalCash);
    }
  }

  lemma {:induction false} AllBelow(keys: seq<string>, cash: map<string, int>, days: map<string, int>, totalCash: int, totalDays: int)
    requires forall k :: k in keys ==> k in cash && k in days && cash[k] >= 0 && (cash[k] == 0 ==> days[k] == 0)
    requires forall k :: k in keys && cash[k] > 0 ==> days[k] * totalCash < totalDays * cash[k]
    ensures SumBooks(keys, cash) >= 0
    ensures SumBooks(keys, days) * totalCash <= totalDays * SumBooks(keys, cash)
    ensures SumBooks(keys, cash) > 0 ==> SumBooks(keys, days) * totalCash < totalDays * SumBooks(keys, cash)
  {
    if keys == [] {
    } else {
      var k := keys[0];
      AllBelow(keys[1..], cash, days, totalCash, totalDays);
      assert cash[k] == 0 ==> days[k] * totalCash == totalDays * cash[k] == 0;
      OneMore(days[k], cash[k], SumBooks(keys[1..], days), SumBooks(keys[1..], cash), totalDays, totalCash);
    }
  }

  lemma {:induction false} PositiveCash(cash: seq<Cash>, k: string)
    requires forall c :: c in cash ==> c.amount > 0
    ensures SumAt(cash, Customer, k, Amount) >= 0
    ensures SumAt(cash, Customer, k, Amount) == 0 ==> SumAt(cash, Customer, k, WeightedDays) == 0
  {
    if cash == [] {
    } else {
      PositiveCash(cash[1..], k);
    }
  }

  lemma {:induction false} MatchedIsPositive(invoices: seq<Invoice>, payments: seq<Payment>)
    ensures forall c :: c in MatchAll(invoices, payments) ==> c.amount > 0
  {
    if payments == [] {
    } else {
      MatchedIsPositive(invoices, payments[..|payments| - 1]);
      LinesArePositive(invoices, payments[|payments| - 1].txnDate, payments[|payments| - 1].lines);
    }
  }

  lemma {:induction false} LinesArePositive(invoices: seq<Invoice>, paidAt: int, lines: seq<(string, int)>)
    ensures forall c :: c in MatchLines(invoices, paidAt, lines) ==> c.amount > 0
  {
    if lines == [] {
    } else {
      LinesArePositive(invoices, paidAt, lines[..|lines| - 1]);
    }
  }

  /** Portfolio DSO lies between the DSO of some customer and that of another (compared as fractions). */
  lemma PortfolioBetweenCustomers(b: Books, cash: seq<Cash>, customers: seq<string>)
    requires Balanced(b, cash) && Enumerates(customers, b.customers.Keys) && b.cash > 0
    requires forall c :: c in cash ==> c.amount > 0
    ensures exists k :: k in b.customers && b.customers[k].cash > 0 && b.customers[k].wDaysToCash * b.cash <= b.days * b.customers[k].cash
    ensures exists k :: k in b.customers && b.customers[k].cash > 0 && b.customers[k].wDaysToCash * b.cash >= b.days * b.customers[k].cash
  {
    var cashOf, daysOf := Column(b.customers, CashOf), Column(b.customers, DaysOf);
    forall k | k in customers ensures cashOf[k] >= 0 && (cashOf[k] == 0 ==> daysOf[k] == 0) {
      PositiveCash(cash, k);
    }
    ColumnTotal(b, cash, customers, CashOf, Amount);
    ColumnTotal(b, cash, customers, DaysOf, WeightedDays);
    if forall k :: k in customers && cashOf[k] > 0 ==> daysOf[k] * b.cash > b.days * cashOf[k] {
      AllAbove(customers, cashOf, daysOf, b.cash, b.days);
    }
    if forall k :: k in customers && cashOf[k] > 0 ==> daysOf[k] * b.cash < b.days * cashOf[k] {
      AllBelow(customers, cashOf, daysOf, b.cash, b.days);
    }
  }

  // ----- Lateness -----

  lemma {:induction false} DragCovers(cash: seq<Cash>, k: string)
    requires forall c :: c in cash ==> c.amount > 0
    ensures SumAt(cash, Customer, k, Drag) >= SumAt(cash, Customer, k, ScoreOver30) + 30 * SumAt(cash, Customer, k, LateOver30)
    ensures (forall c :: c in cash && c.customer == k ==> c.daysLate <= 0 || c.daysLate > 30)
            ==> SumAt(cash, Customer, k, Drag) == SumAt(cash, Customer, k, ScoreOver30) + 30 * SumAt(cash, Customer, k, LateOver30)
  {
    if cash == [] {
    } else {
      DragCovers(cash[1..], k);
      var c := cash[0];
      assert c.daysLate > 30 ==> c.amount * c.daysLate == c.amount * (c.daysLate - 30) + 30 * c.amount;
      assert c.daysLate > 0 ==> c.amount * c.daysLate >= 0;
    }
  }

  /** A customer's drag is at least its follow-up score plus 30 days on what was over 30 days late. */
  lemma CustomerDragCovers(b: Books, cash: seq<Cash>, k: string)
    requires Balanced(b, cash) && k in b.customers && forall c :: c in cash ==> c.amount > 0
    ensures b.customers[k].drag >= b.customers[k].scoreOver30 + 30 * b.customers[k].lateOver30
  {
    DragCovers(cash, k);
  }

  // ----- Tiers -----

  datatype Tier = EarlyOnTime | Late1To30 | Late31To90 | Late91Plus | NoMatchedCash

  const TIER_ORDER := [EarlyOnTime, Late1To30, Late31To90, Late91Plus, NoMatchedCash]

  /** Cash-weighted average days late; none without cash. */
  function AverageLate(a: Acc): Option<real> {
    if a.cash > 0 then Some(a.wDaysLate as real / a.cash as real) else None
  }

  function TierFor(avgDaysLate: Option<real>): Tier {
    if avgDaysLate.None? then NoMatchedCash
    else if avgDaysLate.value <= 0.0 then EarlyOnTime
    else if avgDaysLate.value <= 30.0 then Late1To30
    else if avgDaysLate.value <= 90.0 then Late31To90
    else Late91Plus
  }

  function TierOf(a: Acc): Tier {
    TierFor(AverageLate(a))
  }

  lemma RatioAtMost(n: int, d: int, bound: int)
    requires d > 0
    ensures n as real / d as real <= bound as real <==> n <= bound * d
  {
    var q := n as real / d as real;
    assert q * d as real == n as real;
    assert (bound * d) as real == bound as real * d as real;
    if q <= bound as real {
      assert q * d as real <= bound as real * d as real;
    } else {
      assert q * d as real > bound as real * d as real;
    }
  }

  /**
   * What each tier means of a customer's matched cash, in whole numbers: how the
   * day-weighted lateness compares with the cash, and no tier exactly without any cash.
   */
  lemma TierMeans(b: Books, cash: seq<Cash>, k: string)
    requires Balanced(b, cash) && k in b.customers && forall c :: c in cash ==> c.amount > 0
    ensures var late, paid := SumAt(cash, Customer, k, WeightedLate), SumAt(cash, Customer, k, Amount);
            && (TierOf(b.customers[k]) == NoMatchedCash <==> forall c :: c in cash ==> c.customer != k)
            && (TierOf(b.customers[k]) == EarlyOnTime <==> paid > 0 && late <= 0)
            && (TierOf(b.customers[k]) == Late1To30 <==> paid > 0 && 0 < late <= 30 * paid)
            && (TierOf(b.customers[k]) == Late31To90 <==> paid > 0 && 30 * paid < late <= 90 * paid)
            && (TierOf(b.customers[k]) == Late91Plus <==> paid > 0 && 90 * paid < late)
  {
    var a := b.customers[k];
    PaidIff(cash, k);
    if a.cash > 0 {
      RatioAtMost(a.wDaysLate, a.cash, 0);
      RatioAtMost(a.wDaysLate, a.cash, 30);
      RatioAtMost(a.wDaysLate, a.cash, 90);
    }
  }

  lemma {:induction false} PaidIff(cash: seq<Cash>, k: string)
    requires forall c :: c in cash ==> c.amount > 0
    ensures SumAt(cash, Customer, k, Amount) >= 0
    ensures SumAt(cash, Customer, k, Amount) == 0 <==> forall c :: c in cash ==> c.customer != k
  {
    if cash == [] {
    } else {
      PaidIff(cash[1..], k);
      assert cash[0] in cash && forall c :: c in cash <==> c == cash[0] || c in cash[1..];
    }
  }

  function TierIn(customers: map<string, Acc>): string -> Tier {
    (k: string) => if k in customers then TierOf(customers[k]) else NoMatchedCash
  }

  function FigureIn(figures: map<string, int>): string -> int {
    (k: string) => if k in figures then figures[k] else 0
  }

  lemma {:induction false} SumBooksIsSum(keys: seq<string>, figures: map<string, int>)
    requires forall k :: k in keys ==> k in figures
    ensures SumBooks(keys, figures) == Sum(keys, FigureIn(figures))
  {
    if keys == [] {
    } else {
      SumBooksIsSum(keys[1..], figures);
    }
  }

  /** The tier table accounts for every customer once, for all the cash and for all the drag. */
  lemma TiersPartition(b: Books, cash: seq<Cash>, customers: seq<string>)
    requires Balanced(b, cash) && Enumerates(customers, b.customers.Keys)
    ensures SumOverKeys(TIER_ORDER, customers, TierIn(b.customers), (k: string) => 1) == |customers|
    ensures SumOverKeys(TIER_ORDER, customers, TierIn(b.customers), FigureIn(Column(b.customers, CashOf))) == b.cash
    ensures SumOverKeys(TIER_ORDER, customers, TierIn(b.customers), FigureIn(Column(b.customers, DragOf))) == b.drag
  {
    ColumnTotal(b, cash, customers, CashOf, Amount);
    TierSums(b.customers, customers, CashOf);
    ColumnTotal(b, cash, customers, DragOf, Drag);
    TierSums(b.customers, customers, DragOf);
    TierCounts(b.customers, customers);
  }

  lemma TierCounts(books: map<string, Acc>, customers: seq<string>)
    ensures SumOverKeys(TIER_ORDER, customers, TierIn(books), (k: string) => 1) == |customers|
  {
    SumByKeys(TIER_ORDER, customers, TierIn(books), (k: string) => 1);
    SumOnes(customers);
  }

  lemma TierSums(books: map<string, Acc>, customers: seq<string>, figure: Acc -> int)
    requires forall k :: k in customers ==> k in books
    ensures SumOverKeys(TIER_ORDER, customers, TierIn(books), FigureIn(Column(books, figure))) == SumBooks(customers, Column(books, figure))
  {
    SumBooksIsSum(customers, Column(books, figure));
    SumByKeys(TIER_ORDER, customers, TierIn(books), FigureIn(Column(books, figure)));
  }

  lemma {:induction false} SumOnes(keys: seq<string>)
    ensures Sum(keys, (k: string) => 1) == |keys|
  {
    if keys == [] {
    } else {
      SumOnes(keys[1..]);
    }
  }
}
