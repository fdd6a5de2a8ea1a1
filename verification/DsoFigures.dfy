// What the cash-flow figures say of invoices, payments and their dates
// (src/lib/reports/dso.ts).
module DsoFigures {
  import opened Dso
  import opened Money
  import opened Wrappers

  /** The invoice an id names: the last one that has it. */
  ghost predicate Names(invoices: seq<Invoice>, id: string, inv: Invoice) {
    exists i :: 0 <= i < |invoices| && invoices[i] == inv && inv.id == id && forall j :: i < j < |invoices| ==> invoices[j].id != id
  }

  lemma {:induction false} NamesIs(invoices: seq<Invoice>, id: string, inv: Invoice)
    ensures Names(invoices, id, inv) <==> InvoiceById(invoices, id) == Some(inv)
  {
    if invoices == [] {
    } else {
      var init, last := invoices[..|invoices| - 1], invoices[|invoices| - 1];
      NamesIs(init, id, inv);
      if last.id == id {
        assert invoices[|invoices| - 1].id == id;
      } else {
        assert forall j :: 0 <= j < |init| ==> init[j] == invoices[j];
      }
    }
  }

  /** A whole number of days, to the nearest, from one instant to another. */
  ghost predicate NearestDays(days: int, from: int, to: int) {
    -43_200_000 <= 86_400_000 * days - (to - from) <= 43_200_000
  }

  /** Cash of an invoice, paid so many days after its date, and after it was due: by its due date, or its own where none is set. */
  ghost predicate Counts(c: Cash, inv: Invoice, paidAt: int, amount: int) {
    && c.customer == inv.customerId && c.month == inv.month && c.year == inv.year && c.amount == amount
    && NearestDays(c.daysToCash, inv.txnDate, paidAt)
    && NearestDays(c.daysLate, if inv.dueDate.Some? then inv.dueDate.value else inv.txnDate, paidAt)
  }

  /**
   * An allocation counts exactly when it is positive and its invoice is known; it counts for the
   * invoice's customer, month and year, in days from the invoice's dates to the payment.
   */
  lemma MatchedMeans(invoices: seq<Invoice>, paidAt: int, line: (string, int))
    ensures Matched(invoices, paidAt, line).Some? <==> line.1 > 0 && exists inv :: Names(invoices, line.0, inv)
    ensures var m := Matched(invoices, paidAt, line);
            m.Some? ==> exists inv :: Names(invoices, line.0, inv) && Counts(m.value, inv, paidAt, line.1)
  {
    var found := InvoiceById(invoices, line.0);
    forall inv ensures Names(invoices, line.0, inv) <==> found == Some(inv) {
      NamesIs(invoices, line.0, inv);
    }
    if found.Some? {
      var inv := found.value;
      RoundDivNear(paidAt - inv.txnDate, DAY_MS);
      RoundDivNear(paidAt - if inv.dueDate.Some? then inv.dueDate.value else inv.txnDate, DAY_MS);
      assert Names(invoices, line.0, inv);
    }
  }

  /** Paid by the day it was due, on dates without a time of day, is on time; every day after is a day late. */
  lemma LateByWholeDays(due: int, paidAt: int, days: int, n: int)
    requires NearestDays(days, due, paidAt) && paidAt == due + n * 86_400_000
    ensures days == n
  {
  }

  ghost predicate Positive(cash: seq<Cash>) {
    forall c :: c in cash ==> c.amount > 0
  }

  lemma {:induction false} LateParts(cash: seq<Cash>, k: string)
    requires Positive(cash)
    ensures var a := Over(cash, Customer, k);
            && 0 <= a.onTimeCash <= a.cash && a.drag >= 0 && a.wDaysLate <= a.drag && 0 <= a.lateOver30 <= a.cash && a.scoreOver30 >= 0
            && (a.onTimeCash == a.cash <==> forall c :: c in cash && c.customer == k ==> c.daysLate <= 0)
            && (a.drag == 0 <==> forall c :: c in cash && c.customer == k ==> c.daysLate <= 0)
            && (a.lateOver30 == 0 <==> forall c :: c in cash && c.customer == k ==> c.daysLate <= 30)
            && (a.scoreOver30 == 0 <==> forall c :: c in cash && c.customer == k ==> c.daysLate <= 30)
  {
    if cash == [] {
    } else {
      LateParts(cash[1..], k);
      var c := cash[0];
      assert c in cash && forall x :: x in cash <==> x == c || x in cash[1..];
      Weighs(c.amount, c.daysLate);
      Weighs(c.amount, c.daysLate - 30);
    }
  }

  lemma Weighs(amount: int, days: int)
    requires amount > 0
    ensures (amount * days > 0 <==> days > 0) && (days == 0 ==> amount * days == 0) && (days < 0 ==> amount * days < 0)
  {
  }

  /**
   * In the books a customer's cash is all on time exactly when it has no drag, and exactly when
   * none of it was late; none of it is over 30 days late, nor has a score, exactly when the
   * largest lateness is at most 30.
   */
  lemma LatenessMeans(b: Books, cash: seq<Cash>, k: string)
    requires Balanced(b, cash) && Positive(cash) && k in b.customers
    ensures var a := b.customers[k];
            && (a.onTimeCash == a.cash <==> a.drag == 0) && (a.drag == 0 <==> a.maxDaysLate == 0)
            && (a.lateOver30 == 0 <==> a.maxDaysLate <= 30) && (a.scoreOver30 == 0 <==> a.maxDaysLate <= 30)
            && a.wDaysLate <= a.drag
  {
    LateParts(cash, k);
    MaxLateIs(cash, Customer, k);
  }

  /** Cash that all took the same days weighs in with exactly those. */
  lemma {:induction false} SameDays(cash: seq<Cash>, k: string, toCash: int, late: int)
    requires forall c :: c in cash && c.customer == k ==> c.daysToCash == toCash && c.daysLate == late
    ensures var a := Over(cash, Customer, k);
            && a.wDaysToCash == toCash * a.cash && a.wDaysLate == late * a.cash
            && a.drag == (if late > 0 then late else 0) * a.cash
            && (late > 30 ==> a.lateOver30 == a.cash && a.scoreOver30 == (late - 30) * a.cash)
  {
    if cash == [] {
    } else {
      SameDays(cash[1..], k, toCash, late);
      var c, rest := cash[0], Over(cash[1..], Customer, k).cash;
      assert c in cash && forall x :: x in cash[1..] ==> x in cash;
      Distributes(toCash, c.amount, rest);
      Distributes(late, c.amount, rest);
      Distributes(late - 30, c.amount, rest);
    }
  }

  lemma Distributes(n: int, amount: int, rest: int)
    ensures n * (amount + rest) == amount * n + n * rest
  {
  }
}
