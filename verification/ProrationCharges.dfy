// What prorated lines charge, against the days they are for
// (src/lib/billing/proration.ts, src/lib/billing/line.ts and the line loop of
// src/lib/billing/generate.ts).
module ProrationCharges {
  import opened Arith
  import opened Money
  import opened Proration
  import opened Sums
  import opened Wrappers

  /** The number of the UTC day: a day has 86 400 000 milliseconds. */
  lemma DayIndexIs(t: int)
    ensures 86_400_000 * DayIndex(t) <= t < 86_400_000 * (DayIndex(t) + 1)
  {
  }

  /** Days that a period and an activity share, both from the day they start to the day before they end. */
  function SharedDays(start: int, end: int, from: Option<int>, to: Option<int>): nat {
    var first := if from.Some? && DayIndex(from.value) > DayIndex(start) then DayIndex(from.value) else DayIndex(start);
    var last := if to.Some? && DayIndex(to.value) < DayIndex(end) then DayIndex(to.value) else DayIndex(end);
    if first < last then last - first else 0
  }

  /** The factor is the shared part of the period, to the nearest millionth. */
  lemma FactorNear(start: int, end: int, from: Option<int>, to: Option<int>)
    requires start <= end
    ensures var n, factor := DaysBetween(start, end), ComputeProration(start, end, from, to).factor;
            if n > 0 then -n <= 2 * (n * factor - 1_000_000 * SharedDays(start, end, from, to)) <= n else factor == 0
  {
    var p := ComputeProration(start, end, from, to);
    BilledIsOverlap(start, end, from, to);
    if p.periodDays > 0 {
      RoundDivNear(p.billedDays * WHOLE, p.periodDays);
    }
  }

  /**
   * `charge` cents are near `price` for each seat and each of `n` days, as far as `lines`
   * rounded lines of `seats` seats can be: half a cent a line, and half a millionth of the price a seat.
   */
  ghost predicate Near(n: int, price: int, charge: int, seatDays: int, lines: int, seats: int) {
    -(n * (100_000_000 * lines + price * seats)) <= 2 * (100_000_000 * (n * charge) - 1_000_000 * (price * seatDays))
      <= n * (100_000_000 * lines + price * seats)
  }

  lemma NearAdds(n: int, price: int, c: int, d: int, days: int, days': int, lines: int, lines': int, seats: int, seats': int)
    requires Near(n, price, c, days, lines, seats) && Near(n, price, d, days', lines', seats')
    ensures Near(n, price, c + d, days + days', lines + lines', seats + seats')
  {
    assert n * (c + d) == n * c + n * d && price * (days + days') == price * days + price * days';
    assert price * (seats + seats') == price * seats + price * seats';
    assert n * (100_000_000 * (lines + lines') + price * (seats + seats'))
        == n * (100_000_000 * lines + price * seats) + n * (100_000_000 * lines' + price * seats');
  }

  lemma NearNothing(n: int, price: int)
    ensures Near(n, price, 0, 0, 0, 0)
  {
    assert n * 0 == 0 && price * 0 == 0;
  }

  lemma Within(n: int, x: int, a: int, b: int)
    requires n >= 0 && a <= x <= b
    ensures n * a <= n * x <= n * b
  {
    ScaleLe(a, x, n);
    ScaleLe(x, b, n);
  }

  lemma TwoRoundings(n: int, value: int, factor: int, days: int, total: int)
    requires n > 0 && value >= 0
    requires -100_000_000 <= 2 * (100_000_000 * total - value * factor) <= 100_000_000
    requires -n <= 2 * (n * factor - 1_000_000 * days) <= n
    ensures -(n * (100_000_000 + value)) <= 2 * (100_000_000 * (n * total) - 1_000_000 * (value * days)) <= n * (100_000_000 + value)
  {
    var a, b := 2 * (100_000_000 * total - value * factor), 2 * (n * factor - 1_000_000 * days);
    Within(n, a, -100_000_000, 100_000_000);
    Within(value, b, -n, n);
    assert n * a == 2 * (100_000_000 * (n * total)) - 2 * (n * (value * factor));
    assert value * b == 2 * (value * (n * factor)) - 2 * (1_000_000 * (value * days));
    assert n * (value * factor) == value * (n * factor);
    assert n * (100_000_000 + value) == n * 100_000_000 + n * value && value * n == n * value && value * (-n) == -(value * n);
  }

  lemma LineArithmetic(n: int, price: nat, quantity: nat, factor: int, days: int, total: int)
    requires n > 0 && -n <= 2 * (n * factor - 1_000_000 * days) <= n
    requires -100_000_000 <= 2 * (100_000_000 * total - quantity * price * factor) <= 100_000_000
    ensures Near(n, price, total, quantity * days, 1, quantity)
  {
    ScaleLe(0, quantity, price);
    TwoRoundings(n, quantity * price, factor, days, total);
    assert (quantity * price) * days == price * (quantity * days) && quantity * price == price * quantity;
  }

  /** One line, against its seats and the days it shares with the period. */
  lemma LineNear(id: nat, quantity: nat, price: nat, start: int, end: int, from: Option<int>, to: Option<int>)
    requires start <= end && DaysBetween(start, end) > 0
    ensures Near(DaysBetween(start, end), price, LineFor(id, quantity, price, start, end, from, to).total,
                 quantity * SharedDays(start, end, from, to), 1, quantity)
  {
    var n, days, l := DaysBetween(start, end), SharedDays(start, end, from, to), LineFor(id, quantity, price, start, end, from, to);
    FactorNear(start, end, from, to);
    RoundDivNear(quantity * price * l.factor, 100_000_000);
    LineArithmetic(n, price, quantity, l.factor, days, l.total);
  }

  /** Seats times days of the additions of a period, each from the day it was made. */
  function AddedSeatDays(additions: seq<Addition>, start: int, end: int, activeEnd: Option<int>): int {
    if additions == [] then 0
    else
      var last := additions[|additions| - 1];
      AddedSeatDays(additions[..|additions| - 1], start, end, activeEnd)
      + if last.seats > 0 && start <= last.date < end then last.seats * SharedDays(start, end, Some(last.date), activeEnd) else 0
  }

  /** Seats times days of a subscription: those there all along, and those added. */
  function SeatDays(sub: Subscription, start: int, end: int): int {
    var rest := sub.quantity - AddedSeats(sub.additions, start, end);
    (if rest > 0 then rest * SharedDays(start, end, sub.activeStart, sub.activeEnd) else 0)
    + AddedSeatDays(sub.additions, start, end, sub.activeEnd)
  }

  lemma MidnightOf(a: Addition)
    ensures DayIndex(AddedOn(a)) == DayIndex(a.date)
  {
  }

  lemma {:induction false} AdditionsNear(sub: Subscription, additions: seq<Addition>, price: nat, start: int, end: int)
    requires start <= end && DaysBetween(start, end) > 0
    ensures var lines := AdditionLines(sub, additions, price, start, end);
            Near(DaysBetween(start, end), price, Sum(lines, TotalOf), AddedSeatDays(additions, start, end, sub.activeEnd), |lines|, Sum(lines, Seats))
  {
    var n := DaysBetween(start, end);
    if additions == [] {
      NearNothing(n, price);
    } else {
      var init, last := additions[..|additions| - 1], additions[|additions| - 1];
      var before := AdditionLines(sub, init, price, start, end);
      AdditionsNear(sub, init, price, start, end);
      if InPeriod(last, start, end) {
        var line := LineFor(sub.id, last.seats, price, start, end, Some(AddedOn(last)), sub.activeEnd);
        MidnightOf(last);
        LineNear(sub.id, last.seats, price, start, end, Some(AddedOn(last)), sub.activeEnd);
        OneLineMore(before, line);
        NearAdds(n, price, Sum(before, TotalOf), line.total, AddedSeatDays(init, start, end, sub.activeEnd),
                 last.seats * SharedDays(start, end, Some(last.date), sub.activeEnd), |before|, 1, Sum(before, Seats), last.seats);
      } else {
        assert AdditionLines(sub, additions, price, start, end) == before;
      }
    }
  }

  lemma OneLineMore(lines: seq<SeatLine>, line: SeatLine)
    ensures Sum(lines + [line], TotalOf) == Sum(lines, TotalOf) + line.total
    ensures Sum(lines + [line], Seats) == Sum(lines, Seats) + line.quantity
  {
    SumAppend(lines, [line], TotalOf);
    SumAppend(lines, [line], Seats);
    assert [line][1..] == [];
  }

  /**
   * A subscription is charged its price for each of its seats for the part of the period it is
   * active, within half a cent a line and half a millionth of the price a seat. The price is the
   * rules' when they give one, and the vendor's otherwise.
   */
  lemma ChargeNear(sub: Subscription, start: int, end: int)
    requires start <= end && DaysBetween(start, end) > 0
    requires sub.sku.Some? && sub.sku.value != "" && (sub.rulePrice.Some? || sub.customerPrice.Some?)
    requires (if sub.rulePrice.Some? then sub.rulePrice.value else sub.customerPrice.value) >= 0
    ensures var price := if sub.rulePrice.Some? then sub.rulePrice.value else sub.customerPrice.value;
            var lines := LinesOf(sub, start, end);
            Near(DaysBetween(start, end), price, Sum(lines, TotalOf), SeatDays(sub, start, end), |lines|, Sum(lines, Seats))
  {
    var n, price := DaysBetween(start, end), PriceOf(sub).value;
    var base, added := BaseLines(sub, price, start, end), AdditionLines(sub, sub.additions, price, start, end);
    var rest := sub.quantity - AddedSeats(sub.additions, start, end);
    var days := if rest > 0 then rest * SharedDays(start, end, sub.activeStart, sub.activeEnd) else 0;
    AdditionsNear(sub, sub.additions, price, start, end);
    if rest > 0 {
      LineNear(sub.id, rest, price, start, end, sub.activeStart, sub.activeEnd);
      assert base == [base[0]] && base[1..] == [];
    } else {
      NearNothing(n, price);
    }
    SumAppend(base, added, TotalOf);
    SumAppend(base, added, Seats);
    NearAdds(n, price, Sum(base, TotalOf), Sum(added, TotalOf), days, AddedSeatDays(sub.additions, start, end, sub.activeEnd),
             |base|, |added|, Sum(base, Seats), Sum(added, Seats));
  }

  // ----- Splitting a period -----

  /** Cents near a price for each seat and day. */
  ghost predicate NearByDay(dayPrice: int, charge: int, seatDays: int, n: int, seats: int) {
    -(100_000_000 + dayPrice * n * seats) <= 2 * (100_000_000 * charge - 1_000_000 * (dayPrice * seatDays)) <= 100_000_000 + dayPrice * n * seats
  }

  lemma Divided(n: int, x: int, y: int)
    requires n > 0 && -(n * y) <= n * x <= n * y
    ensures -y <= x <= y
  {
    assert n * (y + 1) == n * y + n && n * (-y - 1) == -(n * y) - n;
    if x > y {
      ScaleLe(y + 1, x, n);
    } else if x < -y {
      ScaleLe(x, -y - 1, n);
    }
  }

  lemma ByDay(n: int, dayPrice: nat, total: int, seatDays: int, seats: int)
    requires n > 0 && Near(n, dayPrice * n, total, seatDays, 1, seats)
    ensures NearByDay(dayPrice, total, seatDays, n, seats)
  {
    var x := 2 * (100_000_000 * total - 1_000_000 * (dayPrice * seatDays));
    assert (dayPrice * n) * seatDays == n * (dayPrice * seatDays);
    assert n * x == 2 * (100_000_000 * (n * total) - 1_000_000 * (n * (dayPrice * seatDays)));
    Divided(n, x, 100_000_000 * 1 + dayPrice * n * seats);
  }

  lemma LineNearByDay(id: nat, quantity: nat, dayPrice: nat, start: int, end: int, from: Option<int>, to: Option<int>)
    requires start <= end && DaysBetween(start, end) > 0
    ensures var n := DaysBetween(start, end);
            NearByDay(dayPrice, LineFor(id, quantity, dayPrice * n, start, end, from, to).total, quantity * SharedDays(start, end, from, to), n, quantity)
  {
    var n := DaysBetween(start, end);
    ScaleLe(0, dayPrice, n);
    LineNear(id, quantity, dayPrice * n, start, end, from, to);
    ByDay(n, dayPrice, LineFor(id, quantity, dayPrice * n, start, end, from, to).total, quantity * SharedDays(start, end, from, to), quantity);
  }

  lemma SharedSplit(start: int, mid: int, end: int, from: Option<int>, to: Option<int>)
    requires start <= mid <= end
    ensures SharedDays(start, end, from, to) == SharedDays(start, mid, from, to) + SharedDays(mid, end, from, to)
  {
  }

  /**
   * Billed at one price a day, the two parts of a period charge what the whole does, within a
   * cent and a half and a millionth of the period's price a seat.
   */
  lemma PartsAddUp(id: nat, quantity: nat, dayPrice: nat, start: int, mid: int, end: int, from: Option<int>, to: Option<int>)
    requires start <= mid <= end && DaysBetween(start, mid) > 0 && DaysBetween(mid, end) > 0
    ensures var n, n1, n2 := DaysBetween(start, end), DaysBetween(start, mid), DaysBetween(mid, end);
            var parts := LineFor(id, quantity, dayPrice * n1, start, mid, from, to).total + LineFor(id, quantity, dayPrice * n2, mid, end, from, to).total;
            var whole := LineFor(id, quantity, dayPrice * n, start, end, from, to).total;
            -(150_000_000 + dayPrice * n * quantity) <= 100_000_000 * (parts - whole) <= 150_000_000 + dayPrice * n * quantity
  {
    var n, n1, n2 := DaysBetween(start, end), DaysBetween(start, mid), DaysBetween(mid, end);
    LineNearByDay(id, quantity, dayPrice, start, mid, from, to);
    LineNearByDay(id, quantity, dayPrice, mid, end, from, to);
    LineNearByDay(id, quantity, dayPrice, start, end, from, to);
    SharedSplit(start, mid, end, from, to);
    Parts(dayPrice, n1, n2, quantity, SharedDays(start, mid, from, to), SharedDays(mid, end, from, to),
          LineFor(id, quantity, dayPrice * n1, start, mid, from, to).total, LineFor(id, quantity, dayPrice * n2, mid, end, from, to).total,
          LineFor(id, quantity, dayPrice * n, start, end, from, to).total);
  }

  lemma Parts(dayPrice: int, n1: int, n2: int, quantity: int, days1: int, days2: int, t1: int, t2: int, t: int)
    requires NearByDay(dayPrice, t1, quantity * days1, n1, quantity) && NearByDay(dayPrice, t2, quantity * days2, n2, quantity)
    requires NearByDay(dayPrice, t, quantity * (days1 + days2), n1 + n2, quantity)
    ensures var most := 150_000_000 + dayPrice * (n1 + n2) * quantity; -most <= 100_000_000 * (t1 + t2 - t) <= most
  {
    var a, b := quantity * days1, quantity * days2;
    assert quantity * (days1 + days2) == a + b && dayPrice * (a + b) == dayPrice * a + dayPrice * b;
    assert dayPrice * (n1 + n2) * quantity == dayPrice * n1 * quantity + dayPrice * n2 * quantity;
  }

  /**
   * Over all subscriptions an exception is raised exactly for those without an item, or whose
   * item is not mapped, and for those with an item and no price.
   */
  lemma {:induction false} ExceptionsAre(subs: seq<Subscription>, mapped: set<string>, e: Exception)
    ensures e in AllExceptions(subs, mapped) <==>
              exists sub :: sub in subs && sub.id == e.subscription
                            && if e.UnmappedSku? then sub.sku.None? || sub.sku.value == "" || sub.sku.value !in mapped
                               else sub.sku.Some? && sub.sku.value != "" && sub.rulePrice.None? && sub.customerPrice.None?
  {
    if subs == [] {
    } else {
      var init, last := subs[..|subs| - 1], subs[|subs| - 1];
      assert subs == init + [last];
      ExceptionsAre(init, mapped, e);
    }
  }

  /** Splitting a period anywhere puts each addition in one part. */
  lemma {:induction false} AddedSplit(additions: seq<Addition>, start: int, mid: int, end: int)
    requires start <= mid <= end
    ensures AddedSeats(additions, start, end) == AddedSeats(additions, start, mid) + AddedSeats(additions, mid, end)
  {
    if additions == [] {
    } else {
      AddedSplit(additions[..|additions| - 1], start, mid, end);
    }
  }
}
