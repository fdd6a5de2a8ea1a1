// Day proration and seat splitting of a subscription
// (src/lib/billing/proration.ts, and the line loop of src/lib/billing/generate.ts).
// Prices are whole numbers of 0.0001, factors of 0.000001, totals are in cents.
module Proration {
  import opened Arith
  import opened Money
  import opened Sums
  import opened Wrappers

  const DAY_MS := 86_400_000
  const WHOLE := 1_000_000

  /** Number of the UTC day an instant is on. */
  function DayIndex(t: int): int {
    t / DAY_MS
  }

  function DaysBetween(a: int, b: int): int {
    DayIndex(b) - DayIndex(a)
  }

  datatype Result = Result(periodDays: int, billedDays: nat, factor: int)

  function ComputeProration(start: int, end: int, activeStart: Option<int>, activeEnd: Option<int>): Result {
    var periodDays := DaysBetween(start, end);
    var overlapStart := if activeStart.Some? && activeStart.value > start then activeStart.value else start;
    var overlapEnd := if activeEnd.Some? && activeEnd.value < end then activeEnd.value else end;
    var raw := DaysBetween(overlapStart, overlapEnd);
    var capped := if raw < periodDays then raw else periodDays;
    var billed := if capped > 0 then capped else 0;
    Result(periodDays, billed, if periodDays > 0 then RoundDiv(billed * WHOLE, periodDays) else 0)
  }

  /** The days billed are the days the activity and the period share. */
  lemma BilledIsOverlap(start: int, end: int, activeStart: Option<int>, activeEnd: Option<int>)
    requires start <= end
    ensures var s := if activeStart.Some? && DayIndex(activeStart.value) > DayIndex(start) then DayIndex(activeStart.value) else DayIndex(start);
            var e := if activeEnd.Some? && DayIndex(activeEnd.value) < DayIndex(end) then DayIndex(activeEnd.value) else DayIndex(end);
            ComputeProration(start, end, activeStart, activeEnd).billedDays == if s < e then e - s else 0
  {
  }

  /** Splitting a period anywhere splits the billed days without losing or repeating one. */
  lemma BilledDaysSplit(start: int, mid: int, end: int, activeStart: Option<int>, activeEnd: Option<int>)
    requires start <= mid <= end
    ensures ComputeProration(start, mid, activeStart, activeEnd).billedDays + ComputeProration(mid, end, activeStart, activeEnd).billedDays
         == ComputeProration(start, end, activeStart, activeEnd).billedDays
  {
    BilledIsOverlap(start, mid, activeStart, activeEnd);
    BilledIsOverlap(mid, end, activeStart, activeEnd);
    BilledIsOverlap(start, end, activeStart, activeEnd);
  }

  /** The factor is a fraction, and a whole one when every day is billed. */
  lemma FactorInRange(start: int, end: int, activeStart: Option<int>, activeEnd: Option<int>)
    ensures var p := ComputeProration(start, end, activeStart, activeEnd);
            0 <= p.factor <= WHOLE && (p.billedDays == p.periodDays > 0 ==> p.factor == WHOLE)
  {
    var r := ComputeProration(start, end, activeStart, activeEnd);
    if r.periodDays > 0 {
      RatioRounds(r.billedDays, r.periodDays);
    }
  }

  lemma RatioRounds(n: nat, d: int)
    requires d > 0 && n <= d
    ensures 0 <= RoundDiv(n * WHOLE, d) <= WHOLE
    ensures n == d ==> RoundDiv(n * WHOLE, d) == WHOLE
  {
    var r := RoundDiv(n * WHOLE, d);
    RoundDivNear(n * WHOLE, d);
    ScaleLe(n, d, WHOLE);
    assert r * d == d * r && (WHOLE + 1) * d == WHOLE * d + d && (WHOLE - 1) * d == WHOLE * d - d;
    if r > WHOLE {
      ScaleLe(WHOLE + 1, r, d);
    } else if r < 0 {
      ScaleLe(r, -1, d);
    } else if r < WHOLE {
      ScaleLe(r, WHOLE - 1, d);
    }
  }

  // ----- Seats -----

  datatype Addition = Addition(date: int, seats: int)

  /** `rulePrice` is what the price rules resolve to, `customerPrice` the vendor's suggestion. */
  datatype Subscription = Subscription(id: nat, sku: Option<string>, rulePrice: Option<int>, customerPrice: Option<int>,
                                       quantity: int, additions: seq<Addition>, activeStart: Option<int>, activeEnd: Option<int>)

  datatype SeatLine = SeatLine(subscription: nat, quantity: int, unitPrice: int, factor: int, total: int)

  datatype Exception = UnmappedSku(subscription: nat) | MissingPrice(subscription: nat)

  /** `computeLine` with a proration factor and neither discount nor adjustment. */
  function LineTotal(quantity: int, unitPrice: int, factor: int): int {
    RoundDiv(quantity * unitPrice * factor, 100_000_000)
  }

  function LineFor(id: nat, quantity: int, unitPrice: int, start: int, end: int, activeStart: Option<int>, activeEnd: Option<int>): SeatLine {
    var p := ComputeProration(start, end, activeStart, activeEnd);
    SeatLine(id, quantity, unitPrice, p.factor, LineTotal(quantity, unitPrice, p.factor))
  }

  predicate InPeriod(a: Addition, start: int, end: int) {
    a.seats > 0 && start <= a.date < end
  }

  /** Midnight, UTC, of the day seats were added. */
  function AddedOn(a: Addition): int {
    DayIndex(a.date) * DAY_MS
  }

  /** Seats added within the period. */
  function AddedSeats(additions: seq<Addition>, start: int, end: int): nat {
    if additions == [] then 0
    else AddedSeats(additions[..|additions| - 1], start, end)
         + if InPeriod(additions[|additions| - 1], start, end) then additions[|additions| - 1].seats else 0
  }

  function BaseLines(sub: Subscription, unitPrice: int, start: int, end: int): seq<SeatLine> {
    var baseQuantity := sub.quantity - AddedSeats(sub.additions, start, end);
    if baseQuantity > 0 then [LineFor(sub.id, baseQuantity, unitPrice, start, end, sub.activeStart, sub.activeEnd)] else []
  }

  /** One line per addition of the period, active from the day it was made. */
  function AdditionLines(sub: Subscription, additions: seq<Addition>, unitPrice: int, start: int, end: int): seq<SeatLine> {
    if additions == [] then []
    else
      var last := additions[|additions| - 1];
      AdditionLines(sub, additions[..|additions| - 1], unitPrice, start, end)
      + if InPeriod(last, start, end) then [LineFor(sub.id, last.seats, unitPrice, start, end, Some(AddedOn(last)), sub.activeEnd)] else []
  }

  /** The price a subscription bills at, or none at all. */
  function PriceOf(sub: Subscription): Option<int> {
    if sub.rulePrice.Some? then sub.rulePrice else sub.customerPrice
  }

  predicate Billable(sub: Subscription) {
    sub.sku.Some? && sub.sku.value != "" && PriceOf(sub).Some?
  }

  function LinesOf(sub: Subscription, start: int, end: int): seq<SeatLine> {
    if !Billable(sub) then []
    else BaseLines(sub, PriceOf(sub).value, start, end) + AdditionLines(sub, sub.additions, PriceOf(sub).value, start, end)
  }

  function ExceptionsOf(sub: Subscription, mapped: set<string>): seq<Exception> {
    if sub.sku.None? || sub.sku.value == "" then [UnmappedSku(sub.id)]
    else (if sub.sku.value !in mapped then [UnmappedSku(sub.id)] else [])
         + if PriceOf(sub).None? then [MissingPrice(sub.id)] else []
  }

  function AllLines(subs: seq<Subscription>, start: int, end: int): seq<SeatLine> {
    if subs == [] then [] else AllLines(subs[..|subs| - 1], start, end) + LinesOf(subs[|subs| - 1], start, end)
  }

  function AllExceptions(subs: seq<Subscription>, mapped: set<string>): seq<Exception> {
    if subs == [] then [] else AllExceptions(subs[..|subs| - 1], mapped) + ExceptionsOf(subs[|subs| - 1], mapped)
  }

  method GenerateBillingLines(subs: seq<Subscription>, mapped: set<string>, start: int, end: int)
    returns (lines: seq<SeatLine>, exceptions: seq<Exception>)
    ensures lines == AllLines(subs, start, end)
    ensures exceptions == AllExceptions(subs, mapped)
  {
    lines, exceptions := [], [];
    for k := 0 to |subs|
      invariant lines == AllLines(subs[..k], start, end)
      invariant exceptions == AllExceptions(subs[..k], mapped)
    {
      NextSubscription(subs, mapped, start, end, k);
      var more, raised := BillSubscription(subs[k], mapped, start, end);
      lines, exceptions := lines + more, exceptions + raised;
    }
    assert subs[..|subs|] == subs;
  }

  /** The body of the loop. */
  method BillSubscription(sub: Subscription, mapped: set<string>, start: int, end: int) returns (lines: seq<SeatLine>, exceptions: seq<Exception>)
    ensures lines == LinesOf(sub, start, end) && exceptions == ExceptionsOf(sub, mapped)
  {
    lines, exceptions := [], [];
    if sub.sku.None? || sub.sku.value == "" {
      return [], [UnmappedSku(sub.id)];
    }
    if sub.sku.value !in mapped {
      exceptions := exceptions + [UnmappedSku(sub.id)];
    }
    if PriceOf(sub).None? {
      exceptions := exceptions + [MissingPrice(sub.id)];
      return;
    }
    lines := SubscriptionLines(sub, PriceOf(sub).value, start, end);
  }

  lemma NextSubscription(subs: seq<Subscription>, mapped: set<string>, start: int, end: int, k: nat)
    requires k < |subs|
    ensures AllLines(subs[..k + 1], start, end) == AllLines(subs[..k], start, end) + LinesOf(subs[k], start, end)
    ensures AllExceptions(subs[..k + 1], mapped) == AllExceptions(subs[..k], mapped) + ExceptionsOf(subs[k], mapped)
  {
    assert subs[..k + 1][..k] == subs[..k];
  }

  method SubscriptionLines(sub: Subscription, unitPrice: int, start: int, end: int) returns (lines: seq<SeatLine>)
    ensures lines == BaseLines(sub, unitPrice, start, end) + AdditionLines(sub, sub.additions, unitPrice, start, end)
  {
    var addedSeats := 0;
    for k := 0 to |sub.additions|
      invariant addedSeats == AddedSeats(sub.additions[..k], start, end)
    {
      assert sub.additions[..k + 1][..k] == sub.additions[..k];
      if InPeriod(sub.additions[k], start, end) {
        addedSeats := addedSeats + sub.additions[k].seats;
      }
    }
    assert sub.additions[..|sub.additions|] == sub.additions;
    var baseQuantity := if sub.quantity - addedSeats > 0 then sub.quantity - addedSeats else 0;
    lines := [];
    if baseQuantity > 0 {
      var p := ComputeProration(start, end, sub.activeStart, sub.activeEnd);
      lines := [SeatLine(sub.id, baseQuantity, unitPrice, p.factor, LineTotal(baseQuantity, unitPrice, p.factor))];
    }
    for k := 0 to |sub.additions|
      invariant lines == BaseLines(sub, unitPrice, start, end) + AdditionLines(sub, sub.additions[..k], unitPrice, start, end)
    {
      assert sub.additions[..k + 1][..k] == sub.additions[..k];
      var add := sub.additions[k];
      if InPeriod(add, start, end) {
        var p := ComputeProration(start, end, Some(AddedOn(add)), sub.activeEnd);
        lines := lines + [SeatLine(sub.id, add.seats, unitPrice, p.factor, LineTotal(add.seats, unitPrice, p.factor))];
      }
    }
  }

  // ----- What the lines say -----

  function Seats(l: SeatLine): int { l.quantity }

  function TotalOf(l: SeatLine): int { l.total }

  function FullPrice(l: SeatLine): int { l.quantity * l.unitPrice }

  lemma {:induction false} AdditionsSeated(sub: Subscription, additions: seq<Addition>, unitPrice: int, start: int, end: int)
    ensures Sum(AdditionLines(sub, additions, unitPrice, start, end), Seats) == AddedSeats(additions, start, end)
  {
    if additions == [] {
    } else {
      var init := additions[..|additions| - 1];
      AdditionsSeated(sub, init, unitPrice, start, end);
      SumAppend(AdditionLines(sub, init, unitPrice, start, end), AdditionLines(sub, additions, unitPrice, start, end)[|AdditionLines(sub, init, unitPrice, start, end)|..], Seats);
      assert AdditionLines(sub, additions, unitPrice, start, end)
          == AdditionLines(sub, init, unitPrice, start, end) + AdditionLines(sub, additions, unitPrice, start, end)[|AdditionLines(sub, init, unitPrice, start, end)|..];
    }
  }

  /** Splitting a subscription bills its seats exactly once each, and never fewer than were added. */
  lemma SeatsBilledOnce(sub: Subscription, start: int, end: int)
    requires Billable(sub)
    ensures Sum(LinesOf(sub, start, end), Seats)
         == if sub.quantity >= AddedSeats(sub.additions, start, end) then sub.quantity else AddedSeats(sub.additions, start, end)
  {
    AdditionsSeated(sub, sub.additions, PriceOf(sub).value, start, end);
    SumAppend(BaseLines(sub, PriceOf(sub).value, start, end), AdditionLines(sub, sub.additions, PriceOf(sub).value, start, end), Seats);
  }

  /** Every line charges some seats of a subscription at a fraction of its price. */
  ghost predicate Priced(l: SeatLine) {
    l.quantity > 0 && 0 <= l.factor <= WHOLE && l.total == LineTotal(l.quantity, l.unitPrice, l.factor)
  }

  lemma {:induction false} AdditionsPriced(sub: Subscription, additions: seq<Addition>, unitPrice: int, start: int, end: int)
    ensures forall l :: l in AdditionLines(sub, additions, unitPrice, start, end) ==> Priced(l) && l.unitPrice == unitPrice
  {
    if additions == [] {
    } else {
      AdditionsPriced(sub, additions[..|additions| - 1], unitPrice, start, end);
      FactorInRange(start, end, Some(AddedOn(additions[|additions| - 1])), sub.activeEnd);
    }
  }

  lemma LinesPriced(sub: Subscription, start: int, end: int)
    ensures forall l :: l in LinesOf(sub, start, end) ==> Billable(sub) && Priced(l) && l.unitPrice == PriceOf(sub).value
  {
    if Billable(sub) {
      AdditionsPriced(sub, sub.additions, PriceOf(sub).value, start, end);
      FactorInRange(start, end, sub.activeStart, sub.activeEnd);
    }
  }

  lemma LineAtMost(l: SeatLine)
    requires Priced(l) && l.unitPrice >= 0
    ensures 0 <= 100 * l.total <= FullPrice(l) + 50
  {
    var n := l.quantity * l.unitPrice;
    RoundDivNear(n * l.factor, 100_000_000);
    ScaleLe(0, l.quantity, l.unitPrice);
    ScaleLe(l.factor, WHOLE, n);
    ScaleLe(0, l.factor, n);
    assert n * l.factor == l.factor * n;
  }

  lemma {:induction false} LinesAtMost(lines: seq<SeatLine>)
    requires forall l :: l in lines ==> Priced(l) && l.unitPrice >= 0
    ensures 0 <= 100 * Sum(lines, TotalOf) <= Sum(lines, FullPrice) + 50 * |lines|
  {
    if lines == [] {
    } else {
      LinesAtMost(lines[1..]);
      LineAtMost(lines[0]);
    }
  }

  lemma {:induction false} FullPriceOfSeats(lines: seq<SeatLine>, unitPrice: int)
    requires forall l :: l in lines ==> l.unitPrice == unitPrice
    ensures Sum(lines, FullPrice) == Sum(lines, Seats) * unitPrice
  {
    if lines == [] {
    } else {
      FullPriceOfSeats(lines[1..], unitPrice);
      assert (lines[0].quantity + Sum(lines[1..], Seats)) * unitPrice == lines[0].quantity * unitPrice + Sum(lines[1..], Seats) * unitPrice;
    }
  }

  /** What a subscription charges is at most its price times the seats billed, plus half a cent a line. */
  lemma ChargeAtMost(sub: Subscription, start: int, end: int)
    requires Billable(sub) && PriceOf(sub).value >= 0
    ensures var lines := LinesOf(sub, start, end);
            var added := AddedSeats(sub.additions, start, end);
            0 <= 100 * Sum(lines, TotalOf)
              <= (if sub.quantity >= added then sub.quantity else added) * PriceOf(sub).value + 50 * |lines|
  {
    LinesPriced(sub, start, end);
    LinesAtMost(LinesOf(sub, start, end));
    FullPriceOfSeats(LinesOf(sub, start, end), PriceOf(sub).value);
    SeatsBilledOnce(sub, start, end);
  }

  /** Nothing is dropped in silence: a subscription without lines has an exception, or no seats. */
  lemma NothingDropped(sub: Subscription, mapped: set<string>, start: int, end: int)
    requires LinesOf(sub, start, end) == []
    ensures ExceptionsOf(sub, mapped) != [] || sub.quantity <= 0
  {
    if Billable(sub) {
      SeatsBilledOnce(sub, start, end);
    }
  }
}
