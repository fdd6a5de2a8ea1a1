// Which runs a yearly agreement bills in
// (`recurringDueInPeriod` of src/lib/sfbilling/generate.ts). Instants are milliseconds
// since 1970; days are counted from the start of year 0 of the proleptic calendar.
module Anniversaries {
  import opened Arith

  const DAY_MS := 86_400_000
  const EPOCH_DAY := 719_528

  // ----- The UTC calendar -----

  predicate IsLeap(y: int) {
    y % 4 == 0 && (y % 100 != 0 || y % 400 == 0)
  }

  function DaysBeforeYear(y: int): int {
    365 * y + (y + 3) / 4 - (y + 99) / 100 + (y + 399) / 400
  }

  datatype MonthDay = MonthDay(month: int, day: int)

  /** A date that exists in some year. */
  predicate ValidDate(d: MonthDay) {
    1 <= d.month <= 12 && 1 <= d.day <= (if d.month == 2 then 29 else if d.month in {4, 6, 9, 11} then 30 else 31)
  }

  function DaysBeforeMonth(y: int, m: int): int
    requires 1 <= m <= 12
  {
    [0, 31, 59, 90, 120, 151, 181, 212, 243, 273, 304, 334][m - 1] + if m > 2 && IsLeap(y) then 1 else 0
  }

  /** `Date.UTC(y, m, d)` in days: 29 February of a common year is its 1 March. */
  function UtcDay(y: int, d: MonthDay): int
    requires ValidDate(d)
  {
    DaysBeforeYear(y) + DaysBeforeMonth(y, d.month) + d.day - 1
  }

  lemma YearLength(y: int)
    ensures DaysBeforeYear(y + 1) == DaysBeforeYear(y) + if IsLeap(y) then 366 else 365
  {
    MultiplesPassed(y, 4);
    MultiplesPassed(y, 100);
    MultiplesPassed(y, 400);
    LeapRuleNests(y);
  }

  lemma LeapRuleNests(y: int)
    ensures y % 400 == 0 ==> y % 100 == 0
    ensures y % 100 == 0 ==> y % 4 == 0
  {
  }

  lemma MultiplesPassed(y: int, n: int)
    requires n > 1
    ensures (y + 1 + n - 1) / n == (y + n - 1) / n + if y % n == 0 then 1 else 0
  {
    var q, r := y / n, y % n;
    assert y == q * n + r && (q + 1) * n == q * n + n;
    QuotientIs(y + n, n, q + 1);
    QuotientIs(y + n - 1, n, if r == 0 then q else q + 1);
  }

  /** `getUTCFullYear`, of a day number. */
  function YearOf(day: int): (y: int)
    ensures DaysBeforeYear(y) <= day < DaysBeforeYear(y + 1)
  {
    YearDown(day, if day < 0 then 0 else day / 365)
  }

  function YearDown(day: int, y: int): (r: int)
    requires day < DaysBeforeYear(y + 1)
    ensures DaysBeforeYear(r) <= day < DaysBeforeYear(r + 1)
    decreases DaysBeforeYear(y + 1) - day
  {
    YearLength(y);
    if DaysBeforeYear(y) <= day then y else YearDown(day, y - 1)
  }

  function DayOf(instant: int): int {
    instant / DAY_MS + EPOCH_DAY
  }

  function Anniversary(d: MonthDay, y: int): int
    requires ValidDate(d)
  {
    (UtcDay(y, d) - EPOCH_DAY) * DAY_MS
  }

  // ----- Order of years and anniversaries -----

  lemma {:induction false} YearsIncrease(y: int, z: int)
    requires y <= z
    ensures DaysBeforeYear(y) + 365 * (z - y) <= DaysBeforeYear(z)
    decreases z - y
  {
    if y < z {
      YearLength(y);
      YearsIncrease(y + 1, z);
    }
  }

  /** Anniversaries of later years come at least 365 days later. */
  lemma {:induction false} AnniversariesApart(d: MonthDay, y: int, z: int)
    requires ValidDate(d) && y < z
    ensures Anniversary(d, y) + 365 * DAY_MS <= Anniversary(d, z)
    decreases z - y
  {
    YearLength(y);
    assert UtcDay(y + 1, d) >= UtcDay(y, d) + 365;
    if y + 1 < z {
      AnniversariesApart(d, y + 1, z);
    }
  }

  lemma DayWithinYear(d: MonthDay, y: int)
    requires ValidDate(d)
    ensures DaysBeforeYear(y) <= UtcDay(y, d) < DaysBeforeYear(y) + if IsLeap(y) then 366 else 365
  {
  }

  /** A day lies in one year only. */
  lemma OneYear(day: int, y: int, z: int)
    requires DaysBeforeYear(y) <= day < DaysBeforeYear(y + 1) && DaysBeforeYear(z) <= day < DaysBeforeYear(z + 1)
    ensures y == z
  {
    if y < z {
      YearsIncrease(y + 1, z);
    } else if z < y {
      YearsIncrease(z + 1, y);
    }
  }

  /** An anniversary falls in the year it is named after. */
  lemma AnniversaryYear(d: MonthDay, y: int)
    requires ValidDate(d)
    ensures YearOf(DayOf(Anniversary(d, y))) == y
  {
    YearLength(y);
    DayWithinYear(d, y);
    assert DayOf(Anniversary(d, y)) == UtcDay(y, d);
    OneYear(UtcDay(y, d), YearOf(UtcDay(y, d)), y);
  }

  lemma YearOfMonotone(a: int, b: int)
    requires a <= b
    ensures YearOf(a) <= YearOf(b)
  {
    if YearOf(b) < YearOf(a) {
      YearsIncrease(YearOf(b) + 1, YearOf(a));
    }
  }

  // ----- The rule -----

  /** Some anniversary of `d` lies in the period. */
  ghost predicate Due(d: MonthDay, periodStart: int, periodEnd: int)
    requires ValidDate(d)
  {
    exists y :: periodStart <= Anniversary(d, y) < periodEnd
  }

  method RecurringDueInPeriod(yearly: bool, startDate: MonthDay, periodStart: int, periodEnd: int) returns (due: bool)
    requires ValidDate(startDate)
    ensures due <==> (!yearly || Due(startDate, periodStart, periodEnd))
  {
    if !yearly {
      return true;
    }
    var year := YearOf(DayOf(periodStart)) - 1;
    var last := YearOf(DayOf(periodEnd)) + 1;
    ghost var first := year;
    while year <= last
      invariant year <= last + 1 || year == first
      invariant NoneBetween(startDate, periodStart, periodEnd, first, year)
      decreases last - year
    {
      if periodStart <= Anniversary(startDate, year) < periodEnd {
        return true;
      }
      NoneYet(startDate, periodStart, periodEnd, first, year);
      year := year + 1;
    }
    NoneOutside(startDate, periodStart, periodEnd, first, year);
    return false;
  }

  /** No anniversary of the years from `first` up to `year` is in the period. */
  ghost predicate NoneBetween(d: MonthDay, periodStart: int, periodEnd: int, first: int, year: int)
    requires ValidDate(d)
  {
    forall y :: first <= y < year ==> !(periodStart <= Anniversary(d, y) < periodEnd)
  }

  lemma NoneYet(d: MonthDay, periodStart: int, periodEnd: int, first: int, year: int)
    requires ValidDate(d) && NoneBetween(d, periodStart, periodEnd, first, year)
    requires !(periodStart <= Anniversary(d, year) < periodEnd)
    ensures NoneBetween(d, periodStart, periodEnd, first, year + 1)
  {
  }

  /** Years the period does not touch have no anniversary in it. */
  lemma NoneOutside(d: MonthDay, periodStart: int, periodEnd: int, first: int, year: int)
    requires ValidDate(d) && first < YearOf(DayOf(periodStart)) && year > YearOf(DayOf(periodEnd))
    requires NoneBetween(d, periodStart, periodEnd, first, year)
    ensures !Due(d, periodStart, periodEnd)
  {
    forall y ensures !(periodStart <= Anniversary(d, y) < periodEnd) {
      YearsOfPeriod(d, periodStart, periodEnd, y);
    }
  }

  lemma YearsOfPeriod(d: MonthDay, periodStart: int, periodEnd: int, y: int)
    requires ValidDate(d)
    ensures periodStart <= Anniversary(d, y) < periodEnd ==> YearOf(DayOf(periodStart)) <= y <= YearOf(DayOf(periodEnd))
  {
    var a := Anniversary(d, y);
    AnniversaryYear(d, y);
    if periodStart <= a {
      YearOfMonotone(DayOf(periodStart), DayOf(a));
    }
    if a < periodEnd {
      YearOfMonotone(DayOf(a), DayOf(periodEnd));
    }
  }

  // ----- A yearly agreement is billed once a year -----

  /** The anniversaries in a stretch of time, by year. */
  function YearsDue(d: MonthDay, start: int, end: int): set<int>
    requires ValidDate(d)
  {
    set y | YearOf(DayOf(start)) <= y <= YearOf(DayOf(end)) && start <= Anniversary(d, y) < end
  }

  lemma YearsDueAre(d: MonthDay, start: int, end: int)
    requires ValidDate(d)
    ensures forall y :: y in YearsDue(d, start, end) <==> start <= Anniversary(d, y) < end
  {
    forall y ensures y in YearsDue(d, start, end) <==> start <= Anniversary(d, y) < end {
      YearsOfPeriod(d, start, end, y);
    }
  }

  /** How many of the periods between consecutive bounds are due. */
  ghost function DuePeriods(d: MonthDay, bounds: seq<int>): nat
    requires ValidDate(d)
  {
    if |bounds| < 2 then 0
    else DuePeriods(d, bounds[..|bounds| - 1]) + if Due(d, bounds[|bounds| - 2], bounds[|bounds| - 1]) then 1 else 0
  }

  lemma AtMostOnePerPeriod(d: MonthDay, start: int, end: int)
    requires ValidDate(d) && end - start <= 365 * DAY_MS
    ensures |YearsDue(d, start, end)| == if Due(d, start, end) then 1 else 0
  {
    var due := YearsDue(d, start, end);
    YearsDueAre(d, start, end);
    if y :| y in due {
      forall z | z in due ensures z == y {
        if y < z {
          AnniversariesApart(d, y, z);
        } else if z < y {
          AnniversariesApart(d, z, y);
        }
      }
      assert due == {y};
    }
  }

  lemma YearsDueSplit(d: MonthDay, start: int, mid: int, end: int)
    requires ValidDate(d) && start <= mid <= end
    ensures |YearsDue(d, start, end)| == |YearsDue(d, start, mid)| + |YearsDue(d, mid, end)|
  {
    YearsDueAre(d, start, end);
    YearsDueAre(d, start, mid);
    YearsDueAre(d, mid, end);
    var a, b := YearsDue(d, start, mid), YearsDue(d, mid, end);
    assert YearsDue(d, start, end) == a + b && a !! b;
  }

  lemma DueMeansSome(d: MonthDay, start: int, end: int)
    requires ValidDate(d)
    ensures Due(d, start, end) <==> |YearsDue(d, start, end)| > 0
  {
    YearsDueAre(d, start, end);
    if y :| y in YearsDue(d, start, end) {
      assert |YearsDue(d, start, end)| > 0;
    }
  }

  /** No period holds two anniversaries. */
  ghost predicate Separated(d: MonthDay, bounds: seq<int>)
    requires ValidDate(d)
  {
    |bounds| < 2
    || (Separated(d, bounds[..|bounds| - 1]) && |YearsDue(d, bounds[|bounds| - 2], bounds[|bounds| - 1])| <= 1)
  }

  /**
   * Over consecutive periods no more are due than there are anniversaries, and exactly
   * as many if and only if no period holds two.
   */
  lemma {:induction false} BilledOncePerAnniversaryIff(d: MonthDay, bounds: seq<int>)
    requires ValidDate(d) && bounds != []
    requires forall k :: 0 < k < |bounds| ==> bounds[k - 1] <= bounds[k]
    ensures bounds[0] <= bounds[|bounds| - 1]
    ensures DuePeriods(d, bounds) <= |YearsDue(d, bounds[0], bounds[|bounds| - 1])|
    ensures DuePeriods(d, bounds) == |YearsDue(d, bounds[0], bounds[|bounds| - 1])| <==> Separated(d, bounds)
  {
    if |bounds| == 1 {
      YearsDueAre(d, bounds[0], bounds[0]);
      assert YearsDue(d, bounds[0], bounds[0]) == {};
    } else {
      var init, last := bounds[..|bounds| - 1], bounds[|bounds| - 1];
      BilledOncePerAnniversaryIff(d, init);
      DueMeansSome(d, init[|init| - 1], last);
      YearsDueSplit(d, bounds[0], init[|init| - 1], last);
    }
  }

  lemma {:induction false} ShortPeriodsSeparate(d: MonthDay, bounds: seq<int>)
    requires ValidDate(d)
    requires forall k :: 0 < k < |bounds| ==> bounds[k] <= bounds[k - 1] + 365 * DAY_MS
    ensures Separated(d, bounds)
  {
    if |bounds| >= 2 {
      ShortPeriodsSeparate(d, bounds[..|bounds| - 1]);
      AtMostOnePerPeriod(d, bounds[|bounds| - 2], bounds[|bounds| - 1]);
    }
  }

  /** Periods of at most 365 days never hold two, so they bill every anniversary exactly once. */
  lemma BilledOncePerAnniversary(d: MonthDay, bounds: seq<int>)
    requires ValidDate(d) && bounds != []
    requires forall k :: 0 < k < |bounds| ==> bounds[k - 1] <= bounds[k] <= bounds[k - 1] + 365 * DAY_MS
    ensures DuePeriods(d, bounds) == |YearsDue(d, bounds[0], bounds[|bounds| - 1])|
  {
    ShortPeriodsSeparate(d, bounds);
    BilledOncePerAnniversaryIff(d, bounds);
  }

  lemma TwoYears(d: MonthDay, y: int, z: int, start: int, end: int)
    requires ValidDate(d) && start == Anniversary(d, y) && end == Anniversary(d, y + 1) + DAY_MS
    ensures start <= Anniversary(d, z) < end <==> z == y || z == y + 1
  {
    AnniversariesApart(d, y, y + 1);
    if z < y {
      AnniversariesApart(d, z, y);
    } else if z > y + 1 {
      AnniversariesApart(d, y + 1, z);
    }
  }

  /** A set that holds exactly two neighbouring years. */
  lemma PairOf(years: set<int>, y: int)
    requires forall z :: z in years <==> z == y || z == y + 1
    ensures |years| == 2
  {
    assert forall z :: z in years <==> z in {y, y + 1};
    assert years == {y, y + 1};
  }

  lemma TwoYearsDue(d: MonthDay, y: int, start: int, end: int)
    requires ValidDate(d) && start == Anniversary(d, y) && end == Anniversary(d, y + 1) + DAY_MS
    ensures |YearsDue(d, start, end)| == 2
  {
    forall z ensures z in YearsDue(d, start, end) <==> z == y || z == y + 1 {
      YearsDueAre(d, start, end);
      TwoYears(d, y, z, start, end);
    }
    PairOf(YearsDue(d, start, end), y);
  }

  lemma DueHolding(d: MonthDay, y: int, start: int, end: int)
    requires ValidDate(d) && start <= Anniversary(d, y) < end
    ensures DuePeriods(d, [start, end]) == 1
  {
    var bounds := [start, end];
    assert bounds[..1] == [start] && bounds[0] <= Anniversary(d, y) < bounds[1];
  }

  /** Where two anniversaries are 365 days apart, the period of 366 whole days from the first holds both, and bills one. */
  lemma LongPeriodBillsOnce(d: MonthDay, y: int, start: int, end: int)
    requires ValidDate(d) && Anniversary(d, y + 1) == Anniversary(d, y) + 365 * DAY_MS
    requires start == Anniversary(d, y) && end == start + 366 * DAY_MS
    ensures DuePeriods(d, [start, end]) == 1 && |YearsDue(d, start, end)| == 2
  {
    DueHolding(d, y, start, end);
    TwoYearsDue(d, y, start, end);
  }

  /** Anniversaries are 365 days apart from 1 January 2025 to 1 January 2026, for one. */
  lemma NewYears()
    ensures var d := MonthDay(1, 1); Anniversary(d, 2026) == Anniversary(d, 2025) + 365 * DAY_MS
  {
    var d := MonthDay(1, 1);
    YearLength(2025);
    assert UtcDay(2026, d) == UtcDay(2025, d) + 365;
  }
}
