// The UTC calendar that anniversaries are counted on: each date is the day after the one
// before it (`Date.UTC`, as used in src/lib/sfbilling/generate.ts).
module CivilDays {
  import opened Anniversaries

  datatype Date = Date(year: int, month: int, day: int)

  function MonthLength(year: int, month: int): int {
    if month == 2 then (if year % 4 == 0 && (year % 100 != 0 || year % 400 == 0) then 29 else 28)
    else if month in {4, 6, 9, 11} then 30 else 31
  }

  /** A date of the calendar. */
  predicate Exists(d: Date) {
    1 <= d.month <= 12 && 1 <= d.day <= MonthLength(d.year, d.month)
  }

  function DayAfter(d: Date): Date {
    if d.day < MonthLength(d.year, d.month) then d.(day := d.day + 1)
    else if d.month < 12 then Date(d.year, d.month + 1, 1)
    else Date(d.year + 1, 1, 1)
  }

  function Day(d: Date): int
    requires Exists(d)
  {
    UtcDay(d.year, MonthDay(d.month, d.day))
  }

  /** Days are numbered in the order of the calendar, from midnight of 1 January 1970 at instant 0. */
  lemma NextDay(d: Date)
    requires Exists(d)
    ensures Exists(DayAfter(d)) && Day(DayAfter(d)) == Day(d) + 1
    ensures Anniversary(MonthDay(1, 1), 1970) == 0
    ensures Anniversary(MonthDay(d.month, d.day), d.year) == 86_400_000 * (Day(d) - Day(Date(1970, 1, 1)))
  {
    if d.month == 12 && d.day == 31 {
      YearLength(d.year);
    }
  }

  /** Every month and day that some year has can be the date of an anniversary, and no other. */
  lemma ValidIff(d: MonthDay)
    ensures ValidDate(d) <==> exists y :: Exists(Date(y, d.month, d.day))
  {
    assert Exists(Date(2000, d.month, d.day)) <==> ValidDate(d);
  }

  /** Where a year does not have the date, which is 29 February, its anniversary is on 1 March. */
  lemma MissingDate(d: MonthDay, y: int)
    requires ValidDate(d) && !Exists(Date(y, d.month, d.day))
    ensures d == MonthDay(2, 29) && Anniversary(d, y) == Anniversary(MonthDay(3, 1), y)
  {
  }

  /** An instant is in the day of a date from midnight to midnight, and no other date has that day. */
  lemma DayOfInstant(d: Date, t: int)
    requires Exists(d)
    ensures DayOf(t) == Day(d) <==> Anniversary(MonthDay(d.month, d.day), d.year) <= t < Anniversary(MonthDay(d.month, d.day), d.year) + 86_400_000
  {
  }
}
