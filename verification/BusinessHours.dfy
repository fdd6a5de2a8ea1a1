// Working-time arithmetic (src/lib/silverfang/business-hours.ts). Instants are
// milliseconds, days are counted from 1 January 1970. The timezone database is a
// parameter: where each local day starts, and which day an instant belongs to.
module BusinessHours {
  import opened Arith
  import opened Money
  import opened Wrappers

  datatype Window = Window(startMinute: int, endMinute: int)

  /** 0 is Sunday. */
  datatype WeekWindow = WeekWindow(weekday: int, window: Window)

  datatype Calendar = Calendar(windows: seq<WeekWindow>, holidays: set<int>, dayStart: int -> int, dayOf: int -> int)

  const MINUTE := 60_000
  const HOUR := 3_600_000

  predicate Configured(cal: Calendar) {
    cal.windows != []
  }

  /** 1 January 1970 was a Thursday. */
  function WeekdayOf(d: int): int {
    (d + 4) % 7
  }

  /** `windows.find(x => x.weekday === weekday)`. */
  function FindWindow(windows: seq<WeekWindow>, weekday: int): Option<Window> {
    if windows == [] then None
    else if windows[0].weekday == weekday then Some(windows[0].window)
    else FindWindow(windows[1..], weekday)
  }

  /** The window that applies on a day: none on a holiday, and none for one that ends before it starts. */
  function WindowFor(cal: Calendar, d: int): Option<Window> {
    var w := FindWindow(cal.windows, WeekdayOf(d));
    if d in cal.holidays || w.None? || w.value.endMinute <= w.value.startMinute then None else w
  }

  /** The longest walk, about two years of days. */
  function MaxDays(): nat {
    800
  }

  /** A local day lasts 23 to 25 hours. */
  ghost predicate DayLength(cal: Calendar, d: int) {
    23 * HOUR <= cal.dayStart(d + 1) - cal.dayStart(d) <= 25 * HOUR
  }

  /** An instant is on the day it falls in. */
  ghost predicate OnItsDay(cal: Calendar, t: int) {
    cal.dayStart(cal.dayOf(t)) <= t < cal.dayStart(cal.dayOf(t) + 1)
  }

  /** A window has a positive length, opens on its day and closes by the start of the next. */
  ghost predicate WindowFits(cal: Calendar, d: int) {
    WindowFor(cal, d).Some? ==>
      0 <= WindowFor(cal, d).value.startMinute < WindowFor(cal, d).value.endMinute && CloseAt(cal, d) <= cal.dayStart(d + 1)
  }

  ghost predicate Valid(cal: Calendar) {
    && (forall d :: DayLength(cal, d))
    && (forall t :: OnItsDay(cal, t))
    && (forall d :: WindowFits(cal, d))
  }

  function OpenAt(cal: Calendar, d: int): int
    requires WindowFor(cal, d).Some?
  {
    cal.dayStart(d) + WindowFor(cal, d).value.startMinute * MINUTE
  }

  function CloseAt(cal: Calendar, d: int): int
    requires WindowFor(cal, d).Some?
  {
    cal.dayStart(d) + WindowFor(cal, d).value.endMinute * MINUTE
  }

  function StartOfLocalDay(cal: Calendar, t: int): int {
    cal.dayStart(cal.dayOf(t))
  }

  /** Steps 26 hours and re-anchors. */
  function NextLocalDay(cal: Calendar, dayStart: int): int {
    StartOfLocalDay(cal, dayStart + 26 * HOUR)
  }

  // ----- Days in order -----

  lemma {:induction false} DaysIncrease(cal: Calendar, d: int, e: int)
    requires Valid(cal) && d <= e
    ensures cal.dayStart(d) + 23 * HOUR * (e - d) <= cal.dayStart(e)
    decreases e - d
  {
    if d < e {
      DaysIncrease(cal, d + 1, e);
      assert DayLength(cal, d);
    }
  }

  lemma DaysOrdered(cal: Calendar, d: int, e: int)
    requires Valid(cal) && d < e
    ensures cal.dayStart(d + 1) <= cal.dayStart(e)
  {
    DaysIncrease(cal, d + 1, e);
    ScaleLe(0, e - d - 1, 23 * HOUR);
  }

  /** The day of an instant is the only day it can be on. */
  lemma DayIs(cal: Calendar, t: int, d: int)
    requires Valid(cal) && cal.dayStart(d) <= t < cal.dayStart(d + 1)
    ensures cal.dayOf(t) == d
  {
    var e := cal.dayOf(t);
    assert OnItsDay(cal, t);
    if e < d {
      DaysOrdered(cal, e, d);
    } else if d < e {
      DaysOrdered(cal, d, e);
    }
  }

  /** The 26-hour step lands on exactly the next local day. */
  lemma StepReachesNextDay(cal: Calendar, d: int)
    requires Valid(cal)
    ensures NextLocalDay(cal, cal.dayStart(d)) == cal.dayStart(d + 1)
  {
    var t := cal.dayStart(d) + 26 * HOUR;
    assert DayLength(cal, d) && DayLength(cal, d + 1);
    DayIs(cal, t, d + 1);
  }

  // ----- Measuring -----

  function Max(a: int, b: int): int {
    if a >= b then a else b
  }

  function Min(a: int, b: int): int {
    if a <= b then a else b
  }

  /** Working milliseconds of day `d` that lie between two instants. */
  function Worked(cal: Calendar, d: int, from: int, to: int): int {
    if WindowFor(cal, d).None? then 0
    else Max(0, Min(CloseAt(cal, d), to) - Max(OpenAt(cal, d), from))
  }

  /** The same over `n` days from `d`. */
  function WorkedOver(cal: Calendar, d: int, n: nat, from: int, to: int): int
    decreases n
  {
    if n == 0 then 0 else Worked(cal, d, from, to) + WorkedOver(cal, d + 1, n - 1, from, to)
  }

  /** Working milliseconds from `from` to `to`, within the walk of 800 days. */
  function WorkedMs(cal: Calendar, from: int, to: int): int {
    WorkedOver(cal, cal.dayOf(from), MaxDays(), from, to)
  }

  function MinutesBetween(cal: Calendar, from: int, to: int): int {
    if to <= from then 0
    else if !Configured(cal) then RoundDiv(to - from, MINUTE)
    else RoundDiv(WorkedMs(cal, from, to), MINUTE)
  }

  method BusinessMinutesBetween(cal: Calendar, from: int, to: int) returns (minutes: int)
    requires Valid(cal)
    ensures minutes == MinutesBetween(cal, from, to)
  {
    if to <= from {
      return 0;
    }
    if !Configured(cal) {
      return RoundDiv(to - from, MINUTE);
    }
    var total := 0;
    var cursor := StartOfLocalDay(cal, from);
    ghost var d := cal.dayOf(from);
    var i := 0;
    while i < MaxDays() && cursor < to
      invariant 0 <= i <= MaxDays() && d == cal.dayOf(from) + i && cursor == cal.dayStart(d)
      invariant total + WorkedOver(cal, d, MaxDays() - i, from, to) == WorkedMs(cal, from, to)
      decreases MaxDays() - i
    {
      DayIsItsStart(cal, d);
      var overlap := OverlapOn(cal, cursor, from, to);
      total := total + overlap;
      StepReachesNextDay(cal, d);
      cursor := NextLocalDay(cal, cursor);
      d := d + 1;
      i := i + 1;
    }
    NothingAfter(cal, d, MaxDays() - i, from, to);
    return RoundDiv(total, MINUTE);
  }

  /** The body of the measuring loop: the working time of the day that starts at `cursor`. */
  method OverlapOn(cal: Calendar, cursor: int, from: int, to: int) returns (overlap: int)
    requires cursor == cal.dayStart(cal.dayOf(cursor))
    ensures overlap == Worked(cal, cal.dayOf(cursor), from, to)
  {
    var w := WindowFor(cal, cal.dayOf(cursor));
    if w.None? {
      return 0;
    }
    var overlapStart := Max(cursor + w.value.startMinute * MINUTE, from);
    var overlapEnd := Min(cursor + w.value.endMinute * MINUTE, to);
    overlap := if overlapEnd > overlapStart then overlapEnd - overlapStart else 0;
  }

  lemma DayIsItsStart(cal: Calendar, d: int)
    requires Valid(cal)
    ensures cal.dayOf(cal.dayStart(d)) == d
  {
    assert DayLength(cal, d);
    DayIs(cal, cal.dayStart(d), d);
  }

  /** Days that start at or after `to` contribute nothing. */
  lemma {:induction false} NothingAfter(cal: Calendar, d: int, n: nat, from: int, to: int)
    requires Valid(cal) && (n > 0 ==> to <= cal.dayStart(d))
    ensures WorkedOver(cal, d, n, from, to) == 0
    decreases n
  {
    if n > 0 {
      assert DayLength(cal, d) && WindowFits(cal, d);
      NothingAfter(cal, d + 1, n - 1, from, to);
    }
  }

  // ----- Adding -----

  /** What is left of day `d` after `from`, in milliseconds. */
  function Available(cal: Calendar, d: int, from: int): int {
    if WindowFor(cal, d).None? then 0 else Max(0, CloseAt(cal, d) - Max(OpenAt(cal, d), from))
  }

  /** The instant reached by working `ms` from `from`, looking at `n` days from `d`. */
  function AddWalk(cal: Calendar, d: int, n: nat, from: int, ms: int): Option<int>
    decreases n
  {
    if n == 0 then None
    else
      var available := Available(cal, d, from);
      if available > 0 && available >= ms then Some(Max(OpenAt(cal, d), from) + ms)
      else AddWalk(cal, d + 1, n - 1, from, ms - available)
  }

  /** The walk of `addBusinessMinutes`. */
  function Walk(cal: Calendar, from: int, minutes: int): Option<int> {
    AddWalk(cal, cal.dayOf(from), MaxDays(), from, minutes * MINUTE)
  }

  function AddMinutes(cal: Calendar, from: int, minutes: int): int {
    if minutes <= 0 then from
    else if !Configured(cal) then from + minutes * MINUTE
    else
      var r := Walk(cal, from, minutes);
      if r.Some? then r.value else from + minutes * MINUTE
  }

  method AddBusinessMinutes(cal: Calendar, from: int, minutes: int) returns (due: int)
    requires Valid(cal)
    ensures due == AddMinutes(cal, from, minutes)
  {
    if minutes <= 0 {
      return from;
    }
    if !Configured(cal) {
      return from + minutes * MINUTE;
    }
    var r := WalkDays(cal, from, minutes * MINUTE, MaxDays());
    return if r.Some? then r.value else from + minutes * MINUTE;
  }

  /** The walk itself, for any number of days. */
  method WalkDays(cal: Calendar, from: int, ms: int, days: nat) returns (r: Option<int>)
    requires Valid(cal) && ms > 0
    ensures r == AddWalk(cal, cal.dayOf(from), days, from, ms)
  {
    var remaining := ms;
    var cursor := StartOfLocalDay(cal, from);
    ghost var d := cal.dayOf(from);
    for i := 0 to days
      invariant d == cal.dayOf(from) + i && cursor == cal.dayStart(d)
      invariant remaining > 0
      invariant AddWalk(cal, d, days - i, from, remaining) == AddWalk(cal, cal.dayOf(from), days, from, ms)
    {
      DayIsItsStart(cal, d);
      r, remaining := WorkDay(cal, cursor, days - i, from, remaining);
      if r.Some? {
        return;
      }
      StepReachesNextDay(cal, d);
      cursor := NextLocalDay(cal, cursor);
      d := d + 1;
    }
    return None;
  }

  /** The body of the adding loop: the answer, if this day holds it, and what is still to work otherwise. */
  method WorkDay(cal: Calendar, cursor: int, ghost n: nat, from: int, remaining: int) returns (done: Option<int>, left: int)
    requires cursor == cal.dayStart(cal.dayOf(cursor)) && n > 0 && remaining > 0
    ensures done.Some? ==> AddWalk(cal, cal.dayOf(cursor), n, from, remaining) == done
    ensures done.None? ==> left > 0
    ensures done.None? ==> AddWalk(cal, cal.dayOf(cursor), n, from, remaining) == AddWalk(cal, cal.dayOf(cursor) + 1, n - 1, from, left)
  {
    var w := WindowFor(cal, cal.dayOf(cursor));
    if w.Some? {
      var spanStart := Max(cursor + w.value.startMinute * MINUTE, from);
      var closeAt := cursor + w.value.endMinute * MINUTE;
      if closeAt > spanStart {
        var available := closeAt - spanStart;
        if available >= remaining {
          return Some(spanStart + remaining), 0;
        }
        return None, remaining - available;
      }
    }
    return None, remaining;
  }

  // ----- Adding and measuring are inverse -----

  lemma {:induction false} WalkGoesForward(cal: Calendar, d: int, n: nat, from: int, ms: int)
    requires Valid(cal) && ms > 0
    ensures var r := AddWalk(cal, d, n, from, ms);
            r.Some? ==> from < r.value && cal.dayStart(d) < r.value && r.value <= cal.dayStart(d + n)
    decreases n
  {
    if n > 0 {
      var available := Available(cal, d, from);
      assert DayLength(cal, d) && WindowFits(cal, d);
      if available > 0 && available >= ms {
        if n > 1 {
          DaysOrdered(cal, d, d + n);
        }
      } else {
        WalkGoesForward(cal, d + 1, n - 1, from, ms - available);
        assert d + 1 + (n - 1) == d + n;
      }
    }
  }

  /** Measuring up to where the walk stops gives back what was added. */
  lemma {:induction false} WalkMeasures(cal: Calendar, d: int, n: nat, from: int, ms: int)
    requires Valid(cal) && ms > 0 && AddWalk(cal, d, n, from, ms).Some?
    ensures WorkedOver(cal, d, n, from, AddWalk(cal, d, n, from, ms).value) == ms
    decreases n
  {
    var r := AddWalk(cal, d, n, from, ms).value;
    assert WindowFits(cal, d);
    var available := Available(cal, d, from);
    if available > 0 && available >= ms {
      assert Worked(cal, d, from, r) == ms;
      NothingAfter(cal, d + 1, n - 1, from, r);
    } else {
      WalkGoesForward(cal, d + 1, n - 1, from, ms - available);
      WalkMeasures(cal, d + 1, n - 1, from, ms - available);
      assert Worked(cal, d, from, r) == available;
    }
  }

  lemma WholeMinutes(k: int)
    ensures RoundDiv(k * MINUTE, MINUTE) == k
  {
  }

  /** Whenever adding answers inside its walk, the time in between measures exactly what was added. */
  lemma AddThenMeasure(cal: Calendar, from: int, minutes: int)
    requires Valid(cal) && Configured(cal) && minutes > 0 && Walk(cal, from, minutes).Some?
    ensures MinutesBetween(cal, from, AddMinutes(cal, from, minutes)) == minutes
  {
    WalkGoesForward(cal, cal.dayOf(from), MaxDays(), from, minutes * MINUTE);
    WalkMeasures(cal, cal.dayOf(from), MaxDays(), from, minutes * MINUTE);
    WholeMinutes(minutes);
  }

  /** The walk answers exactly when the next 800 days hold enough working time. */
  lemma {:induction false} WalkAnswersIff(cal: Calendar, d: int, n: nat, from: int, ms: int)
    requires Valid(cal) && ms > 0
    ensures AddWalk(cal, d, n, from, ms).Some? <==> ms <= WorkedOver(cal, d, n, from, cal.dayStart(d + n))
    decreases n
  {
    if n > 0 {
      var available := Available(cal, d, from);
      DaysOrdered(cal, d, d + n);
      assert WindowFits(cal, d);
      assert Worked(cal, d, from, cal.dayStart(d + n)) == available;
      assert d + 1 + (n - 1) == d + n;
      if available > 0 && available >= ms {
        WorkedNonNegative(cal, d + 1, n - 1, from, cal.dayStart(d + n));
      } else {
        WalkAnswersIff(cal, d + 1, n - 1, from, ms - available);
      }
    }
  }

  lemma {:induction false} WorkedNonNegative(cal: Calendar, d: int, n: nat, from: int, to: int)
    ensures WorkedOver(cal, d, n, from, to) >= 0
    decreases n
  {
    if n > 0 {
      WorkedNonNegative(cal, d + 1, n - 1, from, to);
    }
  }

  // ----- Adding composes -----

  /** Once both starts are behind the day, it does not matter which one the walk began from. */
  lemma {:induction false} StartForgotten(cal: Calendar, d: int, n: nat, from: int, from': int, ms: int)
    requires Valid(cal) && from <= cal.dayStart(d) && from' <= cal.dayStart(d)
    ensures AddWalk(cal, d, n, from, ms) == AddWalk(cal, d, n, from', ms)
    decreases n
  {
    if n > 0 {
      assert DayLength(cal, d) && WindowFits(cal, d);
      assert Available(cal, d, from) == Available(cal, d, from');
      StartForgotten(cal, d + 1, n - 1, from, from', ms - Available(cal, d, from));
    }
  }

  lemma {:induction false} WalkSplits(cal: Calendar, d: int, n: nat, from: int, a: int, b: int)
    requires Valid(cal) && a > 0 && b > 0 && AddWalk(cal, d, n, from, a + b).Some?
    ensures AddWalk(cal, d, n, from, a).Some?
    ensures AddWalk(cal, d, n, AddWalk(cal, d, n, from, a).value, b) == AddWalk(cal, d, n, from, a + b)
    decreases n
  {
    var available := Available(cal, d, from);
    assert DayLength(cal, d) && WindowFits(cal, d);
    if available < a {
      WalkSplits(cal, d + 1, n - 1, from, a - available, b);
      assert a + b - available == (a - available) + b;
      WalkGoesForward(cal, d + 1, n - 1, from, a - available);
      var mid := AddWalk(cal, d, n, from, a).value;
      assert Available(cal, d, mid) == 0;
    } else {
      WalkSplitsHere(cal, d, n, from, a, b);
    }
  }

  /** The first part ends on this day. */
  lemma WalkSplitsHere(cal: Calendar, d: int, n: nat, from: int, a: int, b: int)
    requires Valid(cal) && n > 0 && a > 0 && b > 0 && Available(cal, d, from) >= a
    ensures AddWalk(cal, d, n, from, a) == Some(Max(OpenAt(cal, d), from) + a)
    ensures AddWalk(cal, d, n, Max(OpenAt(cal, d), from) + a, b) == AddWalk(cal, d, n, from, a + b)
  {
    var available, mid := Available(cal, d, from), Max(OpenAt(cal, d), from) + a;
    assert DayLength(cal, d) && WindowFits(cal, d);
    assert Available(cal, d, mid) == available - a;
    if available < a + b {
      StartForgotten(cal, d + 1, n - 1, from, mid, a + b - available);
      assert b - Available(cal, d, mid) == a + b - available;
    }
  }

  /** Days that are over by `from` can be skipped, and looking further changes no answer. */
  lemma {:induction false} WalkSkips(cal: Calendar, d: int, n: nat, e: int, m: nat, from: int, ms: int)
    requires Valid(cal) && ms > 0 && d <= e && d + n <= e + m && AddWalk(cal, d, n, from, ms).Some?
    requires d < e ==> cal.dayStart(e) <= from
    ensures AddWalk(cal, e, m, from, ms) == AddWalk(cal, d, n, from, ms)
    decreases n
  {
    if d < e {
      DaysOrdered(cal, d, e);
      assert WindowFits(cal, d);
      assert Available(cal, d, from) == 0;
      WalkSkips(cal, d + 1, n - 1, e, m, from, ms);
    } else {
      var available := Available(cal, d, from);
      if !(available > 0 && available >= ms) {
        WalkSkips(cal, d + 1, n - 1, e + 1, m - 1, from, ms - available);
      }
    }
  }

  lemma DayNotBefore(cal: Calendar, from: int, to: int)
    requires Valid(cal) && from <= to
    ensures cal.dayOf(from) <= cal.dayOf(to) && cal.dayStart(cal.dayOf(to)) <= to < cal.dayStart(cal.dayOf(to) + 1)
  {
    assert OnItsDay(cal, from) && OnItsDay(cal, to);
    if cal.dayOf(to) < cal.dayOf(from) {
      DaysOrdered(cal, cal.dayOf(to), cal.dayOf(from));
    }
  }

  /** Adding `m` and then `n` working minutes is adding `m + n`. */
  lemma AddComposes(cal: Calendar, from: int, m: int, n: int)
    requires Valid(cal) && Configured(cal) && m > 0 && n > 0 && Walk(cal, from, m + n).Some?
    ensures Walk(cal, from, m).Some? && Walk(cal, AddMinutes(cal, from, m), n).Some?
    ensures AddMinutes(cal, AddMinutes(cal, from, m), n) == AddMinutes(cal, from, m + n)
  {
    var d, a, b := cal.dayOf(from), m * MINUTE, n * MINUTE;
    assert (m + n) * MINUTE == a + b;
    WalkSplits(cal, d, MaxDays(), from, a, b);
    var mid := AddWalk(cal, d, MaxDays(), from, a).value;
    WalkGoesForward(cal, d, MaxDays(), from, a);
    DayNotBefore(cal, from, mid);
    WalkSkips(cal, d, MaxDays(), cal.dayOf(mid), MaxDays(), mid, b);
  }

  // ----- Measuring is additive -----

  lemma {:induction false} WorkedAdds(cal: Calendar, d: int, n: nat, a: int, b: int, c: int)
    requires Valid(cal) && a <= b <= c
    ensures WorkedOver(cal, d, n, a, c) == WorkedOver(cal, d, n, a, b) + WorkedOver(cal, d, n, b, c)
    decreases n
  {
    if n > 0 {
      assert WindowFits(cal, d);
      WorkedAdds(cal, d + 1, n - 1, a, b, c);
    }
  }

  /** Only the days the two instants span matter. */
  lemma {:induction false} WorkedSkips(cal: Calendar, d: int, n: nat, e: int, m: nat, from: int, to: int)
    requires Valid(cal) && d <= e && d + n <= e + m && to <= cal.dayStart(d + n)
    requires d < e ==> cal.dayStart(e) <= from
    ensures WorkedOver(cal, d, n, from, to) == WorkedOver(cal, e, m, from, to)
    decreases n
  {
    if n == 0 {
      if d < e {
        assert DayLength(cal, d);
        DaysOrdered(cal, d, e);
      }
      NothingAfter(cal, e, m, from, to);
    } else if d < e {
      DaysOrdered(cal, d, e);
      assert WindowFits(cal, d);
      assert Worked(cal, d, from, to) == 0;
      assert (d + 1) + (n - 1) == d + n;
      WorkedSkips(cal, d + 1, n - 1, e, m, from, to);
    } else {
      assert (d + 1) + (n - 1) == d + n;
      WorkedSkips(cal, d + 1, n - 1, e + 1, m - 1, from, to);
    }
  }

  /** Working time from a to c is that from a to b plus that from b to c. */
  lemma MeasureAdds(cal: Calendar, a: int, b: int, c: int)
    requires Valid(cal) && a <= b <= c && c <= cal.dayStart(cal.dayOf(a) + MaxDays())
    ensures WorkedMs(cal, a, c) == WorkedMs(cal, a, b) + WorkedMs(cal, b, c)
  {
    WorkedAdds(cal, cal.dayOf(a), MaxDays(), a, b, c);
    DayNotBefore(cal, a, b);
    WorkedSkips(cal, cal.dayOf(a), MaxDays(), cal.dayOf(b), MaxDays(), b, c);
  }

  ghost predicate WholeMinute(t: int) {
    t % MINUTE == 0
  }

  lemma WholeMinutesAdd(x: int, y: int)
    requires WholeMinute(x) && WholeMinute(y)
    ensures RoundDiv(x + y, MINUTE) == RoundDiv(x, MINUTE) + RoundDiv(y, MINUTE)
    ensures RoundDiv(0, MINUTE) == 0
  {
    WholeMinutes(x / MINUTE);
    WholeMinutes(y / MINUTE);
    WholeMinutes(x / MINUTE + y / MINUTE);
  }

  lemma WholeSum(x: int, y: int)
    requires WholeMinute(x) && WholeMinute(y)
    ensures WholeMinute(x + y)
  {
  }

  lemma DayWhole(cal: Calendar, d: int, from: int, to: int)
    requires WholeMinute(cal.dayStart(d)) && WholeMinute(from) && WholeMinute(to)
    ensures WholeMinute(Worked(cal, d, from, to))
  {
  }

  lemma {:induction false} WorkedWhole(cal: Calendar, d: int, n: nat, from: int, to: int)
    requires forall k :: WholeMinute(cal.dayStart(k))
    requires WholeMinute(from) && WholeMinute(to)
    ensures WholeMinute(WorkedOver(cal, d, n, from, to))
    decreases n
  {
    if n > 0 {
      WorkedWhole(cal, d + 1, n - 1, from, to);
      DayWhole(cal, d, from, to);
      WholeSum(Worked(cal, d, from, to), WorkedOver(cal, d + 1, n - 1, from, to));
    }
  }

  /** On whole-minute instants no rounding happens, so measured minutes add up. */
  lemma MinutesAdd(cal: Calendar, a: int, b: int, c: int)
    requires Valid(cal) && Configured(cal) && a <= b <= c && c <= cal.dayStart(cal.dayOf(a) + MaxDays())
    requires forall k :: WholeMinute(cal.dayStart(k))
    requires WholeMinute(a) && WholeMinute(b) && WholeMinute(c)
    ensures MinutesBetween(cal, a, c) == MinutesBetween(cal, a, b) + MinutesBetween(cal, b, c)
  {
    MeasureAdds(cal, a, b, c);
    WorkedWhole(cal, cal.dayOf(a), MaxDays(), a, b);
    WorkedWhole(cal, cal.dayOf(b), MaxDays(), b, c);
    WholeMinutesAdd(WorkedMs(cal, a, b), WorkedMs(cal, b, c));
    MinutesWorked(cal, a, b);
    MinutesWorked(cal, b, c);
    MinutesWorked(cal, a, c);
  }

  lemma MinutesWorked(cal: Calendar, from: int, to: int)
    requires Configured(cal) && from <= to
    ensures MinutesBetween(cal, from, to) == RoundDiv(WorkedMs(cal, from, to), MINUTE)
  {
    if from == to {
      NoTimeNoWork(cal, from, to);
      WholeMinutesAdd(0, 0);
    }
  }

  lemma NoTimeNoWork(cal: Calendar, from: int, to: int)
    requires to <= from
    ensures WorkedMs(cal, from, to) == 0
  {
    NoWorkOver(cal, cal.dayOf(from), MaxDays(), from, to);
  }

  lemma {:induction false} NoWorkOver(cal: Calendar, d: int, n: nat, from: int, to: int)
    requires to <= from
    ensures WorkedOver(cal, d, n, from, to) == 0
    decreases n
  {
    if n > 0 {
      NoWorkOver(cal, d + 1, n - 1, from, to);
    }
  }

  // ----- A calendar these results apply to -----

  function EachWeekday(window: Window, weekday: nat): seq<WeekWindow> {
    if weekday == 0 then [] else EachWeekday(window, weekday - 1) + [WeekWindow(weekday - 1, window)]
  }

  lemma {:induction false} EachWeekdayFound(window: Window, n: nat, weekday: nat)
    ensures FindWindow(EachWeekday(window, n), weekday) == if weekday < n then Some(window) else None
  {
    if n > 0 {
      EachWeekdayFound(window, n - 1, weekday);
      FindInEither(EachWeekday(window, n - 1), [WeekWindow(n - 1, window)], weekday);
    }
  }

  lemma {:induction false} FindInEither(a: seq<WeekWindow>, b: seq<WeekWindow>, weekday: int)
    ensures FindWindow(a + b, weekday) == if FindWindow(a, weekday).Some? then FindWindow(a, weekday) else FindWindow(b, weekday)
  {
    if a == [] {
      assert a + b == b;
    } else {
      assert (a + b)[1..] == a[1..] + b;
      FindInEither(a[1..], b, weekday);
    }
  }

  /** The same window every day, in UTC. */
  function EveryDay(window: Window): Calendar {
    Calendar(EachWeekday(window, 7), {}, (d: int) => d * (24 * HOUR), (t: int) => t / (24 * HOUR))
  }

  lemma EveryDayIsValid(window: Window)
    requires 0 <= window.startMinute < window.endMinute <= 1440
    ensures Valid(EveryDay(window)) && forall d :: WindowFor(EveryDay(window), d) == Some(window)
  {
    var cal := EveryDay(window);
    forall d ensures DayLength(cal, d) && WindowFits(cal, d) && WindowFor(cal, d) == Some(window) {
      EachWeekdayFound(window, 7, WeekdayOf(d));
      assert (d + 1) * (24 * HOUR) == d * (24 * HOUR) + 24 * HOUR;
    }
    forall t ensures OnItsDay(cal, t) {
      var d := t / (24 * HOUR);
      assert t == d * (24 * HOUR) + t % (24 * HOUR);
      assert (d + 1) * (24 * HOUR) == d * (24 * HOUR) + 24 * HOUR;
    }
  }
}
