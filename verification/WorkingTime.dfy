// What the walks over local days count: instants of working time, one by one
// (src/lib/silverfang/business-hours.ts). Nothing here is said in terms of the walks' own
// opening and closing instants.
module WorkingTime {
  import opened BusinessHours
  import opened Money
  import opened Wrappers

  /** `t` is in the window of its local day, by the time elapsed since midnight. */
  predicate Working(cal: Calendar, t: int) {
    var w, elapsed := WindowFor(cal, cal.dayOf(t)), t - cal.dayStart(cal.dayOf(t));
    w.Some? && w.value.startMinute * MINUTE <= elapsed < w.value.endMinute * MINUTE
  }

  /** The number of working instants from `from` up to `to`. */
  function Tally(cal: Calendar, from: int, to: int): nat
    decreases if from < to then to - from else 0
  {
    if to <= from then 0 else Tally(cal, from, to - 1) + if Working(cal, to - 1) then 1 else 0
  }

  lemma {:induction false} TallyAdds(cal: Calendar, a: int, b: int, c: int)
    requires a <= b <= c
    ensures Tally(cal, a, c) == Tally(cal, a, b) + Tally(cal, b, c)
    decreases c - b
  {
    if b < c {
      TallyAdds(cal, a, b, c - 1);
    }
  }

  lemma {:induction false} TallyUniform(cal: Calendar, a: int, b: int, working: bool)
    requires a <= b && forall t :: a <= t < b ==> Working(cal, t) == working
    ensures Tally(cal, a, b) == if working then b - a else 0
    decreases b - a
  {
    if a < b {
      TallyUniform(cal, a, b - 1, working);
    }
  }

  lemma WorkingOn(cal: Calendar, d: int, t: int)
    requires Valid(cal) && cal.dayStart(d) <= t < cal.dayStart(d + 1)
    ensures Working(cal, t) <==> WindowFor(cal, d).Some? && OpenAt(cal, d) <= t < CloseAt(cal, d)
  {
    DayIs(cal, t, d);
  }

  /** Within one day, what is counted is what the walk measures. */
  lemma TallyDay(cal: Calendar, d: int, a: int, b: int)
    requires Valid(cal) && cal.dayStart(d) <= a <= b <= cal.dayStart(d + 1)
    ensures Tally(cal, a, b) == Worked(cal, d, a, b)
  {
    forall t | a <= t < b ensures Working(cal, t) <==> WindowFor(cal, d).Some? && OpenAt(cal, d) <= t < CloseAt(cal, d) {
      WorkingOn(cal, d, t);
    }
    if WindowFor(cal, d).None? {
      TallyUniform(cal, a, b, false);
    } else {
      assert WindowFits(cal, d);
      var open := Min(Max(OpenAt(cal, d), a), b);
      var close := Min(Max(CloseAt(cal, d), a), b);
      TallyUniform(cal, a, open, false);
      TallyUniform(cal, open, close, true);
      TallyUniform(cal, close, b, false);
      TallyAdds(cal, a, open, close);
      TallyAdds(cal, a, close, b);
    }
  }

  /** Only the part of a stretch that lies on the day matters to the day. */
  lemma WorkedWithin(cal: Calendar, d: int, from: int, to: int)
    requires Valid(cal)
    ensures var a, b := Max(from, cal.dayStart(d)), Min(to, cal.dayStart(d + 1));
            Worked(cal, d, from, to) == if a <= b then Worked(cal, d, a, b) else 0
  {
    assert WindowFits(cal, d) && DayLength(cal, d);
  }

  lemma {:induction false} TallyDays(cal: Calendar, d: int, n: nat, from: int, to: int)
    requires Valid(cal)
    ensures WorkedOver(cal, d, n, from, to) == Tally(cal, Max(from, cal.dayStart(d)), Min(to, cal.dayStart(d + n)))
    decreases n
  {
    if n > 0 {
      assert d + 1 + (n - 1) == d + n;
      TallyDays(cal, d + 1, n - 1, from, to);
      DaysIncrease(cal, d + 1, d + n);
      assert cal.dayStart(d + 1) <= cal.dayStart(d + n);
      TallyFirstDay(cal, d, from, to, cal.dayStart(d + n));
    }
  }

  /** The first day of a stretch, and the rest of it. */
  lemma TallyFirstDay(cal: Calendar, d: int, from: int, to: int, end: int)
    requires Valid(cal) && cal.dayStart(d + 1) <= end
    ensures Worked(cal, d, from, to) + Tally(cal, Max(from, cal.dayStart(d + 1)), Min(to, end)) == Tally(cal, Max(from, cal.dayStart(d)), Min(to, end))
  {
    var a, b, next := Max(from, cal.dayStart(d)), Min(to, end), cal.dayStart(d + 1);
    assert DayLength(cal, d);
    WorkedWithin(cal, d, from, to);
    if a <= Min(to, next) {
      TallyDay(cal, d, a, Min(to, next));
      if next <= b {
        TallyAdds(cal, a, next, b);
      }
    }
  }

  /** Where the walk from an instant ends: at the end of the 800th day. */
  function WalkEnd(cal: Calendar, from: int): int {
    cal.dayStart(cal.dayOf(from) + 800)
  }

  lemma TallyOfDays(cal: Calendar, n: nat, from: int, to: int)
    requires Valid(cal)
    ensures WorkedOver(cal, cal.dayOf(from), n, from, to) == Tally(cal, from, Min(to, cal.dayStart(cal.dayOf(from) + n)))
  {
    assert OnItsDay(cal, from);
    TallyDays(cal, cal.dayOf(from), n, from, to);
  }

  /** What is measured between two instants is the number of working instants between them, within the walk. */
  lemma MeasuredIs(cal: Calendar, from: int, to: int)
    requires Valid(cal)
    ensures WorkedMs(cal, from, to) == Tally(cal, from, Min(to, WalkEnd(cal, from)))
  {
    TallyOfDays(cal, MaxDays(), from, to);
  }

  // ----- Where adding ends -----

  lemma {:induction false} EndsWorking(cal: Calendar, d: int, n: nat, from: int, ms: int)
    requires Valid(cal) && ms > 0 && AddWalk(cal, d, n, from, ms).Some?
    ensures Working(cal, AddWalk(cal, d, n, from, ms).value - 1)
    decreases n
  {
    assert WindowFits(cal, d);
    var available := Available(cal, d, from);
    if available > 0 && available >= ms {
      WorkingOn(cal, d, Max(OpenAt(cal, d), from) + ms - 1);
    } else {
      EndsWorking(cal, d + 1, n - 1, from, ms - available);
    }
  }

  /** `r` closes the stretch after `from` that holds `ms` working instants. */
  predicate Closes(cal: Calendar, from: int, ms: int, r: int) {
    from < r && Tally(cal, from, r) == ms && Working(cal, r - 1)
  }

  lemma ClosesOnce(cal: Calendar, from: int, ms: int, r: int, s: int)
    requires Closes(cal, from, ms, r) && Closes(cal, from, ms, s)
    ensures r == s
  {
    var a, b := Min(r, s), Max(r, s);
    TallyAdds(cal, from, a, b);
  }

  lemma WalkCloses(cal: Calendar, n: nat, from: int, ms: int)
    requires Valid(cal) && ms > 0
    ensures var r := AddWalk(cal, cal.dayOf(from), n, from, ms);
            r.Some? ==> Closes(cal, from, ms, r.value) && r.value <= cal.dayStart(cal.dayOf(from) + n)
  {
    var d := cal.dayOf(from);
    var r := AddWalk(cal, d, n, from, ms);
    if r.Some? {
      WalkGoesForward(cal, d, n, from, ms);
      WalkMeasures(cal, d, n, from, ms);
      TallyOfDays(cal, n, from, r.value);
      EndsWorking(cal, d, n, from, ms);
    }
  }

  /** The walk answers `r` exactly when `r` closes the stretch with the working time asked for, within the walk. */
  lemma WalkIs(cal: Calendar, n: nat, from: int, ms: int, r: int)
    requires Valid(cal) && ms > 0
    ensures AddWalk(cal, cal.dayOf(from), n, from, ms) == Some(r) <==>
              Closes(cal, from, ms, r) && r <= cal.dayStart(cal.dayOf(from) + n)
    ensures AddWalk(cal, cal.dayOf(from), n, from, ms).None? <==> Tally(cal, from, cal.dayStart(cal.dayOf(from) + n)) < ms
  {
    var d, end := cal.dayOf(from), cal.dayStart(cal.dayOf(from) + n);
    WalkCloses(cal, n, from, ms);
    WalkAnswersIff(cal, d, n, from, ms);
    TallyOfDays(cal, n, from, end);
    if Closes(cal, from, ms, r) && r <= end {
      TallyAdds(cal, from, r, end);
      ClosesOnce(cal, from, ms, r, AddWalk(cal, d, n, from, ms).value);
    }
  }

  /**
   * Adding minutes to an instant, whole: the end of the working stretch that holds them; the
   * elapsed time without a calendar, or when the walk holds too little; the instant itself
   * for none.
   */
  lemma AddMinutesIs(cal: Calendar, from: int, minutes: int)
    requires Valid(cal)
    ensures var due, ms := AddMinutes(cal, from, minutes), minutes * 60_000;
            if minutes <= 0 then due == from
            else if cal.windows == [] || Tally(cal, from, WalkEnd(cal, from)) < ms then due == from + ms
            else Closes(cal, from, ms, due) && due <= WalkEnd(cal, from)
  {
    if minutes > 0 {
      WalkIs(cal, MaxDays(), from, minutes * MINUTE, AddMinutes(cal, from, minutes));
    }
  }

  /** Measuring, whole: the nearest number of minutes to the working instants, or to the elapsed time without a calendar. */
  lemma MinutesBetweenIs(cal: Calendar, from: int, to: int)
    requires Valid(cal)
    ensures var minutes := MinutesBetween(cal, from, to);
            var ms := if to <= from then 0 else if cal.windows == [] then to - from else Tally(cal, from, Min(to, WalkEnd(cal, from)));
            -30_000 <= 60_000 * minutes - ms <= 30_000
  {
    if from < to {
      var ms := if cal.windows == [] then to - from else WorkedMs(cal, from, to);
      MeasuredIs(cal, from, to);
      RoundDivNear(ms, MINUTE);
      assert MinutesBetween(cal, from, to) == RoundDiv(ms, MINUTE);
    }
  }

  // ----- What a window is -----

  /** The window of a day: that of the first entry for its weekday, unless the day is a holiday or the entry is empty. */
  lemma {:induction false} FoundFirst(windows: seq<WeekWindow>, weekday: int, w: Window)
    ensures FindWindow(windows, weekday) == Some(w) <==>
              exists i :: 0 <= i < |windows| && windows[i] == WeekWindow(weekday, w) && forall j :: 0 <= j < i ==> windows[j].weekday != weekday
  {
    if windows == [] {
    } else if windows[0].weekday == weekday {
      assert FindWindow(windows, weekday) == Some(windows[0].window);
    } else {
      FoundFirst(windows[1..], weekday, w);
      if i :| 0 <= i < |windows| && windows[i] == WeekWindow(weekday, w) && forall j :: 0 <= j < i ==> windows[j].weekday != weekday {
        assert windows[1..][i - 1] == windows[i];
        assert forall j :: 0 <= j < i - 1 ==> windows[1..][j] == windows[j + 1];
      }
      if i :| 0 <= i < |windows[1..]| && windows[1..][i] == WeekWindow(weekday, w) && forall j :: 0 <= j < i ==> windows[1..][j].weekday != weekday {
        assert windows[i + 1] == WeekWindow(weekday, w);
        assert forall j :: 0 < j < i + 1 ==> windows[j] == windows[1..][j - 1];
      }
    }
  }

  /** Working time is on days that are no holidays and have an entry for their weekday. */
  lemma OnWorkingDays(cal: Calendar, t: int)
    ensures Working(cal, t) ==> cal.dayOf(t) !in cal.holidays
    ensures Working(cal, t) ==> exists i :: 0 <= i < |cal.windows| && cal.windows[i].weekday == (cal.dayOf(t) + 4) % 7
  {
    if Working(cal, t) {
      var w := WindowFor(cal, cal.dayOf(t)).value;
      FoundFirst(cal.windows, WeekdayOf(cal.dayOf(t)), w);
    }
  }

  // ----- The clock on the wall -----

  /** On a day whose clock is moved: how many minutes after midnight, and by how many minutes. */
  datatype Shift = Shift(at: nat, ahead: int)

  /** What the clock shows, in minutes of the day, some time after midnight. */
  function ClockMinute(shift: Shift, elapsed: int): int {
    elapsed / MINUTE + if elapsed / MINUTE < shift.at then 0 else shift.ahead
  }

  /** `isWithinBusinessHours`, which goes by the clock. */
  predicate WithinBusinessHours(cal: Calendar, shifts: int -> Shift, t: int) {
    var d := cal.dayOf(t);
    var w, minutes := WindowFor(cal, d), ClockMinute(shifts(d), t - cal.dayStart(d));
    w.Some? && w.value.startMinute <= minutes < w.value.endMinute
  }

  /** The clock is moved during the day, and the day is shorter or longer by as much. */
  ghost predicate Moved(cal: Calendar, d: int, shift: Shift) {
    cal.dayStart(d + 1) - cal.dayStart(d) == (1440 - shift.ahead) * MINUTE && shift.at <= 1440 && shift.at <= 1440 - shift.ahead
  }

  /** Both tests, on the minute since midnight. */
  lemma TestsByMinute(cal: Calendar, shifts: int -> Shift, d: int, t: int)
    requires Valid(cal) && cal.dayStart(d) <= t < cal.dayStart(d + 1) && WindowFor(cal, d).Some?
    ensures var m, w := (t - cal.dayStart(d)) / MINUTE, WindowFor(cal, d).value;
            && (Working(cal, t) <==> w.startMinute <= m < w.endMinute)
            && (WithinBusinessHours(cal, shifts, t) <==>
                  w.startMinute <= m + (if m < shifts(d).at then 0 else shifts(d).ahead) < w.endMinute)
  {
    DayIs(cal, t, d);
  }

  lemma MinuteOf(cal: Calendar, d: int, m: int)
    requires Valid(cal) && 0 <= m && (m + 1) * MINUTE <= cal.dayStart(d + 1) - cal.dayStart(d)
    ensures var t := cal.dayStart(d) + m * MINUTE; cal.dayStart(d) <= t < cal.dayStart(d + 1) && (t - cal.dayStart(d)) / MINUTE == m && cal.dayOf(t) == d
  {
    DayIs(cal, cal.dayStart(d) + m * MINUTE, d);
  }

  /** An instant of the day on which the two tests differ. */
  ghost predicate Differs(cal: Calendar, shifts: int -> Shift, d: int, t: int) {
    cal.dayOf(t) == d && Working(cal, t) != WithinBusinessHours(cal, shifts, t)
  }

  /**
   * The walks count exactly the business hours of a day if and only if its clock is not moved,
   * or the window has closed, by either reckoning, when it is.
   */
  lemma CountsBusinessHoursIff(cal: Calendar, shifts: int -> Shift, d: int)
    requires Valid(cal) && Moved(cal, d, shifts(d)) && WindowFor(cal, d).Some? && WindowFor(cal, d).value.endMinute <= 1440
    ensures var end, shift := WindowFor(cal, d).value.endMinute, shifts(d);
            (forall t :: !Differs(cal, shifts, d, t)) <==> shift.ahead == 0 || (end <= shift.at && end - shift.ahead <= shift.at)
  {
    var w, shift := WindowFor(cal, d).value, shifts(d);
    assert WindowFits(cal, d);
    if shift.ahead != 0 && !(w.endMinute <= shift.at && w.endMinute - shift.ahead <= shift.at) {
      var m := LastDiffering(w, shift);
      MinuteOf(cal, d, m);
      TestsByMinute(cal, shifts, d, cal.dayStart(d) + m * MINUTE);
      assert Differs(cal, shifts, d, cal.dayStart(d) + m * MINUTE);
    } else {
      forall t | cal.dayOf(t) == d ensures !Differs(cal, shifts, d, t) {
        assert OnItsDay(cal, t);
        TestsByMinute(cal, shifts, d, t);
      }
    }
  }

  lemma LastDiffering(w: Window, shift: Shift) returns (m: int)
    requires 0 <= w.startMinute < w.endMinute <= 1440 && shift.at <= 1440 && shift.at <= 1440 - shift.ahead
    requires w.endMinute <= 1440 - shift.ahead
    requires shift.ahead != 0 && !(w.endMinute <= shift.at && w.endMinute - shift.ahead <= shift.at)
    ensures 0 <= m < 1440 - shift.ahead
    ensures (w.startMinute <= m < w.endMinute) != (w.startMinute <= m + (if m < shift.at then 0 else shift.ahead) < w.endMinute)
  {
    m := if shift.ahead > 0 then w.endMinute - 1 else w.endMinute - shift.ahead - 1;
  }

  /** Nine to five every day, where the clock goes from 2:00 to 3:00 on day 0. */
  function SpringForward(): Calendar {
    Calendar(EachWeekday(Window(540, 1020), 7), {},
             (d: int) => d * (24 * HOUR) - if d > 0 then HOUR else 0,
             (t: int) => if t < 23 * HOUR then t / (24 * HOUR) else (t + HOUR) / (24 * HOUR))
  }

  function ThreeAtTwo(): int -> Shift {
    (d: int) => if d == 0 then Shift(120, 60) else Shift(0, 0)
  }

  lemma SpringForwardDays(d: int, t: int)
    ensures DayLength(SpringForward(), d) && WindowFor(SpringForward(), d) == Some(Window(540, 1020)) && WindowFits(SpringForward(), d)
    ensures OnItsDay(SpringForward(), t)
  {
    EachWeekdayFound(Window(540, 1020), 7, WeekdayOf(d));
    assert (d + 1) * (24 * HOUR) == d * (24 * HOUR) + 24 * HOUR;
    var u := if t < 23 * HOUR then t else t + HOUR;
    var e := u / (24 * HOUR);
    assert u == e * (24 * HOUR) + u % (24 * HOUR);
    assert (e + 1) * (24 * HOUR) == e * (24 * HOUR) + 24 * HOUR;
  }

  lemma SpringForwardIsValid()
    ensures Valid(SpringForward())
  {
    var cal := SpringForward();
    forall d ensures DayLength(cal, d) && WindowFits(cal, d) {
      SpringForwardDays(d, 0);
    }
    forall t ensures OnItsDay(cal, t) {
      SpringForwardDays(0, t);
    }
  }

  /** At half past nine that day's hours are open by the clock and not counted; an hour from midnight is due at eleven. */
  lemma SpringForwardLags()
    ensures var cal := SpringForward();
            && Valid(cal) && Moved(cal, 0, ThreeAtTwo()(0))
            && ClockMinute(ThreeAtTwo()(0), 510 * MINUTE) == 570
            && WithinBusinessHours(cal, ThreeAtTwo(), 510 * MINUTE) && !Working(cal, 510 * MINUTE)
            && AddMinutes(cal, 0, 60) == 600 * MINUTE && ClockMinute(ThreeAtTwo()(0), 600 * MINUTE) == 660
  {
    var cal := SpringForward();
    SpringForwardIsValid();
    SpringForwardDays(0, 0);
    assert cal.dayOf(0) == 0 && cal.dayStart(0) == 0;
    FirstDayHolds(cal, MaxDays(), 60 * MINUTE);
  }

  lemma FirstDayHolds(cal: Calendar, n: nat, ms: int)
    requires n > 0 && WindowFor(cal, 0) == Some(Window(540, 1020)) && cal.dayStart(0) == 0 && 0 < ms <= 480 * MINUTE
    ensures AddWalk(cal, 0, n, 0, ms) == Some(540 * MINUTE + ms)
  {
  }
}
