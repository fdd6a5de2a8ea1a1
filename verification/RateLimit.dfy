// The fixed-window rate limiter (src/lib/rate-limit.ts), first with calls one after
// another, then with several callers between their read and their write. The store
// never fails here.
module RateLimit {
  import opened Wrappers

  datatype Window = Window(count: int, start: int)

  predicate Lapsed(row: Option<Window>, windowMs: int, now: int) {
    row.None? || row.value.start < now - windowMs
  }

  /** One call on its own: the row afterwards, and whether the call is let through. */
  function Decide(row: Option<Window>, limit: int, windowMs: int, now: int): (Option<Window>, bool) {
    if Lapsed(row, windowMs, now) then (Some(Window(1, now)), true)
    else if row.value.count >= limit then (row, false)
    else (Some(row.value.(count := row.value.count + 1)), true)
  }

  class Limiter {
    var row: Option<Window>

    constructor ()
      ensures row == None
    {
      row := None;
    }

    method Allow(limit: int, windowMs: int, now: int) returns (ok: bool, remaining: int)
      modifies this
      ensures (row, ok) == Decide(old(row), limit, windowMs, now)
      ensures remaining == if !ok then 0 else limit - row.value.count
    {
      var cutoff := now - windowMs;
      if row.None? || row.value.start < cutoff {
        row := Some(Window(1, now));
        return true, limit - 1;
      }
      if row.value.count >= limit {
        return false, 0;
      }
      row := Some(row.value.(count := row.value.count + 1));
      return true, limit - row.value.count;
    }
  }

  // ----- Calls in sequence -----

  ghost predicate Ordered(calls: seq<int>) {
    forall i, j :: 0 <= i < j < |calls| ==> calls[i] <= calls[j]
  }

  /** How many of the calls made between `from` and `to`, ends included, are let through. */
  function Admitted(row: Option<Window>, limit: int, windowMs: int, calls: seq<int>, from: int, to: int): nat
    decreases |calls|
  {
    if calls == [] then 0
    else
      var (row', ok) := Decide(row, limit, windowMs, calls[0]);
      (if ok && from <= calls[0] <= to then 1 else 0) + Admitted(row', limit, windowMs, calls[1..], from, to)
  }

  /** Calls a window still has room for. */
  function Room(row: Option<Window>, limit: int): int {
    if row.None? || row.value.count >= limit then 0 else limit - row.value.count
  }

  lemma {:induction false} NoneAfterwards(row: Option<Window>, limit: int, windowMs: int, calls: seq<int>, from: int, to: int)
    requires Ordered(calls) && (calls != [] ==> to < calls[0])
    ensures Admitted(row, limit, windowMs, calls, from, to) == 0
    decreases |calls|
  {
    if calls == [] {
    } else {
      NoneAfterwards(Decide(row, limit, windowMs, calls[0]).0, limit, windowMs, calls[1..], from, to);
    }
  }

  /** As long as the window cannot lapse, only its room is left. */
  lemma {:induction false} OneWindow(w: Window, limit: int, windowMs: int, calls: seq<int>, from: int, to: int)
    requires Ordered(calls) && to <= w.start + windowMs
    ensures Admitted(Some(w), limit, windowMs, calls, from, to) <= Room(Some(w), limit)
    decreases |calls|
  {
    if calls == [] {
    } else {
      if calls[0] > to {
        NoneAfterwards(Some(w), limit, windowMs, calls, from, to);
      } else {
        var (row', ok) := Decide(Some(w), limit, windowMs, calls[0]);
        OneWindow(row'.value, limit, windowMs, calls[1..], from, to);
      }
    }
  }

  /**
   * The number reported as remaining is exact: so many more calls are let through, and no
   * more, while the window that the call is in cannot lapse.
   */
  lemma RemainingIsExact(row: Option<Window>, limit: int, windowMs: nat, now: int, calls: seq<int>)
    requires limit >= 1 && Ordered(calls) && (forall t :: t in calls ==> now <= t)
    requires Decide(row, limit, windowMs, now).1
    requires var w := Decide(row, limit, windowMs, now).0.value; forall t :: t in calls ==> t <= w.start + windowMs
    ensures var w := Decide(row, limit, windowMs, now).0.value;
            limit - w.count >= 0
            && Admitted(Some(w), limit, windowMs, calls, now, w.start + windowMs) == if |calls| <= limit - w.count then |calls| else limit - w.count
  {
    var w := Decide(row, limit, windowMs, now).0.value;
    RoomIsUsed(w, limit, windowMs, calls, now);
  }

  lemma {:induction false} RoomIsUsed(w: Window, limit: int, windowMs: nat, calls: seq<int>, now: int)
    requires w.count <= limit && forall t :: t in calls ==> now <= t <= w.start + windowMs
    ensures Admitted(Some(w), limit, windowMs, calls, now, w.start + windowMs) == if |calls| <= limit - w.count then |calls| else limit - w.count
    decreases |calls|
  {
    if calls == [] {
    } else {
      assert calls[0] in calls && forall t :: t in calls[1..] ==> t in calls;
      RoomIsUsed(Decide(Some(w), limit, windowMs, calls[0]).0.value, limit, windowMs, calls[1..], now);
    }
  }

  /** From inside the interval on, at most one new window can open. */
  lemma {:induction false} FromInside(row: Option<Window>, limit: int, windowMs: int, calls: seq<int>, from: int, to: int)
    requires limit >= 1 && Ordered(calls) && to <= from + windowMs
    requires calls != [] ==> from <= calls[0]
    ensures Admitted(row, limit, windowMs, calls, from, to) <= Room(row, limit) + limit
    decreases |calls|
  {
    if calls == [] {
    } else {
      if calls[0] > to {
        NoneAfterwards(row, limit, windowMs, calls, from, to);
      } else {
        var (row', ok) := Decide(row, limit, windowMs, calls[0]);
        if Lapsed(row, windowMs, calls[0]) {
          OneWindow(row'.value, limit, windowMs, calls[1..], from, to);
        } else {
          FromInside(row', limit, windowMs, calls[1..], from, to);
        }
      }
    }
  }

  /** A stored window has counted the call that opened it. */
  ghost predicate Counted(row: Option<Window>) {
    row.Some? ==> row.value.count >= 1
  }

  /** No interval of the window's length lets through more than twice the limit, less one. */
  lemma {:induction false} AtMostTwiceLessOne(row: Option<Window>, limit: int, windowMs: int, calls: seq<int>, from: int, to: int)
    requires limit >= 1 && Counted(row) && Ordered(calls) && to <= from + windowMs
    ensures Admitted(row, limit, windowMs, calls, from, to) <= 2 * limit - 1
    decreases |calls|
  {
    if calls == [] {
    } else {
      if calls[0] < from {
        AtMostTwiceLessOne(Decide(row, limit, windowMs, calls[0]).0, limit, windowMs, calls[1..], from, to);
      } else {
        FromInside(row, limit, windowMs, calls, from, to);
      }
    }
  }

  /** `n` calls at one instant use up to `n` of the room of an open window. */
  lemma {:induction false} Burst(w: Window, limit: int, windowMs: int, now: int, n: nat, rest: seq<int>, from: int, to: int)
    requires w.start <= now <= w.start + windowMs && w.count + n <= limit && from <= now <= to
    ensures Admitted(Some(w), limit, windowMs, Repeat(now, n) + rest, from, to)
         == n + Admitted(Some(Window(w.count + n, w.start)), limit, windowMs, rest, from, to)
    decreases n
  {
    if n == 0 {
      assert Repeat(now, 0) + rest == rest;
    } else {
      var calls := Repeat(now, n) + rest;
      assert calls[0] == now && calls[1..] == Repeat(now, n - 1) + rest;
      Burst(Window(w.count + 1, w.start), limit, windowMs, now, n - 1, rest, from, to);
    }
  }

  function Repeat(now: int, n: nat): seq<int> {
    seq(n, _ => now)
  }

  /** The bound is reached for every limit and every window: open early, fill up late, then start again. */
  lemma BoundReached(limit: nat, windowMs: nat) returns (calls: seq<int>, from: int)
    requires limit >= 1 && windowMs >= 1
    ensures Ordered(calls)
    ensures Admitted(None, limit, windowMs, calls, from, from + windowMs) == 2 * limit - 1
  {
    from := windowMs;
    var again := [windowMs + 1] + Repeat(windowMs + 1, limit - 1);
    calls := [0] + (Repeat(windowMs, limit - 1) + again);
    assert calls[1..] == Repeat(windowMs, limit - 1) + again;
    Burst(Window(1, 0), limit, windowMs, windowMs, limit - 1, again, from, from + windowMs);
    assert Repeat(windowMs + 1, limit - 1) + [] == Repeat(windowMs + 1, limit - 1) == again[1..];
    Burst(Window(1, windowMs + 1), limit, windowMs, windowMs + 1, limit - 1, [], from, from + windowMs);
  }

  lemma {:induction false} OneInstant(row: Option<Window>, limit: int, calls: seq<int>, t: int)
    requires limit >= 1 && Counted(row) && Ordered(calls)
    ensures Admitted(row, limit, 0, calls, t, t) <= limit
    decreases |calls|
  {
    if calls == [] {
    } else if calls[0] < t {
      OneInstant(Decide(row, limit, 0, calls[0]).0, limit, calls[1..], t);
    } else if calls[0] > t {
      NoneAfterwards(row, limit, 0, calls, t, t);
    } else if Lapsed(row, 0, t) {
      OneWindow(Window(1, t), limit, 0, calls[1..], t, t);
    } else {
      OneWindow(row.value, limit, 0, calls, t, t);
    }
  }

  /** The interval of the window's length that starts at `from` lets through no more than the limit. */
  ghost predicate WithinLimit(limit: int, windowMs: nat, row: Option<Window>, calls: seq<int>, from: int) {
    Counted(row) && Ordered(calls) ==> Admitted(row, limit, windowMs, calls, from, from + windowMs) <= limit
  }

  /** Whatever came before, no interval as long as the window lets through more than the limit. */
  ghost predicate KeepsLimit(limit: int, windowMs: nat) {
    forall row, calls, from :: WithinLimit(limit, windowMs, row, calls, from)
  }

  /** The limit holds of every interval only when it is one, or the window is an instant. */
  lemma KeepsLimitIff(limit: nat, windowMs: nat)
    requires limit >= 1
    ensures KeepsLimit(limit, windowMs) <==> limit == 1 || windowMs == 0
  {
    if limit == 1 || windowMs == 0 {
      forall row, calls, from ensures WithinLimit(limit, windowMs, row, calls, from) {
        if Counted(row) && Ordered(calls) {
          AtMostTwiceLessOne(row, limit, windowMs, calls, from, from + windowMs);
          if windowMs == 0 {
            OneInstant(row, limit, calls, from);
          }
        }
      }
    } else {
      var calls, from := BoundReached(limit, windowMs);
      assert !WithinLimit(limit, windowMs, None, calls, from);
    }
  }

  // ----- Reads and writes interleaved -----

  /** An open window; `pending` callers have read it, were let through, and have not written yet. */
  datatype Race = Race(count: int, pending: nat, admitted: nat)

  datatype Event = Read | Increment

  /** At most `callers` are between their read and their write. */
  function Next(r: Race, limit: int, callers: nat, e: Event): Race {
    match e
    case Read => if r.pending < callers && r.count < limit then r.(pending := r.pending + 1) else r
    case Increment => if r.pending > 0 then Race(r.count + 1, r.pending - 1, r.admitted + 1) else r
  }

  function Interleaved(r: Race, limit: int, callers: nat, events: seq<Event>): Race {
    if events == [] then r else Next(Interleaved(r, limit, callers, events[..|events| - 1]), limit, callers, events[|events| - 1])
  }

  /** However reads and writes interleave, an open window overshoots by at most one less than the callers. */
  lemma {:induction false} RaceBound(first: int, limit: int, callers: nat, events: seq<Event>)
    requires 1 <= first <= limit && callers >= 1
    ensures var r := Interleaved(Race(first, 0, 0), limit, callers, events);
            && r.count == first + r.admitted && r.pending <= callers
            && r.count + r.pending <= limit + callers - 1
  {
    if events == [] {
    } else {
      RaceBound(first, limit, callers, events[..|events| - 1]);
    }
  }

  /** The overshoot happens: all callers read one short of the limit, then all write. */
  lemma RaceReached(limit: int, callers: nat) returns (events: seq<Event>)
    requires limit >= 2 && callers >= 1
    ensures Interleaved(Race(limit - 1, 0, 0), limit, callers, events).count == limit + callers - 1
  {
    var start := Race(limit - 1, 0, 0);
    events := [];
    for k := 0 to callers
      invariant Interleaved(start, limit, callers, events) == Race(limit - 1, k, 0)
    {
      assert (events + [Read])[..|events|] == events;
      events := events + [Read];
    }
    for k := 0 to callers
      invariant Interleaved(start, limit, callers, events) == Race(limit - 1 + k, callers - k, k)
    {
      assert (events + [Increment])[..|events|] == events;
      events := events + [Increment];
    }
  }
}
