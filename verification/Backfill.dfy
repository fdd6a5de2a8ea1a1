// Paged reads of a remote list, all at once or resumed from a stored cursor
// (src/connectors/superops/sync.ts). The remote list does not change during a sweep.
module Backfill {
  import opened Wrappers

  const PAGE_SIZE := 100
  const MAX_PAGES := 1000

  /** A remote row; some rows cannot be parsed and are passed over. */
  datatype Record = Record(id: string, parses: bool)

  datatype Server = Server(records: seq<Record>, reportsTotal: bool)

  function Min(a: int, b: int): int {
    if a <= b then a else b
  }

  /** The rows of pages 1 to `page`. */
  function FirstPages(s: Server, page: nat): seq<Record> {
    s.records[..Min(page * PAGE_SIZE, |s.records|)]
  }

  function Page(s: Server, page: nat): seq<Record>
    requires page >= 1
  {
    s.records[Min((page - 1) * PAGE_SIZE, |s.records|)..Min(page * PAGE_SIZE, |s.records|)]
  }

  /** Identity of a page: its first row. */
  function FirstKey(records: seq<Record>): Option<string> {
    if records == [] then None else Some(records[0].id)
  }

  ghost predicate KeyMovesOn(s: Server, page: nat) {
    page > 1 && Page(s, page) != [] ==> FirstKey(Page(s, page - 1)) != FirstKey(Page(s, page))
  }

  /** The server honours `page`: no page starts with the row the page before it started with. */
  ghost predicate Honours(s: Server) {
    forall page: nat :: KeyMovesOn(s, page)
  }

  /** Whether a page is the last one, by the reported total or else by being short. */
  predicate LastPage(s: Server, page: nat, size: nat) {
    if s.reportsTotal then page * PAGE_SIZE >= |s.records| else size < PAGE_SIZE
  }

  lemma NextPageJoins(s: Server, page: nat)
    requires page >= 1
    ensures FirstPages(s, page) == FirstPages(s, page - 1) + Page(s, page)
    ensures |Page(s, page)| < PAGE_SIZE ==> FirstPages(s, page) == s.records
    ensures LastPage(s, page, |Page(s, page)|) ==> FirstPages(s, page) == s.records
    ensures Page(s, page) != [] ==> |FirstPages(s, page - 1)| == (page - 1) * PAGE_SIZE
  {
  }

  // ----- All pages at once -----

  /** `fetchAll`: everything the page cap allows, whether or not the server reports a total. */
  method FetchAll(s: Server) returns (all: seq<Record>)
    requires Honours(s)
    ensures all == FirstPages(s, MAX_PAGES)
    ensures |s.records| <= MAX_PAGES * PAGE_SIZE ==> all == s.records
  {
    all := [];
    var prevKey: Option<string> := None;
    var page := 1;
    while page <= MAX_PAGES
      invariant 1 <= page <= MAX_PAGES + 1
      invariant all == FirstPages(s, page - 1)
      invariant prevKey == if page == 1 then None else FirstKey(Page(s, page - 1))
    {
      NextPageJoins(s, page);
      var records := Page(s, page);
      if records == [] {
        break;
      }
      var key := FirstKey(records);
      assert KeyMovesOn(s, page);
      if key.Some? && key == prevKey {
        break;
      }
      prevKey := key;
      all := all + records;
      if s.reportsTotal {
        if |all| >= |s.records| {
          break;
        }
      } else if |records| < PAGE_SIZE {
        break;
      }
      page := page + 1;
    }
  }

  // ----- The resumable sweep -----

  function ParsedIds(records: seq<Record>): set<string> {
    set r | r in records && r.parses :: r.id
  }

  function ParsedCount(records: seq<Record>): nat {
    if records == [] then 0 else ParsedCount(records[..|records| - 1]) + if records[|records| - 1].parses then 1 else 0
  }

  /** The sync state, the rows stored, and which of them the current sweep has written. */
  datatype State = State(cursor: Option<nat>, completed: bool, stored: set<string>, sweep: set<string>)

  /** `nextPage`. */
  function NextPage(cursor: Option<nat>): nat {
    if cursor.Some? && cursor.value >= 1 then cursor.value else 1
  }

  /** Where a run breaks off: while handling a page, after storing some of its rows. */
  datatype Fault = Fault(page: nat, after: nat)

  datatype Walk = Walk(page: nat, done: bool, failed: bool, stored: set<string>)

  /** The page loop of one run, from `page` on. */
  function WalkPages(s: Server, page: nat, prevKey: Option<string>, count: int, max: int, fault: Option<Fault>, stored: set<string>): Walk
    requires page >= 1
    decreases MAX_PAGES + 1 - page
  {
    if count >= max || page > MAX_PAGES then Walk(page, false, false, stored)
    else if fault.Some? && fault.value.page == page then
      Walk(page, false, true, stored + ParsedIds(Page(s, page)[..Min(fault.value.after, |Page(s, page)|)]))
    else
      var records := Page(s, page);
      if records == [] || FirstKey(records) == prevKey then Walk(page + 1, true, false, stored)
      else
        var stored' := stored + ParsedIds(records);
        if LastPage(s, page, |records|) then Walk(page + 1, true, false, stored')
        else WalkPages(s, page + 1, FirstKey(records), count + ParsedCount(records), max, fault, stored')
  }

  /** One run of the sync. A failed run keeps its cursor; a finished sweep starts over. */
  function RunSync(s: Server, st: State, max: int, fault: Option<Fault>): State {
    var w := WalkPages(s, NextPage(st.cursor), None, 0, max, fault, {});
    if w.failed then st.(stored := st.stored + w.stored, sweep := st.sweep + w.stored)
    else if w.done then State(None, true, st.stored + w.stored, {})
    else State(Some(w.page), false, st.stored + w.stored, st.sweep + w.stored)
  }

  class SyncState {
    var cursor: Option<nat>
    var completed: bool
    var stored: set<string>
    ghost var sweep: set<string>

    ghost function Now(): State
      reads this
    {
      State(cursor, completed, stored, sweep)
    }

    constructor ()
      ensures Now() == State(None, false, {}, {})
    {
      cursor, completed, stored, sweep := None, false, {}, {};
    }

    method Run(s: Server, max: int, fault: Option<Fault>) returns (failed: bool)
      modifies this
      ensures Now() == RunSync(s, old(Now()), max, fault)
      ensures failed == WalkPages(s, NextPage(old(cursor)), None, 0, max, fault, {}).failed
    {
      var page, done, seen;
      page, done, failed, seen := Pages(s, NextPage(cursor), max, fault);
      stored := stored + seen;
      sweep := sweep + seen;
      if !failed {
        cursor := if done then None else Some(page);
        completed := done;
        if done {
          sweep := {};
        }
      }
    }
  }

  method Pages(s: Server, start: nat, max: int, fault: Option<Fault>) returns (page: nat, done: bool, failed: bool, seen: set<string>)
    requires start >= 1
    ensures Walk(page, done, failed, seen) == WalkPages(s, start, None, 0, max, fault, {})
  {
    page, done, failed, seen := start, false, false, {};
    var count, prevKey: Option<string> := 0, None;
    while count < max && page <= MAX_PAGES
      invariant page >= 1 && !done && !failed
      invariant WalkPages(s, page, prevKey, count, max, fault, seen) == WalkPages(s, start, None, 0, max, fault, {})
      decreases MAX_PAGES + 1 - page
    {
      var records := Page(s, page);
      if fault.Some? && fault.value.page == page {
        seen := seen + ParsedIds(records[..Min(fault.value.after, |records|)]);
        failed := true;
        return;
      }
      if records == [] {
        done, page := true, page + 1;
        return;
      }
      var key := FirstKey(records);
      if key == prevKey {
        done, page := true, page + 1;
        return;
      }
      prevKey := key;
      var parsed := CountParsed(records);
      seen, count := seen + ParsedIds(records), count + parsed;
      if LastPage(s, page, |records|) {
        done, page := true, page + 1;
        return;
      }
      page := page + 1;
    }
  }

  method CountParsed(records: seq<Record>) returns (count: nat)
    ensures count == ParsedCount(records)
  {
    count := 0;
    for k := 0 to |records|
      invariant count == ParsedCount(records[..k])
    {
      assert records[..k + 1][..k] == records[..k];
      if records[k].parses {
        count := count + 1;
      }
    }
    assert records[..|records|] == records;
  }

  // ----- Nothing is skipped -----

  lemma IdsJoin(a: seq<Record>, b: seq<Record>)
    ensures ParsedIds(a + b) == ParsedIds(a) + ParsedIds(b)
  {
    assert forall r :: r in a + b <==> r in a || r in b;
  }

  /** Every page before `page` is stored. */
  ghost predicate Below(s: Server, page: nat, stored: set<string>) {
    page >= 1 && ParsedIds(FirstPages(s, page - 1)) <= stored
  }

  ghost predicate AllStored(s: Server, stored: set<string>) {
    ParsedIds(s.records) <= stored
  }

  lemma PageCovered(s: Server, page: nat, stored: set<string>, before: set<string>)
    requires Below(s, page, before + stored)
    ensures Below(s, page + 1, before + (stored + ParsedIds(Page(s, page))))
    ensures Page(s, page) == [] ==> AllStored(s, before + stored)
    ensures LastPage(s, page, |Page(s, page)|) ==> AllStored(s, before + (stored + ParsedIds(Page(s, page))))
  {
    NextPageJoins(s, page);
    IdsJoin(FirstPages(s, page - 1), Page(s, page));
    if Page(s, page) == [] {
      assert FirstPages(s, page - 1) == s.records;
    }
  }

  lemma PageStored(s: Server, page: nat, stored: set<string>, before: set<string>)
    requires Below(s, page, before + stored)
    ensures Below(s, page + 1, before + (stored + ParsedIds(Page(s, page))))
  {
    PageCovered(s, page, stored, before);
  }

  /** The walk ends on this page. */
  predicate Stops(s: Server, page: nat, count: int, max: int, fault: Option<Fault>)
    requires page >= 1
  {
    count >= max || page > MAX_PAGES || (fault.Some? && fault.value.page == page)
    || Page(s, page) == [] || LastPage(s, page, |Page(s, page)|)
  }

  lemma WalkOn(s: Server, page: nat, prevKey: Option<string>, count: int, max: int, fault: Option<Fault>, stored: set<string>)
    requires page >= 1 && !Stops(s, page, count, max, fault) && FirstKey(Page(s, page)) != prevKey
    ensures WalkPages(s, page, prevKey, count, max, fault, stored)
         == WalkPages(s, page + 1, FirstKey(Page(s, page)), count + ParsedCount(Page(s, page)), max, fault, stored + ParsedIds(Page(s, page)))
  {
  }

  lemma FreshPage(s: Server, page: nat, prevKey: Option<string>)
    requires Honours(s) && page >= 1
    requires prevKey.None? || (page > 1 && prevKey == FirstKey(Page(s, page - 1)))
    ensures FirstKey(Page(s, page)) == prevKey ==> Page(s, page) == []
  {
    assert KeyMovesOn(s, page);
  }

  /** What a walk leaves: everything stored if it came to the end, and else every page up to where it stopped. */
  ghost predicate Leaves(s: Server, w: Walk, before: set<string>) {
    (w.done ==> AllStored(s, before + w.stored)) && (!w.done && !w.failed ==> Below(s, w.page, before + w.stored))
  }

  lemma StopCovers(s: Server, page: nat, prevKey: Option<string>, count: int, max: int, fault: Option<Fault>, stored: set<string>, before: set<string>)
    requires Below(s, page, before + stored) && Stops(s, page, count, max, fault)
    requires FirstKey(Page(s, page)) == prevKey ==> Page(s, page) == []
    ensures Leaves(s, WalkPages(s, page, prevKey, count, max, fault, stored), before)
  {
    PageCovered(s, page, stored, before);
  }

  /** Walking on from a page whose predecessors are stored leaves every page walked stored. */
  lemma {:induction false} WalkCovers(s: Server, page: nat, prevKey: Option<string>, count: int, max: int, fault: Option<Fault>, stored: set<string>, before: set<string>)
    requires Honours(s) && Below(s, page, before + stored)
    requires prevKey.None? || (page > 1 && prevKey == FirstKey(Page(s, page - 1)))
    ensures Leaves(s, WalkPages(s, page, prevKey, count, max, fault, stored), before)
    decreases MAX_PAGES + 1 - page
  {
    FreshPage(s, page, prevKey);
    if Stops(s, page, count, max, fault) {
      StopCovers(s, page, prevKey, count, max, fault, stored, before);
    } else {
      var records := Page(s, page);
      PageStored(s, page, stored, before);
      WalkOn(s, page, prevKey, count, max, fault, stored);
      WalkCovers(s, page + 1, FirstKey(records), count + ParsedCount(records), max, fault, stored + ParsedIds(records), before);
    }
  }

  /** Every page below the cursor has been written in this sweep, and a finished sweep wrote them all. */
  ghost predicate Faithful(s: Server, st: State) {
    && st.sweep <= st.stored
    && Below(s, NextPage(st.cursor), st.sweep)
    && (st.completed ==> AllStored(s, st.stored))
  }

  lemma NothingBelowFirst(s: Server, stored: set<string>)
    ensures Below(s, 1, stored)
  {
    assert FirstPages(s, 0) == [];
  }

  lemma RunKeepsFaithful(s: Server, st: State, max: int, fault: Option<Fault>)
    requires Honours(s) && Faithful(s, st)
    ensures Faithful(s, RunSync(s, st, max, fault))
  {
    var page := NextPage(st.cursor);
    assert st.sweep + {} == st.sweep;
    WalkAdvances(s, page, None, 0, max, fault, {});
    WalkCovers(s, page, None, 0, max, fault, {}, st.sweep);
    NothingBelowFirst(s, {});
    var w := WalkPages(s, page, None, 0, max, fault, {});
    assert NextPage(Some(w.page)) == w.page;
  }

  datatype Attempt = Attempt(max: int, fault: Option<Fault>)

  function AfterAttempts(s: Server, st: State, attempts: seq<Attempt>): State {
    if attempts == [] then st
    else RunSync(s, AfterAttempts(s, st, attempts[..|attempts| - 1]), attempts[|attempts| - 1].max, attempts[|attempts| - 1].fault)
  }

  /** Across any mix of successful, bounded and failed runs from scratch. */
  lemma {:induction false} NothingSkipped(s: Server, attempts: seq<Attempt>)
    requires Honours(s)
    ensures Faithful(s, AfterAttempts(s, Fresh, attempts))
  {
    NothingBelowFirst(s, {});
    if attempts == [] {
    } else {
      NothingSkipped(s, attempts[..|attempts| - 1]);
      RunKeepsFaithful(s, AfterAttempts(s, Fresh, attempts[..|attempts| - 1]),
                       attempts[|attempts| - 1].max, attempts[|attempts| - 1].fault);
    }
  }

  lemma {:induction false} WalkAdvances(s: Server, page: nat, prevKey: Option<string>, count: int, max: int, fault: Option<Fault>, stored: set<string>)
    requires page >= 1
    ensures var w := WalkPages(s, page, prevKey, count, max, fault, stored);
            && w.page >= page
            && (!w.failed ==> (w.page > page <==> count < max && page <= MAX_PAGES))
    decreases MAX_PAGES + 1 - page
  {
    if !(count >= max || page > MAX_PAGES || (fault.Some? && fault.value.page == page)) {
      var records := Page(s, page);
      if records != [] && FirstKey(records) != prevKey && !LastPage(s, page, |records|) {
        WalkAdvances(s, page + 1, FirstKey(records), count + ParsedCount(records), max, fault, stored + ParsedIds(records));
      }
    }
  }

  /** A run that does not fail moves the cursor on or finishes the sweep, exactly while the cursor is within the page cap. */
  lemma RunAdvancesIff(s: Server, st: State, max: int, fault: Option<Fault>)
    requires max >= 1 && !WalkPages(s, NextPage(st.cursor), None, 0, max, fault, {}).failed
    ensures var after := RunSync(s, st, max, fault);
            after.completed || NextPage(after.cursor) > NextPage(st.cursor) <==> NextPage(st.cursor) <= MAX_PAGES
  {
    WalkAdvances(s, NextPage(st.cursor), None, 0, max, fault, {});
    if NextPage(st.cursor) > MAX_PAGES {
      assert WalkPages(s, NextPage(st.cursor), None, 0, max, fault, {}).page == NextPage(st.cursor);
    }
  }

  // ----- How much one run reads -----

  /** Rows of a page that can be parsed. */
  function ParsedOn(s: Server, page: nat): nat
    requires page >= 1
  {
    |set k | 0 <= k < |Page(s, page)| && Page(s, page)[k].parses|
  }

  /** The same over the pages from one up to another. */
  function ParsedOver(s: Server, page: nat, end: nat): nat
    requires page >= 1
    decreases end - page
  {
    if end <= page then 0 else ParsedOn(s, page) + ParsedOver(s, page + 1, end)
  }

  lemma {:induction false} ParsedCountIs(records: seq<Record>)
    ensures ParsedCount(records) == |set k | 0 <= k < |records| && records[k].parses|
  {
    if records == [] {
    } else {
      var init, last := records[..|records| - 1], |records| - 1;
      ParsedCountIs(init);
      var before := set k | 0 <= k < |init| && init[k].parses;
      assert (set k | 0 <= k < |records| && records[k].parses) == before + if records[last].parses then {last} else {};
    }
  }

  lemma ParsedOnIs(s: Server, page: nat)
    requires page >= 1
    ensures ParsedOn(s, page) == ParsedCount(Page(s, page))
  {
    ParsedCountIs(Page(s, page));
  }

  /** A walk that neither failed nor came to the end, and stopped at a page boundary because of its bound or the cap. */
  ghost predicate StoppedInTime(s: Server, page: nat, count: int, max: int, w: Walk)
    requires page >= 1
  {
    w.page >= page
    && (!w.done && !w.failed ==>
          && (count + ParsedOver(s, page, w.page) >= max || w.page > MAX_PAGES)
          && (w.page > page ==> count + ParsedOver(s, page, w.page - 1) < max))
  }

  lemma OnePageMore(s: Server, page: nat, count: int, max: int, w: Walk)
    requires page >= 1 && count < max && StoppedInTime(s, page + 1, count + ParsedOn(s, page), max, w)
    ensures StoppedInTime(s, page, count, max, w)
  {
  }

  lemma StoppedHere(s: Server, page: nat, prevKey: Option<string>, count: int, max: int, fault: Option<Fault>, stored: set<string>)
    requires page >= 1 && (Stops(s, page, count, max, fault) || FirstKey(Page(s, page)) == prevKey)
    ensures StoppedInTime(s, page, count, max, WalkPages(s, page, prevKey, count, max, fault, stored))
  {
  }

  /**
   * A walk that neither fails nor comes to the end stops at the first page boundary where it
   * has read its bound of rows, or at the page cap.
   */
  lemma {:induction false} StopsAtBound(s: Server, page: nat, prevKey: Option<string>, count: int, max: int, fault: Option<Fault>, stored: set<string>)
    requires page >= 1
    ensures StoppedInTime(s, page, count, max, WalkPages(s, page, prevKey, count, max, fault, stored))
    decreases MAX_PAGES + 1 - page
  {
    if Stops(s, page, count, max, fault) || FirstKey(Page(s, page)) == prevKey {
      StoppedHere(s, page, prevKey, count, max, fault, stored);
    } else {
      var records := Page(s, page);
      ParsedOnIs(s, page);
      WalkOn(s, page, prevKey, count, max, fault, stored);
      StopsAtBound(s, page + 1, FirstKey(records), count + ParsedCount(records), max, fault, stored + ParsedIds(records));
      OnePageMore(s, page, count, max, WalkPages(s, page, prevKey, count, max, fault, stored));
    }
  }

  // ----- Which lists a sweep never finishes -----

  const CAP := MAX_PAGES * PAGE_SIZE

  /** The list does not end within the page cap, as far as the page loop can tell. */
  predicate Overfull(s: Server) {
    if s.reportsTotal then |s.records| > CAP else |s.records| >= CAP
  }

  const Fresh := State(None, false, {}, {})

  lemma StopStays(s: Server, page: nat, prevKey: Option<string>, count: int, max: int, fault: Option<Fault>, stored: set<string>)
    requires 1 <= page <= MAX_PAGES && (Stops(s, page, count, max, fault) || FirstKey(Page(s, page)) == prevKey)
    ensures var w := WalkPages(s, page, prevKey, count, max, fault, stored); w.done || w.failed || w.page <= MAX_PAGES
  {
  }

  /** Within the cap, the last page ends the sweep. */
  lemma {:induction false} WalkStays(s: Server, page: nat, prevKey: Option<string>, count: int, max: int, fault: Option<Fault>, stored: set<string>)
    requires 1 <= page <= MAX_PAGES && !Overfull(s)
    ensures var w := WalkPages(s, page, prevKey, count, max, fault, stored); w.done || w.failed || w.page <= MAX_PAGES
    decreases MAX_PAGES - page
  {
    if Stops(s, page, count, max, fault) || FirstKey(Page(s, page)) == prevKey {
      StopStays(s, page, prevKey, count, max, fault, stored);
    } else {
      var records := Page(s, page);
      LastWithinCap(s, page);
      WalkOn(s, page, prevKey, count, max, fault, stored);
      WalkStays(s, page + 1, FirstKey(records), count + ParsedCount(records), max, fault, stored + ParsedIds(records));
    }
  }

  lemma LastWithinCap(s: Server, page: nat)
    requires 1 <= page <= MAX_PAGES && !Overfull(s) && !LastPage(s, page, |Page(s, page)|)
    ensures page < MAX_PAGES
  {
  }

  lemma {:induction false} CursorStays(s: Server, attempts: seq<Attempt>)
    requires !Overfull(s)
    ensures NextPage(AfterAttempts(s, Fresh, attempts).cursor) <= MAX_PAGES
  {
    if attempts == [] {
    } else {
      var last := attempts[|attempts| - 1];
      var before := AfterAttempts(s, Fresh, attempts[..|attempts| - 1]);
      CursorStays(s, attempts[..|attempts| - 1]);
      WalkStays(s, NextPage(before.cursor), None, 0, last.max, last.fault, {});
    }
  }

  lemma {:induction false} ParsedAtMost(records: seq<Record>)
    ensures ParsedCount(records) <= |records|
  {
    if records == [] {
    } else {
      ParsedAtMost(records[..|records| - 1]);
    }
  }

  lemma FullPage(s: Server, page: nat)
    requires Overfull(s) && 1 <= page <= MAX_PAGES
    ensures |Page(s, page)| == PAGE_SIZE && !LastPage(s, page, PAGE_SIZE)
  {
  }

  /** Beyond the cap, a walk with no bound of its own stops at the cap, unfinished. */
  lemma {:induction false} WalkReachesCap(s: Server, page: nat, prevKey: Option<string>, count: int, stored: set<string>)
    requires Honours(s) && Overfull(s) && 1 <= page <= MAX_PAGES + 1 && count <= (page - 1) * PAGE_SIZE
    requires prevKey.None? || (page > 1 && prevKey == FirstKey(Page(s, page - 1)))
    ensures var w := WalkPages(s, page, prevKey, count, CAP + 1, None, stored); w.page == MAX_PAGES + 1 && !w.done && !w.failed
    decreases MAX_PAGES + 1 - page
  {
    if page <= MAX_PAGES {
      var records := Page(s, page);
      FullPage(s, page);
      FreshPage(s, page, prevKey);
      ParsedAtMost(records);
      WalkReachesCap(s, page + 1, FirstKey(records), count + ParsedCount(records), stored + ParsedIds(records));
    }
  }

  /** Once beyond the cap, no run does anything more. */
  lemma StuckForGood(s: Server, st: State, max: int, fault: Option<Fault>)
    requires NextPage(st.cursor) > MAX_PAGES
    ensures RunSync(s, st, max, fault) == st.(completed := false)
  {
    assert st.stored + {} == st.stored && st.sweep + {} == st.sweep;
  }

  /** From scratch, some runs leave the cursor beyond the cap if and only if the list is overfull. */
  lemma SticksIff(s: Server)
    requires Honours(s)
    ensures (exists attempts :: NextPage(AfterAttempts(s, Fresh, attempts).cursor) > MAX_PAGES) <==> Overfull(s)
  {
    if Overfull(s) {
      var attempts := [Attempt(CAP + 1, None)];
      assert attempts[..0] == [] && AfterAttempts(s, Fresh, []) == Fresh;
      WalkReachesCap(s, 1, None, 0, {});
      assert AfterAttempts(s, Fresh, attempts).cursor == Some(MAX_PAGES + 1);
    } else if attempts :| NextPage(AfterAttempts(s, Fresh, attempts).cursor) > MAX_PAGES {
      CursorStays(s, attempts);
    }
  }

  // ----- Exactly which lists a sweep finishes -----

  /** A list beyond the cap never looks finished to the page loop. */
  lemma {:induction false} WalkNeverDone(s: Server, page: nat, prevKey: Option<string>, count: int, max: int, fault: Option<Fault>, stored: set<string>)
    requires Honours(s) && Overfull(s) && page >= 1
    requires prevKey.None? || (page > 1 && prevKey == FirstKey(Page(s, page - 1)))
    ensures !WalkPages(s, page, prevKey, count, max, fault, stored).done
    decreases MAX_PAGES + 1 - page
  {
    if count < max && page <= MAX_PAGES && !(fault.Some? && fault.value.page == page) {
      var records := Page(s, page);
      FullPage(s, page);
      FreshPage(s, page, prevKey);
      WalkOn(s, page, prevKey, count, max, fault, stored);
      WalkNeverDone(s, page + 1, FirstKey(records), count + ParsedCount(records), max, fault, stored + ParsedIds(records));
    }
  }

  /** A sweep of such a list is never completed, whatever runs there are. */
  lemma {:induction false} NeverCompletes(s: Server, attempts: seq<Attempt>)
    requires Honours(s) && Overfull(s)
    ensures !AfterAttempts(s, Fresh, attempts).completed
  {
    if attempts == [] {
    } else {
      var last := attempts[|attempts| - 1];
      NeverCompletes(s, attempts[..|attempts| - 1]);
      WalkNeverDone(s, NextPage(AfterAttempts(s, Fresh, attempts[..|attempts| - 1]).cursor), None, 0, last.max, last.fault, {});
    }
  }

  predicate Fails(s: Server, st: State, attempt: Attempt) {
    WalkPages(s, NextPage(st.cursor), None, 0, attempt.max, attempt.fault, {}).failed
  }

  /** How many runs of the series did not fail. */
  function Unfailed(s: Server, attempts: seq<Attempt>): nat {
    if attempts == [] then 0
    else
      var init, last := attempts[..|attempts| - 1], attempts[|attempts| - 1];
      Unfailed(s, init) + if Fails(s, AfterAttempts(s, Fresh, init), last) then 0 else 1
  }

  /** Some run of the series completes the sweep. */
  ghost predicate Completes(s: Server, attempts: seq<Attempt>) {
    attempts != [] && (AfterAttempts(s, Fresh, attempts).completed || Completes(s, attempts[..|attempts| - 1]))
  }

  /** Each run may fetch something. */
  ghost predicate Working(attempts: seq<Attempt>) {
    forall a :: a in attempts ==> a.max >= 1
  }

  /** Until the sweep completes, every run that does not fail moves the cursor on by a page at least. */
  lemma {:induction false} Progress(s: Server, attempts: seq<Attempt>)
    requires !Overfull(s) && Working(attempts) && !Completes(s, attempts)
    ensures NextPage(AfterAttempts(s, Fresh, attempts).cursor) >= 1 + Unfailed(s, attempts)
  {
    if attempts == [] {
    } else {
      var init, last := attempts[..|attempts| - 1], attempts[|attempts| - 1];
      assert attempts == init + [last];
      Progress(s, init);
      CursorStays(s, init);
      if !Fails(s, AfterAttempts(s, Fresh, init), last) {
        RunAdvancesIff(s, AfterAttempts(s, Fresh, init), last.max, last.fault);
      }
    }
  }

  lemma {:induction false} FaultlessWalk(s: Server, page: nat, prevKey: Option<string>, count: int, max: int, stored: set<string>)
    requires page >= 1
    ensures !WalkPages(s, page, prevKey, count, max, None, stored).failed
    decreases MAX_PAGES + 1 - page
  {
    if count < max && page <= MAX_PAGES {
      var records := Page(s, page);
      FaultlessWalk(s, page + 1, FirstKey(records), count + ParsedCount(records), max, stored + ParsedIds(records));
    }
  }

  lemma {:induction false} NoneFails(s: Server, attempts: seq<Attempt>)
    requires forall a :: a in attempts ==> a.fault.None?
    ensures Unfailed(s, attempts) == |attempts|
  {
    if attempts == [] {
    } else {
      var init, last := attempts[..|attempts| - 1], attempts[|attempts| - 1];
      NoneFails(s, init);
      FaultlessWalk(s, NextPage(AfterAttempts(s, Fresh, init).cursor), None, 0, last.max, {});
    }
  }

  lemma {:induction false} NoneCompletes(s: Server, attempts: seq<Attempt>)
    requires Honours(s) && Overfull(s)
    ensures !Completes(s, attempts)
  {
    if attempts == [] {
    } else {
      NeverCompletes(s, attempts);
      NoneCompletes(s, attempts[..|attempts| - 1]);
    }
  }

  /**
   * Every series of runs with as many successful ones as there are pages under the cap
   * completes a sweep, whatever the others do, if and only if the list is not overfull.
   */
  lemma FinishesIff(s: Server)
    requires Honours(s)
    ensures (forall attempts :: Working(attempts) && Unfailed(s, attempts) >= MAX_PAGES ==> Completes(s, attempts)) <==> !Overfull(s)
  {
    if Overfull(s) {
      var attempts := seq(MAX_PAGES, _ => Attempt(1, None));
      NoneFails(s, attempts);
      NoneCompletes(s, attempts);
    } else {
      forall attempts | Working(attempts) && Unfailed(s, attempts) >= MAX_PAGES ensures Completes(s, attempts) {
        if !Completes(s, attempts) {
          Progress(s, attempts);
          CursorStays(s, attempts);
        }
      }
    }
  }

  /** Such a list: as many rows as the cap allows, each page starting unlike the one before. */
  lemma SomeListSticks() returns (s: Server)
    ensures Honours(s) && Overfull(s) && |s.records| == CAP && !s.reportsTotal
  {
    var records := seq(CAP, i => Record(if (i / PAGE_SIZE) % 2 == 0 then "even" else "odd", true));
    s := Server(records, false);
    forall page: nat ensures KeyMovesOn(s, page) {
      if page > 1 && Page(s, page) != [] {
        assert FirstKey(Page(s, page)) == Some(records[(page - 1) * PAGE_SIZE].id);
        assert FirstKey(Page(s, page - 1)) == Some(records[(page - 2) * PAGE_SIZE].id);
      }
    }
  }

  /** A full list of exactly the cap, with no total reported, sticks although every row has been stored. */
  lemma StuckWithEverything(s: Server)
    requires Honours(s) && |s.records| == CAP && !s.reportsTotal
    ensures var st := AfterAttempts(s, Fresh, [Attempt(CAP + 1, None)]);
            NextPage(st.cursor) > MAX_PAGES && !st.completed && AllStored(s, st.stored)
  {
    var attempts := [Attempt(CAP + 1, None)];
    assert attempts[..0] == [] && AfterAttempts(s, Fresh, []) == Fresh;
    WalkReachesCap(s, 1, None, 0, {});
    NothingSkipped(s, attempts);
    assert FirstPages(s, MAX_PAGES) == s.records;
  }
}
