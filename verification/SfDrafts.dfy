// What a saved draft takes over from the time it loads and the lines it is given
// (src/lib/sfbilling/service.ts).
module SfDrafts {
  import SfGenerate
  import opened SfStore
  import opened Wrappers

  /** What is loaded is the approved, uninvoiced time of the rows, and all of it. */
  lemma {:induction false} LoadedIff(entries: map<string, Entry>, rows: seq<string>, e: SfGenerate.TimeEntry)
    ensures e in Loaded(entries, rows) <==> exists id :: id in rows && id in entries && entries[id] == Entry(e, READY)
  {
    if rows == [] {
    } else {
      var init, last := rows[..|rows| - 1], rows[|rows| - 1];
      assert rows == init + [last];
      LoadedIff(entries, init, e);
    }
  }

  /** No more of it than there are rows, and all of them when each is approved time. */
  lemma {:induction false} LoadedAll(entries: map<string, Entry>, rows: seq<string>)
    requires forall id :: id in rows ==> id in entries && entries[id].status == READY
    ensures |Loaded(entries, rows)| == |rows| && forall k :: 0 <= k < |rows| ==> Loaded(entries, rows)[k] == entries[rows[k]].time
  {
    if rows == [] {
    } else {
      var init, last := rows[..|rows| - 1], rows[|rows| - 1];
      assert rows == init + [last];
      LoadedAll(entries, init);
    }
  }

  /** The item of the charge code where it has one, and else that of the kind of line. */
  ghost predicate Mapped(items: Items, code: Option<string>, kind: string, item: Option<string>) {
    if code.Some? && code.value in items.byCode then item == Some(items.byCode[code.value])
    else if kind in items.byKind then item == Some(items.byKind[kind])
    else item.None?
  }

  /** A draft's line for hours has the quantity, total and entries of the generator's, and the item mapped for its charge code or its kind. */
  ghost predicate SameLine(l: SfGenerate.HoursLine, items: Items, line: RunLine) {
    && line.kind == HOURS(l.kind) && line.quantity == l.quantity && line.total == l.total && line.entries == l.timeEntries
    && Mapped(items, Some(l.chargeCodeId), if l.kind.TIME? then "TIME" else "OVERAGE", line.qboItemId)
  }

  lemma {:induction false} LinesKept(lines: seq<SfGenerate.HoursLine>, items: Items)
    ensures |HourRunLines(lines, items)| == |lines|
    ensures forall k :: 0 <= k < |lines| ==> SameLine(lines[k], items, HourRunLines(lines, items)[k])
  {
    if lines == [] {
    } else {
      LinesKept(lines[1..], items);
    }
  }

  /** Different kinds of line are told apart by the names they are mapped under. */
  lemma KindNamesDiffer(a: Kind, b: Kind)
    requires KindName(a) == KindName(b)
    ensures a.HOURS? == b.HOURS? && a.RECURRING? == b.RECURRING? && a.BLOCK_PURCHASE? == b.BLOCK_PURCHASE? && a.PROJECT_DEPOSIT? == b.PROJECT_DEPOSIT?
    ensures a.PROJECT_FEE? == b.PROJECT_FEE? && a.HOURS? ==> a.kind == b.kind
  {
    assert KindName(a)[0] == KindName(b)[0] && |KindName(a)| == |KindName(b)|;
  }
}
