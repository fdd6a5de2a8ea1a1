// What had to happen before something could be billed, over every history of billing runs
// (src/lib/sfbilling/state.ts, src/lib/silverfang/status.ts and the timesheet actions).
module SfReviews {
  import SfGenerate
  import opened SfRuns
  import opened SfStore
  import opened Wrappers

  // ----- Nothing is approved that was not reviewed as it is -----

  /** At some point of the history the run was under review with these lines. */
  ghost predicate WasReviewed(s: Store, steps: seq<Step>, r: nat, lines: seq<RunLine>) {
    exists n :: 0 <= n <= |steps| && r in After(s, steps[..n]).runs && After(s, steps[..n]).runs[r].status == REVIEWED && After(s, steps[..n]).runs[r].lines == lines
  }

  predicate PastReview(status: Status) {
    status == REVIEWED || status == APPROVED || status == PARTIALLY_FAILED || status == PUSHED
  }

  /** A run past its review, or with an approval on record, was reviewed with the lines it has or had then. */
  ghost predicate Reviewed(s: Store, steps: seq<Step>) {
    var now := After(s, steps);
    forall r :: r in now.runs ==>
      && (PastReview(now.runs[r].status) ==> WasReviewed(s, steps, r, now.runs[r].lines))
      && (now.runs[r].approved.Some? ==> WasReviewed(s, steps, r, now.runs[r].approved.value))
  }

  lemma StillReviewed(s: Store, steps: seq<Step>, r: nat, lines: seq<RunLine>)
    requires steps != [] && WasReviewed(s, steps[..|steps| - 1], r, lines)
    ensures WasReviewed(s, steps, r, lines)
  {
    var init := steps[..|steps| - 1];
    var n :| 0 <= n <= |init| && r in After(s, init[..n]).runs && After(s, init[..n]).runs[r].status == REVIEWED && After(s, init[..n]).runs[r].lines == lines;
    assert init[..n] == steps[..n];
  }

  lemma NowReviewed(s: Store, steps: seq<Step>, r: nat)
    requires var now := After(s, steps); r in now.runs && now.runs[r].status == REVIEWED
    ensures WasReviewed(s, steps, r, After(s, steps).runs[r].lines)
  {
    assert steps[..|steps|] == steps;
  }

  /** Past review a run keeps its lines, or goes back. */
  lemma LinesMove(s: Store, step: Step, r: nat)
    requires r in Apply(s, step).runs && PastReview(Apply(s, step).runs[r].status) && Apply(s, step).runs[r].status != REVIEWED
    ensures r in s.runs && PastReview(s.runs[r].status) && Apply(s, step).runs[r].lines == s.runs[r].lines
  {
  }

  /** An approval records the lines the run has. */
  lemma ApprovalMoves(s: Store, step: Step, r: nat)
    requires r in Apply(s, step).runs && Apply(s, step).runs[r].approved.Some?
    ensures r in s.runs
    ensures var approved := Apply(s, step).runs[r].approved;
            approved == s.runs[r].approved || (PastReview(s.runs[r].status) && approved == Some(s.runs[r].lines))
  {
  }

  lemma {:induction false} AlwaysReviewed(s: Store, steps: seq<Step>)
    requires Initial(s)
    ensures Reviewed(s, steps)
  {
    if steps == [] {
    } else {
      var init, step := steps[..|steps| - 1], steps[|steps| - 1];
      var before, now := After(s, init), After(s, steps);
      AlwaysReviewed(s, init);
      forall r | r in now.runs
        ensures PastReview(now.runs[r].status) ==> WasReviewed(s, steps, r, now.runs[r].lines)
        ensures now.runs[r].approved.Some? ==> WasReviewed(s, steps, r, now.runs[r].approved.value)
      {
        if now.runs[r].status == REVIEWED {
          NowReviewed(s, steps, r);
        } else if PastReview(now.runs[r].status) {
          LinesMove(before, step, r);
          StillReviewed(s, steps, r, before.runs[r].lines);
        }
        if now.runs[r].approved.Some? {
          ApprovalMoves(before, step, r);
          StillReviewed(s, steps, r, now.runs[r].approved.value);
        }
      }
    }
  }

  /** What a push sends was under review, and approved after that, with exactly the lines it is the mapped part of. */
  lemma SentWasReviewed(s: Store, steps: seq<Step>, runId: nat, outcome: Outcome)
    requires Initial(s) && Enabled(After(s, steps), Push(runId, outcome))
    ensures var lines := After(s, steps).runs[runId].lines; WasReviewed(s, steps, runId, lines) && After(s, steps).runs[runId].approved == Some(lines)
  {
    AlwaysReviewed(s, steps);
    AlwaysSound(s, steps);
  }

  // ----- Every run that is not finished can still go anywhere -----

  predicate Finished(status: Status) {
    status == PUSHED || status == CANCELLED
  }

  /** A series of statuses in which each may follow the one before. */
  ghost predicate Path(p: seq<Status>, from: Status, to: Status) {
    |p| >= 1 && p[0] == from && p[|p| - 1] == to && forall i :: 0 < i < |p| ==> p[i] in Transitions(p[i - 1])
  }

  lemma {:induction false} StuckWhenFinished(p: seq<Status>, from: Status, to: Status)
    requires Path(p, from, to) && Finished(from)
    ensures to == from
  {
    assert |p| > 1 ==> p[1] in Transitions(p[0]);
  }

  lemma PathOf(from: Status, to: Status) returns (p: seq<Status>)
    requires !Finished(from)
    ensures Path(p, from, to)
  {
    var up := match from case DRAFT => [DRAFT, REVIEWED, APPROVED] case REVIEWED => [REVIEWED, APPROVED] case APPROVED => [APPROVED] case PARTIALLY_FAILED => [PARTIALLY_FAILED, APPROVED] case _ => [];
    var on := match to case DRAFT => [REVIEWED, DRAFT] case APPROVED => [] case _ => [to];
    p := up + on;
  }

  /** One status can be reached from another exactly when they are the same, or the first is neither PUSHED nor CANCELLED. */
  lemma ReachIff(from: Status, to: Status)
    ensures (exists p :: Path(p, from, to)) <==> from == to || !Finished(from)
  {
    if from == to {
      assert Path([from], from, to);
    } else if !Finished(from) {
      var p := PathOf(from, to);
    } else if p :| Path(p, from, to) {
      StuckWhenFinished(p, from, to);
    }
  }

  // ----- No time is approved that was not submitted as it is -----

  ghost predicate WasSubmitted(s: Store, steps: seq<Step>, id: string, time: SfGenerate.TimeEntry) {
    exists n :: 0 <= n <= |steps| && id in After(s, steps[..n]).entries && After(s, steps[..n]).entries[id] == Entry(time, SUBMITTED)
  }

  lemma EntryMovesOn(s: Store, step: Step, id: string)
    requires EntriesOk(s.entries) && RunsSound(s) && id in Apply(s, step).entries && Approved(Apply(s, step).entries[id].status)
    ensures id in s.entries && s.entries[id].time == Apply(s, step).entries[id].time
    ensures Approved(s.entries[id].status) || s.entries[id].status == SUBMITTED
  {
    if Enabled(s, step) && step.Push? && step.outcome == RECORDED {
      PushedEntry(s, step.runId, id);
    }
  }

  lemma PushedEntry(s: Store, r: nat, id: string)
    requires RunsSound(s) && r in s.runs && id in s.entries
    requires Approved(Invoiced(s, r, Eligible(s.runs[r].lines)).entries[id].status)
    ensures Approved(s.entries[id].status) && Invoiced(s, r, Eligible(s.runs[r].lines)).entries[id].time == s.entries[id].time
  {
    var claims := ClaimsOn(Eligible(s.runs[r].lines));
    SentSound(s, s.runs[r].lines);
    if c :| c in claims && c.thing == Time(id) {
      assert Backed(s.entries, c);
    }
  }

  /** Over every history time that is approved, or invoiced, was submitted exactly as it is. */
  lemma {:induction false} ApprovedWasSubmitted(s: Store, steps: seq<Step>, id: string)
    requires Initial(s) && id in After(s, steps).entries && Approved(After(s, steps).entries[id].status)
    ensures WasSubmitted(s, steps, id, After(s, steps).entries[id].time)
  {
    if steps != [] {
      var init, step := steps[..|steps| - 1], steps[|steps| - 1];
      var before := After(s, init);
      AlwaysSound(s, init);
      EntryMovesOn(before, step, id);
      if Approved(before.entries[id].status) {
        ApprovedWasSubmitted(s, init, id);
        var n :| 0 <= n <= |init| && id in After(s, init[..n]).entries && After(s, init[..n]).entries[id] == Entry(before.entries[id].time, SUBMITTED);
        assert init[..n] == steps[..n];
      } else {
        assert steps[..|init|] == init;
      }
    }
  }

  // ----- PUSHED means sent in full -----

  /** An invoice of the run, recorded, has all its lines. */
  ghost predicate SentInFull(s: Store, r: nat) {
    r in s.runs && exists i :: 0 <= i < |s.invoices| && s.invoices[i].runId == r && s.invoices[i].recorded && s.invoices[i].lines == s.runs[r].lines
  }

  /** A transition to PUSHED of a run that has not been sent in full. */
  ghost predicate CutsShort(s: Store, step: Step) {
    step.Transition? && step.to == PUSHED && Enabled(s, step) && !SentInFull(s, step.runId)
  }

  ghost predicate PushedRunsInFull(s: Store) {
    forall r :: r in s.runs && s.runs[r].status == PUSHED ==> SentInFull(s, r)
  }

  lemma {:induction false} EligibleAll(lines: seq<RunLine>)
    ensures |Eligible(lines)| == |lines| ==> Eligible(lines) == lines
  {
    if lines == [] {
    } else {
      EligibleAll(lines[1..]);
      EligibleShorter(lines[1..]);
      EligibleHead(lines);
    }
  }

  lemma FullStays(s: Store, step: Step, r: nat)
    requires r in s.runs && r in Apply(s, step).runs && Apply(s, step).runs[r].lines == s.runs[r].lines
    ensures SentInFull(s, r) ==> SentInFull(Apply(s, step), r)
  {
    InvoicesAfter(s, step);
    if SentInFull(s, r) {
      var i :| 0 <= i < |s.invoices| && s.invoices[i].runId == r && s.invoices[i].recorded && s.invoices[i].lines == s.runs[r].lines;
      assert Apply(s, step).invoices[i] == s.invoices[i];
    }
  }

  /** A push that leaves its run PUSHED has sent all of it. */
  lemma PushedInFull(s: Store, step: Step)
    requires Sends(s, step) && Apply(s, step).runs[step.runId].status == PUSHED
    ensures SentInFull(Apply(s, step), step.runId)
  {
    var lines, s' := s.runs[step.runId].lines, Apply(s, step);
    EligibleShorter(lines);
    EligibleAll(lines);
    InvoicesAfter(s, step);
    assert s'.invoices[|s.invoices|] == Sent(s, step);
  }

  /** A run does not come out of a push, or any other step, PUSHED and with other invoices gone. */
  lemma NotInFullStays(s: Store, step: Step, r: nat)
    requires r in s.runs && s.runs[r].status == PUSHED && !SentInFull(s, r)
    ensures !SentInFull(Apply(s, step), r)
  {
    InvoicesAfter(s, step);
    PushedStays(s, step, r);
    if Sends(s, step) {
      NoneAdded(s.invoices, Sent(s, step), r, s.runs[r].lines);
    }
  }

  lemma NoneAdded(invoices: seq<Invoice>, invoice: Invoice, r: nat, lines: seq<RunLine>)
    requires invoice.runId != r
    ensures (exists i :: 0 <= i < |invoices + [invoice]| && (invoices + [invoice])[i].runId == r && (invoices + [invoice])[i].recorded
                         && (invoices + [invoice])[i].lines == lines)
        ==> exists i :: 0 <= i < |invoices| && invoices[i].runId == r && invoices[i].recorded && invoices[i].lines == lines
  {
    var more := invoices + [invoice];
    if i :| 0 <= i < |more| && more[i].runId == r && more[i].recorded && more[i].lines == lines {
      assert invoices[i] == more[i];
    }
  }

  lemma InFullStep(s: Store, step: Step)
    ensures PushedRunsInFull(Apply(s, step)) <==> PushedRunsInFull(s) && !CutsShort(s, step)
  {
    var s' := Apply(s, step);
    if !PushedRunsInFull(s) {
      var r :| r in s.runs && s.runs[r].status == PUSHED && !SentInFull(s, r);
      PushedStays(s, step, r);
      NotInFullStays(s, step, r);
    } else if CutsShort(s, step) {
      InvoicesAfter(s, step);
      assert s'.runs[step.runId].status == PUSHED;
      assert !SentInFull(s', step.runId);
    } else {
      forall r | r in s'.runs && s'.runs[r].status == PUSHED ensures SentInFull(s', r) {
        BecomesPushed(s, step, r);
        if Sends(s, step) && step.runId == r {
          PushedInFull(s, step);
        } else if step == Transition(r, PUSHED) {
          FullStays(s, step, r);
        } else {
          PushedStays(s, step, r);
          FullStays(s, step, r);
        }
      }
    }
  }

  /** Over every history: each PUSHED run has all its lines on an invoice if and only if none was moved there by hand without. */
  lemma {:induction false} PushedMeansInFullIff(s: Store, steps: seq<Step>)
    requires Initial(s)
    ensures PushedRunsInFull(After(s, steps)) <==> Never(CutsShort, s, steps)
  {
    if steps == [] {
    } else {
      PushedMeansInFullIff(s, steps[..|steps| - 1]);
      InFullStep(After(s, steps[..|steps| - 1]), steps[|steps| - 1]);
    }
  }

  // ----- Which changes take effect -----

  /** Time is saved exactly when it has hours and is new, or is a change to a draft or to what has been rejected. */
  lemma TimeSavedIff(s: Store, time: SfGenerate.TimeEntry)
    requires !(time.id in s.entries && s.entries[time.id].time == time)
    ensures var entries := Apply(s, SaveEntry(time)).entries;
            time.id in entries && entries[time.id].time == time <==>
              time.hours > 0 && (time.id !in s.entries || s.entries[time.id].status == DRAFTED || s.entries[time.id].status == REJECTED)
  {
  }

  lemma TimeDroppedIff(s: Store, id: string)
    requires id in s.entries
    ensures id !in Apply(s, DropEntry(id)).entries <==> s.entries[id].status == DRAFTED || s.entries[id].status == REJECTED
  {
  }

  /** Time goes from draft or rejection to submission, and from there to approval, rejection or back; nothing else moves it by hand. */
  lemma TimeMovesIff(s: Store, id: string, to: EntryStatus)
    requires id in s.entries && s.entries[id].status != to
    ensures Apply(s, MoveEntry(id, to)).entries[id].status == to <==>
              if s.entries[id].status == SUBMITTED then to == READY || to == REJECTED || to == DRAFTED
              else to == SUBMITTED && (s.entries[id].status == DRAFTED || s.entries[id].status == REJECTED)
  {
  }

  /** A line is edited, or a manual one added, exactly while the run is a draft. */
  lemma LinesChangeIff(s: Store, r: nat, k: nat, quantity: nat, total: int, item: Option<string>)
    requires r in s.runs && k < |s.runs[r].lines|
    ensures var edited := s.runs[r].lines[k].(quantity := quantity, total := total, qboItemId := item);
            edited != s.runs[r].lines[k] ==> (Apply(s, EditLine(r, k, quantity, total, item)).runs[r].lines[k] == edited <==> s.runs[r].status == DRAFT)
    ensures |Apply(s, AddManual(r, quantity, total, item)).runs[r].lines| == |s.runs[r].lines| + 1 <==> s.runs[r].status == DRAFT
  {
  }

  /** A run is deleted exactly when it is a draft or cancelled. */
  lemma DeletedIff(s: Store, r: nat)
    requires r in s.runs
    ensures r !in Apply(s, DeleteRun(r)).runs <==> s.runs[r].status == DRAFT || s.runs[r].status == CANCELLED
  {
  }

  /** An accepted push adds an invoice exactly when the run is approved or failed in part, and some line is mapped. */
  lemma InvoicedIff(s: Store, r: nat, outcome: Outcome)
    requires r in s.runs
    ensures |Apply(s, Push(r, outcome)).invoices| == |s.invoices| + 1 <==>
              && outcome != REFUSED && (s.runs[r].status == APPROVED || s.runs[r].status == PARTIALLY_FAILED)
              && exists l :: l in s.runs[r].lines && l.qboItemId.Some?
  {
    SomeEligible(s.runs[r].lines);
    InvoicesAfter(s, Push(r, outcome));
  }

  lemma {:induction false} SomeEligible(lines: seq<RunLine>)
    ensures Eligible(lines) != [] <==> exists l :: l in lines && l.qboItemId.Some?
  {
    if lines == [] {
    } else {
      SomeEligible(lines[1..]);
      EligibleHead(lines);
      assert lines == [lines[0]] + lines[1..];
    }
  }
}
