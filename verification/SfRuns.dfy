// What every history of billing runs keeps (the steps are those of SfStore).
module SfRuns {
  import opened Agreements
  import Fees
  import SfGenerate
  import opened SfStore
  import opened Sums
  import opened Wrappers

  // ----- Invoices and what they charge for -----

  function AllClaims(invoices: seq<Invoice>): seq<Claim> {
    if invoices == [] then [] else AllClaims(invoices[..|invoices| - 1]) + ClaimsOn(invoices[|invoices| - 1].lines)
  }

  /** How many times a thing is charged for, over the lines of all invoices. */
  function TimesInvoiced(s: Store, t: Thing): int {
    Count(AllClaims(s.invoices), t)
  }

  /** The invoices whose transaction was committed, or the others. */
  function Those(invoices: seq<Invoice>, recorded: bool): seq<Invoice> {
    if invoices == [] then []
    else
      var last := invoices[|invoices| - 1];
      Those(invoices[..|invoices| - 1], recorded) + if last.recorded == recorded then [last] else []
  }

  /** How many times a thing is charged for on recorded invoices. */
  function TimesRecorded(s: Store, t: Thing): int {
    Count(AllClaims(Those(s.invoices, true)), t)
  }

  /** How many times a thing is charged for on invoices the store knows nothing of. */
  function TimesLost(s: Store, t: Thing): int {
    Count(AllClaims(Those(s.invoices, false)), t)
  }

  /** Hours charged for a time entry, over all invoices. */
  function HoursInvoiced(s: Store, id: string): int {
    SumAt(AllClaims(s.invoices), ThingOf, Time(id), HoursOf)
  }

  lemma ClaimsPushed(invoices: seq<Invoice>, invoice: Invoice)
    ensures AllClaims(invoices + [invoice]) == AllClaims(invoices) + ClaimsOn(invoice.lines)
  {
    assert (invoices + [invoice])[..|invoices|] == invoices;
  }

  lemma ThosePushed(invoices: seq<Invoice>, invoice: Invoice, recorded: bool)
    ensures Those(invoices + [invoice], recorded) == Those(invoices, recorded) + if invoice.recorded == recorded then [invoice] else []
  {
    assert (invoices + [invoice])[..|invoices|] == invoices;
  }

  /** One more invoice is one more charge for each thing on it. */
  lemma CountPushed(invoices: seq<Invoice>, invoice: Invoice, t: Thing)
    ensures Count(AllClaims(invoices + [invoice]), t) == Count(AllClaims(invoices), t) + Count(ClaimsOn(invoice.lines), t)
  {
    ClaimsPushed(invoices, invoice);
    CountJoin(AllClaims(invoices), ClaimsOn(invoice.lines), t);
  }

  lemma {:induction false} RecordedAndLost(invoices: seq<Invoice>, t: Thing)
    ensures Count(AllClaims(invoices), t) == Count(AllClaims(Those(invoices, true)), t) + Count(AllClaims(Those(invoices, false)), t)
    ensures Count(AllClaims(invoices), t) >= 0
  {
    if invoices == [] {
    } else {
      var init, last := invoices[..|invoices| - 1], invoices[|invoices| - 1];
      assert invoices == init + [last];
      RecordedAndLost(init, t);
      CountPushed(init, last, t);
      CountThose(init, last, true, t);
      CountThose(init, last, false, t);
      CountedIffClaimed(ClaimsOn(last.lines), t);
    }
  }

  lemma CountThose(invoices: seq<Invoice>, invoice: Invoice, recorded: bool, t: Thing)
    ensures Count(AllClaims(Those(invoices + [invoice], recorded)), t)
         == Count(AllClaims(Those(invoices, recorded)), t) + if invoice.recorded == recorded then Count(ClaimsOn(invoice.lines), t) else 0
  {
    ThosePushed(invoices, invoice, recorded);
    if invoice.recorded == recorded {
      CountPushed(Those(invoices, recorded), invoice, t);
    } else {
      assert Those(invoices, recorded) + [] == Those(invoices, recorded);
    }
  }

  /** A charge for time is backed by an entry that has been approved and has those hours. */
  ghost predicate Backed(entries: map<string, Entry>, c: Claim) {
    Within(entries, c) && (c.thing.Time? ==> Approved(entries[c.thing.id].status))
  }

  ghost predicate AllBacked(entries: map<string, Entry>, claims: seq<Claim>) {
    forall c :: c in claims ==> Backed(entries, c)
  }

  ghost predicate FeesKnown(projects: map<string, Fees.Project>, fees: seq<(string, int)>) {
    forall f :: f in fees ==> f.0 in projects && f.1 >= 0
  }

  /** Fit to stay on a run: each thing once and backed, each project's fee once. */
  ghost predicate LinesSound(s: Store, lines: seq<RunLine>) {
    && AllBacked(s.entries, ClaimsOn(lines)) && OnceEach(ClaimsOn(lines))
    && FeesKnown(s.projects, FeesOn(lines)) && FeesOnce(FeesOn(lines))
  }

  /** A time entry, block or deposit is marked as billed exactly when it is on a recorded invoice. */
  ghost predicate Marked(s: Store) {
    forall t :: OneOff(t) ==> (IsBilled(s, t) <==> TimesRecorded(s, t) > 0)
  }

  ghost predicate RunsSound(s: Store) {
    forall r :: r in s.runs ==> LinesSound(s, s.runs[r].lines)
  }

  ghost predicate InvoicesBacked(s: Store) {
    AllBacked(s.entries, AllClaims(s.invoices))
  }

  /** A run says it has been invoiced exactly when some recorded invoice is its own. */
  ghost predicate Flagged(s: Store) {
    forall r :: r in s.runs ==> (s.runs[r].invoiced <==> HasInvoice(Those(s.invoices, true), r))
  }

  /** A run that can be pushed, or was, carries the lines that were last approved. */
  ghost predicate Signed(s: Store) {
    forall r :: r in s.runs && (CanPush(s.runs[r].status) || s.runs[r].status == PUSHED) ==> s.runs[r].approved == Some(s.runs[r].lines)
  }

  ghost predicate Sound(s: Store) {
    EntriesOk(s.entries) && Marked(s) && RunsSound(s) && InvoicesBacked(s) && Flagged(s) && Signed(s)
  }

  // ----- Parts of lines -----

  /** Claims for nothing the others do not claim. */
  ghost predicate ClaimsPart(a: seq<Claim>, b: seq<Claim>) {
    (forall c :: c in a ==> c in b) && (forall t :: Count(a, t) <= Count(b, t))
  }

  /** Fees of the projects of the others, whatever their quantity. */
  ghost predicate FeesPart(a: seq<(string, int)>, b: seq<(string, int)>) {
    && (forall f :: f in a ==> (exists g :: g in b && g.0 == f.0) && (f.1 >= 0 || f in b))
    && (forall p :: FeeCount(a, p) <= FeeCount(b, p))
  }

  /** Lines that charge for nothing the others do not. */
  ghost predicate Part(a: seq<RunLine>, b: seq<RunLine>) {
    ClaimsPart(ClaimsOn(a), ClaimsOn(b)) && FeesPart(FeesOn(a), FeesOn(b))
  }

  lemma ClaimsPartSound(entries: map<string, Entry>, a: seq<Claim>, b: seq<Claim>)
    requires ClaimsPart(a, b) && AllBacked(entries, b) && OnceEach(b)
    ensures AllBacked(entries, a) && OnceEach(a)
  {
    forall t ensures Count(a, t) <= 1 {
      assert Count(a, t) <= Count(b, t) <= 1;
    }
  }

  lemma FeesPartSound(projects: map<string, Fees.Project>, a: seq<(string, int)>, b: seq<(string, int)>)
    requires FeesPart(a, b) && FeesKnown(projects, b) && FeesOnce(b)
    ensures FeesKnown(projects, a) && FeesOnce(a)
  {
    forall p ensures FeeCount(a, p) <= 1 {
      assert FeeCount(a, p) <= FeeCount(b, p) <= 1;
    }
  }

  lemma PartSound(s: Store, a: seq<RunLine>, b: seq<RunLine>)
    requires Part(a, b) && LinesSound(s, b)
    ensures LinesSound(s, a)
  {
    ClaimsPartSound(s.entries, ClaimsOn(a), ClaimsOn(b));
    FeesPartSound(s.projects, FeesOn(a), FeesOn(b));
  }

  /** What a push may send out is sound. */
  lemma SentSound(s: Store, lines: seq<RunLine>)
    requires LinesSound(s, lines)
    ensures LinesSound(s, Eligible(lines))
  {
    EligiblePart(lines);
    PartSound(s, Eligible(lines), lines);
  }

  lemma {:induction false} FeeCountNonNegative(fees: seq<(string, int)>, p: string)
    ensures FeeCount(fees, p) >= 0
  {
    if fees == [] {
    } else {
      FeeCountNonNegative(fees[1..], p);
    }
  }

  lemma FeeCountJoin(a: seq<(string, int)>, b: seq<(string, int)>, p: string)
    ensures FeeCount(a + b, p) == FeeCount(a, p) + FeeCount(b, p)
  {
    SumAtAppend(a, b, FeeProject, p, OneFee);
  }

  /** Leaving out claims leaves a part, in front of a part of the rest. */
  lemma ClaimsDropped(a: seq<Claim>, b: seq<Claim>, c: seq<Claim>, d: seq<Claim>)
    requires ClaimsPart(c, d)
    ensures ClaimsPart(a + c, a + b + d)
  {
    forall t ensures Count(a + c, t) <= Count(a + b + d, t) {
      CountJoin(a, c, t);
      CountJoin(a + b, d, t);
      CountJoin(a, b, t);
      CountedIffClaimed(b, t);
      assert Count(c, t) <= Count(d, t);
    }
  }

  lemma FeesDropped(a: seq<(string, int)>, b: seq<(string, int)>, c: seq<(string, int)>, d: seq<(string, int)>)
    requires FeesPart(c, d)
    ensures FeesPart(a + c, a + b + d)
  {
    forall p ensures FeeCount(a + c, p) <= FeeCount(a + b + d, p) {
      FeeCountJoin(a, c, p);
      FeeCountJoin(a + b, d, p);
      FeeCountJoin(a, b, p);
      FeeCountNonNegative(b, p);
      assert FeeCount(c, p) <= FeeCount(d, p);
    }
    forall f | f in a + c ensures exists g :: g in a + b + d && g.0 == f.0 {
      assert f in a ==> f in a + b + d;
      if f in c {
        var g :| g in d && g.0 == f.0;
        assert g in a + b + d;
      }
    }
  }

  /** Leaving out lines leaves a part. */
  lemma PartDropped(a: seq<RunLine>, b: seq<RunLine>, c: seq<RunLine>)
    ensures Part(a + c, a + b + c)
  {
    ClaimsJoin(a, c);
    ClaimsJoin(a + b, c);
    ClaimsJoin(a, b);
    ClaimsDropped(ClaimsOn(a), ClaimsOn(b), ClaimsOn(c), ClaimsOn(c));
    FeesDropped(FeesOn(a), FeesOn(b), FeesOn(c), FeesOn(c));
  }

  lemma ClaimsKept(head: seq<Claim>, kept: bool, c: seq<Claim>, d: seq<Claim>)
    requires ClaimsPart(c, d)
    ensures ClaimsPart((if kept then head else []) + c, head + d)
  {
    if kept {
      ClaimsDropped(head, [], c, d);
      assert head + [] == head;
    } else {
      ClaimsDropped([], head, c, d);
      assert [] + head == head;
    }
  }

  lemma FeesKept(head: seq<(string, int)>, kept: bool, c: seq<(string, int)>, d: seq<(string, int)>)
    requires FeesPart(c, d)
    ensures FeesPart((if kept then head else []) + c, head + d)
  {
    if kept {
      FeesDropped(head, [], c, d);
      assert head + [] == head;
    } else {
      FeesDropped([], head, c, d);
      assert [] + head == head;
    }
  }

  lemma EligibleCharges(lines: seq<RunLine>)
    requires lines != []
    ensures var head, kept, rest := lines[0], lines[0].qboItemId.Some?, lines[1..];
            && ClaimsOn(lines) == LineClaims(head) + ClaimsOn(rest) && FeesOn(lines) == FeeOf(head) + FeesOn(rest)
            && ClaimsOn(Eligible(lines)) == (if kept then LineClaims(head) else []) + ClaimsOn(Eligible(rest))
            && FeesOn(Eligible(lines)) == (if kept then FeeOf(head) else []) + FeesOn(Eligible(rest))
  {
    EligibleHead(lines);
    ClaimsCons(lines[0], Eligible(lines[1..]));
    assert [] + ClaimsOn(Eligible(lines[1..])) == ClaimsOn(Eligible(lines[1..]));
    assert [] + FeesOn(Eligible(lines[1..])) == FeesOn(Eligible(lines[1..]));
  }

  lemma {:induction false} EligiblePart(lines: seq<RunLine>)
    ensures Part(Eligible(lines), lines)
  {
    if lines == [] {
    } else {
      var kept, rest := lines[0].qboItemId.Some?, lines[1..];
      EligiblePart(rest);
      EligibleCharges(lines);
      ClaimsKept(LineClaims(lines[0]), kept, ClaimsOn(Eligible(rest)), ClaimsOn(rest));
      FeesKept(FeeOf(lines[0]), kept, FeesOn(Eligible(rest)), FeesOn(rest));
    }
  }

  lemma EligibleHead(lines: seq<RunLine>)
    requires lines != []
    ensures Eligible(lines) == if lines[0].qboItemId.Some? then [lines[0]] + Eligible(lines[1..]) else Eligible(lines[1..])
  {
  }

  lemma OneLineOn(line: RunLine)
    ensures ClaimsOn([line]) == LineClaims(line) && FeesOn([line]) == FeeOf(line)
  {
    assert [line][1..] == [];
  }

  /** What lines charge for, around one of them. */
  lemma Around(before: seq<RunLine>, line: RunLine, after: seq<RunLine>)
    ensures ClaimsOn(before + [line] + after) == ClaimsOn(before) + LineClaims(line) + ClaimsOn(after)
    ensures FeesOn(before + [line] + after) == FeesOn(before) + FeeOf(line) + FeesOn(after)
  {
    ClaimsJoin(before + [line], after);
    ClaimsJoin(before, [line]);
    OneLineOn(line);
  }

  lemma OneFeeOf(line: RunLine, quantity: int, total: int, item: Option<string>, p: string)
    ensures FeeCount(FeeOf(line.(quantity := quantity, total := total, qboItemId := item)), p) == FeeCount(FeeOf(line), p)
  {
    if line.kind.PROJECT_FEE? {
      assert [(line.kind.project, quantity)][1..] == [] && FeeOf(line)[1..] == [];
    }
  }

  lemma RequantifiedFees(before: seq<(string, int)>, line: RunLine, quantity: nat, total: int, item: Option<string>, after: seq<(string, int)>)
    ensures FeesPart(before + FeeOf(line.(quantity := quantity, total := total, qboItemId := item)) + after, before + FeeOf(line) + after)
  {
    var edited := FeeOf(line.(quantity := quantity, total := total, qboItemId := item));
    forall p ensures FeeCount(before + edited + after, p) <= FeeCount(before + FeeOf(line) + after, p) {
      FeeCountJoin(before + edited, after, p);
      FeeCountJoin(before, edited, p);
      FeeCountJoin(before + FeeOf(line), after, p);
      FeeCountJoin(before, FeeOf(line), p);
      OneFeeOf(line, quantity, total, item, p);
    }
    forall f | f in before + edited + after
      ensures exists g :: g in before + FeeOf(line) + after && g.0 == f.0
      ensures f.1 >= 0 || f in before + FeeOf(line) + after
    {
      if f in before || f in after {
        assert f in before + FeeOf(line) + after;
      } else {
        assert f in edited && FeeOf(line)[0] in before + FeeOf(line) + after;
      }
    }
  }

  lemma EditedAround(lines: seq<RunLine>, k: nat, quantity: nat, total: int, item: Option<string>)
    requires k < |lines|
    ensures lines == lines[..k] + [lines[k]] + lines[k + 1..]
    ensures Edited(lines, k, quantity, total, item)
         == lines[..k] + [lines[k].(quantity := quantity, total := total, qboItemId := item)] + lines[k + 1..]
  {
  }

  lemma EditedCharges(lines: seq<RunLine>, k: nat, quantity: nat, total: int, item: Option<string>)
    requires k < |lines|
    ensures ClaimsOn(Edited(lines, k, quantity, total, item)) == ClaimsOn(lines)
    ensures FeesPart(FeesOn(Edited(lines, k, quantity, total, item)), FeesOn(lines))
  {
    var line := lines[k].(quantity := quantity, total := total, qboItemId := item);
    EditedAround(lines, k, quantity, total, item);
    Around(lines[..k], lines[k], lines[k + 1..]);
    Around(lines[..k], line, lines[k + 1..]);
    assert LineClaims(line) == LineClaims(lines[k]);
    RequantifiedFees(FeesOn(lines[..k]), lines[k], quantity, total, item, FeesOn(lines[k + 1..]));
  }

  lemma SameClaimsPart(a: seq<Claim>)
    ensures ClaimsPart(a, a)
  {
  }

  /** Editing a line changes how much is charged, never for what. */
  lemma EditedPart(lines: seq<RunLine>, k: nat, quantity: nat, total: int, item: Option<string>)
    requires k < |lines|
    ensures Part(Edited(lines, k, quantity, total, item), lines)
    ensures ClaimsOn(Edited(lines, k, quantity, total, item)) == ClaimsOn(lines)
  {
    EditedCharges(lines, k, quantity, total, item);
    SameClaimsPart(ClaimsOn(lines));
  }

  lemma ManualPart(lines: seq<RunLine>, line: RunLine)
    requires line.kind.MANUAL? && line.entries == []
    ensures Part(lines + [line], lines)
  {
    ClaimsJoin(lines, [line]);
    assert LineClaims(line) == [] && ClaimsOn([line]) == [] && FeesOn([line]) == [];
    assert ClaimsOn(lines + [line]) == ClaimsOn(lines) && FeesOn(lines + [line]) == FeesOn(lines);
  }

  // ----- What every step keeps -----

  /** Approved entries stay as they are, or become invoiced. */
  ghost predicate Frozen(before: map<string, Entry>, after: map<string, Entry>) {
    forall id :: id in before && Approved(before[id].status) ==> id in after && after[id].time == before[id].time && Approved(after[id].status)
  }

  lemma BackedStays(before: map<string, Entry>, after: map<string, Entry>, c: Claim)
    requires Frozen(before, after) && Backed(before, c)
    ensures Backed(after, c)
  {
  }

  /** A step that changes one run only, whose lines are sound and whose flag is right. */
  lemma RunChanged(s: Store, r: nat, s': Store)
    requires Sound(s)
    requires s' == s.(runs := s'.runs) && s'.runs.Keys == s.runs.Keys + {r}
    requires forall t :: t in s.runs && t != r ==> s'.runs[t] == s.runs[t]
    requires LinesSound(s, s'.runs[r].lines)
    requires s'.runs[r].invoiced <==> HasInvoice(Those(s.invoices, true), r)
    requires CanPush(s'.runs[r].status) || s'.runs[r].status == PUSHED ==> s'.runs[r].approved == Some(s'.runs[r].lines)
    ensures Sound(s')
  {
    forall t ensures IsBilled(s', t) == IsBilled(s, t) && TimesRecorded(s', t) == TimesRecorded(s, t) {
    }
    forall t | t in s'.runs ensures LinesSound(s', s'.runs[t].lines) {
      assert t != r ==> LinesSound(s, s.runs[t].lines);
    }
  }

  lemma RunRemoved(s: Store, r: nat)
    requires Sound(s)
    ensures Sound(s.(runs := s.runs - {r}))
  {
    var s' := s.(runs := s.runs - {r});
    forall t ensures IsBilled(s', t) == IsBilled(s, t) && TimesRecorded(s', t) == TimesRecorded(s, t) {
    }
    forall t | t in s'.runs ensures LinesSound(s', s'.runs[t].lines) {
      assert LinesSound(s, s.runs[t].lines);
    }
  }

  lemma LinesStaySound(s: Store, s': Store, lines: seq<RunLine>)
    requires LinesSound(s, lines) && Frozen(s.entries, s'.entries) && s.projects.Keys <= s'.projects.Keys
    ensures LinesSound(s', lines)
  {
    forall c | c in ClaimsOn(lines) ensures Backed(s'.entries, c) {
      BackedStays(s.entries, s'.entries, c);
    }
  }

  /** A step on an entry that is not approved yet. */
  lemma EntryChanged(s: Store, s': Store)
    requires Sound(s) && s' == s.(entries := s'.entries) && EntriesOk(s'.entries) && Frozen(s.entries, s'.entries)
    requires forall t :: OneOff(t) ==> (IsBilled(s', t) <==> IsBilled(s, t))
    ensures Sound(s')
  {
    forall t ensures TimesRecorded(s', t) == TimesRecorded(s, t) {
    }
    forall t | t in s'.runs ensures LinesSound(s', s'.runs[t].lines) {
      LinesStaySound(s, s', s.runs[t].lines);
    }
    forall c | c in AllClaims(s'.invoices) ensures Backed(s'.entries, c) {
      BackedStays(s.entries, s'.entries, c);
    }
  }

  lemma {:induction false} AdvancedKeys(projects: map<string, Fees.Project>, fees: seq<(string, int)>)
    ensures Advanced(projects, fees).Keys == projects.Keys
  {
    if fees == [] {
    } else {
      AdvancedKeys(projects, fees[..|fees| - 1]);
    }
  }

  lemma InvoiceAdded(invoices: seq<Invoice>, invoice: Invoice, r: nat)
    ensures HasInvoice(invoices + [invoice], r) <==> HasInvoice(invoices, r) || invoice.runId == r
  {
    var more := invoices + [invoice];
    if HasInvoice(invoices, r) {
      var i :| 0 <= i < |invoices| && invoices[i].runId == r;
      assert more[i].runId == r;
    }
    if invoice.runId == r {
      assert more[|invoices|].runId == r;
    }
  }

  /** Marking goes by the claims that are there. */
  lemma MarkedByClaims(s: Store, r: nat, sent: seq<RunLine>, t: Thing)
    requires r in s.runs && AllBacked(s.entries, ClaimsOn(sent)) && OneOff(t)
    ensures IsBilled(Invoiced(s, r, sent), t) <==> IsBilled(s, t) || exists c :: c in ClaimsOn(sent) && c.thing == t
  {
    if c :| c in ClaimsOn(sent) && c.thing == t {
      assert Backed(s.entries, c);
    }
  }

  /** A push marks exactly what it sends. */
  lemma PushMarks(s: Store, r: nat, t: Thing)
    requires r in s.runs && RunsSound(s) && OneOff(t)
    ensures var sent := Eligible(s.runs[r].lines);
            IsBilled(Invoiced(s, r, sent), t) <==> IsBilled(s, t) || Count(ClaimsOn(sent), t) > 0
  {
    var sent := Eligible(s.runs[r].lines);
    SentSound(s, s.runs[r].lines);
    MarkedByClaims(s, r, sent, t);
    CountedIffClaimed(ClaimsOn(sent), t);
  }

  lemma PushKeepsMarked(s: Store, r: nat)
    requires Sound(s) && r in s.runs
    ensures Marked(Invoiced(s, r, Eligible(s.runs[r].lines)))
  {
    var sent := Eligible(s.runs[r].lines);
    var s', invoice := Invoiced(s, r, sent), Invoice(r, s.runs[r].period, sent, true);
    ThosePushed(s.invoices, invoice, true);
    forall t | OneOff(t) ensures IsBilled(s', t) <==> TimesRecorded(s', t) > 0 {
      PushMarks(s, r, t);
      CountPushed(Those(s.invoices, true), invoice, t);
      CountedIffClaimed(AllClaims(Those(s.invoices, true)), t);
      CountedIffClaimed(ClaimsOn(sent), t);
      assert IsBilled(s, t) <==> TimesRecorded(s, t) > 0;
    }
  }

  lemma PushFreezes(s: Store, r: nat)
    requires EntriesOk(s.entries) && r in s.runs
    ensures var s' := Invoiced(s, r, Eligible(s.runs[r].lines));
            EntriesOk(s'.entries) && Frozen(s.entries, s'.entries) && s'.projects.Keys == s.projects.Keys
  {
    AdvancedKeys(s.projects, FeesOn(Eligible(s.runs[r].lines)));
  }

  lemma PushKeepsLines(s: Store, r: nat)
    requires Sound(s) && r in s.runs
    ensures RunsSound(Invoiced(s, r, Eligible(s.runs[r].lines)))
  {
    var s' := Invoiced(s, r, Eligible(s.runs[r].lines));
    PushFreezes(s, r);
    forall t | t in s'.runs ensures LinesSound(s', s'.runs[t].lines) {
      LinesStaySound(s, s', s.runs[t].lines);
    }
  }

  lemma AllStayBacked(before: map<string, Entry>, after: map<string, Entry>, claims: seq<Claim>)
    requires Frozen(before, after) && AllBacked(before, claims)
    ensures AllBacked(after, claims)
  {
    forall c | c in claims ensures Backed(after, c) {
      BackedStays(before, after, c);
    }
  }

  /** Whatever becomes of the commit, what is on the invoices stays backed. */
  lemma SentStaysBacked(s: Store, r: nat, after: map<string, Entry>, recorded: bool)
    requires Sound(s) && r in s.runs && Frozen(s.entries, after)
    ensures AllBacked(after, AllClaims(s.invoices + [Invoice(r, s.runs[r].period, Eligible(s.runs[r].lines), recorded)]))
  {
    var invoice := Invoice(r, s.runs[r].period, Eligible(s.runs[r].lines), recorded);
    assert LinesSound(s, s.runs[r].lines);
    SentSound(s, s.runs[r].lines);
    ClaimsPushed(s.invoices, invoice);
    AllStayBacked(s.entries, after, AllClaims(s.invoices));
    AllStayBacked(s.entries, after, ClaimsOn(invoice.lines));
  }

  lemma PushKeepsFlags(s: Store, r: nat)
    requires Sound(s) && r in s.runs
    ensures Flagged(Invoiced(s, r, Eligible(s.runs[r].lines)))
  {
    var s' := Invoiced(s, r, Eligible(s.runs[r].lines));
    var invoice := Invoice(r, s.runs[r].period, Eligible(s.runs[r].lines), true);
    ThosePushed(s.invoices, invoice, true);
    forall t | t in s'.runs ensures s'.runs[t].invoiced <==> HasInvoice(Those(s'.invoices, true), t) {
      InvoiceAdded(Those(s.invoices, true), invoice, t);
    }
  }

  lemma PushKeepsSound(s: Store, r: nat)
    requires Sound(s) && r in s.runs && CanPush(s.runs[r].status)
    ensures Sound(Invoiced(s, r, Eligible(s.runs[r].lines)))
  {
    PushKeepsMarked(s, r);
    PushFreezes(s, r);
    PushKeepsLines(s, r);
    PushKeepsBacked(s, r);
    PushKeepsFlags(s, r);
    PushKeepsSigned(s, r);
  }

  lemma PushKeepsBacked(s: Store, r: nat)
    requires Sound(s) && r in s.runs
    ensures InvoicesBacked(Invoiced(s, r, Eligible(s.runs[r].lines)))
  {
    PushFreezes(s, r);
    SentStaysBacked(s, r, Invoiced(s, r, Eligible(s.runs[r].lines)).entries, true);
  }

  lemma PushKeepsSigned(s: Store, r: nat)
    requires Signed(s) && r in s.runs && CanPush(s.runs[r].status)
    ensures Signed(Invoiced(s, r, Eligible(s.runs[r].lines)))
  {
  }

  lemma FailedKeepsSound(s: Store, r: nat)
    requires Sound(s) && r in s.runs && CanPush(s.runs[r].status)
    ensures Sound(Failed(s, r))
  {
    assert LinesSound(s, s.runs[r].lines);
    RunChanged(s, r, Failed(s, r));
  }

  /** A commit that fails leaves the store as sound as a refusal does. */
  lemma LostKeepsSound(s: Store, r: nat)
    requires Sound(s) && r in s.runs && CanPush(s.runs[r].status)
    ensures Sound(Lost(s, r, Eligible(s.runs[r].lines)))
  {
    var s', sent := Failed(s, r), Eligible(s.runs[r].lines);
    FailedKeepsSound(s, r);
    ThosePushed(s.invoices, Invoice(r, s.runs[r].period, sent, false), true);
    SentStaysBacked(s, r, s.entries, false);
    OnlyInvoicesChanged(s', Lost(s, r, sent));
  }

  lemma OnlyInvoicesChanged(s: Store, s': Store)
    requires Sound(s) && s' == s.(invoices := s'.invoices) && Those(s'.invoices, true) == Those(s.invoices, true) && InvoicesBacked(s')
    ensures Sound(s')
  {
    forall t ensures IsBilled(s', t) == IsBilled(s, t) && TimesRecorded(s', t) == TimesRecorded(s, t) {
    }
    forall r | r in s'.runs ensures LinesSound(s', s'.runs[r].lines) {
      assert LinesSound(s, s.runs[r].lines);
    }
  }

  lemma GeneratedSound(s: Store, period: Period, lines: seq<RunLine>)
    requires Generable(s, period, lines)
    ensures LinesSound(s, lines)
  {
  }

  /** Entries change without touching what is approved or marking anything. */
  ghost predicate Quiet(before: map<string, Entry>, after: map<string, Entry>) {
    && EntriesOk(after) && Frozen(before, after)
    && forall id :: (id in after && after[id].status == INVOICED) <==> (id in before && before[id].status == INVOICED)
  }

  lemma SaveIsQuiet(entries: map<string, Entry>, time: SfGenerate.TimeEntry)
    requires EntriesOk(entries) && time.hours > 0 && (time.id in entries ==> OpenEntry(entries, time.id))
    ensures Quiet(entries, Saved(entries, time))
  {
  }

  lemma MoveIsQuiet(entries: map<string, Entry>, id: string, to: EntryStatus)
    requires EntriesOk(entries) && id in entries && to in EntryMoves(entries[id].status)
    ensures Quiet(entries, entries[id := entries[id].(status := to)])
  {
  }

  lemma DropIsQuiet(entries: map<string, Entry>, id: string)
    requires EntriesOk(entries) && OpenEntry(entries, id)
    ensures Quiet(entries, entries - {id})
  {
  }

  /** Steps on entries keep what is approved and mark nothing. */
  lemma EntryStepIsQuiet(s: Store, step: Step)
    requires EntriesOk(s.entries) && (step.SaveEntry? || step.MoveEntry? || step.DropEntry?)
    ensures var s' := Apply(s, step); s' == s.(entries := s'.entries) && Quiet(s.entries, s'.entries)
  {
    if Enabled(s, step) {
      match step
      case SaveEntry(time) => SaveIsQuiet(s.entries, time);
      case MoveEntry(id, to) => MoveIsQuiet(s.entries, id, to);
      case DropEntry(id) => DropIsQuiet(s.entries, id);
    }
  }

  lemma EntryStepKeepsSound(s: Store, step: Step)
    requires Sound(s) && (step.SaveEntry? || step.MoveEntry? || step.DropEntry?)
    ensures Sound(Apply(s, step))
  {
    EntryStepIsQuiet(s, step);
    EntryChanged(s, Apply(s, step));
  }

  /** The lines of a draft may be replaced by a part of them. */
  lemma LinesReplaced(s: Store, r: nat, lines: seq<RunLine>)
    requires Sound(s) && Editable(s, r) && Part(lines, s.runs[r].lines)
    ensures Sound(WithLines(s, r, lines))
  {
    PartSound(s, lines, s.runs[r].lines);
    RunChanged(s, r, WithLines(s, r, lines));
  }

  lemma LinesDeleted(lines: seq<RunLine>, k: nat)
    requires k < |lines|
    ensures Part(lines[..k] + lines[k + 1..], lines)
  {
    PartDropped(lines[..k], [lines[k]], lines[k + 1..]);
    assert lines == lines[..k] + [lines[k]] + lines[k + 1..];
  }

  /** What is left of a run after its lines are edited is a part of what it was. */
  lemma LineStepPart(s: Store, step: Step)
    requires (step.EditLine? || step.AddManual? || step.DeleteManual?) && Enabled(s, step)
    ensures Editable(s, step.runId) && step.runId in Apply(s, step).runs
    ensures Apply(s, step) == WithLines(s, step.runId, Apply(s, step).runs[step.runId].lines)
    ensures Part(Apply(s, step).runs[step.runId].lines, s.runs[step.runId].lines)
  {
    var lines := s.runs[step.runId].lines;
    match step
    case EditLine(_, k, quantity, total, item) => EditedPart(lines, k, quantity, total, item);
    case AddManual(_, quantity, total, item) => ManualPart(lines, RunLine(MANUAL, quantity, total, item, []));
    case DeleteManual(_, k) => LinesDeleted(lines, k);
  }

  lemma LineStepKeepsSound(s: Store, step: Step)
    requires Sound(s) && (step.EditLine? || step.AddManual? || step.DeleteManual?)
    ensures Sound(Apply(s, step))
  {
    if Enabled(s, step) {
      LineStepPart(s, step);
      LinesReplaced(s, step.runId, Apply(s, step).runs[step.runId].lines);
    }
  }

  lemma {:induction false} RecordedHere(invoices: seq<Invoice>, r: nat)
    ensures HasInvoice(Those(invoices, true), r) ==> HasInvoice(invoices, r)
  {
    if invoices == [] {
    } else {
      var init, last := invoices[..|invoices| - 1], invoices[|invoices| - 1];
      assert invoices == init + [last];
      RecordedHere(init, r);
      InvoiceAdded(init, last, r);
      InvoiceAdded(Those(init, true), last, r);
    }
  }

  lemma GenerateKeepsSound(s: Store, step: Step)
    requires Sound(s) && step.Generate?
    ensures Sound(Apply(s, step))
  {
    if Enabled(s, step) {
      GeneratedSound(s, step.period, step.lines);
      RecordedHere(s.invoices, step.runId);
      RunChanged(s, step.runId, Apply(s, step));
    }
  }

  lemma StatusMoved(s: Store, r: nat, to: Status)
    requires Sound(s) && r in s.runs && to in Transitions(s.runs[r].status)
    ensures Sound(s.(runs := s.runs[r := Moved(s.runs[r], to)]))
  {
    assert LinesSound(s, s.runs[r].lines);
    RunChanged(s, r, s.(runs := s.runs[r := Moved(s.runs[r], to)]));
  }

  lemma StatusStepKeepsSound(s: Store, step: Step)
    requires Sound(s) && (step.Transition? || step.DeleteRun?)
    ensures Sound(Apply(s, step))
  {
    if Enabled(s, step) {
      if step.Transition? {
        StatusMoved(s, step.runId, step.to);
      } else {
        RunRemoved(s, step.runId);
      }
    }
  }

  lemma PushStepKeepsSound(s: Store, step: Step)
    requires Sound(s) && step.Push?
    ensures Sound(Apply(s, step))
  {
    if Enabled(s, step) {
      match step.outcome
      case REFUSED => FailedKeepsSound(s, step.runId);
      case RECORDED => PushKeepsSound(s, step.runId);
      case UNRECORDED => LostKeepsSound(s, step.runId);
    }
  }

  /** Every step keeps the store sound. */
  lemma StepKeepsSound(s: Store, step: Step)
    requires Sound(s)
    ensures Sound(Apply(s, step))
  {
    match step
    case SaveEntry(_) => EntryStepKeepsSound(s, step);
    case MoveEntry(_, _) => EntryStepKeepsSound(s, step);
    case DropEntry(_) => EntryStepKeepsSound(s, step);
    case Generate(_, _, _) => GenerateKeepsSound(s, step);
    case Transition(_, _) => StatusStepKeepsSound(s, step);
    case EditLine(_, _, _, _, _) => LineStepKeepsSound(s, step);
    case AddManual(_, _, _, _) => LineStepKeepsSound(s, step);
    case DeleteManual(_, _) => LineStepKeepsSound(s, step);
    case DeleteRun(_) => StatusStepKeepsSound(s, step);
    case Push(_, _) => PushStepKeepsSound(s, step);
  }

  lemma {:induction false} AlwaysSound(s: Store, steps: seq<Step>)
    requires Initial(s)
    ensures Sound(After(s, steps))
  {
    if steps == [] {
      forall t ensures !IsBilled(s, t) && TimesRecorded(s, t) == 0 {
      }
    } else {
      AlwaysSound(s, steps[..|steps| - 1]);
      StepKeepsSound(After(s, steps[..|steps| - 1]), steps[|steps| - 1]);
    }
  }

  lemma AfterOneMore(s: Store, steps: seq<Step>, step: Step)
    ensures After(s, steps + [step]) == Apply(After(s, steps), step)
  {
    assert (steps + [step])[..|steps|] == steps;
  }

  // ----- What a reader of the store can rely on -----

  /**
   * At every point of every history a time entry, block or deposit is marked as billed exactly
   * when it is on a recorded invoice; on any invoice, as long as no commit has failed.
   */
  lemma BilledIffOnInvoice(s: Store, steps: seq<Step>, t: Thing)
    requires Initial(s) && OneOff(t)
    ensures var now := After(s, steps);
            && (IsBilled(now, t) <==> TimesRecorded(now, t) > 0)
            && TimesRecorded(now, t) <= TimesInvoiced(now, t)
            && (Never(Loses, s, steps) ==> (IsBilled(now, t) <==> TimesInvoiced(now, t) > 0))
  {
    AlwaysSound(s, steps);
    var now := After(s, steps);
    RecordedAndLost(now.invoices, t);
    CountedIffClaimed(AllClaims(Those(now.invoices, false)), t);
    if Never(Loses, s, steps) {
      NothingLost(s, steps);
    }
  }

  /** QuickBooks has the invoice and the store does not know. */
  ghost predicate Loses(s: Store, step: Step) {
    step.Push? && step.outcome == UNRECORDED && Enabled(s, step)
  }

  lemma {:induction false} NothingLost(s: Store, steps: seq<Step>)
    requires Initial(s) && Never(Loses, s, steps)
    ensures Those(After(s, steps).invoices, false) == [] && Those(After(s, steps).invoices, true) == After(s, steps).invoices
  {
    if steps == [] {
    } else {
      var before, step := After(s, steps[..|steps| - 1]), steps[|steps| - 1];
      NothingLost(s, steps[..|steps| - 1]);
      InvoicesAfter(before, step);
      if Sends(before, step) {
        ThosePushed(before.invoices, Sent(before, step), true);
        ThosePushed(before.invoices, Sent(before, step), false);
      }
    }
  }

  /** A run says it has been invoiced exactly when a recorded invoice of its own exists. */
  lemma InvoicedIffInvoice(s: Store, steps: seq<Step>, runId: nat)
    requires Initial(s) && runId in After(s, steps).runs
    ensures After(s, steps).runs[runId].invoiced <==> HasInvoice(Those(After(s, steps).invoices, true), runId)
    ensures Never(Loses, s, steps) ==> (After(s, steps).runs[runId].invoiced <==> HasInvoice(After(s, steps).invoices, runId))
  {
    AlwaysSound(s, steps);
    if Never(Loses, s, steps) {
      NothingLost(s, steps);
    }
  }

  /** A run went out: it had been approved, and its invoice is the mapped part of the lines approved. */
  ghost predicate SentAsApproved(before: Store, after: Store, runId: nat, recorded: bool) {
    && runId in before.runs && before.runs[runId].approved.Some?
    && after.invoices
       == before.invoices + [Invoice(runId, before.runs[runId].period, Eligible(before.runs[runId].approved.value), recorded)]
  }

  /** What a push sends is the mapped part of the lines last approved, and the run was approved first. */
  lemma PushSendsApprovedLines(s: Store, steps: seq<Step>, runId: nat, outcome: Outcome)
    requires Initial(s) && Enabled(After(s, steps), Push(runId, outcome)) && outcome != REFUSED
    ensures SentAsApproved(After(s, steps), After(s, steps + [Push(runId, outcome)]), runId, outcome == RECORDED)
  {
    AlwaysSound(s, steps);
    AfterOneMore(s, steps, Push(runId, outcome));
  }

  lemma PushedStays(s: Store, step: Step, runId: nat)
    requires runId in s.runs && s.runs[runId].status == PUSHED
    ensures runId in Apply(s, step).runs && Apply(s, step).runs[runId] == s.runs[runId]
  {
  }

  /** A run that is PUSHED was approved, was never edited since, and is finished. */
  lemma PushedIsFinal(s: Store, steps: seq<Step>, step: Step, runId: nat)
    requires Initial(s)
    requires var now := After(s, steps); runId in now.runs && now.runs[runId].status == PUSHED
    ensures var now := After(s, steps);
            && now.runs[runId].approved == Some(now.runs[runId].lines)
            && runId in Apply(now, step).runs && Apply(now, step).runs[runId] == now.runs[runId]
  {
    AlwaysSound(s, steps);
    PushedStays(After(s, steps), step, runId);
  }

  // ----- Histories without a certain step -----

  /** No step of the history was of the kind `bad`, at the store it was made in. */
  ghost predicate Never(bad: (Store, Step) -> bool, s: Store, steps: seq<Step>) {
    steps == [] || (Never(bad, s, steps[..|steps| - 1]) && !bad(After(s, steps[..|steps| - 1]), steps[|steps| - 1]))
  }

  /** Whether a step sends out an invoice. */
  ghost predicate Sends(s: Store, step: Step) {
    step.Push? && step.outcome != REFUSED && Enabled(s, step)
  }

  /** The invoice it sends out. */
  ghost function Sent(s: Store, step: Step): Invoice
    requires Sends(s, step)
  {
    Invoice(step.runId, s.runs[step.runId].period, Eligible(s.runs[step.runId].lines), step.outcome == RECORDED)
  }

  lemma InvoicesAfter(s: Store, step: Step)
    ensures Apply(s, step).invoices == if Sends(s, step) then s.invoices + [Sent(s, step)] else s.invoices
  {
  }

  // ----- Exactly when nothing is billed twice -----

  /**
   * What a caller can check before a push: something about to be sent is marked as billed, or
   * is on an invoice whose commit failed.
   */
  ghost predicate SendsBilled(s: Store, step: Step) {
    && Sends(s, step)
    && exists c :: c in ClaimsOn(Sent(s, step).lines) && OneOff(c.thing) && (IsBilled(s, c.thing) || TimesLost(s, c.thing) > 0)
  }

  /** No time entry, block or deposit is charged for twice; recurring fees have their own rule (SfRecurring). */
  ghost predicate BilledAtMostOnce(s: Store) {
    forall t :: OneOff(t) ==> TimesInvoiced(s, t) <= 1
  }

  lemma CountsAfter(s: Store, step: Step, t: Thing)
    ensures TimesInvoiced(Apply(s, step), t) == TimesInvoiced(s, t) + if Sends(s, step) then Count(ClaimsOn(Sent(s, step).lines), t) else 0
  {
    InvoicesAfter(s, step);
    if Sends(s, step) {
      CountPushed(s.invoices, Sent(s, step), t);
    }
  }

  lemma CountsNeverFall(s: Store, step: Step, t: Thing)
    ensures TimesInvoiced(s, t) <= TimesInvoiced(Apply(s, step), t)
  {
    CountsAfter(s, step, t);
    if Sends(s, step) {
      CountedIffClaimed(ClaimsOn(Sent(s, step).lines), t);
    }
  }

  /** A thing is on some invoice exactly when it is marked, or its commit failed. */
  lemma OnInvoice(s: Store, t: Thing)
    requires Marked(s) && OneOff(t)
    ensures TimesInvoiced(s, t) > 0 <==> IsBilled(s, t) || TimesLost(s, t) > 0
    ensures TimesInvoiced(s, t) >= 0
  {
    RecordedAndLost(s.invoices, t);
    CountedIffClaimed(AllClaims(Those(s.invoices, true)), t);
    CountedIffClaimed(AllClaims(Those(s.invoices, false)), t);
  }

  lemma SentAtMostOnce(s: Store, step: Step, t: Thing)
    requires Sound(s) && Sends(s, step)
    ensures 0 <= Count(ClaimsOn(Sent(s, step).lines), t) <= 1
  {
    assert LinesSound(s, s.runs[step.runId].lines);
    SentSound(s, s.runs[step.runId].lines);
    CountedIffClaimed(ClaimsOn(Sent(s, step).lines), t);
  }

  /** A thing that is sent now, and has been before, is charged for twice; what is sent for the first time is not. */
  lemma SentNow(s: Store, step: Step, t: Thing)
    requires Sound(s) && Sends(s, step) && OneOff(t) && TimesInvoiced(s, t) <= 1
    ensures TimesInvoiced(Apply(s, step), t) <= 1 <==>
              !((IsBilled(s, t) || TimesLost(s, t) > 0) && exists c :: c in ClaimsOn(Sent(s, step).lines) && c.thing == t)
  {
    CountsAfter(s, step, t);
    SentAtMostOnce(s, step, t);
    OnInvoice(s, t);
    CountedIffClaimed(ClaimsOn(Sent(s, step).lines), t);
  }

  lemma CleanPush(s: Store, step: Step)
    requires Sound(s) && BilledAtMostOnce(s) && Sends(s, step)
    ensures BilledAtMostOnce(Apply(s, step)) <==> !SendsBilled(s, step)
  {
    if SendsBilled(s, step) {
      var c :| c in ClaimsOn(Sent(s, step).lines) && OneOff(c.thing) && (IsBilled(s, c.thing) || TimesLost(s, c.thing) > 0);
      SentNow(s, step, c.thing);
    } else {
      forall t | OneOff(t) ensures TimesInvoiced(Apply(s, step), t) <= 1 {
        SentNow(s, step, t);
      }
    }
  }

  lemma CleanStep(s: Store, step: Step)
    requires Sound(s) && BilledAtMostOnce(s)
    ensures BilledAtMostOnce(Apply(s, step)) <==> !SendsBilled(s, step)
  {
    if Sends(s, step) {
      CleanPush(s, step);
    } else {
      forall t ensures TimesInvoiced(Apply(s, step), t) == TimesInvoiced(s, t) {
        CountsAfter(s, step, t);
      }
    }
  }

  /** Over any history: nothing is charged for twice if and only if no push sent what was marked, or lost, before. */
  lemma {:induction false} NothingBilledTwiceIff(s: Store, steps: seq<Step>)
    requires Initial(s)
    ensures BilledAtMostOnce(After(s, steps)) <==> Never(SendsBilled, s, steps)
  {
    if steps == [] {
      forall t ensures TimesInvoiced(s, t) == 0 {
      }
    } else {
      var init, step := steps[..|steps| - 1], steps[|steps| - 1];
      var before := After(s, init);
      NothingBilledTwiceIff(s, init);
      AlwaysSound(s, init);
      if BilledAtMostOnce(before) {
        CleanStep(before, step);
      } else {
        var t :| OneOff(t) && TimesInvoiced(before, t) > 1;
        CountsNeverFall(before, step, t);
      }
    }
  }

  lemma {:induction false} HoursAtMost(entries: map<string, Entry>, claims: seq<Claim>, id: string)
    requires forall c :: c in claims ==> Backed(entries, c)
    requires id in entries
    ensures 0 <= SumAt(claims, ThingOf, Time(id), HoursOf) <= Count(claims, Time(id)) * entries[id].time.hours
    ensures SumAt(claims, ThingOf, Time(id), HoursOf) > 0 <==> Count(claims, Time(id)) > 0
  {
    if claims == [] {
    } else {
      HoursAtMost(entries, claims[1..], id);
      CountedIffClaimed(claims[1..], Time(id));
      assert Backed(entries, claims[0]);
      Grows(Count(claims[1..], Time(id)), entries[id].time.hours);
    }
  }

  lemma Grows(n: int, h: int)
    ensures (n + 1) * h == n * h + h
  {
  }

  /** Hours invoiced for an entry are within its logged hours for each time it is charged for. */
  lemma HoursWithin(s: Store, id: string)
    requires Sound(s) && id in s.entries
    ensures 0 <= HoursInvoiced(s, id) <= TimesInvoiced(s, Time(id)) * s.entries[id].time.hours
    ensures HoursInvoiced(s, id) > 0 <==> s.entries[id].status == INVOICED || TimesLost(s, Time(id)) > 0
    ensures TimesInvoiced(s, Time(id)) <= 1 ==> HoursInvoiced(s, id) <= s.entries[id].time.hours
  {
    HoursAtMost(s.entries, AllClaims(s.invoices), id);
    CountedIffClaimed(AllClaims(s.invoices), Time(id));
    OnInvoice(s, Time(id));
    if TimesInvoiced(s, Time(id)) <= 1 {
      assert TimesInvoiced(s, Time(id)) == 0 || TimesInvoiced(s, Time(id)) == 1;
    }
  }

  /**
   * Over any history, the hours invoiced for an entry are within its logged hours for each
   * time it was charged for; so within them altogether as long as no push sent what was billed.
   */
  lemma HoursInvoicedWithinLogged(s: Store, steps: seq<Step>, id: string)
    requires Initial(s) && id in After(s, steps).entries
    ensures var now := After(s, steps);
            && 0 <= HoursInvoiced(now, id) <= TimesInvoiced(now, Time(id)) * now.entries[id].time.hours
            && (HoursInvoiced(now, id) > 0 <==> now.entries[id].status == INVOICED || TimesLost(now, Time(id)) > 0)
            && (Never(SendsBilled, s, steps) ==> HoursInvoiced(now, id) <= now.entries[id].time.hours)
  {
    AlwaysSound(s, steps);
    HoursWithin(After(s, steps), id);
    NothingBilledTwiceIff(s, steps);
  }

  // ----- A discipline that keeps every push clean -----

  /** A run that has not been sent and still could be. */
  predicate Unsent(s: Store, r: nat) {
    r in s.runs && !HasInvoice(s.invoices, r) && s.runs[r].status != CANCELLED && s.runs[r].status != PUSHED
  }

  ghost predicate OnRun(run: Run, t: Thing) {
    Count(ClaimsOn(run.lines), t) > 0
  }

  /** A run that will charge for a thing. */
  ghost predicate Holds(s: Store, r: nat, t: Thing) {
    Unsent(s, r) && OnRun(s.runs[r], t)
  }

  ghost predicate OnUnsentRun(s: Store, t: Thing) {
    exists r :: Holds(s, r, t)
  }

  /** Generates a thing that is on an unsent run or a lost invoice, or pushes a run that has an invoice, lost or not. */
  ghost predicate Careless(s: Store, step: Step) {
    || (step.Generate? && exists c :: c in ClaimsOn(step.lines) && OneOff(c.thing) && (OnUnsentRun(s, c.thing) || TimesLost(s, c.thing) > 0))
    || (step.Push? && HasInvoice(s.invoices, step.runId))
  }

  /** Unsent runs share nothing, and hold nothing that is on an invoice. */
  ghost predicate Apart(s: Store) {
    && (forall r, t :: OneOff(t) && Holds(s, r, t) ==> TimesInvoiced(s, t) <= 0)
    && (forall q, r, t :: q != r && OneOff(t) && Holds(s, q, t) ==> !Holds(s, r, t))
  }

  /** A step that sends nothing, after which every unsent run holds what it held before. */
  lemma HoldLess(s: Store, s': Store)
    requires Apart(s) && s'.invoices == s.invoices
    requires forall r, t :: Holds(s', r, t) ==> Holds(s, r, t)
    ensures Apart(s')
  {
    forall t ensures TimesInvoiced(s', t) == TimesInvoiced(s, t) {
    }
  }

  /** What goes out with a run was on that run alone. */
  lemma SentIsNotOn(s: Store, step: Step, q: nat, t: Thing)
    requires Apart(s) && Sends(s, step) && Unsent(s, step.runId)
    requires OneOff(t) && q != step.runId && Holds(s, q, t)
    ensures TimesInvoiced(Apply(s, step), t) <= 0
  {
    SentIsOnRun(s, step, t);
    CountsAfter(s, step, t);
    assert !Holds(s, step.runId, t);
  }

  lemma SentIsOnRun(s: Store, step: Step, t: Thing)
    requires Sends(s, step)
    ensures Count(ClaimsOn(Sent(s, step).lines), t) > 0 ==> OnRun(s.runs[step.runId], t)
  {
    EligiblePart(s.runs[step.runId].lines);
    assert Count(ClaimsOn(Sent(s, step).lines), t) <= Count(ClaimsOn(s.runs[step.runId].lines), t);
  }

  lemma StillUnsent(s: Store, step: Step, q: nat)
    requires Sends(s, step) && Unsent(Apply(s, step), q)
    ensures Unsent(s, q) && q != step.runId && Apply(s, step).runs[q].lines == s.runs[q].lines
  {
    InvoicesAfter(s, step);
    InvoiceAdded(s.invoices, Sent(s, step), q);
  }

  lemma PushKeepsApart(s: Store, step: Step)
    requires Sound(s) && Apart(s) && Sends(s, step) && !HasInvoice(s.invoices, step.runId)
    ensures Apart(Apply(s, step))
  {
    var s' := Apply(s, step);
    forall r, t | OneOff(t) && Holds(s', r, t) ensures Holds(s, r, t) && TimesInvoiced(s', t) <= 0 {
      StillUnsent(s, step, r);
      SentIsNotOn(s, step, r, t);
    }
  }

  /** What a careful step generates is on no unsent run and on no invoice. */
  lemma GeneratedIsNew(s: Store, step: Step, t: Thing)
    requires Marked(s) && step.Generate? && Enabled(s, step) && !Careless(s, step)
    requires OneOff(t) && Count(ClaimsOn(step.lines), t) > 0
    ensures TimesInvoiced(s, t) <= 0 && !OnUnsentRun(s, t)
  {
    CountedIffClaimed(ClaimsOn(step.lines), t);
    var c :| c in ClaimsOn(step.lines) && c.thing == t;
    assert Ready(s, step.period, c.thing);
    OnInvoice(s, t);
  }

  lemma GenerateKeepsApart(s: Store, step: Step)
    requires Sound(s) && Apart(s) && step.Generate? && Enabled(s, step) && !Careless(s, step)
    ensures Apart(Apply(s, step))
  {
    var s' := Apply(s, step);
    forall r, t | OneOff(t) && Holds(s', r, t)
      ensures TimesInvoiced(s', t) == TimesInvoiced(s, t) <= 0
      ensures if r == step.runId then !OnUnsentRun(s, t) else Holds(s, r, t)
    {
      if r == step.runId {
        GeneratedIsNew(s, step, t);
      } else {
        assert Holds(s, r, t);
      }
    }
    forall q, r, t | q != r && OneOff(t) && Holds(s', q, t) ensures !Holds(s', r, t) {
      assert Holds(s, q, t) || Holds(s, r, t) ==> OnUnsentRun(s, t);
    }
  }

  /** Other steps leave an unsent run with what it held, or less. */
  lemma HeldBefore(s: Store, step: Step, r: nat, t: Thing)
    requires !step.Generate? && !Sends(s, step) && Holds(Apply(s, step), r, t)
    ensures Holds(s, r, t)
  {
    InvoicesAfter(s, step);
    if (step.EditLine? || step.AddManual? || step.DeleteManual?) && Enabled(s, step) {
      LineStepPart(s, step);
      if r == step.runId {
        assert Count(ClaimsOn(Apply(s, step).runs[r].lines), t) <= Count(ClaimsOn(s.runs[r].lines), t);
      }
    }
  }

  lemma CarefulStepKeepsApart(s: Store, step: Step)
    requires Sound(s) && Apart(s) && !Careless(s, step)
    ensures Apart(Apply(s, step))
  {
    if step.Generate? && Enabled(s, step) {
      GenerateKeepsApart(s, step);
    } else if Sends(s, step) {
      PushKeepsApart(s, step);
    } else if !step.Generate? {
      InvoicesAfter(s, step);
      forall r, t | Holds(Apply(s, step), r, t) ensures Holds(s, r, t) {
        HeldBefore(s, step, r, t);
      }
      HoldLess(s, Apply(s, step));
    }
  }

  lemma CarefulIsClean(s: Store, step: Step)
    requires Sound(s) && Apart(s) && !Careless(s, step)
    ensures !SendsBilled(s, step)
  {
    if SendsBilled(s, step) {
      var c :| c in ClaimsOn(Sent(s, step).lines) && OneOff(c.thing) && (IsBilled(s, c.thing) || TimesLost(s, c.thing) > 0);
      EligiblePart(s.runs[step.runId].lines);
      CountedIffClaimed(ClaimsOn(s.runs[step.runId].lines), c.thing);
      OnInvoice(s, c.thing);
      assert Holds(s, step.runId, c.thing);
      assert false;
    }
  }

  /** Under that discipline no time entry, block or deposit is ever charged for twice. */
  lemma {:induction false} CarefulNeverBillsTwice(s: Store, steps: seq<Step>)
    requires Initial(s) && Never(Careless, s, steps)
    ensures Apart(After(s, steps)) && Never(SendsBilled, s, steps) && BilledAtMostOnce(After(s, steps))
  {
    NothingBilledTwiceIff(s, steps);
    if steps == [] {
    } else {
      var init, step := steps[..|steps| - 1], steps[|steps| - 1];
      CarefulNeverBillsTwice(s, init);
      AlwaysSound(s, init);
      CarefulStepKeepsApart(After(s, init), step);
      CarefulIsClean(After(s, init), step);
    }
  }

  // ----- Exactly when PUSHED means invoiced -----

  /** A transition to PUSHED of a run that has no invoice. */
  ghost predicate ByHand(s: Store, step: Step) {
    step.Transition? && step.to == PUSHED && Enabled(s, step) && !HasInvoice(s.invoices, step.runId)
  }

  ghost predicate PushedRunsInvoiced(s: Store) {
    forall r :: r in s.runs && s.runs[r].status == PUSHED ==> HasInvoice(s.invoices, r)
  }

  lemma InvoicesStay(s: Store, step: Step, r: nat)
    ensures HasInvoice(s.invoices, r) ==> HasInvoice(Apply(s, step).invoices, r)
    ensures HasInvoice(Apply(s, step).invoices, r) ==> HasInvoice(s.invoices, r) || (Sends(s, step) && step.runId == r)
  {
    InvoicesAfter(s, step);
    if Sends(s, step) {
      InvoiceAdded(s.invoices, Sent(s, step), r);
    }
  }

  /** A run gets to PUSHED by a transition or by a push, and stays there. */
  lemma BecomesPushed(s: Store, step: Step, r: nat)
    requires r in Apply(s, step).runs && Apply(s, step).runs[r].status == PUSHED
    ensures (r in s.runs && s.runs[r].status == PUSHED) || (step == Transition(r, PUSHED) && Enabled(s, step))
         || (Sends(s, step) && step.runId == r)
  {
  }

  lemma SentIsThere(s: Store, step: Step)
    requires Sends(s, step)
    ensures HasInvoice(Apply(s, step).invoices, step.runId)
  {
    InvoicesAfter(s, step);
    InvoiceAdded(s.invoices, Sent(s, step), step.runId);
  }

  lemma PushedStep(s: Store, step: Step)
    ensures PushedRunsInvoiced(Apply(s, step)) <==> PushedRunsInvoiced(s) && !ByHand(s, step)
  {
    var s' := Apply(s, step);
    if !PushedRunsInvoiced(s) {
      var r :| r in s.runs && s.runs[r].status == PUSHED && !HasInvoice(s.invoices, r);
      InvoicesStay(s, step, r);
      PushedStays(s, step, r);
    } else if ByHand(s, step) {
      InvoicesAfter(s, step);
      assert s'.runs[step.runId].status == PUSHED;
    } else {
      forall r | r in s'.runs && s'.runs[r].status == PUSHED ensures HasInvoice(s'.invoices, r) {
        InvoicesStay(s, step, r);
        BecomesPushed(s, step, r);
        if Sends(s, step) {
          SentIsThere(s, step);
        }
      }
    }
  }

  /** Over any history: every PUSHED run has an invoice if and only if none was moved there by hand. */
  lemma {:induction false} PushedMeansInvoicedIff(s: Store, steps: seq<Step>)
    requires Initial(s)
    ensures PushedRunsInvoiced(After(s, steps)) <==> Never(ByHand, s, steps)
  {
    if steps == [] {
    } else {
      PushedMeansInvoicedIff(s, steps[..|steps| - 1]);
      PushedStep(After(s, steps[..|steps| - 1]), steps[|steps| - 1]);
    }
  }

  // ----- Exactly when every invoice keeps its run -----

  /** Deletes the run of an invoice: a run that went out in part and was then cancelled. */
  ghost predicate Forgets(s: Store, step: Step) {
    step.DeleteRun? && Enabled(s, step) && HasInvoice(s.invoices, step.runId)
  }

  ghost predicate InvoicesHaveRuns(s: Store) {
    forall r :: HasInvoice(s.invoices, r) ==> r in s.runs
  }

  lemma ForgetStep(s: Store, step: Step)
    ensures InvoicesHaveRuns(Apply(s, step)) <==> InvoicesHaveRuns(s) && !Forgets(s, step)
  {
    var s' := Apply(s, step);
    if !InvoicesHaveRuns(s) {
      var r :| HasInvoice(s.invoices, r) && r !in s.runs;
      InvoicesStay(s, step, r);
      StaysForgotten(s, step, r);
    } else if Forgets(s, step) {
      InvoicesStay(s, step, step.runId);
    } else {
      forall r | HasInvoice(s'.invoices, r) ensures r in s'.runs {
        InvoicesStay(s, step, r);
        KeepsRun(s, step, r);
      }
    }
  }

  /** A run that is gone does not come back while an invoice of it is there. */
  lemma StaysForgotten(s: Store, step: Step, r: nat)
    requires HasInvoice(s.invoices, r) && r !in s.runs
    ensures r !in Apply(s, step).runs
  {
  }

  lemma KeepsRun(s: Store, step: Step, r: nat)
    requires (r in s.runs && !(step == DeleteRun(r) && Enabled(s, step))) || (Sends(s, step) && step.runId == r)
    ensures r in Apply(s, step).runs
  {
  }

  /** Over any history: every invoice still has its run if and only if none was deleted. */
  lemma {:induction false} InvoicesKeepRunsIff(s: Store, steps: seq<Step>)
    requires Initial(s)
    ensures InvoicesHaveRuns(After(s, steps)) <==> Never(Forgets, s, steps)
  {
    if steps == [] {
    } else {
      InvoicesKeepRunsIff(s, steps[..|steps| - 1]);
      ForgetStep(After(s, steps[..|steps| - 1]), steps[|steps| - 1]);
    }
  }
}
