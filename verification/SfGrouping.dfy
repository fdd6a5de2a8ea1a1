// Which hours share a billing line (src/lib/sfbilling/generate.ts, section 1 of
// `generateSfBillingLines`).
module SfGrouping {
  import opened SfGenerate
  import opened SfPricing
  import opened Sums
  import opened Text

  function TicketShown(e: TimeEntry): string {
    if e.ticketNumber.Some? then e.ticketNumber.value else "none"
  }

  /** Nothing that goes into a key holds the bar that separates its parts. */
  ghost predicate Plain(e: TimeEntry) {
    '|' !in Shown(e.agreementId) && '|' !in e.chargeCodeId && '|' !in TicketShown(e)
  }

  /** Hours of the same sort: in or beyond an agreement, of one agreement and charge code, and of one ticket where lines are by ticket. */
  ghost predicate Alike(ctx: Context, a: Charge, b: Charge) {
    && a.kind == b.kind && Shown(a.entry.agreementId) == Shown(b.entry.agreementId) && a.entry.chargeCodeId == b.entry.chargeCodeId
    && (ctx.groupBy.TICKET? ==> TicketShown(a.entry) == TicketShown(b.entry))
  }

  function KeyOf(ctx: Context, c: Charge): string {
    BucketKey(ctx, c.entry, c.kind)
  }

  lemma KeySplits(ctx: Context, c: Charge)
    requires Plain(c.entry)
    ensures Split(KeyOf(ctx, c), '|') == KeyParts(ctx, c.entry, c.kind)
  {
    SplitJoin(KeyParts(ctx, c.entry, c.kind), '|');
  }

  lemma SameKeyIff(ctx: Context, a: Charge, b: Charge)
    requires Plain(a.entry) && Plain(b.entry)
    ensures KeyOf(ctx, a) == KeyOf(ctx, b) <==> Alike(ctx, a, b)
  {
    KeySplits(ctx, a);
    KeySplits(ctx, b);
    var p, q := KeyParts(ctx, a.entry, a.kind), KeyParts(ctx, b.entry, b.kind);
    assert p == q ==> p[0] == q[0] && p[1] == q[1] && p[2] == q[2] && (ctx.groupBy.TICKET? ==> p[3] == q[3]);
    assert KindName(TIME) != KindName(OVERAGE);
  }

  // ----- Buckets and keys -----

  /** The bucket of a charge's key, with the charge's hours in it. */
  ghost predicate Has(ctx: Context, b: Bucket, c: Charge) {
    b.key == KeyOf(ctx, c) && c.entry in b.entries
  }

  ghost predicate KeysDiffer(buckets: seq<Bucket>) {
    forall i, j :: 0 <= i < j < |buckets| ==> buckets[i].key != buckets[j].key
  }

  ghost predicate HasKey(buckets: seq<Bucket>, key: string) {
    exists i :: 0 <= i < |buckets| && buckets[i].key == key
  }

  /** Adding a charge opens at most one bucket, of the charge's key. */
  lemma {:induction false} AddKeys(ctx: Context, buckets: seq<Bucket>, c: Charge, key: string)
    ensures HasKey(AddCharge(ctx, buckets, c), key) <==> HasKey(buckets, key) || key == KeyOf(ctx, c)
  {
    var after := AddCharge(ctx, buckets, c);
    if buckets == [] {
      assert after[0].key == KeyOf(ctx, c);
    } else if buckets[0].key == KeyOf(ctx, c) {
      assert |after| == |buckets| && forall i :: 0 <= i < |after| ==> after[i].key == buckets[i].key;
    } else {
      AddKeys(ctx, buckets[1..], c, key);
      HasKeyCons(buckets[0], buckets[1..], key);
      HasKeyCons(buckets[0], AddCharge(ctx, buckets[1..], c), key);
      assert buckets == [buckets[0]] + buckets[1..];
    }
  }

  lemma HasKeyCons(b: Bucket, rest: seq<Bucket>, key: string)
    ensures HasKey([b] + rest, key) <==> b.key == key || HasKey(rest, key)
  {
    var all := [b] + rest;
    assert all[0] == b && forall i :: 0 <= i < |rest| ==> all[i + 1] == rest[i];
  }

  lemma {:induction false} AddKeepsDiffering(ctx: Context, buckets: seq<Bucket>, c: Charge)
    requires KeysDiffer(buckets)
    ensures KeysDiffer(AddCharge(ctx, buckets, c))
  {
    if buckets == [] {
    } else if buckets[0].key == KeyOf(ctx, c) {
    } else {
      var rest := AddCharge(ctx, buckets[1..], c);
      AddKeepsDiffering(ctx, buckets[1..], c);
      AddKeys(ctx, buckets[1..], c, buckets[0].key);
      assert !HasKey(buckets[1..], buckets[0].key);
      forall i | 0 <= i < |rest| ensures rest[i].key != buckets[0].key {
        assert HasKey(rest, rest[i].key);
      }
    }
  }

  lemma {:induction false} GroupKeysDiffer(ctx: Context, charges: seq<Charge>)
    ensures KeysDiffer(Group(ctx, charges))
  {
    if charges == [] {
    } else {
      GroupKeysDiffer(ctx, charges[..|charges| - 1]);
      AddKeepsDiffering(ctx, Group(ctx, charges[..|charges| - 1]), charges[|charges| - 1]);
    }
  }

  ghost predicate HasSomewhere(ctx: Context, buckets: seq<Bucket>, c: Charge) {
    exists i :: 0 <= i < |buckets| && Has(ctx, buckets[i], c)
  }

  lemma HasCons(ctx: Context, b: Bucket, rest: seq<Bucket>, c: Charge)
    ensures HasSomewhere(ctx, [b] + rest, c) <==> Has(ctx, b, c) || HasSomewhere(ctx, rest, c)
  {
    var all := [b] + rest;
    assert all[0] == b && forall i :: 0 <= i < |rest| ==> all[i + 1] == rest[i];
  }

  lemma {:induction false} AddHas(ctx: Context, buckets: seq<Bucket>, c: Charge, d: Charge)
    requires d == c || HasSomewhere(ctx, buckets, d)
    ensures HasSomewhere(ctx, AddCharge(ctx, buckets, c), d)
  {
    if buckets == [] {
      assert Has(ctx, AddCharge(ctx, buckets, c)[0], c);
    } else {
      var b, rest := buckets[0], buckets[1..];
      assert buckets == [b] + rest;
      HasCons(ctx, b, rest, d);
      if b.key == KeyOf(ctx, c) {
        HasCons(ctx, b.(entries := b.entries + [c.entry]), rest, d);
      } else {
        HasCons(ctx, b, AddCharge(ctx, rest, c), d);
        if d == c || HasSomewhere(ctx, rest, d) {
          AddHas(ctx, rest, c, d);
        }
      }
    }
  }

  lemma {:induction false} GroupHas(ctx: Context, charges: seq<Charge>, c: Charge)
    requires c in charges
    ensures HasSomewhere(ctx, Group(ctx, charges), c)
  {
    var init, last := charges[..|charges| - 1], charges[|charges| - 1];
    assert charges == init + [last];
    if c != last {
      GroupHas(ctx, init, c);
    }
    AddHas(ctx, Group(ctx, init), last, c);
  }

  /** A bucket is of charges with its key, and no line is left without one. */
  ghost predicate OfItsKey(ctx: Context, b: Bucket, charges: seq<Charge>) {
    b.entries != [] && forall e :: e in b.entries ==> exists c :: c in charges && c.entry == e && KeyOf(ctx, c) == b.key
  }

  lemma MoreOfItsKey(ctx: Context, b: Bucket, charges: seq<Charge>, c: Charge)
    requires OfItsKey(ctx, b, charges)
    ensures OfItsKey(ctx, b, charges + [c])
  {
    forall e | e in b.entries ensures exists d :: d in charges + [c] && d.entry == e && KeyOf(ctx, d) == b.key {
      var d :| d in charges && d.entry == e && KeyOf(ctx, d) == b.key;
      assert d in charges + [c];
    }
  }

  lemma GrownOfItsKey(ctx: Context, b: Bucket, charges: seq<Charge>, c: Charge)
    requires OfItsKey(ctx, b, charges) && b.key == KeyOf(ctx, c)
    ensures OfItsKey(ctx, b.(entries := b.entries + [c.entry]), charges + [c])
  {
    MoreOfItsKey(ctx, b, charges, c);
    assert c in charges + [c];
  }

  lemma {:induction false} AddOfItsKey(ctx: Context, buckets: seq<Bucket>, charges: seq<Charge>, c: Charge)
    requires forall b :: b in buckets ==> OfItsKey(ctx, b, charges)
    ensures forall b :: b in AddCharge(ctx, buckets, c) ==> OfItsKey(ctx, b, charges + [c])
  {
    if buckets == [] {
      assert c in charges + [c];
    } else {
      assert buckets[0] in buckets && forall b :: b in buckets[1..] ==> b in buckets;
      if buckets[0].key == KeyOf(ctx, c) {
        GrownOfItsKey(ctx, buckets[0], charges, c);
        forall b | b in buckets[1..] ensures OfItsKey(ctx, b, charges + [c]) {
          MoreOfItsKey(ctx, b, charges, c);
        }
      } else {
        MoreOfItsKey(ctx, buckets[0], charges, c);
        AddOfItsKey(ctx, buckets[1..], charges, c);
      }
    }
  }

  lemma {:induction false} GroupOfItsKey(ctx: Context, charges: seq<Charge>)
    ensures forall b :: b in Group(ctx, charges) ==> OfItsKey(ctx, b, charges)
  {
    if charges == [] {
    } else {
      var init, c := charges[..|charges| - 1], charges[|charges| - 1];
      assert charges == init + [c];
      GroupOfItsKey(ctx, init);
      AddOfItsKey(ctx, Group(ctx, init), init, c);
    }
  }

  // ----- Lines -----

  /** Line `k` takes the hours of a charge. */
  ghost predicate OnLineOf(ctx: Context, timeEntries: seq<TimeEntry>, k: nat, c: Charge) {
    var buckets := Group(ctx, Apportioned(ctx, timeEntries).charges);
    k < |buckets| && Has(ctx, buckets[k], c)
  }

  /** There is a line for each bucket, and it takes its entries' hours under its charge code and agreement. */
  lemma LineOfBucket(ctx: Context, timeEntries: seq<TimeEntry>, k: nat)
    requires k < |HourLines(ctx, timeEntries)|
    ensures var buckets, line := Group(ctx, Apportioned(ctx, timeEntries).charges), HourLines(ctx, timeEntries)[k];
            && |buckets| == |HourLines(ctx, timeEntries)| && buckets[k].entries != []
            && line.timeEntries == Consumed(buckets[k].entries) && line.quantity == Sum(buckets[k].entries, HoursOf)
            && line.chargeCodeId == buckets[k].entries[0].chargeCodeId && line.kind == buckets[k].kind
  {
    var charges := Apportioned(ctx, timeEntries).charges;
    GroupOfItsKey(ctx, charges);
    forall b | b in Group(ctx, charges) ensures b.entries != [] {
      assert OfItsKey(ctx, b, charges);
    }
    LinePerBucket(ctx, Group(ctx, charges), k);
    assert Group(ctx, charges)[k] in Group(ctx, charges);
  }

  /**
   * Every charge is on a line, and two charges are on one line exactly when they are alike.
   */
  lemma SameLineIff(ctx: Context, timeEntries: seq<TimeEntry>, c: Charge, d: Charge, i: nat, j: nat)
    requires Plain(c.entry) && Plain(d.entry)
    requires OnLineOf(ctx, timeEntries, i, c) && OnLineOf(ctx, timeEntries, j, d)
    ensures i == j <==> Alike(ctx, c, d)
  {
    GroupKeysDiffer(ctx, Apportioned(ctx, timeEntries).charges);
    SameKeyIff(ctx, c, d);
  }

  lemma EachHasALine(ctx: Context, timeEntries: seq<TimeEntry>, c: Charge) returns (k: nat)
    requires c in Apportioned(ctx, timeEntries).charges
    ensures OnLineOf(ctx, timeEntries, k, c) && k < |HourLines(ctx, timeEntries)|
  {
    var charges := Apportioned(ctx, timeEntries).charges;
    GroupHas(ctx, charges, c);
    k :| 0 <= k < |Group(ctx, charges)| && Has(ctx, Group(ctx, charges)[k], c);
    GroupOfItsKey(ctx, charges);
    forall b | b in Group(ctx, charges) ensures b.entries != [] {
      assert OfItsKey(ctx, b, charges);
    }
    LinePerBucket(ctx, Group(ctx, charges), k);
  }

  /** A line's charge code is that of every hour on it. */
  lemma CodeOfLine(ctx: Context, timeEntries: seq<TimeEntry>, k: nat, c: Charge)
    requires k < |HourLines(ctx, timeEntries)| && c in Apportioned(ctx, timeEntries).charges && OnLineOf(ctx, timeEntries, k, c)
    requires forall d :: d in Apportioned(ctx, timeEntries).charges ==> Plain(d.entry)
    ensures HourLines(ctx, timeEntries)[k].chargeCodeId == c.entry.chargeCodeId
  {
    var charges := Apportioned(ctx, timeEntries).charges;
    var b := Group(ctx, charges)[k];
    LineOfBucket(ctx, timeEntries, k);
    GroupOfItsKey(ctx, charges);
    assert b in Group(ctx, charges) && OfItsKey(ctx, b, charges) && b.entries[0] in b.entries;
    var d :| d in charges && d.entry == b.entries[0] && KeyOf(ctx, d) == b.key;
    SameKeyIff(ctx, c, d);
  }
}
