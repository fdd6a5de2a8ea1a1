// Re-encrypting stored values under the primary key (src/lib/crypto-rotate.ts).
module CryptoRotate {
  import opened Crypto
  import opened Sums
  import opened Text
  import opened Wrappers

  const SCAN_LIMIT := 5_000

  type Field = Option<string>

  datatype Outcome = Empty | Skipped | Rotated | Encrypted | Failed

  /** What rotation does to one stored value. */
  function RotateValue(v: Vault, iv: string, value: Field): (Field, Outcome) {
    if value.None? || value.value == "" then (value, Empty)
    else if IsCiphertext(value.value) && CiphertextKeyId(value.value) == Some(v.cipher.fingerprint(v.primary)) then (value, Skipped)
    else
      var plain := DecryptField(v, value);
      if plain.None? then (value, Failed)
      else (EncryptField(v, iv, plain.value), if IsCiphertext(value.value) then Rotated else Encrypted)
  }

  // ----- A pass over a column -----

  datatype Pass = Pass(rows: map<string, Field>, done: nat, rotated: nat, encrypted: nat, skipped: nat, failed: nat)

  function Start(rows: map<string, Field>): Pass {
    Pass(rows, 0, 0, 0, 0, 0)
  }

  /** One row of the loop; nothing once the limit is reached. */
  function PassRow(v: Vault, iv: string, limit: nat, p: Pass, id: string): Pass {
    if p.done >= limit || id !in p.rows then p
    else
      var (value, outcome) := RotateValue(v, iv, p.rows[id]);
      match outcome
      case Empty => p
      case Skipped => p.(skipped := p.skipped + 1)
      case Failed => p.(failed := p.failed + 1)
      case Rotated => p.(rows := p.rows[id := value], done := p.done + 1, rotated := p.rotated + 1)
      case Encrypted => p.(rows := p.rows[id := value], done := p.done + 1, encrypted := p.encrypted + 1)
  }

  /** The rows read so far, in the order the query returned them; `ivs` are the nonces drawn. */
  function PassOver(v: Vault, ivs: nat -> string, limit: nat, rows: map<string, Field>, ids: seq<string>): Pass {
    if ids == [] then Start(rows)
    else PassRow(v, ivs(|ids| - 1), limit, PassOver(v, ivs, limit, rows, ids[..|ids| - 1]), ids[|ids| - 1])
  }

  /** One encrypted column of the database. */
  class Column {
    var rows: map<string, Field>

    constructor (rows: map<string, Field>)
      ensures this.rows == rows
    {
      this.rows := rows;
    }

    method Rotate(v: Vault, ivs: nat -> string, limit: nat, ids: seq<string>)
      returns (rotated: nat, encrypted: nat, skipped: nat, failed: nat)
      modifies this
      ensures var p := PassOver(v, ivs, limit, old(rows), ids);
              rows == p.rows && rotated == p.rotated && encrypted == p.encrypted && skipped == p.skipped && failed == p.failed
    {
      rotated, encrypted, skipped, failed := 0, 0, 0, 0;
      var done := 0;
      for k := 0 to |ids|
        invariant PassOver(v, ivs, limit, old(rows), ids[..k]) == Pass(rows, done, rotated, encrypted, skipped, failed)
      {
        assert ids[..k + 1][..k] == ids[..k];
        var id := ids[k];
        if done < limit && id in rows {
          var value := rows[id];
          if value.Some? && value.value != "" {
            var wasCiphertext := IsCiphertext(value.value);
            if wasCiphertext && CiphertextKeyId(value.value) == Some(v.cipher.fingerprint(v.primary)) {
              skipped := skipped + 1;
            } else {
              var plain := DecryptField(v, value);
              if plain.None? {
                failed := failed + 1;
              } else {
                rows := rows[id := EncryptField(v, ivs(k), plain.value)];
                if wasCiphertext {
                  rotated := rotated + 1;
                } else {
                  encrypted := encrypted + 1;
                }
                done := done + 1;
              }
            }
          }
        }
      }
      assert ids[..|ids|] == ids;
    }
  }

  // ----- Meaning is kept at every point -----

  ghost predicate SameMeaning(v: Vault, before: map<string, Field>, after: map<string, Field>) {
    && after.Keys == before.Keys
    && forall id :: id in before ==> DecryptField(v, after[id]) == DecryptField(v, before[id])
  }

  lemma RewrittenKeepsMeaning(v: Vault, before: map<string, Field>, after: map<string, Field>, id: string, value: Field)
    requires SameMeaning(v, before, after) && id in after && DecryptField(v, value) == DecryptField(v, after[id])
    ensures SameMeaning(v, before, after[id := value])
  {
  }

  ghost predicate Nonces(ivs: nat -> string) {
    forall k :: Plainly(ivs(k))
  }

  lemma RotateKeepsMeaning(v: Vault, iv: string, value: Field)
    requires Ideal(v.cipher) && Plainly(iv)
    ensures DecryptField(v, RotateValue(v, iv, value).0) == DecryptField(v, value)
  {
    var plain := DecryptField(v, value);
    if plain.Some? {
      FieldRoundTrip(v, iv, plain.value);
    }
  }

  /** However far a pass has got, every field still reads as it did, or still fails as it did. */
  lemma {:induction false} PassKeepsMeaning(v: Vault, ivs: nat -> string, limit: nat, rows: map<string, Field>, ids: seq<string>)
    requires Ideal(v.cipher) && Nonces(ivs)
    ensures SameMeaning(v, rows, PassOver(v, ivs, limit, rows, ids).rows)
  {
    if ids == [] {
    } else {
      var before := PassOver(v, ivs, limit, rows, ids[..|ids| - 1]);
      PassKeepsMeaning(v, ivs, limit, rows, ids[..|ids| - 1]);
      var id := ids[|ids| - 1];
      if id in before.rows {
        RotateKeepsMeaning(v, ivs(|ids| - 1), before.rows[id]);
        RewrittenKeepsMeaning(v, rows, before.rows, id, RotateValue(v, ivs(|ids| - 1), before.rows[id]).0);
      }
    }
  }

  /** A pass, cut short after any number of rows. */
  datatype Visit = Visit(ivs: nat -> string, limit: nat, ids: seq<string>)

  function AfterVisits(v: Vault, rows: map<string, Field>, visits: seq<Visit>): map<string, Field> {
    if visits == [] then rows
    else
      var last := visits[|visits| - 1];
      PassOver(v, last.ivs, last.limit, AfterVisits(v, rows, visits[..|visits| - 1]), last.ids).rows
  }

  /** Over any series of passes, complete or interrupted, no field changes meaning. */
  lemma {:induction false} RotationKeepsMeaning(v: Vault, rows: map<string, Field>, visits: seq<Visit>)
    requires Ideal(v.cipher) && forall k :: 0 <= k < |visits| ==> Nonces(visits[k].ivs)
    ensures SameMeaning(v, rows, AfterVisits(v, rows, visits))
  {
    if visits == [] {
    } else {
      var init, last := visits[..|visits| - 1], visits[|visits| - 1];
      RotationKeepsMeaning(v, rows, init);
      PassKeepsMeaning(v, last.ivs, last.limit, AfterVisits(v, rows, init), last.ids);
    }
  }

  /** A value already under the primary key, as its envelope says. */
  predicate Current(v: Vault, value: Field) {
    value.Some? && value.value != "" && IsCiphertext(value.value)
    && CiphertextKeyId(value.value) == Some(v.cipher.fingerprint(v.primary))
  }

  lemma {:induction false} CurrentUntouched(v: Vault, ivs: nat -> string, limit: nat, rows: map<string, Field>, ids: seq<string>, id: string)
    requires id in rows && Current(v, rows[id])
    ensures var after := PassOver(v, ivs, limit, rows, ids).rows; id in after && after[id] == rows[id]
  {
    if ids == [] {
    } else {
      CurrentUntouched(v, ivs, limit, rows, ids[..|ids| - 1], id);
    }
  }

  // ----- What the status report means -----

  datatype Status = Status(current: nat, outstanding: nat, legacy: nat, plaintext: nat, capped: bool)

  datatype Class = NoValue | OnPrimary | Outstanding | Legacy | Plaintext

  function Classify(v: Vault, value: Field): Class {
    if value.None? || value.value == "" then NoValue
    else if !IsCiphertext(value.value) then Plaintext
    else if CiphertextKeyId(value.value) == Some(v.cipher.fingerprint(v.primary)) then OnPrimary
    else if CiphertextKeyId(value.value) == None then Legacy
    else Outstanding
  }

  function CountClass(v: Vault, values: seq<Field>, c: Class): nat {
    if values == [] then 0
    else CountClass(v, values[..|values| - 1], c) + if Classify(v, values[|values| - 1]) == c then 1 else 0
  }

  /** What the scan of one column finds: at most SCAN_LIMIT values are read. */
  function StatusOf(v: Vault, values: seq<Field>): Status {
    var capped := |values| > SCAN_LIMIT;
    var read := if capped then values[..SCAN_LIMIT] else values;
    Status(CountClass(v, read, OnPrimary), CountClass(v, read, Outstanding), CountClass(v, read, Legacy),
           CountClass(v, read, Plaintext), capped)
  }

  /** The scan of one column. */
  method ColumnStatus(v: Vault, values: seq<Field>) returns (s: Status)
    ensures s == StatusOf(v, values)
  {
    var read := if |values| > SCAN_LIMIT then values[..SCAN_LIMIT] else values;
    var current, outstanding, legacy, plaintext := 0, 0, 0, 0;
    for k := 0 to |read|
      invariant current == CountClass(v, read[..k], OnPrimary) && outstanding == CountClass(v, read[..k], Outstanding)
      invariant legacy == CountClass(v, read[..k], Legacy) && plaintext == CountClass(v, read[..k], Plaintext)
    {
      assert read[..k + 1][..k] == read[..k];
      match Classify(v, read[k])
      case NoValue =>
      case OnPrimary => current := current + 1;
      case Outstanding => outstanding := outstanding + 1;
      case Legacy => legacy := legacy + 1;
      case Plaintext => plaintext := plaintext + 1;
    }
    assert read[..|read|] == read;
    s := Status(current, outstanding, legacy, plaintext, |values| > SCAN_LIMIT);
  }

  /** The classes of what is stored: under the primary key, under another key, in the older format, or plain. */
  lemma ClassMeans(v: Vault, k: Key, iv: string, plain: string)
    requires Ideal(v.cipher) && Plainly(iv)
    ensures Classify(v, Some(Envelope(v.cipher, k, iv, plain))) == if k == v.primary then OnPrimary else Outstanding
    ensures Classify(v, Some(LegacyEnvelope(v.cipher, k, iv, plain))) == Legacy
    ensures plain != "" && ':' !in plain ==> Classify(v, Some(plain)) == Plaintext
    ensures Classify(v, None) == NoValue && Classify(v, Some("")) == NoValue
  {
    EnvelopeSplits(v.cipher, k, iv, plain);
    if ':' !in plain {
      SplitPlain(plain, ':');
    }
  }

  lemma {:induction false} ClassesAddUp(v: Vault, values: seq<Field>)
    ensures CountClass(v, values, OnPrimary) + CountClass(v, values, Outstanding) + CountClass(v, values, Legacy)
            + CountClass(v, values, Plaintext) + CountClass(v, values, NoValue) == |values|
  {
    if values == [] {
    } else {
      ClassesAddUp(v, values[..|values| - 1]);
    }
  }

  /** A scan reads the first 5000 values, says so when there are more, and counts every one that is not blank. */
  lemma ScanReads(v: Vault, values: seq<Field>)
    ensures var s, read := StatusOf(v, values), if |values| <= 5_000 then values else values[..5_000];
            && (s.capped <==> |values| > 5_000)
            && s.current + s.outstanding + s.legacy + s.plaintext + CountClass(v, read, NoValue) == |read|
  {
    ClassesAddUp(v, if |values| <= 5_000 then values else values[..5_000]);
  }

  /** A registered column as the database returns it: its values, or an error. */
  type Scan = Option<seq<Field>>

  function Scanned(v: Vault, scan: Scan): Option<Status> {
    if scan.None? then None else Some(StatusOf(v, scan.value))
  }

  function OutstandingIn(c: Option<Status>): int { if c.Some? then c.value.outstanding else 0 }

  function LegacyIn(c: Option<Status>): int { if c.Some? then c.value.legacy else 0 }

  function PlaintextIn(c: Option<Status>): int { if c.Some? then c.value.plaintext else 0 }

  predicate Unknown(c: Option<Status>) {
    c.None? || c.value.capped
  }

  /** The verdict of the report, on the totals over the columns. */
  predicate Complete(columns: seq<Option<Status>>) {
    && Sum(columns, OutstandingIn) == 0 && Sum(columns, LegacyIn) == 0 && Sum(columns, PlaintextIn) == 0
    && forall c :: c in columns ==> !Unknown(c)
  }

  /** The report over every registered column. */
  method RotationStatus(v: Vault, scans: seq<Scan>) returns (columns: seq<Option<Status>>, complete: bool)
    ensures |columns| == |scans| && forall k :: 0 <= k < |scans| ==> columns[k] == Scanned(v, scans[k])
    ensures complete <==> Complete(columns)
  {
    columns := [];
    for k := 0 to |scans|
      invariant |columns| == k && forall j :: 0 <= j < k ==> columns[j] == Scanned(v, scans[j])
    {
      if scans[k].Some? {
        var s := ColumnStatus(v, scans[k].value);
        columns := columns + [Some(s)];
      } else {
        columns := columns + [None];
      }
    }
    complete := Verdict(columns);
  }

  /** The totals over the columns, and the verdict on them. */
  method Verdict(columns: seq<Option<Status>>) returns (complete: bool)
    ensures complete <==> Complete(columns)
  {
    var outstanding, legacy, plaintext, unknown := 0, 0, 0, false;
    for k := 0 to |columns|
      invariant outstanding == Sum(columns[..k], OutstandingIn)
      invariant legacy == Sum(columns[..k], LegacyIn) && plaintext == Sum(columns[..k], PlaintextIn)
      invariant unknown <==> exists c :: c in columns[..k] && Unknown(c)
    {
      NextColumn(columns, k);
      outstanding := outstanding + OutstandingIn(columns[k]);
      legacy, plaintext := legacy + LegacyIn(columns[k]), plaintext + PlaintextIn(columns[k]);
      unknown := unknown || Unknown(columns[k]);
    }
    assert columns[..|columns|] == columns;
    complete := outstanding == 0 && legacy == 0 && plaintext == 0 && !unknown;
  }

  lemma NextColumn(columns: seq<Option<Status>>, k: nat)
    requires k < |columns|
    ensures Sum(columns[..k + 1], OutstandingIn) == Sum(columns[..k], OutstandingIn) + OutstandingIn(columns[k])
    ensures Sum(columns[..k + 1], LegacyIn) == Sum(columns[..k], LegacyIn) + LegacyIn(columns[k])
    ensures Sum(columns[..k + 1], PlaintextIn) == Sum(columns[..k], PlaintextIn) + PlaintextIn(columns[k])
    ensures forall c :: c in columns[..k + 1] <==> c in columns[..k] || c == columns[k]
  {
    assert columns[..k + 1][..k] == columns[..k] && columns[..k + 1] == columns[..k] + [columns[k]];
    SumLast(columns[..k + 1], OutstandingIn);
    SumLast(columns[..k + 1], LegacyIn);
    SumLast(columns[..k + 1], PlaintextIn);
  }

  lemma {:induction false} NoneInTotal(columns: seq<Option<Status>>, f: Option<Status> -> int)
    requires forall c :: c in columns ==> f(c) >= 0
    ensures Sum(columns, f) >= 0
    ensures Sum(columns, f) == 0 ==> forall c :: c in columns ==> f(c) == 0
  {
    if columns == [] {
    } else {
      NoneInTotal(columns[1..], f);
    }
  }

  lemma {:induction false} NoneOfClass(v: Vault, values: seq<Field>, c: Class)
    requires CountClass(v, values, c) == 0
    ensures forall k :: 0 <= k < |values| ==> Classify(v, values[k]) != c
  {
    if values == [] {
    } else {
      NoneOfClass(v, values[..|values| - 1], c);
    }
  }

  /** A stored value that some key of the ring wrote, or that was never encrypted. */
  ghost predicate Genuine(v: Vault, value: Field) {
    || value.None? || value.value == "" || !IsCiphertext(value.value)
    || exists k, iv, plain :: Written(v, value.value, k, iv, plain)
  }

  ghost predicate Written(v: Vault, text: string, k: Key, iv: string, plain: string) {
    && k in Ring(v) && Plainly(iv)
    && (text == Envelope(v.cipher, k, iv, plain) || text == LegacyEnvelope(v.cipher, k, iv, plain))
  }

  /** In a column with nothing left to do, the primary key alone reads every field the same. */
  lemma ColumnNeedsOnlyPrimary(v: Vault, values: seq<Field>, k: nat)
    requires Ideal(v.cipher) && k < |values| && Genuine(v, values[k])
    requires var s := StatusOf(v, values); s.outstanding == 0 && s.legacy == 0 && s.plaintext == 0 && !s.capped
    ensures var alone := Vault(v.cipher, v.primary, []);
            DecryptField(alone, values[k]).Some? && DecryptField(alone, values[k]) == DecryptField(v, values[k])
  {
    NoneOfClass(v, values, Outstanding);
    NoneOfClass(v, values, Legacy);
    NoneOfClass(v, values, Plaintext);
    var value, alone := values[k], Vault(v.cipher, v.primary, []);
    if value.Some? && value.value != "" {
      assert Classify(v, value) == OnPrimary;
      var j, iv, plain :| Written(v, value.value, j, iv, plain);
      EnvelopeSplits(v.cipher, j, iv, plain);
      assert j == v.primary;
      DecryptOpens(v, j, iv, plain);
      DecryptOpens(alone, j, iv, plain);
    }
  }

  /** Once the report says complete, the retired keys can go: the primary alone reads every field of every column the same. */
  lemma CompleteNeedsOnlyPrimary(v: Vault, scans: seq<Scan>, columns: seq<Option<Status>>, c: nat, k: nat)
    requires Ideal(v.cipher) && Complete(columns)
    requires |columns| == |scans| && forall j :: 0 <= j < |scans| ==> columns[j] == Scanned(v, scans[j])
    requires c < |scans| && (scans[c].Some? ==> k < |scans[c].value| && Genuine(v, scans[c].value[k]))
    ensures scans[c].Some?
    ensures var alone, value := Vault(v.cipher, v.primary, []), scans[c].value[k];
            DecryptField(alone, value).Some? && DecryptField(alone, value) == DecryptField(v, value)
  {
    assert columns[c] in columns && !Unknown(columns[c]);
    NoneInTotal(columns, OutstandingIn);
    NoneInTotal(columns, LegacyIn);
    NoneInTotal(columns, PlaintextIn);
    ColumnNeedsOnlyPrimary(v, scans[c].value, k);
  }

  // ----- A pass that reaches every row finishes the job -----

  ghost predicate Settled(v: Vault, value: Field) {
    Classify(v, value) == NoValue || Classify(v, value) == OnPrimary
  }

  lemma RotateSettles(v: Vault, iv: string, value: Field)
    requires Ideal(v.cipher) && Plainly(iv) && DecryptField(v, value).Some?
    ensures Settled(v, RotateValue(v, iv, value).0)
  {
    var plain := DecryptField(v, value).value;
    if plain.Some? {
      EnvelopeSplits(v.cipher, v.primary, iv, plain.value);
    }
  }

  /** With every value readable and the limit above the number of rows, each row visited ends settled. */
  lemma {:induction false} FullPassSettles(v: Vault, ivs: nat -> string, limit: nat, rows: map<string, Field>, ids: seq<string>)
    requires Ideal(v.cipher) && Nonces(ivs) && |ids| <= limit
    requires forall id :: id in rows ==> DecryptField(v, rows[id]).Some?
    ensures var p := PassOver(v, ivs, limit, rows, ids);
            && p.done <= |ids| && p.failed == 0 && p.rows.Keys == rows.Keys
            && (forall id :: id in ids && id in rows ==> Settled(v, p.rows[id]))
  {
    if ids == [] {
    } else {
      var init, id := ids[..|ids| - 1], ids[|ids| - 1];
      var before := PassOver(v, ivs, limit, rows, init);
      FullPassSettles(v, ivs, limit, rows, init);
      PassKeepsMeaning(v, ivs, limit, rows, init);
      assert ids == init + [id];
      if id in rows {
        RowSettles(v, ivs(|ids| - 1), limit, before, id);
      }
    }
  }

  lemma RowSettles(v: Vault, iv: string, limit: nat, p: Pass, id: string)
    requires Ideal(v.cipher) && Plainly(iv) && p.done < limit && id in p.rows && DecryptField(v, p.rows[id]).Some?
    ensures var q := PassRow(v, iv, limit, p, id);
            && q.rows.Keys == p.rows.Keys && Settled(v, q.rows[id]) && q.failed == p.failed && q.done <= p.done + 1
            && (forall other :: other in p.rows && other != id ==> q.rows[other] == p.rows[other])
  {
    RotateSettles(v, iv, p.rows[id]);
  }

  // ----- How much a pass does, and what it reports -----

  /** The rows whose value a pass has changed. */
  function Changed(rows: map<string, Field>, after: map<string, Field>): set<string>
    requires after.Keys == rows.Keys
  {
    set id | id in rows && after[id] != rows[id]
  }

  lemma OneMoreChanged(rows: map<string, Field>, after: map<string, Field>, id: string, value: Field)
    requires after.Keys == rows.Keys && id in rows
    ensures |Changed(rows, after[id := value])| <= |Changed(rows, after)| + 1
  {
    var more := Changed(rows, after) + {id};
    assert Changed(rows, after[id := value]) <= more;
    SmallerSet(Changed(rows, after[id := value]), more);
  }

  lemma SmallerSet(a: set<string>, b: set<string>)
    requires a <= b
    ensures |a| <= |b|
  {
    assert b == a + (b - a);
  }

  /** A pass rewrites no more rows than its limit, and no more than it reports as rotated or encrypted. */
  lemma {:induction false} PassLimited(v: Vault, ivs: nat -> string, limit: nat, rows: map<string, Field>, ids: seq<string>)
    ensures var p := PassOver(v, ivs, limit, rows, ids);
            && p.rows.Keys == rows.Keys && p.rotated + p.encrypted == p.done <= limit && |Changed(rows, p.rows)| <= p.rotated + p.encrypted
  {
    if ids == [] {
      assert Changed(rows, rows) == {};
    } else {
      var before, id := PassOver(v, ivs, limit, rows, ids[..|ids| - 1]), ids[|ids| - 1];
      PassLimited(v, ivs, limit, rows, ids[..|ids| - 1]);
      if id in rows {
        OneMoreChanged(rows, before.rows, id, RotateValue(v, ivs(|ids| - 1), before.rows[id]).0);
      }
    }
  }

  /** The values of rows, in the order they are visited. */
  function ValuesOf(rows: map<string, Field>, ids: seq<string>): seq<Field>
    requires forall id :: id in ids ==> id in rows
  {
    if ids == [] then [] else ValuesOf(rows, ids[..|ids| - 1]) + [rows[ids[|ids| - 1]]]
  }

  ghost predicate Visits(rows: map<string, Field>, ids: seq<string>) {
    (forall id :: id in ids ==> id in rows) && forall i, j :: 0 <= i < j < |ids| ==> ids[i] != ids[j]
  }

  lemma {:induction false} NotVisited(v: Vault, ivs: nat -> string, limit: nat, rows: map<string, Field>, ids: seq<string>, id: string)
    requires id in rows && id !in ids
    ensures var p := PassOver(v, ivs, limit, rows, ids); id in p.rows && p.rows[id] == rows[id]
  {
    if ids == [] {
    } else {
      assert ids == ids[..|ids| - 1] + [ids[|ids| - 1]];
      NotVisited(v, ivs, limit, rows, ids[..|ids| - 1], id);
    }
  }

  lemma DoneGrows(v: Vault, iv: string, limit: nat, p: Pass, id: string)
    ensures p.done <= PassRow(v, iv, limit, p, id).done
  {
  }

  /** What a value adds to the counters, by its class. */
  lemma RowCounts(v: Vault, iv: string, limit: nat, p: Pass, id: string)
    requires p.done < limit && id in p.rows
    ensures var q, c := PassRow(v, iv, limit, p, id), Classify(v, p.rows[id]);
            && q.skipped == p.skipped + (if c == OnPrimary then 1 else 0)
            && q.encrypted == p.encrypted + (if c == Plaintext then 1 else 0)
            && q.rotated + q.failed == p.rotated + p.failed + (if c == Outstanding || c == Legacy then 1 else 0)
            && q.rotated >= p.rotated && q.failed >= p.failed
  {
  }

  /** Values under the primary key are skipped, plain ones encrypted, other ones rotated or reported as failed, and blank ones passed over. */
  ghost predicate Tallies(v: Vault, p: Pass, values: seq<Field>) {
    && p.skipped == CountClass(v, values, OnPrimary) && p.encrypted == CountClass(v, values, Plaintext)
    && p.rotated + p.failed == CountClass(v, values, Outstanding) + CountClass(v, values, Legacy)
    && p.rotated + p.encrypted + p.skipped + p.failed + CountClass(v, values, NoValue) == |values|
  }

  lemma TalliesNext(v: Vault, iv: string, limit: nat, p: Pass, values: seq<Field>, id: string)
    requires p.done < limit && id in p.rows && Tallies(v, p, values)
    ensures Tallies(v, PassRow(v, iv, limit, p, id), values + [p.rows[id]])
  {
    var more := values + [p.rows[id]];
    assert more[..|more| - 1] == values;
    forall c ensures CountClass(v, more, c) == CountClass(v, values, c) + if Classify(v, p.rows[id]) == c then 1 else 0 {
    }
    RowCounts(v, iv, limit, p, id);
  }

  lemma VisitsInit(rows: map<string, Field>, ids: seq<string>)
    requires Visits(rows, ids) && ids != []
    ensures var init, id := ids[..|ids| - 1], ids[|ids| - 1]; Visits(rows, init) && id in rows && id !in init
  {
    assert ids == ids[..|ids| - 1] + [ids[|ids| - 1]];
  }

  /** A pass that does not reach its limit accounts for every row it visits. */
  lemma {:induction false} CountersAddUp(v: Vault, ivs: nat -> string, limit: nat, rows: map<string, Field>, ids: seq<string>)
    requires Visits(rows, ids) && PassOver(v, ivs, limit, rows, ids).done < limit
    ensures Tallies(v, PassOver(v, ivs, limit, rows, ids), ValuesOf(rows, ids)) && |ValuesOf(rows, ids)| == |ids|
  {
    if ids == [] {
    } else {
      var init, id := ids[..|ids| - 1], ids[|ids| - 1];
      var before := PassOver(v, ivs, limit, rows, init);
      VisitsInit(rows, ids);
      DoneGrows(v, ivs(|ids| - 1), limit, before, id);
      CountersAddUp(v, ivs, limit, rows, init);
      NotVisited(v, ivs, limit, rows, init, id);
      TalliesNext(v, ivs(|ids| - 1), limit, before, ValuesOf(rows, init), id);
    }
  }
}
