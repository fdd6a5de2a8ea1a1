// Field encryption under a key ring (src/lib/crypto.ts). The cipher and the key
// fingerprint are parameters; `Ideal` says what is asked of them.
module Crypto {
  import opened Text
  import Sorting
  import opened Wrappers

  type Key = nat

  datatype Sealed = Sealed(tag: string, data: string)

  datatype Cipher = Cipher(
    seal: (Key, string, string) -> Sealed,
    open: (Key, string, Sealed) -> Option<string>,
    fingerprint: Key -> string)

  /** A key opens exactly what it sealed; nothing printed holds a colon; fingerprints tell keys apart. */
  ghost predicate Ideal(c: Cipher) {
    && (forall k, iv, p :: c.open(k, iv, c.seal(k, iv, p)) == Some(p))
    && (forall k, j, iv, p :: j != k ==> c.open(j, iv, c.seal(k, iv, p)) == None)
    && (forall k, iv, p :: ':' !in c.seal(k, iv, p).tag && ':' !in c.seal(k, iv, p).data)
    && (forall k :: ':' !in c.fingerprint(k))
    && (forall j, k :: c.fingerprint(j) == c.fingerprint(k) ==> j == k)
  }

  /** The configured keys, the primary one first. */
  datatype Vault = Vault(cipher: Cipher, primary: Key, retired: seq<Key>)

  function Ring(v: Vault): seq<Key> {
    [v.primary] + v.retired
  }

  // ----- Envelopes -----

  function EnvelopeParts(c: Cipher, k: Key, iv: string, plain: string): seq<string> {
    var s := c.seal(k, iv, plain);
    ["v2", c.fingerprint(k), iv, s.tag, s.data]
  }

  function Envelope(c: Cipher, k: Key, iv: string, plain: string): string {
    Join(EnvelopeParts(c, k, iv, plain), ':')
  }

  function LegacyParts(c: Cipher, k: Key, iv: string, plain: string): seq<string> {
    var s := c.seal(k, iv, plain);
    ["v1", iv, s.tag, s.data]
  }

  /** The older format, which is still read. */
  function LegacyEnvelope(c: Cipher, k: Key, iv: string, plain: string): string {
    Join(LegacyParts(c, k, iv, plain), ':')
  }

  function Encrypt(v: Vault, iv: string, plain: string): string {
    Envelope(v.cipher, v.primary, iv, plain)
  }

  function CiphertextKeyId(payload: string): Option<string> {
    var parts := Split(payload, ':');
    if parts[0] == "v2" && |parts| == 5 then Some(parts[1]) else None
  }

  predicate IsCiphertext(value: string) {
    var parts := Split(value, ':');
    (parts[0] == "v1" && |parts| == 4) || (parts[0] == "v2" && |parts| == 5)
  }

  /** The first key of the list that opens the value. */
  function TryKeys(c: Cipher, keys: seq<Key>, iv: string, s: Sealed): Option<string> {
    if keys == [] then None
    else
      var plain := c.open(keys[0], iv, s);
      if plain.Some? then plain else TryKeys(c, keys[1..], iv, s)
  }

  /** The ring with the stamped key first. */
  function Ordered(v: Vault, id: string): seq<Key> {
    Sorting.Filter((k: Key) => v.cipher.fingerprint(k) == id, Ring(v))
    + Sorting.Filter((k: Key) => v.cipher.fingerprint(k) != id, Ring(v))
  }

  /** None where the source throws. */
  function Decrypt(v: Vault, payload: string): Option<string> {
    var parts := Split(payload, ':');
    if parts[0] == "v2" && |parts| == 5 then
      TryKeys(v.cipher, Ordered(v, parts[1]), parts[2], Sealed(parts[3], parts[4]))
    else if parts[0] == "v1" && |parts| == 4 then
      TryKeys(v.cipher, Ring(v), parts[1], Sealed(parts[2], parts[3]))
    else None
  }

  /** A field is null, empty, or text. */
  function EncryptField(v: Vault, iv: string, value: Option<string>): Option<string> {
    if value.None? || value.value == "" then value else Some(Encrypt(v, iv, value.value))
  }

  /** What a stored field reads as; the outer None is an exception. */
  function DecryptField(v: Vault, value: Option<string>): Option<Option<string>> {
    if value.None? || value.value == "" || !IsCiphertext(value.value) then Some(value)
    else
      var plain := Decrypt(v, value.value);
      if plain.None? then None else Some(plain)
  }

  // ----- What was sealed opens again -----

  ghost predicate Plainly(iv: string) {
    ':' !in iv
  }

  lemma EnvelopeSplits(c: Cipher, k: Key, iv: string, plain: string)
    requires Ideal(c) && Plainly(iv)
    ensures Split(Envelope(c, k, iv, plain), ':') == EnvelopeParts(c, k, iv, plain)
    ensures Split(LegacyEnvelope(c, k, iv, plain), ':') == LegacyParts(c, k, iv, plain)
  {
    SplitJoin(EnvelopeParts(c, k, iv, plain), ':');
    SplitJoin(LegacyParts(c, k, iv, plain), ':');
  }

  /** The envelopes as they are stored: the version, the fingerprint of the key, and the three encoded parts. */
  lemma EnvelopeLayout(c: Cipher, k: Key, iv: string, plain: string)
    ensures var s := c.seal(k, iv, plain);
            && Envelope(c, k, iv, plain) == "v2:" + c.fingerprint(k) + ":" + iv + ":" + s.tag + ":" + s.data
            && LegacyEnvelope(c, k, iv, plain) == "v1:" + iv + ":" + s.tag + ":" + s.data
  {
    var s := c.seal(k, iv, plain);
    JoinFour(c.fingerprint(k), iv, s.tag, s.data);
    JoinCons("v2", [c.fingerprint(k), iv, s.tag, s.data], ':');
    assert EnvelopeParts(c, k, iv, plain) == ["v2"] + [c.fingerprint(k), iv, s.tag, s.data];
    JoinFour("v1", iv, s.tag, s.data);
  }

  lemma JoinFour(a: string, b: string, c: string, d: string)
    ensures Join([a, b, c, d], ':') == a + ":" + b + ":" + c + ":" + d
  {
    JoinCons(c, [d], ':');
    JoinCons(b, [c, d], ':');
    JoinCons(a, [b, c, d], ':');
    assert [c] + [d] == [c, d] && [b] + [c, d] == [b, c, d] && [a] + [b, c, d] == [a, b, c, d];
  }

  lemma {:induction false} OnlyItsKeyOpens(c: Cipher, keys: seq<Key>, k: Key, iv: string, plain: string)
    requires Ideal(c)
    ensures TryKeys(c, keys, iv, c.seal(k, iv, plain)) == if k in keys then Some(plain) else None
  {
    if keys == [] {
    } else {
      OnlyItsKeyOpens(c, keys[1..], k, iv, plain);
    }
  }

  lemma {:induction false} FilterMembers(p: Key -> bool, keys: seq<Key>)
    ensures forall k :: k in Sorting.Filter(p, keys) <==> k in keys && p(k)
  {
    if keys == [] {
    } else {
      FilterMembers(p, keys[1..]);
    }
  }

  lemma OrderedMembers(v: Vault, id: string)
    ensures forall k :: k in Ordered(v, id) <==> k in Ring(v)
  {
    FilterMembers((k: Key) => v.cipher.fingerprint(k) == id, Ring(v));
    FilterMembers((k: Key) => v.cipher.fingerprint(k) != id, Ring(v));
  }

  /** A value sealed under any key of the ring reads back, in either format; under any other key it does not. */
  lemma DecryptOpens(v: Vault, k: Key, iv: string, plain: string)
    requires Ideal(v.cipher) && Plainly(iv)
    ensures Decrypt(v, Envelope(v.cipher, k, iv, plain)) == if k in Ring(v) then Some(plain) else None
    ensures Decrypt(v, LegacyEnvelope(v.cipher, k, iv, plain)) == if k in Ring(v) then Some(plain) else None
  {
    EnvelopeSplits(v.cipher, k, iv, plain);
    OrderedMembers(v, v.cipher.fingerprint(k));
    OnlyItsKeyOpens(v.cipher, Ordered(v, v.cipher.fingerprint(k)), k, iv, plain);
    OnlyItsKeyOpens(v.cipher, Ring(v), k, iv, plain);
  }

  /** Text without a colon. */
  ghost predicate Part(text: string) {
    ':' !in text
  }

  /** A value counts as encrypted exactly when it has the shape of one of the two envelopes. */
  lemma IsCiphertextIff(value: string)
    ensures IsCiphertext(value) <==>
              || (exists a, b, c :: Part(a) && Part(b) && Part(c) && value == Join(["v1", a, b, c], ':'))
              || (exists a, b, c, d :: Part(a) && Part(b) && Part(c) && Part(d) && value == Join(["v2", a, b, c, d], ':'))
  {
    var parts := Split(value, ':');
    JoinSplit(value, ':');
    if IsCiphertext(value) {
      assert Part(parts[1]) && Part(parts[2]) && Part(parts[3]);
      if |parts| == 4 {
        assert parts == ["v1", parts[1], parts[2], parts[3]];
      } else {
        assert Part(parts[4]) && parts == ["v2", parts[1], parts[2], parts[3], parts[4]];
      }
    }
    if a, b, c :| Part(a) && Part(b) && Part(c) && value == Join(["v1", a, b, c], ':') {
      SplitJoin(["v1", a, b, c], ':');
    } else if a, b, c, d :| Part(a) && Part(b) && Part(c) && Part(d) && value == Join(["v2", a, b, c, d], ':') {
      SplitJoin(["v2", a, b, c, d], ':');
    }
  }

  /** A stored field in either envelope reads as what was sealed when its key is in the ring, and fails to read otherwise; plain text reads as it is. */
  lemma FieldReads(v: Vault, k: Key, iv: string, plain: string)
    requires Ideal(v.cipher) && Plainly(iv)
    ensures DecryptField(v, Some(Envelope(v.cipher, k, iv, plain))) == if k in Ring(v) then Some(Some(plain)) else None
    ensures DecryptField(v, Some(LegacyEnvelope(v.cipher, k, iv, plain))) == if k in Ring(v) then Some(Some(plain)) else None
    ensures !IsCiphertext(plain) ==> DecryptField(v, Some(plain)) == Some(Some(plain))
  {
    EnvelopeSplits(v.cipher, k, iv, plain);
    DecryptOpens(v, k, iv, plain);
  }

  /** Encrypting a field and reading it back gives the same field, whatever it holds. */
  lemma FieldRoundTrip(v: Vault, iv: string, value: Option<string>)
    requires Ideal(v.cipher) && Plainly(iv)
    ensures DecryptField(v, EncryptField(v, iv, value)) == Some(value)
  {
    if value.Some? && value.value != "" {
      EnvelopeSplits(v.cipher, v.primary, iv, value.value);
      DecryptOpens(v, v.primary, iv, value.value);
    }
  }

  // ----- The assumptions can be met -----

  /** Colons written out of a text, in a way that can be undone. */
  function Veil(p: string): string {
    if p == "" then ""
    else (if p[0] == ':' then "!c" else if p[0] == '!' then "!!" else [p[0]]) + Veil(p[1..])
  }

  function Unveil(t: string): string {
    if t == "" then ""
    else if t[0] == '!' && |t| > 1 then [if t[1] == 'c' then ':' else '!'] + Unveil(t[2..])
    else [t[0]] + Unveil(t[1..])
  }

  lemma {:induction false} VeilUndone(p: string)
    ensures Unveil(Veil(p)) == p && ':' !in Veil(p)
  {
    if p == "" {
    } else {
      VeilUndone(p[1..]);
      var t := Veil(p);
      assert p == [p[0]] + p[1..];
      if p[0] == ':' || p[0] == '!' {
        assert t[2..] == Veil(p[1..]) && t[0] == '!';
      } else {
        assert t[1..] == Veil(p[1..]);
      }
    }
  }

  /** A key spelled in strokes. */
  function Strokes(k: Key): string {
    seq(k, _ => 'k')
  }

  /** A cipher of no secrecy at all, which shows that what is asked of ciphers is consistent. */
  function ToyCipher(): Cipher {
    Cipher((k: Key, iv: string, p: string) => Sealed(Strokes(k), Veil(p)),
           (k: Key, iv: string, s: Sealed) => if s.tag == Strokes(k) then Some(Unveil(s.data)) else None,
           Strokes)
  }

  lemma ToyCipherIsIdeal()
    ensures Ideal(ToyCipher())
  {
    var c := ToyCipher();
    forall j, k | Strokes(j) == Strokes(k) ensures j == k {
      assert |Strokes(j)| == j && |Strokes(k)| == k;
    }
    forall k, iv, p ensures c.open(k, iv, c.seal(k, iv, p)) == Some(p) && ':' !in c.seal(k, iv, p).tag && ':' !in c.seal(k, iv, p).data {
      VeilUndone(p);
    }
  }
}
