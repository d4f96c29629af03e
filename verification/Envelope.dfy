/** Byte strings, big-endian numbers, and the encrypted envelope over an ideal cipher. */
module Bytes {
  datatype Option<T> = None | Some(value: T)

  type Byte = b: int | 0 <= b < 256

  type Bytes = seq<Byte>

  lemma Associative<T>(a: seq<T>, b: seq<T>, c: seq<T>)
    ensures a + (b + c) == a + b + c
  {
  }

  const TWO_16 := 0x1_0000
  const TWO_32 := 0x1_0000_0000

  /** Two bytes, most significant first; larger numbers are truncated. */
  function U16(n: nat): (s: Bytes)
    ensures |s| == 2
  {
    [n / 256 % 256, n % 256]
  }

  function U32(n: nat): (s: Bytes)
    ensures |s| == 4
  {
    [n / 256 / 256 / 256 % 256, n / 256 / 256 % 256, n / 256 % 256, n % 256]
  }

  function ReadU16(s: Bytes): nat
    requires |s| >= 2
  {
    256 * (s[0] as int) + s[1] as int
  }

  function ReadU32(s: Bytes): nat
    requires |s| >= 4
  {
    256 * (256 * (256 * (s[0] as int) + s[1] as int) + s[2] as int) + s[3] as int
  }

  lemma DivMod(high: nat, low: Byte)
    ensures (256 * high + low) / 256 == high && (256 * high + low) % 256 == low
  {
  }

  /** A number and its bytes determine each other. */
  lemma U16Inverse(s: Bytes, n: nat)
    requires |s| >= 2 && n < TWO_16
    ensures ReadU16(s) < TWO_16
    ensures ReadU16(s) == n <==> s[..2] == U16(n)
  {
    assert s[..2] == [s[0], s[1]];
  }

  lemma U32Inverse(s: Bytes, n: nat)
    requires |s| >= 4 && n < TWO_32
    ensures ReadU32(s) < TWO_32
    ensures ReadU32(s) == n <==> s[..4] == U32(n)
  {
    assert s[..4] == [s[0], s[1], s[2], s[3]];
    var high := 256 * (256 * (s[0] as int) + s[1] as int) + s[2] as int;
    DivMod(high, s[3]);
    DivMod(256 * (s[0] as int) + s[1] as int, s[2]);
    DivMod(s[0], s[1]);
    DivMod(0, s[0]);
    DivMod(n / 256, n % 256);
    DivMod(n / 256 / 256, n / 256 % 256);
    DivMod(n / 256 / 256 / 256, n / 256 / 256 % 256);
  }
}

module Envelope {
  import opened Bytes

  const KEY_SIZE := 32
  const NONCE_SIZE := 12
  const TAG_SIZE := 16
  const ENVELOPE_VERSION: Byte := 1
  const MAX_PREVIOUS_KEYS := 4
  const MAX_PLAINTEXT_SIZE := 0x10_0000
  const HEADER_SIZE := 4 + 1 + 4 + NONCE_SIZE
  const MAX_ENVELOPE_SIZE := HEADER_SIZE + MAX_PLAINTEXT_SIZE + TAG_SIZE
  const ENVELOPE_MAGIC: Bytes := [67, 83, 80, 69]

  datatype Domain = CredentialDomain | PayloadDomain

  datatype Key = Key(version: nat, material: Bytes)

  datatype KeySet = KeySet(active: Key, previous: seq<Key>)

  /** An authenticated cipher: key, nonce and associated data, then plaintext or ciphertext. */
  datatype Cipher = Cipher(seal: (Bytes, Bytes, Bytes, Bytes) -> Bytes,
                           open: (Bytes, Bytes, Bytes, Bytes) -> Option<Bytes>)

  /** What is assumed of the cipher: ciphertexts are one tag longer, and exactly they open. */
  ghost predicate Ideal(c: Cipher) {
    && (forall k, n, a, p :: |c.seal(k, n, a, p)| == |p| + TAG_SIZE && c.open(k, n, a, c.seal(k, n, a, p)) == Some(p))
    && (forall k, n, a, x :: c.open(k, n, a, x).Some? ==> x == c.seal(k, n, a, c.open(k, n, a, x).value))
  }

  predicate ValidKey(k: Key) {
    0 < k.version < TWO_32 && |k.material| == KEY_SIZE
  }

  predicate ValidKeySet(keys: KeySet) {
    && ValidKey(keys.active)
    && |keys.previous| <= MAX_PREVIOUS_KEYS
    && (forall i :: 0 <= i < |keys.previous| ==>
          ValidKey(keys.previous[i]) && keys.previous[i].version != keys.active.version)
    && (forall i, j :: 0 <= i < j < |keys.previous| ==> keys.previous[i].version != keys.previous[j].version)
  }

  function DomainTag(d: Domain): Bytes {
    match d
    case CredentialDomain => [99, 115, 112, 58, 99, 114, 101, 100, 101, 110, 116, 105, 97, 108, 58, 118, 49]
    case PayloadDomain => [99, 115, 112, 58, 112, 97, 121, 108, 111, 97, 100, 58, 118, 49]
  }

  function FindIn(keys: seq<Key>, version: nat): Option<Key> {
    if keys == [] then None
    else if keys[0].version == version then Some(keys[0])
    else FindIn(keys[1..], version)
  }

  function FindKey(keys: KeySet, version: nat): Option<Key> {
    if keys.active.version == version then Some(keys.active) else FindIn(keys.previous, version)
  }

  /** A key set that holds a key finds it by its version. */
  lemma {:induction false} HeldKeyIsFound(keys: KeySet, key: Key)
    requires ValidKeySet(keys) && (key == keys.active || key in keys.previous)
    ensures FindKey(keys, key.version) == Some(key)
  {
    if key != keys.active {
      FoundIn(keys.previous, key);
    }
  }

  lemma {:induction false} FoundIn(keys: seq<Key>, key: Key)
    requires key in keys
    requires forall i, j :: 0 <= i < j < |keys| ==> keys[i].version != keys[j].version
    ensures FindIn(keys, key.version) == Some(key)
  {
    if keys[0] != key {
      assert key in keys[1..];
      FoundIn(keys[1..], key);
    }
  }

  function Header(version: nat, nonce: Bytes): Bytes {
    ENVELOPE_MAGIC + [ENVELOPE_VERSION] + U32(version) + nonce
  }

  function Sealed(c: Cipher, plain: Bytes, d: Domain, key: Key, nonce: Bytes): Bytes {
    var header := Header(key.version, nonce);
    header + c.seal(key.material, nonce, DomainTag(d) + header, plain)
  }

  function Encrypt(c: Cipher, plain: Bytes, d: Domain, keys: KeySet, nonce: Bytes): Option<Bytes> {
    if !ValidKeySet(keys) || |plain| > MAX_PLAINTEXT_SIZE then None
    else Some(Sealed(c, plain, d, keys.active, nonce))
  }

  function Decrypt(c: Cipher, data: Bytes, d: Domain, keys: KeySet): Option<Bytes> {
    if !ValidKeySet(keys) || |data| == 0 || |data| > MAX_ENVELOPE_SIZE || |data| < HEADER_SIZE + TAG_SIZE then None
    else
      var header := data[..HEADER_SIZE];
      if header[..4] != ENVELOPE_MAGIC || header[4] != ENVELOPE_VERSION then None
      else match FindKey(keys, ReadU32(header[5..9]))
        case None => None
        case Some(key) =>
          match c.open(key.material, header[9..], DomainTag(d) + header, data[HEADER_SIZE..])
          case None => None
          case Some(plain) => if |plain| > MAX_PLAINTEXT_SIZE then None else Some(plain)
  }

  lemma HeaderParts(version: nat, nonce: Bytes)
    requires version < TWO_32 && |nonce| == NONCE_SIZE
    ensures var h := Header(version, nonce);
            |h| == HEADER_SIZE && h[..4] == ENVELOPE_MAGIC && h[4] == ENVELOPE_VERSION
            && ReadU32(h[5..9]) == version && h[9..] == nonce
  {
    var h := Header(version, nonce);
    assert h[5..9] == U32(version);
    U32Inverse(h[5..9], version);
  }

  /** An envelope opens under every key set that still holds its key. */
  lemma EncryptDecrypt(c: Cipher, plain: Bytes, d: Domain, keys: KeySet, nonce: Bytes, later: KeySet)
    requires Ideal(c) && |nonce| == NONCE_SIZE && Encrypt(c, plain, d, keys, nonce).Some?
    requires ValidKeySet(later) && (keys.active == later.active || keys.active in later.previous)
    ensures var sealed := Encrypt(c, plain, d, keys, nonce).value;
            |sealed| == HEADER_SIZE + |plain| + TAG_SIZE && Decrypt(c, sealed, d, later) == Some(plain)
  {
    var header := Header(keys.active.version, nonce);
    var sealed := Encrypt(c, plain, d, keys, nonce).value;
    HeaderParts(keys.active.version, nonce);
    HeldKeyIsFound(later, keys.active);
    assert sealed[..HEADER_SIZE] == header;
    assert sealed[HEADER_SIZE..] == c.seal(keys.active.material, nonce, DomainTag(d) + header, plain);
  }

  /** Only what some held key sealed for the same domain ever opens. */
  lemma DecryptIsAuthentic(c: Cipher, data: Bytes, d: Domain, keys: KeySet)
    requires Ideal(c) && Decrypt(c, data, d, keys).Some?
    ensures var key := FindKey(keys, ReadU32(data[5..9]));
            key.Some? && data == Sealed(c, Decrypt(c, data, d, keys).value, d, key.value, data[9..HEADER_SIZE])
  {
    var header := data[..HEADER_SIZE];
    var version := ReadU32(header[5..9]);
    assert header[5..9] == data[5..9];
    FoundVersion(keys, version);
    U32Inverse(header[5..9], version);
    assert header[5..9][..4] == header[5..9];
    assert header == header[..4] + [header[4]] + header[5..9] + header[9..];
    assert header[9..] == data[9..HEADER_SIZE];
    assert data == header + data[HEADER_SIZE..];
  }

  lemma {:induction false} FoundVersion(keys: KeySet, version: nat)
    ensures FindKey(keys, version).Some? ==> FindKey(keys, version).value.version == version
  {
    FoundInVersion(keys.previous, version);
  }

  lemma {:induction false} FoundInVersion(keys: seq<Key>, version: nat)
    ensures FindIn(keys, version).Some? ==> FindIn(keys, version).value.version == version
  {
    if keys != [] {
      FoundInVersion(keys[1..], version);
    }
  }

  function Sum(s: Bytes): nat {
    if s == [] then 0 else s[0] + Sum(s[1..])
  }

  /** A tag that depends on key, nonce and associated data. */
  function SumTag(k: Bytes, n: Bytes, a: Bytes): (t: Bytes)
    ensures |t| == TAG_SIZE
  {
    [Sum(k) % 256, Sum(n) % 256, Sum(a) % 256, 0, 0, 0, 0, 0, 0, 0, 0, 0, 0, 0, 0, 0]
  }

  function SumSeal(k: Bytes, n: Bytes, a: Bytes, p: Bytes): Bytes {
    p + SumTag(k, n, a)
  }

  function SumOpen(k: Bytes, n: Bytes, a: Bytes, x: Bytes): Option<Bytes> {
    if |x| >= TAG_SIZE && x[|x| - TAG_SIZE..] == SumTag(k, n, a) then Some(x[..|x| - TAG_SIZE]) else None
  }

  /** What is sealed under some key and associated data opens neither under some other key nor with some
      other associated data. */
  ghost predicate TellsApart(c: Cipher) {
    exists k, l, n, a, b, p :: c.open(l, n, a, c.seal(k, n, a, p)).None? && c.open(k, n, b, c.seal(k, n, a, p)).None?
  }

  lemma SumOpens(k: Bytes, n: Bytes, a: Bytes, p: Bytes)
    ensures SumOpen(k, n, a, SumSeal(k, n, a, p)) == Some(p)
  {
    var tag := SumTag(k, n, a);
    assert (p + tag)[|p|..] == tag && (p + tag)[..|p|] == p;
  }

  lemma SumRefuses(k: Bytes, n: Bytes, a: Bytes, l: Bytes, b: Bytes, p: Bytes)
    requires SumTag(l, n, b) != SumTag(k, n, a)
    ensures SumOpen(l, n, b, SumSeal(k, n, a, p)).None?
  {
    var tag := SumTag(k, n, a);
    assert (p + tag)[|p|..] == tag;
  }

  /** What the null key sealed opens neither under another key nor with other data. */
  lemma SumTellsApart(c: Cipher, zero: Bytes, one: Bytes)
    requires c == Cipher(SumSeal, SumOpen) && zero == [0] && one == [1]
    ensures TellsApart(c)
  {
    assert zero[1..] == [] && one[1..] == [] && Sum([]) == 0;
    assert Sum(zero) == 0 && Sum(one) == 1;
    assert SumTag(zero, zero, zero)[0] == 0 && SumTag(one, zero, zero)[0] == 1;
    assert SumTag(zero, zero, zero)[2] == 0 && SumTag(zero, zero, one)[2] == 1;
    SumRefuses(zero, zero, zero, one, zero, zero);
    SumRefuses(zero, zero, zero, zero, one, zero);
    assert c.open(one, zero, zero, c.seal(zero, zero, zero, zero)).None?;
    assert c.open(zero, zero, one, c.seal(zero, zero, zero, zero)).None?;
  }

  lemma SumIsIdeal(c: Cipher)
    requires c == Cipher(SumSeal, SumOpen)
    ensures Ideal(c)
  {
    forall k, n, a, p
      ensures |c.seal(k, n, a, p)| == |p| + TAG_SIZE && c.open(k, n, a, c.seal(k, n, a, p)) == Some(p)
    {
      SumOpens(k, n, a, p);
    }
    forall k, n, a, x | c.open(k, n, a, x).Some?
      ensures x == c.seal(k, n, a, c.open(k, n, a, x).value)
    {
      assert x == x[..|x| - TAG_SIZE] + x[|x| - TAG_SIZE..];
    }
  }

  /** The assumption on the cipher can be met, also by a cipher that depends on key and associated data. As
      tags have a fixed size, no cipher can tell every pair of keys apart. */
  lemma IdealExists()
    ensures exists c :: Ideal(c) && TellsApart(c)
  {
    var c := Cipher(SumSeal, SumOpen);
    SumIsIdeal(c);
    SumTellsApart(c, [0], [1]);
  }
}
