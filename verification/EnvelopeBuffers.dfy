/** Bytes copied into buffers, and compared without stopping at the first difference. */
module Buffers {
  import opened Bytes

  /** Copy `data` into the buffer at an offset. */
  method CopyAt(buffer: array<Byte>, offset: nat, data: Bytes)
    requires offset + |data| <= buffer.Length
    modifies buffer
    ensures buffer[..offset] == old(buffer[..offset])
    ensures buffer[offset..offset + |data|] == data
    ensures buffer[offset + |data|..] == old(buffer[offset + |data|..])
    ensures buffer[..offset + |data|] == old(buffer[..offset]) + data
  {
    var i := 0;
    while i < |data|
      invariant 0 <= i <= |data|
      invariant forall k :: 0 <= k < buffer.Length ==>
                  buffer[k] == if offset <= k < offset + i then data[k - offset] else old(buffer[k])
    {
      buffer[offset + i] := data[i];
      i := i + 1;
    }
  }

  /** The lowest bits of two numbers, combined one by one: where exactly one is set, and where any is. */
  function BitXor(a: nat, b: nat, bits: nat): nat {
    if bits == 0 then 0 else (if a % 2 != b % 2 then 1 else 0) + 2 * BitXor(a / 2, b / 2, bits - 1)
  }

  function BitOr(a: nat, b: nat, bits: nat): nat {
    if bits == 0 then 0 else (if a % 2 != 0 || b % 2 != 0 then 1 else 0) + 2 * BitOr(a / 2, b / 2, bits - 1)
  }

  function Power2(n: nat): nat {
    if n == 0 then 1 else 2 * Power2(n - 1)
  }

  /** No bit differs if and only if the numbers are equal. */
  lemma {:induction false} XorIsZero(a: nat, b: nat, bits: nat)
    requires a < Power2(bits) && b < Power2(bits)
    ensures BitXor(a, b, bits) < Power2(bits)
    ensures BitXor(a, b, bits) == 0 <==> a == b
  {
    if bits > 0 {
      XorIsZero(a / 2, b / 2, bits - 1);
    }
  }

  lemma {:induction false} OrIsZero(a: nat, b: nat, bits: nat)
    requires a < Power2(bits) && b < Power2(bits)
    ensures BitOr(a, b, bits) < Power2(bits)
    ensures BitOr(a, b, bits) == 0 <==> a == 0 && b == 0
  {
    if bits > 0 {
      OrIsZero(a / 2, b / 2, bits - 1);
    }
  }

  lemma ByteRange()
    ensures Power2(8) == 256
  {
    assert Power2(4) == 16;
    assert Power2(6) == 64;
  }

  /** Gather the differing bits of all bytes, and look at the result once. */
  method SameMagic(got: Bytes, want: Bytes) returns (same: bool)
    ensures same <==> got == want
  {
    if |got| != |want| {
      return false;
    }
    ByteRange();
    var difference := 0;
    var index := 0;
    while index < |got|
      invariant 0 <= index <= |got| && 0 <= difference < Power2(8)
      invariant difference == 0 <==> got[..index] == want[..index]
    {
      PrefixStep(got, want, index);
      XorIsZero(got[index], want[index], 8);
      OrIsZero(difference, BitXor(got[index], want[index], 8), 8);
      difference := BitOr(difference, BitXor(got[index], want[index], 8), 8);
      index := index + 1;
    }
    assert got[..|got|] == got && want[..|want|] == want;
    same := difference == 0;
  }

  lemma PrefixStep(a: Bytes, b: Bytes, i: nat)
    requires i < |a| == |b|
    ensures a[..i + 1] == b[..i + 1] <==> a[..i] == b[..i] && a[i] == b[i]
  {
    assert a[..i + 1] == a[..i] + [a[i]] && b[..i + 1] == b[..i] + [b[i]];
  }
}

/** The envelope as it is put together and taken apart in buffers. */
module EnvelopeBuffers {
  import opened Bytes
  import opened Buffers
  import opened Envelope

  method FindKeyByVersion(keys: KeySet, version: nat) returns (key: Option<Key>)
    ensures key == FindKey(keys, version)
  {
    if keys.active.version == version {
      return Some(keys.active);
    }
    ghost var left := keys.previous;
    for i := 0 to |keys.previous|
      invariant left == keys.previous[i..] && FindIn(keys.previous, version) == FindIn(left, version)
    {
      if keys.previous[i].version == version {
        return Some(keys.previous[i]);
      }
      left := left[1..];
    }
    key := None;
  }

  method MakeAssociatedData(domainTag: Bytes, header: Bytes) returns (data: array<Byte>)
    ensures fresh(data) && data[..] == domainTag + header
  {
    data := new Byte[|domainTag| + |header|];
    assert data[..0] == [];
    CopyAt(data, 0, domainTag);
    CopyAt(data, |domainTag|, header);
    assert data[..] == data[..|domainTag| + |header|];
    assert [] + domainTag == domainTag;
  }

  method FillHeader(version: nat, nonce: Bytes) returns (header: array<Byte>)
    requires |nonce| == NONCE_SIZE
    ensures fresh(header) && header[..] == Header(version, nonce)
  {
    header := new Byte[HEADER_SIZE];
    assert header[..0] == [];
    CopyAt(header, 0, ENVELOPE_MAGIC);
    CopyAt(header, 4, [ENVELOPE_VERSION]);
    CopyAt(header, 5, U32(version));
    CopyAt(header, 9, nonce);
    assert header[..] == header[..HEADER_SIZE];
    assert [] + ENVELOPE_MAGIC == ENVELOPE_MAGIC;
  }

  method SealEnvelope(c: Cipher, plain: Bytes, d: Domain, keys: KeySet, nonce: Bytes) returns (data: Option<Bytes>)
    requires |nonce| == NONCE_SIZE
    ensures data == Encrypt(c, plain, d, keys, nonce)
  {
    if !ValidKeySet(keys) || |plain| > MAX_PLAINTEXT_SIZE {
      return None;
    }
    var header := FillHeader(keys.active.version, nonce);
    var associated := MakeAssociatedData(DomainTag(d), header[..]);
    var ciphertext := c.seal(keys.active.material, nonce, associated[..], plain);
    var envelope := new Byte[HEADER_SIZE + |ciphertext|];
    assert envelope[..0] == [];
    CopyAt(envelope, 0, header[..]);
    CopyAt(envelope, HEADER_SIZE, ciphertext);
    assert envelope[..] == envelope[..HEADER_SIZE + |ciphertext|];
    assert [] + header[..] == header[..];
    data := Some(envelope[..]);
  }

  method OpenEnvelope(c: Cipher, data: Bytes, d: Domain, keys: KeySet) returns (plain: Option<Bytes>)
    ensures plain == Decrypt(c, data, d, keys)
  {
    if !ValidKeySet(keys) || |data| == 0 || |data| > MAX_ENVELOPE_SIZE || |data| < HEADER_SIZE + TAG_SIZE {
      return None;
    }
    var header := data[..HEADER_SIZE];
    var same := SameMagic(header[..4], ENVELOPE_MAGIC);
    if !same || header[4] != ENVELOPE_VERSION {
      return None;
    }
    var key := FindKeyByVersion(keys, ReadU32(header[5..9]));
    if key.None? {
      return None;
    }
    var associated := MakeAssociatedData(DomainTag(d), header);
    plain := c.open(key.value.material, header[9..], associated[..], data[HEADER_SIZE..]);
    if plain.Some? && |plain.value| > MAX_PLAINTEXT_SIZE {
      plain := None;
    }
  }
}
