/** What an envelope and a chunk are bound to: exactly when sealing and opening succeed, and that no other domain,
    header or owner gives the same bytes. */
module Bindings {
  import opened Bytes
  import opened Envelope
  import opened ArtifactCodec

  /** The active key and those before it. */
  function AllKeys(keys: KeySet): seq<Key> {
    [keys.active] + keys.previous
  }

  /** Up to five keys of 32 bytes, under different versions of 32 bits that are not zero. */
  predicate Usable(keys: KeySet) {
    var all := AllKeys(keys);
    && |all| <= 5
    && (forall i :: 0 <= i < |all| ==> 1 <= all[i].version <= 0xFFFF_FFFF && |all[i].material| == 32)
    && forall i, j :: 0 <= i < j < |all| ==> all[i].version != all[j].version
  }

  lemma ValidIsUsable(keys: KeySet)
    ensures ValidKeySet(keys) <==> Usable(keys)
  {
    var all := AllKeys(keys);
    assert forall i :: 0 <= i < |keys.previous| ==> keys.previous[i] == all[i + 1];
    if Usable(keys) {
      assert all[0] == keys.active;
      forall i | 0 <= i < |keys.previous|
        ensures ValidKey(keys.previous[i]) && keys.previous[i].version != keys.active.version
      {
        assert all[i + 1].version != all[0].version;
      }
      forall i, j | 0 <= i < j < |keys.previous|
        ensures keys.previous[i].version != keys.previous[j].version
      {
        assert all[i + 1].version != all[j + 1].version;
      }
    }
  }

  /** Sealing succeeds exactly for a usable key set and up to one mebibyte. */
  lemma SealsExactly(c: Cipher, plain: Bytes, d: Domain, keys: KeySet, nonce: Bytes)
    ensures Encrypt(c, plain, d, keys, nonce).Some? <==> Usable(keys) && |plain| <= 1024 * 1024
  {
    ValidIsUsable(keys);
  }

  /** An envelope of this plaintext under one of the keys. */
  ghost predicate SealedUnder(c: Cipher, data: Bytes, d: Domain, keys: KeySet, plain: Bytes) {
    exists i, nonce: Bytes ::
      0 <= i < |AllKeys(keys)| && |nonce| == 12 && data == Sealed(c, plain, d, AllKeys(keys)[i], nonce)
  }

  lemma AnyHeldKeyOpens(c: Cipher, plain: Bytes, d: Domain, keys: KeySet, key: Key, nonce: Bytes)
    requires Ideal(c) && ValidKeySet(keys) && key in AllKeys(keys) && |nonce| == NONCE_SIZE
             && |plain| <= MAX_PLAINTEXT_SIZE
    ensures Decrypt(c, Sealed(c, plain, d, key, nonce), d, keys) == Some(plain)
  {
    var own := KeySet(key, []);
    var held := key == keys.active || key in keys.previous;
    assert held;
    EncryptDecrypt(c, plain, d, own, nonce, keys);
  }

  /** Opening gives a plaintext exactly when the key set is usable and one of its keys sealed that plaintext for this
      domain. */
  lemma OpensExactly(c: Cipher, data: Bytes, d: Domain, keys: KeySet, plain: Bytes)
    requires Ideal(c)
    ensures Decrypt(c, data, d, keys) == Some(plain)
            <==> Usable(keys) && |plain| <= 1024 * 1024 && SealedUnder(c, data, d, keys, plain)
  {
    ValidIsUsable(keys);
    if Decrypt(c, data, d, keys) == Some(plain) {
      DecryptIsAuthentic(c, data, d, keys);
      var key := FindKey(keys, ReadU32(data[5..9])).value;
      FoundIsHeld(keys, ReadU32(data[5..9]));
      var i :| 0 <= i < |AllKeys(keys)| && AllKeys(keys)[i] == key;
      assert |data[9..HEADER_SIZE]| == 12;
    }
    if Usable(keys) && |plain| <= 1024 * 1024 && SealedUnder(c, data, d, keys, plain) {
      var i, nonce: Bytes :| 0 <= i < |AllKeys(keys)| && |nonce| == 12
                             && data == Sealed(c, plain, d, AllKeys(keys)[i], nonce);
      AnyHeldKeyOpens(c, plain, d, keys, AllKeys(keys)[i], nonce);
    }
  }

  lemma FoundIsHeld(keys: KeySet, version: nat)
    requires FindKey(keys, version).Some?
    ensures FindKey(keys, version).value in AllKeys(keys)
  {
    if keys.active.version != version {
      FoundInIsIn(keys.previous, version);
    }
  }

  lemma {:induction false} FoundInIsIn(keys: seq<Key>, version: nat)
    requires FindIn(keys, version).Some?
    ensures FindIn(keys, version).value in keys
  {
    if keys[0].version != version {
      FoundInIsIn(keys[1..], version);
    }
  }

  /** What is authenticated with a plaintext tells its domain, its key version and its nonce. */
  lemma AssociatedDataBinds(d: Domain, e: Domain, v: nat, w: nat, n: Bytes, m: Bytes)
    requires v < TWO_32 && w < TWO_32 && |n| == NONCE_SIZE && |m| == NONCE_SIZE
    requires DomainTag(d) + Header(v, n) == DomainTag(e) + Header(w, m)
    ensures d == e && v == w && n == m
  {
    HeaderParts(v, n);
    HeaderParts(w, m);
    assert |DomainTag(d)| == |DomainTag(e)|;
    assert (DomainTag(d) + Header(v, n))[|DomainTag(d)|..] == Header(v, n);
    assert (DomainTag(e) + Header(w, m))[|DomainTag(e)|..] == Header(w, m);
  }

  /** A chunk tells its owner, its place and its data. */
  lemma ChunkBinds(o: Owner, i: nat, n: nat, data: Bytes, p: Owner, j: nat, m: nat, other: Bytes)
    requires i < TWO_32 && n < TWO_32 && j < TWO_32 && m < TWO_32
    requires Encodable(Fields(o)) && Encodable(Fields(p)) && |ChunkBytes(o, i, n, data)| <= MAX_PLAINTEXT_SIZE
    requires ChunkBytes(o, i, n, data) == ChunkBytes(p, j, m, other)
    ensures o == p && i == j && n == m && data == other
  {
    var s := ChunkBytes(o, i, n, data);
    ChunkBytesSplit(o, i, n, data);
    ChunkBytesSplit(p, j, m, other);
    ChunkHeadParts(s, i, n);
    ChunkHeadParts(s, j, m);
    WrittenDecodes(s, o, i, n, data);
    WrittenDecodes(s, p, j, m, other);
    assert Fields(o) == Fields(p);
    assert Fields(o)[0] == Fields(p)[0] && Fields(o)[1] == Fields(p)[1] && Fields(o)[2] == Fields(p)[2]
           && Fields(o)[3] == Fields(p)[3] && Fields(o)[4] == Fields(p)[4];
  }
}
