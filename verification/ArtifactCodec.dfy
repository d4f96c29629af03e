/** The encrypted artifact file: a plaintext split into chunks, each sealed with its owner's
    metadata, in a file of length-prefixed envelopes. */
module ArtifactCodec {
  import opened Bytes
  import opened Envelope

  const FORMAT_VERSION: Byte := 1
  const FILE_HEADER_SIZE := 4 + 1 + 4
  const MAX_CHUNKS := 64
  const MAX_ARTIFACT_SIZE := 64 * 0x10_0000
  const ARTIFACT_MAGIC: Bytes := [67, 83, 80, 65]
  const CHUNK_MAGIC: Bytes := [67, 83, 80, 67]

  /** The metadata sealed into every chunk, in the order in which it is written. */
  datatype Owner = Owner(id: Bytes, mime: Bytes, request: Bytes, conversation: Bytes, apiKey: Bytes)

  function Fields(o: Owner): seq<Bytes> {
    [o.id, o.mime, o.request, o.conversation, o.apiKey]
  }

  predicate Encodable(fields: seq<Bytes>) {
    forall i :: 0 <= i < |fields| ==> |fields[i]| < TWO_16
  }

  // ----- One chunk -----

  function FieldBytes(f: Bytes): Bytes {
    U16(|f|) + f
  }

  function AllFieldBytes(fields: seq<Bytes>): Bytes {
    if fields == [] then [] else FieldBytes(fields[0]) + AllFieldBytes(fields[1..])
  }

  function ChunkHead(index: nat, total: nat): Bytes {
    CHUNK_MAGIC + [FORMAT_VERSION] + U32(index) + U32(total)
  }

  /** The plaintext of one chunk. */
  function ChunkBytes(o: Owner, index: nat, total: nat, data: Bytes): Bytes {
    ChunkHead(index, total) + AllFieldBytes(Fields(o)) + U32(|data|) + data
  }

  function EncodeChunk(o: Owner, index: int, total: int, data: Bytes): Option<Bytes> {
    if index < 0 || total <= 0 || index >= total || |data| > MAX_PLAINTEXT_SIZE then None
    else if !Encodable(Fields(o)) || |ChunkBytes(o, index, total, data)| > MAX_PLAINTEXT_SIZE then None
    else Some(ChunkBytes(o, index, total, data))
  }

  datatype Parsed<T> = Bad | Good(value: T, rest: Bytes)

  function ParseField(s: Bytes): Parsed<Bytes> {
    if |s| < 2 || ReadU16(s) > |s| - 2 then Bad else Good(s[2..2 + ReadU16(s)], s[2 + ReadU16(s)..])
  }

  function ParseFields(s: Bytes, count: nat): Parsed<seq<Bytes>> {
    if count == 0 then Good([], s)
    else match ParseField(s)
      case Bad => Bad
      case Good(f, rest) =>
        match ParseFields(rest, count - 1)
        case Bad => Bad
        case Good(fs, end) => Good([f] + fs, end)
  }

  function DecodeChunk(plain: Bytes, o: Owner, index: nat, total: nat): Option<Bytes> {
    if |plain| < 13 || plain[..4] != CHUNK_MAGIC || plain[4] != FORMAT_VERSION
       || ReadU32(plain[5..9]) != index || ReadU32(plain[9..13]) != total then None
    else match ParseFields(plain[13..], 5)
      case Bad => None
      case Good(fields, rest) =>
        if fields != Fields(o) || |rest| < 4 || ReadU32(rest) != |rest| - 4 then None
        else Some(rest[4..])
  }

  lemma ParseFieldExact(s: Bytes, f: Bytes, rest: Bytes)
    ensures ParseField(s) == Good(f, rest) <==> |f| < TWO_16 && s == FieldBytes(f) + rest
  {
    if |s| >= 2 {
      U16Inverse(s, if |f| < TWO_16 then |f| else 0);
      assert s == s[..2] + s[2..];
      if s == FieldBytes(f) + rest && |f| < TWO_16 {
        assert s[..2] == U16(|f|);
        assert s[2..2 + |f|] == f && s[2 + |f|..] == rest;
      }
    }
  }

  lemma FieldsJoin(f: Bytes, fields: seq<Bytes>, rest: Bytes)
    requires |f| < TWO_16 && Encodable(fields)
    ensures Encodable([f] + fields)
    ensures AllFieldBytes([f] + fields) + rest == FieldBytes(f) + (AllFieldBytes(fields) + rest)
  {
    assert ([f] + fields)[1..] == fields;
    Associative(FieldBytes(f), AllFieldBytes(fields), rest);
  }

  lemma {:induction false} ParseFieldsSound(s: Bytes, count: nat)
    requires ParseFields(s, count).Good?
    ensures var p := ParseFields(s, count);
            |p.value| == count && Encodable(p.value) && s == AllFieldBytes(p.value) + p.rest
    decreases count
  {
    if count > 0 {
      var first := ParseField(s);
      var others := ParseFields(first.rest, count - 1);
      ParseFieldExact(s, first.value, first.rest);
      ParseFieldsSound(first.rest, count - 1);
      FieldsJoin(first.value, others.value, others.rest);
    }
  }

  lemma {:induction false} ParseFieldsComplete(fields: seq<Bytes>, rest: Bytes)
    requires Encodable(fields)
    ensures ParseFields(AllFieldBytes(fields) + rest, |fields|) == Good(fields, rest)
  {
    if fields == [] {
      assert AllFieldBytes(fields) + rest == rest;
    } else {
      var tail := AllFieldBytes(fields[1..]) + rest;
      assert AllFieldBytes(fields) + rest == FieldBytes(fields[0]) + tail;
      ParseFieldExact(FieldBytes(fields[0]) + tail, fields[0], tail);
      ParseFieldsComplete(fields[1..], rest);
      assert fields == [fields[0]] + fields[1..];
    }
  }

  lemma ChunkHeadParts(s: Bytes, index: nat, total: nat)
    requires |s| >= 13 && index < TWO_32 && total < TWO_32
    ensures s[..13] == ChunkHead(index, total) <==>
            s[..4] == CHUNK_MAGIC && s[4] == FORMAT_VERSION && ReadU32(s[5..9]) == index && ReadU32(s[9..13]) == total
  {
    var h := s[..13];
    assert h == h[..4] + [h[4]] + h[5..9] + h[9..13];
    assert h[..4] == s[..4] && h[4] == s[4] && h[5..9] == s[5..9] && h[9..13] == s[9..13];
    U32Inverse(s[5..9], index);
    U32Inverse(s[9..13], total);
    assert s[5..9][..4] == s[5..9] && s[9..13][..4] == s[9..13];
    var c := ChunkHead(index, total);
    assert c[..4] == CHUNK_MAGIC && c[4] == FORMAT_VERSION && c[5..9] == U32(index) && c[9..13] == U32(total);
  }

  lemma DataPart(rest: Bytes, data: Bytes)
    requires |data| < TWO_32
    ensures (|rest| >= 4 && ReadU32(rest) == |rest| - 4 && rest[4..] == data) <==> rest == U32(|data|) + data
  {
    if |rest| >= 4 {
      U32Inverse(rest, |data|);
      assert rest == rest[..4] + rest[4..];
    }
  }

  lemma ChunkBytesSplit(o: Owner, index: nat, total: nat, data: Bytes)
    ensures var s, rest := ChunkBytes(o, index, total, data), U32(|data|) + data;
            |s| >= 13 && s[..13] == ChunkHead(index, total) && s[13..] == AllFieldBytes(Fields(o)) + rest
  {
    var s := ChunkBytes(o, index, total, data);
    assert s == ChunkHead(index, total) + (AllFieldBytes(Fields(o)) + (U32(|data|) + data));
  }

  lemma WrittenDecodes(plain: Bytes, o: Owner, index: nat, total: nat, data: Bytes)
    requires |plain| <= MAX_PLAINTEXT_SIZE && index < TWO_32 && total < TWO_32
    requires Encodable(Fields(o)) && plain == ChunkBytes(o, index, total, data)
    ensures DecodeChunk(plain, o, index, total) == Some(data)
  {
    var rest := U32(|data|) + data;
    ChunkBytesSplit(o, index, total, data);
    ChunkHeadParts(plain, index, total);
    ParseFieldsComplete(Fields(o), rest);
    DataPart(rest, data);
  }

  lemma DecodedIsWritten(plain: Bytes, o: Owner, index: nat, total: nat, data: Bytes)
    requires |plain| <= MAX_PLAINTEXT_SIZE && index < TWO_32 && total < TWO_32
    requires DecodeChunk(plain, o, index, total) == Some(data)
    ensures Encodable(Fields(o)) && plain == ChunkBytes(o, index, total, data)
  {
    ChunkHeadParts(plain, index, total);
    ParseFieldsSound(plain[13..], 5);
    var rest := ParseFields(plain[13..], 5).rest;
    FieldsShorten(Fields(o), plain[13..], rest);
    DataPart(rest, data);
    ChunkOfParts(plain, o, index, total, data);
  }

  lemma ChunkOfParts(plain: Bytes, o: Owner, index: nat, total: nat, data: Bytes)
    requires |plain| >= 13 && plain[..13] == ChunkHead(index, total)
    requires plain[13..] == AllFieldBytes(Fields(o)) + (U32(|data|) + data)
    ensures plain == ChunkBytes(o, index, total, data)
  {
    var head, fields, size := ChunkHead(index, total), AllFieldBytes(Fields(o)), U32(|data|);
    assert plain == head + (fields + (size + data));
    Associative(head, fields, size + data);
    Associative(head + fields, size, data);
  }

  /** The decoder accepts exactly the byte string that the encoder writes for this owner, index,
      total and data. */
  lemma DecodeChunkIsExact(plain: Bytes, o: Owner, index: nat, total: nat, data: Bytes)
    requires |plain| <= MAX_PLAINTEXT_SIZE && index < TWO_32 && total < TWO_32
    ensures DecodeChunk(plain, o, index, total) == Some(data) <==>
            Encodable(Fields(o)) && plain == ChunkBytes(o, index, total, data)
  {
    if Encodable(Fields(o)) && plain == ChunkBytes(o, index, total, data) {
      WrittenDecodes(plain, o, index, total, data);
    }
    if DecodeChunk(plain, o, index, total) == Some(data) {
      DecodedIsWritten(plain, o, index, total, data);
    }
  }

  lemma FieldsShorten(fields: seq<Bytes>, s: Bytes, rest: Bytes)
    requires s == AllFieldBytes(fields) + rest
    ensures |rest| <= |s|
  {
  }

  // ----- The chunks of a plaintext -----

  /** The plaintext cut into pieces of at most `size` bytes. */
  function Pieces(plain: Bytes, size: nat): (pieces: seq<Bytes>)
    requires size > 0
  {
    if plain == [] then [] else if |plain| <= size then [plain] else [plain[..size]] + Pieces(plain[size..], size)
  }

  function Join(pieces: seq<Bytes>): Bytes {
    if pieces == [] then [] else pieces[0] + Join(pieces[1..])
  }

  function CountOf(length: nat, size: nat): nat
    requires size > 0
  {
    (length + size - 1) / size
  }

  lemma QuotientIs(a: nat, b: nat, q: nat)
    requires 0 < b && q * b <= a < (q + 1) * b
    ensures a / b == q
  {
    var p := a / b;
    assert p * b <= a < (p + 1) * b;
    assert p < q ==> (p + 1) * b <= q * b;
    assert q < p ==> (q + 1) * b <= p * b;
  }

  lemma CeilingStep(length: nat, size: nat)
    requires 0 < size < length
    ensures CountOf(length, size) == 1 + CountOf(length - size, size)
  {
    var q := CountOf(length - size, size);
    assert q * size <= length - 1 < (q + 1) * size;
    assert (q + 1) * size == q * size + size && (q + 2) * size == (q + 1) * size + size;
    QuotientIs(length + size - 1, size, q + 1);
  }

  lemma CeilingBound(length: nat, size: nat, n: nat)
    requires size > 0
    ensures CountOf(length, size) <= n <==> length <= n * size
  {
    var q := CountOf(length, size);
    assert q * size <= length + size - 1 < (q + 1) * size;
    if q <= n {
      assert q * size <= n * size;
    } else {
      assert (n + 1) * size <= q * size;
    }
  }

  lemma PiecesFirst(plain: Bytes, size: nat)
    requires 0 < size < |plain|
    ensures Pieces(plain, size) == [plain[..size]] + Pieces(plain[size..], size)
  {
  }

  lemma JoinFirst(piece: Bytes, rest: seq<Bytes>)
    ensures Join([piece] + rest) == piece + Join(rest)
  {
    assert ([piece] + rest)[1..] == rest;
  }

  lemma CountOfSmall(length: nat, size: nat)
    requires length <= size && 0 < size
    ensures CountOf(length, size) == if length == 0 then 0 else 1
  {
    QuotientIs(length + size - 1, size, if length == 0 then 0 else 1);
  }

  lemma {:induction false} PiecesPartition(plain: Bytes, size: nat)
    requires size > 0
    ensures var pieces := Pieces(plain, size);
            Join(pieces) == plain && |pieces| == CountOf(|plain|, size)
            && forall i :: 0 <= i < |pieces| ==> 0 < |pieces[i]| <= size
  {
    if |plain| <= size {
      CountOfSmall(|plain|, size);
      assert plain != [] ==> Pieces(plain, size) == [plain] + [];
      JoinFirst(plain, []);
    } else {
      var first, rest := plain[..size], plain[size..];
      PiecesPartition(rest, size);
      CeilingStep(|plain|, size);
      PiecesFirst(plain, size);
      JoinFirst(first, Pieces(rest, size));
      assert plain == first + rest;
    }
  }

  type Nonces = n: nat -> Bytes | forall i: nat :: |n(i)| == NONCE_SIZE witness (i: nat) => seq(NONCE_SIZE, _ => 0)

  /** Encode and seal the pieces from `index` on. */
  function SealPieces(c: Cipher, o: Owner, pieces: seq<Bytes>, index: nat, total: nat, keys: KeySet,
                      nonces: Nonces): Option<seq<Bytes>> {
    if pieces == [] then Some([])
    else match EncodeChunk(o, index, total, pieces[0])
      case None => None
      case Some(plain) =>
        match Encrypt(c, plain, PayloadDomain, keys, nonces(index))
        case None => None
        case Some(sealed) =>
          match SealPieces(c, o, pieces[1..], index + 1, total, keys, nonces)
          case None => None
          case Some(others) => Some([sealed] + others)
  }

  function Overhead(o: Owner): nat {
    |ChunkBytes(o, 0, 1, [])|
  }

  function EncryptChunks(c: Cipher, o: Owner, plain: Bytes, keys: KeySet, nonces: Nonces): Option<seq<Bytes>> {
    if EncodeChunk(o, 0, 1, []).None? || Overhead(o) >= MAX_PLAINTEXT_SIZE then None
    else
      var size := MAX_PLAINTEXT_SIZE - Overhead(o);
      var count := CountOf(|plain|, size);
      if count == 0 || count > MAX_CHUNKS then None
      else SealPieces(c, o, Pieces(plain, size), 0, count, keys, nonces)
  }

  lemma ChunkLength(o: Owner, index: nat, total: nat, data: Bytes)
    ensures |ChunkBytes(o, index, total, data)| == Overhead(o) + |data|
  {
  }

  lemma PieceEncodes(o: Owner, index: nat, total: nat, data: Bytes)
    requires Encodable(Fields(o)) && index < total && Overhead(o) + |data| <= MAX_PLAINTEXT_SIZE
    ensures EncodeChunk(o, index, total, data) == Some(ChunkBytes(o, index, total, data))
    ensures |ChunkBytes(o, index, total, data)| <= MAX_PLAINTEXT_SIZE
  {
    ChunkLength(o, index, total, data);
  }

  lemma SealFirst(c: Cipher, o: Owner, pieces: seq<Bytes>, piece: Bytes, rest: seq<Bytes>, index: nat, total: nat,
                  keys: KeySet, nonces: Nonces)
    requires pieces == [piece] + rest && ValidKeySet(keys)
    requires EncodeChunk(o, index, total, piece).Some?
             && |EncodeChunk(o, index, total, piece).value| <= MAX_PLAINTEXT_SIZE
    requires SealPieces(c, o, rest, index + 1, total, keys, nonces).Some?
    ensures SealPieces(c, o, pieces, index, total, keys, nonces).Some?
  {
    assert pieces[0] == piece && pieces[1..] == rest;
  }

  predicate AllFit(o: Owner, pieces: seq<Bytes>) {
    forall i :: 0 <= i < |pieces| ==> Overhead(o) + |pieces[i]| <= MAX_PLAINTEXT_SIZE
  }

  lemma {:induction false} SealPiecesSucceeds(c: Cipher, o: Owner, pieces: seq<Bytes>, index: nat, total: nat,
                                              keys: KeySet, nonces: Nonces)
    requires ValidKeySet(keys) && Encodable(Fields(o)) && index + |pieces| <= total && AllFit(o, pieces)
    ensures SealPieces(c, o, pieces, index, total, keys, nonces).Some?
    decreases |pieces|
  {
    if pieces != [] {
      var piece, rest := pieces[0], pieces[1..];
      PieceEncodes(o, index, total, piece);
      SealPiecesSucceeds(c, o, rest, index + 1, total, keys, nonces);
      SealFirst(c, o, pieces, piece, rest, index, total, keys, nonces);
    }
  }

  /** The overhead of the metadata does not depend on the piece. */
  lemma OverheadEncodes(o: Owner)
    ensures EncodeChunk(o, 0, 1, []).Some? <==> Encodable(Fields(o)) && Overhead(o) <= MAX_PLAINTEXT_SIZE
  {
  }

  lemma {:induction false} SealedNeedsKeys(c: Cipher, o: Owner, pieces: seq<Bytes>, index: nat, total: nat,
                                           keys: KeySet, nonces: Nonces)
    requires pieces != [] && SealPieces(c, o, pieces, index, total, keys, nonces).Some?
    ensures ValidKeySet(keys)
  {
  }

  /** Encryption succeeds exactly for a plaintext that needs 1 to 64 chunks, under a valid key set and
      with metadata that leaves room in a chunk. */
  lemma EncryptionSucceedsExactly(c: Cipher, o: Owner, plain: Bytes, keys: KeySet, nonces: Nonces)
    ensures EncryptChunks(c, o, plain, keys, nonces).Some? <==>
            && ValidKeySet(keys) && Encodable(Fields(o)) && Overhead(o) < MAX_PLAINTEXT_SIZE
            && 0 < |plain| <= MAX_CHUNKS * (MAX_PLAINTEXT_SIZE - Overhead(o))
  {
    OverheadEncodes(o);
    if Encodable(Fields(o)) && Overhead(o) < MAX_PLAINTEXT_SIZE {
      var size := MAX_PLAINTEXT_SIZE - Overhead(o);
      var pieces := Pieces(plain, size);
      PiecesCount(plain, size);
      EncryptIsSeal(c, o, plain, size, pieces, keys, nonces);
      if 0 < |plain| <= MAX_CHUNKS * size {
        SealingSucceedsExactly(c, o, pieces, keys, nonces);
      }
    }
  }

  /** With room in a chunk, encrypting is sealing the pieces, if they are 1 to 64. */
  lemma EncryptIsSeal(c: Cipher, o: Owner, plain: Bytes, size: nat, pieces: seq<Bytes>, keys: KeySet, nonces: Nonces)
    requires EncodeChunk(o, 0, 1, []).Some? && Overhead(o) < MAX_PLAINTEXT_SIZE
             && size == MAX_PLAINTEXT_SIZE - Overhead(o)
    requires pieces == Pieces(plain, size) && |pieces| == CountOf(|plain|, size)
    ensures EncryptChunks(c, o, plain, keys, nonces)
            == if 0 < |pieces| <= MAX_CHUNKS then SealPieces(c, o, pieces, 0, |pieces|, keys, nonces) else None
  {
  }

  lemma EncryptCases(c: Cipher, o: Owner, plain: Bytes, keys: KeySet, nonces: Nonces, size: int)
    requires EncodeChunk(o, 0, 1, []).Some? && size == MAX_PLAINTEXT_SIZE - Overhead(o)
    ensures EncryptChunks(c, o, plain, keys, nonces)
            == if size <= 0 || !(0 < CountOf(|plain|, size) <= MAX_CHUNKS) then None
               else SealPieces(c, o, Pieces(plain, size), 0, CountOf(|plain|, size), keys, nonces)
  {
  }

  lemma SealingSucceedsExactly(c: Cipher, o: Owner, pieces: seq<Bytes>, keys: KeySet, nonces: Nonces)
    requires pieces != [] && Encodable(Fields(o)) && AllFit(o, pieces)
    ensures SealPieces(c, o, pieces, 0, |pieces|, keys, nonces).Some? <==> ValidKeySet(keys)
  {
    if ValidKeySet(keys) {
      SealPiecesSucceeds(c, o, pieces, 0, |pieces|, keys, nonces);
    } else if SealPieces(c, o, pieces, 0, |pieces|, keys, nonces).Some? {
      SealedNeedsKeys(c, o, pieces, 0, |pieces|, keys, nonces);
    }
  }

  /** The number of pieces, and when it is between 1 and 64. */
  lemma PiecesCount(plain: Bytes, size: nat)
    requires size > 0
    ensures var pieces := Pieces(plain, size);
            && |pieces| == CountOf(|plain|, size)
            && (forall i :: 0 <= i < |pieces| ==> |pieces[i]| <= size)
            && (0 < |pieces| <= MAX_CHUNKS <==> 0 < |plain| <= MAX_CHUNKS * size)
  {
    PiecesPartition(plain, size);
    CeilingBound(|plain|, size, MAX_CHUNKS);
    CeilingBound(|plain|, size, 0);
  }

  /** The size check before encryption admits 64 MiB, but 64 chunks never hold that much: whatever the image,
      the owner and the keys, a plaintext of exactly that size is not encrypted. */
  lemma AdmittedSizeCanFail(c: Cipher, o: Owner, plain: Bytes, keys: KeySet, nonces: Nonces)
    requires |plain| == MAX_ARTIFACT_SIZE
    ensures EncryptChunks(c, o, plain, keys, nonces).None?
  {
    EncryptionSucceedsExactly(c, o, plain, keys, nonces);
    assert Overhead(o) > 0;
  }

  // ----- The file -----

  function Framed(chunks: seq<Bytes>): Bytes {
    if chunks == [] then [] else U32(|chunks[0]|) + chunks[0] + Framed(chunks[1..])
  }

  function FileHead(count: nat): Bytes {
    ARTIFACT_MAGIC + [FORMAT_VERSION] + U32(count)
  }

  function FileBytes(chunks: seq<Bytes>): Bytes {
    FileHead(|chunks|) + Framed(chunks)
  }

  predicate Writable(chunks: seq<Bytes>) {
    forall i :: 0 <= i < |chunks| ==> 0 < |chunks[i]| <= MAX_ENVELOPE_SIZE
  }

  /** The ciphertext size that is recorded beside the file. */
  function CiphertextSize(chunks: seq<Bytes>): nat {
    FILE_HEADER_SIZE + FramedSize(chunks)
  }

  function FramedSize(chunks: seq<Bytes>): nat {
    if chunks == [] then 0 else 4 + |chunks[0]| + FramedSize(chunks[1..])
  }

  lemma {:induction false} RecordedSizeIsFileSize(chunks: seq<Bytes>)
    ensures |FileBytes(chunks)| == CiphertextSize(chunks)
  {
    FramedSizeExact(chunks);
  }

  lemma {:induction false} FramedSizeExact(chunks: seq<Bytes>)
    ensures |Framed(chunks)| == FramedSize(chunks)
  {
    if chunks != [] {
      FramedSizeExact(chunks[1..]);
    }
  }

  /** Take one length-prefixed envelope off the front. */
  function ParseFrame(s: Bytes): Parsed<Bytes> {
    if |s| < 4 then Bad
    else
      var length := ReadU32(s);
      if length == 0 || length > MAX_ENVELOPE_SIZE || length > |s| - 4 then Bad
      else Good(s[4..4 + length], s[4 + length..])
  }

  lemma ParseFrameExact(s: Bytes, chunk: Bytes, rest: Bytes)
    ensures ParseFrame(s) == Good(chunk, rest) <==>
            0 < |chunk| <= MAX_ENVELOPE_SIZE && s == U32(|chunk|) + chunk + rest
  {
    if |s| >= 4 {
      U32Inverse(s, if |chunk| < TWO_32 then |chunk| else 0);
      assert s == s[..4] + s[4..];
      if 0 < |chunk| <= MAX_ENVELOPE_SIZE && s == U32(|chunk|) + chunk + rest {
        assert s[..4] == U32(|chunk|);
        assert s[4..4 + |chunk|] == chunk && s[4 + |chunk|..] == rest;
      }
    }
  }

  predicate ShapedFrames(s: Bytes, count: nat) {
    if count == 0 then s == []
    else match ParseFrame(s)
      case Bad => false
      case Good(_, rest) => ShapedFrames(rest, count - 1)
  }

  predicate ReadableHead(data: Bytes) {
    |data| >= FILE_HEADER_SIZE && data[..4] == ARTIFACT_MAGIC && data[4] == FORMAT_VERSION
    && 0 < ReadU32(data[5..9]) <= MAX_CHUNKS
  }

  predicate ValidShape(data: Bytes) {
    ReadableHead(data) && ShapedFrames(data[FILE_HEADER_SIZE..], ReadU32(data[5..9]))
  }

  datatype Record = Record(owner: Owner, plaintextSize: int, keyVersion: nat)

  /** Open and decode one envelope of the file. */
  function OpenChunk(c: Cipher, chunk: Bytes, record: Record, index: nat, total: nat, keys: KeySet): Option<Bytes> {
    if |chunk| < 9 || ReadU32(chunk[5..9]) != record.keyVersion then None
    else match Decrypt(c, chunk, PayloadDomain, keys)
      case None => None
      case Some(plain) => DecodeChunk(plain, record.owner, index, total)
  }

  /** The plaintext of the chunks from `index` on, appended to `output`, and what follows them. */
  function DecryptFrames(c: Cipher, s: Bytes, record: Record, index: nat, total: nat, keys: KeySet,
                         output: Bytes): Parsed<Bytes>
    requires index <= total
    decreases total - index
  {
    if index == total then Good(output, s)
    else match ParseFrame(s)
      case Bad => Bad
      case Good(chunk, rest) =>
        match OpenChunk(c, chunk, record, index, total, keys)
        case None => Bad
        case Some(data) =>
          if |data| > MAX_ARTIFACT_SIZE - |output| then Bad
          else DecryptFrames(c, rest, record, index + 1, total, keys, output + data)
  }

  function DecryptFile(c: Cipher, encoded: Bytes, record: Record, keys: KeySet): Option<Bytes> {
    if !ReadableHead(encoded) then None
    else match DecryptFrames(c, encoded[FILE_HEADER_SIZE..], record, 0, ReadU32(encoded[5..9]), keys, [])
      case Bad => None
      case Good(output, rest) => if rest != [] || |output| != record.plaintextSize then None else Some(output)
  }

  lemma FileHeadParts(s: Bytes, count: nat)
    requires |s| >= FILE_HEADER_SIZE && count < TWO_32
    ensures s[..FILE_HEADER_SIZE] == FileHead(count) <==>
            s[..4] == ARTIFACT_MAGIC && s[4] == FORMAT_VERSION && ReadU32(s[5..9]) == count
  {
    var h := s[..9];
    assert h == h[..4] + [h[4]] + h[5..9];
    assert h[..4] == s[..4] && h[4] == s[4] && h[5..9] == s[5..9];
    U32Inverse(s[5..9], count);
    assert s[5..9][..4] == s[5..9];
    var f := FileHead(count);
    assert f[..4] == ARTIFACT_MAGIC && f[4] == FORMAT_VERSION && f[5..9] == U32(count);
  }

  lemma {:induction false} FramedIsShaped(chunks: seq<Bytes>)
    requires Writable(chunks)
    ensures ShapedFrames(Framed(chunks), |chunks|)
  {
    if chunks != [] {
      assert Framed(chunks) == U32(|chunks[0]|) + chunks[0] + Framed(chunks[1..]);
      ParseFrameExact(Framed(chunks), chunks[0], Framed(chunks[1..]));
      FramedIsShaped(chunks[1..]);
    }
  }

  lemma FileParts(chunks: seq<Bytes>)
    requires |chunks| <= MAX_CHUNKS
    ensures var f := FileBytes(chunks);
            |f| >= FILE_HEADER_SIZE && f[..4] == ARTIFACT_MAGIC && f[4] == FORMAT_VERSION
            && ReadU32(f[5..9]) == |chunks| && f[FILE_HEADER_SIZE..] == Framed(chunks)
  {
    var f := FileBytes(chunks);
    assert f[..FILE_HEADER_SIZE] == FileHead(|chunks|);
    FileHeadParts(f, |chunks|);
  }

  /** Every file that can be written passes the shape check that recognizes orphans. */
  lemma WrittenFileHasShape(chunks: seq<Bytes>)
    requires Writable(chunks) && 0 < |chunks| <= MAX_CHUNKS
    ensures ValidShape(FileBytes(chunks))
  {
    FileParts(chunks);
    FramedIsShaped(chunks);
  }

  // ----- Round trip -----

  /** One sealed chunk has an envelope size that can be framed, and opens to its piece. */
  lemma ChunkRoundTrip(c: Cipher, piece: Bytes, record: Record, index: nat, total: nat,
                       keys: KeySet, nonce: Bytes, later: KeySet)
    requires Ideal(c) && ValidKeySet(later) && (keys.active == later.active || keys.active in later.previous)
    requires record.keyVersion == keys.active.version && total <= MAX_CHUNKS && |nonce| == NONCE_SIZE
    requires EncodeChunk(record.owner, index, total, piece).Some?
    requires Encrypt(c, EncodeChunk(record.owner, index, total, piece).value, PayloadDomain, keys, nonce).Some?
    ensures var chunk := Encrypt(c, EncodeChunk(record.owner, index, total, piece).value, PayloadDomain, keys,
                                 nonce).value;
            0 < |chunk| <= MAX_ENVELOPE_SIZE && OpenChunk(c, chunk, record, index, total, later) == Some(piece)
  {
    var plain := ChunkBytes(record.owner, index, total, piece);
    EncryptDecrypt(c, plain, PayloadDomain, keys, nonce, later);
    DecodeChunkIsExact(plain, record.owner, index, total, piece);
    HeaderParts(keys.active.version, nonce);
    var header := Header(keys.active.version, nonce);
    var chunk := Encrypt(c, plain, PayloadDomain, keys, nonce).value;
    assert chunk[5..9] == header[5..9];
  }

  lemma SealStep(c: Cipher, o: Owner, pieces: seq<Bytes>, index: nat, total: nat, keys: KeySet, nonces: Nonces)
    requires pieces != [] && SealPieces(c, o, pieces, index, total, keys, nonces).Some?
    ensures var encoded := EncodeChunk(o, index, total, pieces[0]);
            && encoded.Some? && Encrypt(c, encoded.value, PayloadDomain, keys, nonces(index)).Some?
            && SealPieces(c, o, pieces[1..], index + 1, total, keys, nonces).Some?
            && SealPieces(c, o, pieces, index, total, keys, nonces).value
               == [Encrypt(c, encoded.value, PayloadDomain, keys, nonces(index)).value]
                  + SealPieces(c, o, pieces[1..], index + 1, total, keys, nonces).value
  {
  }

  /** The chunks have sizes that can be framed and open, in order, to the pieces. */
  predicate OpensTo(c: Cipher, chunks: seq<Bytes>, pieces: seq<Bytes>, record: Record, index: nat, total: nat,
                    keys: KeySet)
    decreases |chunks|
  {
    if chunks == [] || pieces == [] then chunks == [] && pieces == []
    else 0 < |chunks[0]| <= MAX_ENVELOPE_SIZE && OpenChunk(c, chunks[0], record, index, total, keys) == Some(pieces[0])
         && OpensTo(c, chunks[1..], pieces[1..], record, index + 1, total, keys)
  }

  lemma {:induction false} SealedOpens(c: Cipher, pieces: seq<Bytes>, record: Record, index: nat, total: nat,
                                       keys: KeySet, nonces: Nonces, later: KeySet)
    requires Ideal(c) && ValidKeySet(later) && (keys.active == later.active || keys.active in later.previous)
    requires record.keyVersion == keys.active.version && total <= MAX_CHUNKS
    requires SealPieces(c, record.owner, pieces, index, total, keys, nonces).Some?
    ensures OpensTo(c, SealPieces(c, record.owner, pieces, index, total, keys, nonces).value, pieces, record, index,
                    total, later)
    decreases |pieces|
  {
    if pieces != [] {
      SealStep(c, record.owner, pieces, index, total, keys, nonces);
      ChunkRoundTrip(c, pieces[0], record, index, total, keys, nonces(index), later);
      SealedOpens(c, pieces[1..], record, index + 1, total, keys, nonces, later);
      var chunks := SealPieces(c, record.owner, pieces, index, total, keys, nonces).value;
      assert chunks[1..] == SealPieces(c, record.owner, pieces[1..], index + 1, total, keys, nonces).value;
    }
  }

  lemma {:induction false} OpenedSizes(c: Cipher, chunks: seq<Bytes>, pieces: seq<Bytes>, record: Record, index: nat,
                                       total: nat, keys: KeySet)
    requires OpensTo(c, chunks, pieces, record, index, total, keys)
    ensures |chunks| == |pieces| && Writable(chunks)
    decreases |chunks|
  {
    if chunks != [] {
      OpenedSizes(c, chunks[1..], pieces[1..], record, index + 1, total, keys);
      assert forall i :: 0 < i < |chunks| ==> chunks[i] == chunks[1..][i - 1];
    }
  }

  /** Reading a file's frames gives the pieces to which its chunks open, and nothing is left over. */
  lemma {:induction false} FramesDecrypt(c: Cipher, chunks: seq<Bytes>, pieces: seq<Bytes>, record: Record, index: nat,
                                         total: nat, keys: KeySet, output: Bytes)
    requires OpensTo(c, chunks, pieces, record, index, total, keys)
    requires index + |chunks| == total && |output| + |Join(pieces)| <= MAX_ARTIFACT_SIZE
    ensures DecryptFrames(c, Framed(chunks), record, index, total, keys, output) == Good(output + Join(pieces), [])
    decreases |chunks|
  {
    if chunks == [] {
      assert output + Join(pieces) == output;
    } else {
      ParseFrameExact(Framed(chunks), chunks[0], Framed(chunks[1..]));
      assert output + Join(pieces) == output + pieces[0] + Join(pieces[1..]);
      FramesDecrypt(c, chunks[1..], pieces[1..], record, index + 1, total, keys, output + pieces[0]);
    }
  }

  /** A file of chunks that open in order decrypts to the pieces joined. */
  lemma OpenedFileDecrypts(c: Cipher, chunks: seq<Bytes>, pieces: seq<Bytes>, record: Record, keys: KeySet,
                           plain: Bytes)
    requires OpensTo(c, chunks, pieces, record, 0, |chunks|, keys) && 0 < |chunks| <= MAX_CHUNKS
    requires plain == Join(pieces) && |plain| == record.plaintextSize <= MAX_ARTIFACT_SIZE
    ensures DecryptFile(c, FileBytes(chunks), record, keys) == Some(plain)
  {
    FileParts(chunks);
    FramesDecrypt(c, chunks, pieces, record, 0, |chunks|, keys, []);
    assert [] + Join(pieces) == plain;
  }

  /** What encryption gives: 1 to 64 chunks, which open to the pieces of the plaintext. */
  lemma EncryptedOpens(c: Cipher, o: Owner, plain: Bytes, keys: KeySet, nonces: Nonces, later: KeySet, record: Record,
                       chunks: seq<Bytes>)
    returns (pieces: seq<Bytes>)
    requires Ideal(c) && EncryptChunks(c, o, plain, keys, nonces) == Some(chunks)
    requires ValidKeySet(later) && (keys.active == later.active || keys.active in later.previous)
    requires record == Record(o, |plain|, keys.active.version)
    ensures plain == Join(pieces) && |plain| <= MAX_ARTIFACT_SIZE && 0 < |chunks| == |pieces| <= MAX_CHUNKS
    ensures OpensTo(c, chunks, pieces, record, 0, |chunks|, later)
  {
    EncryptionSucceedsExactly(c, o, plain, keys, nonces);
    var size := MAX_PLAINTEXT_SIZE - Overhead(o);
    pieces := Pieces(plain, size);
    PiecesPartition(plain, size);
    EncryptIsSeal(c, o, plain, size, pieces, keys, nonces);
    SealedOpens(c, pieces, record, 0, |pieces|, keys, nonces, later);
    OpenedSizes(c, chunks, pieces, record, 0, |pieces|, later);
  }

  /** Whatever encryption accepts is written with the recorded size, passes the shape check, and
      decrypts to the same plaintext under any key set that still holds the writing key. */
  lemma ArtifactRoundTrip(c: Cipher, o: Owner, plain: Bytes, keys: KeySet, nonces: Nonces, later: KeySet)
    requires Ideal(c) && EncryptChunks(c, o, plain, keys, nonces).Some?
    requires ValidKeySet(later) && (keys.active == later.active || keys.active in later.previous)
    ensures var chunks := EncryptChunks(c, o, plain, keys, nonces).value;
            && Writable(chunks) && 0 < |chunks| <= MAX_CHUNKS
            && |FileBytes(chunks)| == CiphertextSize(chunks)
            && ValidShape(FileBytes(chunks))
            && DecryptFile(c, FileBytes(chunks), Record(o, |plain|, keys.active.version), later) == Some(plain)
  {
    var chunks := EncryptChunks(c, o, plain, keys, nonces).value;
    var record := Record(o, |plain|, keys.active.version);
    var pieces := EncryptedOpens(c, o, plain, keys, nonces, later, record, chunks);
    OpenedSizes(c, chunks, pieces, record, 0, |chunks|, later);
    OpenedFileDecrypts(c, chunks, pieces, record, later, plain);
    RecordedSizeIsFileSize(chunks);
    WrittenFileHasShape(chunks);
  }

  // ----- Authenticity -----

  /** The envelope holds this owner's chunk at this place, sealed under the recorded key version. */
  predicate SealedPiece(c: Cipher, chunk: Bytes, piece: Bytes, record: Record, index: nat, total: nat, keys: KeySet) {
    var encoded := EncodeChunk(record.owner, index, total, piece);
    var key := FindKey(keys, record.keyVersion);
    encoded.Some? && key.Some? && |chunk| >= HEADER_SIZE
    && chunk == Sealed(c, encoded.value, PayloadDomain, key.value, chunk[9..HEADER_SIZE])
  }

  lemma OpenedIsSealed(c: Cipher, chunk: Bytes, piece: Bytes, record: Record, index: nat, total: nat, keys: KeySet)
    requires Ideal(c) && index < total <= MAX_CHUNKS
    requires OpenChunk(c, chunk, record, index, total, keys) == Some(piece)
    ensures SealedPiece(c, chunk, piece, record, index, total, keys)
  {
    var plain := Decrypt(c, chunk, PayloadDomain, keys).value;
    DecryptIsAuthentic(c, chunk, PayloadDomain, keys);
    DecodeChunkIsExact(plain, record.owner, index, total, piece);
  }

  lemma DecryptStep(c: Cipher, s: Bytes, record: Record, index: nat, total: nat, keys: KeySet, output: Bytes)
    returns (chunk: Bytes, piece: Bytes, rest: Bytes)
    requires index < total && DecryptFrames(c, s, record, index, total, keys, output).Good?
    ensures 0 < |chunk| <= MAX_ENVELOPE_SIZE && s == U32(|chunk|) + chunk + rest
    ensures OpenChunk(c, chunk, record, index, total, keys) == Some(piece) && |output| + |piece| <= MAX_ARTIFACT_SIZE
    ensures DecryptFrames(c, s, record, index, total, keys, output)
            == DecryptFrames(c, rest, record, index + 1, total, keys, output + piece)
  {
    chunk, rest := ParseFrame(s).value, ParseFrame(s).rest;
    piece := OpenChunk(c, chunk, record, index, total, keys).value;
    ParseFrameExact(s, chunk, rest);
  }

  lemma FramedStep(chunk: Bytes, others: seq<Bytes>, rest: Bytes)
    ensures U32(|chunk|) + chunk + (Framed(others) + rest) == Framed([chunk] + others) + rest
  {
    assert ([chunk] + others)[1..] == others;
    assert U32(|chunk|) + chunk + (Framed(others) + rest) == U32(|chunk|) + chunk + Framed(others) + rest;
  }

  lemma JoinStep(output: Bytes, piece: Bytes, tail: seq<Bytes>)
    ensures output + piece + Join(tail) == output + Join([piece] + tail)
  {
    assert ([piece] + tail)[1..] == tail;
    assert output + piece + Join(tail) == output + (piece + Join(tail));
  }

  lemma OpensToStep(c: Cipher, chunks: seq<Bytes>, pieces: seq<Bytes>, record: Record, index: nat, total: nat,
                    keys: KeySet)
    requires chunks != [] && pieces != [] && 0 < |chunks[0]| <= MAX_ENVELOPE_SIZE
    requires OpenChunk(c, chunks[0], record, index, total, keys) == Some(pieces[0])
    requires OpensTo(c, chunks[1..], pieces[1..], record, index + 1, total, keys)
    ensures OpensTo(c, chunks, pieces, record, index, total, keys)
  {
  }

  lemma {:induction false} FramesSplit(c: Cipher, s: Bytes, record: Record, index: nat, total: nat, keys: KeySet,
                                       output: Bytes)
    returns (chunks: seq<Bytes>, pieces: seq<Bytes>)
    requires index <= total && DecryptFrames(c, s, record, index, total, keys, output).Good?
    ensures var p := DecryptFrames(c, s, record, index, total, keys, output);
            && |chunks| == total - index && OpensTo(c, chunks, pieces, record, index, total, keys)
            && s == Framed(chunks) + p.rest && p.value == output + Join(pieces)
    decreases total - index
  {
    if index == total {
      chunks, pieces := [], [];
      assert output == output + Join(pieces);
    } else {
      var chunk, piece, rest := DecryptStep(c, s, record, index, total, keys, output);
      var others, tail := FramesSplit(c, rest, record, index + 1, total, keys, output + piece);
      FramedStep(chunk, others, DecryptFrames(c, s, record, index, total, keys, output).rest);
      JoinStep(output, piece, tail);
      chunks, pieces := [chunk] + others, [piece] + tail;
      OpensToStep(c, chunks, pieces, record, index, total, keys);
    }
  }

  lemma {:induction false} OpenedAt(c: Cipher, chunks: seq<Bytes>, pieces: seq<Bytes>, record: Record, index: nat,
                                    total: nat, keys: KeySet, i: nat)
    requires OpensTo(c, chunks, pieces, record, index, total, keys) && i < |chunks| == |pieces|
    ensures OpenChunk(c, chunks[i], record, index + i, total, keys) == Some(pieces[i])
    decreases |chunks|
  {
    if i > 0 {
      OpenedAt(c, chunks[1..], pieces[1..], record, index + 1, total, keys, i - 1);
    }
  }

  lemma OpenedAreSealed(c: Cipher, chunks: seq<Bytes>, pieces: seq<Bytes>, record: Record, total: nat, keys: KeySet)
    requires Ideal(c) && OpensTo(c, chunks, pieces, record, 0, total, keys)
    requires |chunks| == |pieces| == total <= MAX_CHUNKS
    ensures forall i :: 0 <= i < |chunks| ==> SealedPiece(c, chunks[i], pieces[i], record, i, total, keys)
  {
    forall i | 0 <= i < |chunks|
      ensures SealedPiece(c, chunks[i], pieces[i], record, i, total, keys)
    {
      OpenedAt(c, chunks, pieces, record, 0, total, keys, i);
      OpenedIsSealed(c, chunks[i], pieces[i], record, i, total, keys);
    }
  }

  lemma FileOfParts(encoded: Bytes, chunks: seq<Bytes>)
    requires |encoded| >= FILE_HEADER_SIZE && ReadableHead(encoded)
    requires |chunks| == ReadU32(encoded[5..9]) && encoded[FILE_HEADER_SIZE..] == Framed(chunks) + []
    ensures encoded == FileBytes(chunks)
  {
    FileHeadParts(encoded, |chunks|);
    assert Framed(chunks) + [] == Framed(chunks);
    assert encoded == encoded[..FILE_HEADER_SIZE] + encoded[FILE_HEADER_SIZE..];
  }

  lemma AcceptedParts(c: Cipher, encoded: Bytes, record: Record, keys: KeySet)
    returns (chunks: seq<Bytes>, pieces: seq<Bytes>)
    requires DecryptFile(c, encoded, record, keys).Some?
    ensures OpensTo(c, chunks, pieces, record, 0, |chunks|, keys)
    ensures encoded == FileBytes(chunks) && 0 < |chunks| == |pieces| <= MAX_CHUNKS
    ensures DecryptFile(c, encoded, record, keys) == Some(Join(pieces))
  {
    var total := ReadU32(encoded[5..9]);
    chunks, pieces := FramesSplit(c, encoded[FILE_HEADER_SIZE..], record, 0, total, keys, []);
    FileOfParts(encoded, chunks);
    OpenedSizes(c, chunks, pieces, record, 0, total, keys);
    assert [] + Join(pieces) == Join(pieces);
  }

  lemma AcceptedSize(c: Cipher, encoded: Bytes, record: Record, keys: KeySet)
    requires DecryptFile(c, encoded, record, keys).Some?
    ensures |DecryptFile(c, encoded, record, keys).value| == record.plaintextSize <= MAX_ARTIFACT_SIZE
  {
    OutputBounded(c, encoded[FILE_HEADER_SIZE..], record, 0, ReadU32(encoded[5..9]), keys, []);
  }

  /** Whatever decryption accepts is a written file whose chunks were sealed, in this order and number,
      for this owner under the recorded key; the result joins their pieces and has the recorded size. */
  lemma AcceptedFileIsAuthentic(c: Cipher, encoded: Bytes, record: Record, keys: KeySet)
    returns (chunks: seq<Bytes>, pieces: seq<Bytes>)
    requires Ideal(c) && DecryptFile(c, encoded, record, keys).Some?
    ensures var plain := DecryptFile(c, encoded, record, keys).value;
            plain == Join(pieces) && |plain| == record.plaintextSize <= MAX_ARTIFACT_SIZE
    ensures encoded == FileBytes(chunks) && 0 < |chunks| == |pieces| <= MAX_CHUNKS
    ensures forall i :: 0 <= i < |chunks| ==> SealedPiece(c, chunks[i], pieces[i], record, i, |chunks|, keys)
  {
    chunks, pieces := AcceptedParts(c, encoded, record, keys);
    OpenedAreSealed(c, chunks, pieces, record, |chunks|, keys);
    AcceptedSize(c, encoded, record, keys);
  }

  lemma {:induction false} OutputBounded(c: Cipher, s: Bytes, record: Record, index: nat, total: nat, keys: KeySet,
                                         output: Bytes)
    requires index <= total && |output| <= MAX_ARTIFACT_SIZE
             && DecryptFrames(c, s, record, index, total, keys, output).Good?
    ensures |DecryptFrames(c, s, record, index, total, keys, output).value| <= MAX_ARTIFACT_SIZE
    decreases total - index
  {
    if index < total {
      var frame := ParseFrame(s);
      var piece := OpenChunk(c, frame.value, record, index, total, keys).value;
      OutputBounded(c, frame.rest, record, index + 1, total, keys, output + piece);
    }
  }
}
