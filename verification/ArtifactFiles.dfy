/** The loops of the artifact codec: buffers filled by a moving offset, and a file written in parts. */
module ArtifactFiles {
  import opened Bytes
  import opened Buffers
  import opened Envelope
  import opened ArtifactCodec

  // ----- Small steps on prefixes -----

  lemma AllFieldBytesAppend(fields: seq<Bytes>, f: Bytes)
    ensures AllFieldBytes(fields + [f]) == AllFieldBytes(fields) + FieldBytes(f)
  {
    if fields == [] {
      assert fields + [f] == [f] && [f][1..] == [];
    } else {
      assert (fields + [f])[1..] == fields[1..] + [f];
      AllFieldBytesAppend(fields[1..], f);
      assert FieldBytes(fields[0]) + (AllFieldBytes(fields[1..]) + FieldBytes(f))
          == FieldBytes(fields[0]) + AllFieldBytes(fields[1..]) + FieldBytes(f);
    }
  }

  lemma FramedAppend(chunks: seq<Bytes>, chunk: Bytes)
    ensures Framed(chunks + [chunk]) == Framed(chunks) + (U32(|chunk|) + chunk)
  {
    if chunks == [] {
      assert chunks + [chunk] == [chunk] && [chunk][1..] == [];
    } else {
      assert (chunks + [chunk])[1..] == chunks[1..] + [chunk];
      FramedAppend(chunks[1..], chunk);
      assert U32(|chunks[0]|) + chunks[0] + (Framed(chunks[1..]) + (U32(|chunk|) + chunk))
          == U32(|chunks[0]|) + chunks[0] + Framed(chunks[1..]) + (U32(|chunk|) + chunk);
    }
  }

  lemma LastSplit<T>(s: seq<T>, i: nat)
    requires 0 < i <= |s|
    ensures s[..i] == s[..i - 1] + [s[i - 1]] && s[i - 1..] == [s[i - 1]] + s[i..]
  {
  }

  lemma FramedPrefix(chunks: seq<Bytes>, i: nat)
    requires i <= |chunks|
    ensures Framed(chunks) == Framed(chunks[..i]) + Framed(chunks[i..])
  {
    if i == 0 {
      assert chunks[..0] == [] && chunks[0..] == chunks;
    } else {
      FramedPrefix(chunks, i - 1);
      LastSplit(chunks, i);
      FramedAppend(chunks[..i - 1], chunks[i - 1]);
      Associative(Framed(chunks[..i - 1]), U32(|chunks[i - 1]|) + chunks[i - 1], Framed(chunks[i..]));
    }
  }

  // ----- Encoding a chunk -----

  method EncodeArtifactChunk(o: Owner, index: int, total: int, data: Bytes) returns (encoded: Option<Bytes>)
    ensures encoded == EncodeChunk(o, index, total, data)
  {
    if index < 0 || total <= 0 || index >= total || |data| > MAX_PLAINTEXT_SIZE {
      return None;
    }
    var fields := Fields(o);
    var length := 4 + 1 + 4 + 4;
    var i := 0;
    while i < |fields|
      invariant 0 <= i <= |fields| && Encodable(fields[..i])
      invariant length == 13 + |AllFieldBytes(fields[..i])|
    {
      assert fields[..i + 1] == fields[..i] + [fields[i]];
      AllFieldBytesAppend(fields[..i], fields[i]);
      if |fields[i]| > 0xFFFF {
        return None;
      }
      length := length + 2 + |fields[i]|;
      i := i + 1;
    }
    assert fields[..|fields|] == fields;
    length := length + 4 + |data|;
    if length > MAX_PLAINTEXT_SIZE {
      return None;
    }
    var buffer := FillChunk(fields, index, total, data, length);
    encoded := Some(buffer[..]);
  }

  /** Copy the fields one behind the other, from `start` on. */
  method FillFields(buffer: array<Byte>, fields: seq<Bytes>, start: nat) returns (offset: nat)
    requires start + |AllFieldBytes(fields)| <= buffer.Length
    modifies buffer
    ensures offset == start + |AllFieldBytes(fields)|
    ensures buffer[..offset] == old(buffer[..start]) + AllFieldBytes(fields)
  {
    ghost var head := buffer[..start];
    offset := start;
    var i := 0;
    assert fields[..0] == [];
    while i < |fields|
      invariant 0 <= i <= |fields| && offset == start + |AllFieldBytes(fields[..i])|
      invariant |AllFieldBytes(fields[..i])| <= |AllFieldBytes(fields)|
      invariant buffer[..offset] == head + AllFieldBytes(fields[..i])
    {
      FieldsPrefix(fields, i);
      Regroup(head, AllFieldBytes(fields[..i]), U16(|fields[i]|), fields[i]);
      CopyAt(buffer, offset, U16(|fields[i]|));
      CopyAt(buffer, offset + 2, fields[i]);
      offset := offset + 2 + |fields[i]|;
      i := i + 1;
    }
    assert fields[..|fields|] == fields;
  }

  method FillChunk(fields: seq<Bytes>, index: nat, total: nat, data: Bytes, length: nat) returns (buffer: array<Byte>)
    requires length == 13 + |AllFieldBytes(fields)| + 4 + |data|
    ensures fresh(buffer)
    ensures buffer[..] == ChunkHead(index, total) + AllFieldBytes(fields) + U32(|data|) + data
  {
    buffer := new Byte[length];
    assert buffer[..0] == [];
    CopyAt(buffer, 0, ChunkHead(index, total));
    var offset := FillFields(buffer, fields, 13);
    CopyAt(buffer, offset, U32(|data|));
    CopyAt(buffer, offset + 4, data);
    assert buffer[..] == buffer[..offset + 4 + |data|];
  }

  lemma FieldsPrefix(fields: seq<Bytes>, i: nat)
    requires i < |fields|
    ensures AllFieldBytes(fields[..i + 1]) == AllFieldBytes(fields[..i]) + U16(|fields[i]|) + fields[i]
    ensures |AllFieldBytes(fields[..i + 1])| <= |AllFieldBytes(fields)|
  {
    assert fields[..i + 1] == fields[..i] + [fields[i]];
    AllFieldBytesAppend(fields[..i], fields[i]);
    assert AllFieldBytes(fields[..i]) + FieldBytes(fields[i])
           == AllFieldBytes(fields[..i]) + U16(|fields[i]|) + fields[i];
    FieldsLength(fields, i + 1);
  }

  lemma FieldsLength(fields: seq<Bytes>, i: nat)
    requires i <= |fields|
    ensures |AllFieldBytes(fields[..i])| <= |AllFieldBytes(fields)|
  {
    if i == 0 {
      assert fields[..0] == [];
    } else {
      assert fields[..i][1..] == fields[1..][..i - 1];
      FieldsLength(fields[1..], i - 1);
    }
  }

  lemma Regroup(a: Bytes, b: Bytes, c: Bytes, d: Bytes)
    ensures a + b + c + d == a + (b + c + d)
  {
  }

  // ----- Decoding a chunk -----

  /** What `ParseFields` gives when `fields` were read before. */
  function Resume(fields: seq<Bytes>, parsed: Parsed<seq<Bytes>>): Parsed<seq<Bytes>> {
    match parsed
    case Bad => Bad
    case Good(others, rest) => Good(fields + others, rest)
  }

  /** Reading a field at an offset is parsing one from there. */
  lemma FieldAt(plain: Bytes, offset: nat)
    requires offset <= |plain|
    ensures |plain| - offset < 2 ==> ParseField(plain[offset..]).Bad?
    ensures |plain| - offset >= 2 ==>
              var length := ReadU16(plain[offset..offset + 2]);
              ParseField(plain[offset..])
              == if length > |plain| - (offset + 2) then Bad
                 else Good(plain[offset + 2..offset + 2 + length], plain[offset + 2 + length..])
  {
    var rest := plain[offset..];
    if |rest| >= 2 {
      var length := ReadU16(plain[offset..offset + 2]);
      assert length == ReadU16(rest);
      if length <= |plain| - (offset + 2) {
        assert rest[2..2 + length] == plain[offset + 2..offset + 2 + length]
               && rest[2 + length..] == plain[offset + 2 + length..];
      }
    }
  }

  lemma FieldIs(plain: Bytes, offset: nat, field: Bytes, next: nat)
    requires offset + 2 + |field| == next <= |plain|
    requires |field| == ReadU16(plain[offset..offset + 2]) && field == plain[offset + 2..next]
    ensures ParseField(plain[offset..]) == Good(field, plain[next..])
  {
    FieldAt(plain, offset);
  }

  lemma FieldsUnfold(s: Bytes, count: nat, field: Bytes, rest: Bytes, left: nat)
    requires count == left + 1 && ParseField(s) == Good(field, rest)
    ensures ParseFields(s, count) == Resume([field], ParseFields(rest, left))
  {
  }

  lemma FieldsStep(plain: Bytes, offset: nat, count: nat, fields: seq<Bytes>, length: nat, next: nat, left: nat,
                   more: seq<Bytes>)
    requires next == offset + 2 + length <= |plain| && count == left + 1
    requires length == ReadU16(plain[offset..offset + 2]) && more == fields + [plain[offset + 2..next]]
    ensures Resume(fields, ParseFields(plain[offset..], count)) == Resume(more, ParseFields(plain[next..], left))
  {
    var field := plain[offset + 2..next];
    FieldIs(plain, offset, field, next);
    FieldsUnfold(plain[offset..], count, field, plain[next..], left);
    ResumeStep(fields, field, ParseFields(plain[next..], left));
  }

  method DecodeArtifactChunk(plain: Bytes, record: Record, expectedIndex: nat, expectedTotal: nat)
    returns (data: Option<Bytes>)
    ensures data == DecodeChunk(plain, record.owner, expectedIndex, expectedTotal)
  {
    if |plain| < 13 {
      return None;
    }
    var same := SameMagic(plain[..4], CHUNK_MAGIC);
    if !same || plain[4] != FORMAT_VERSION || ReadU32(plain[5..9]) != expectedIndex
       || ReadU32(plain[9..13]) != expectedTotal {
      return None;
    }
    var offset := 13;
    var fields: seq<Bytes> := [];
    var remaining := 5;
    ghost var all := ParseFields(plain[offset..], remaining);
    ResumeNothing(all);
    while remaining > 0
      invariant 0 <= remaining && 13 <= offset <= |plain|
      invariant all == Resume(fields, ParseFields(plain[offset..], remaining))
    {
      ghost var start, before, known := offset, remaining, fields;
      if |plain| - offset < 2 {
        return None;
      }
      var length := ReadU16(plain[offset..offset + 2]);
      offset := offset + 2;
      if length > |plain| - offset {
        FieldAt(plain, start);
        return None;
      }
      fields := fields + [plain[offset..offset + length]];
      offset := offset + length;
      remaining := remaining - 1;
      FieldsStep(plain, start, before, known, length, offset, remaining, fields);
    }
    assert fields + [] == fields;
    if fields != Fields(record.owner) || |plain| - offset < 4 {
      return None;
    }
    assert plain[offset..offset + 4] == plain[offset..][..4];
    assert ReadU32(plain[offset..offset + 4]) == ReadU32(plain[offset..]);
    if ReadU32(plain[offset..offset + 4]) != |plain| - offset - 4 {
      return None;
    }
    assert plain[offset..][4..] == plain[offset + 4..];
    data := Some(plain[offset + 4..]);
  }

  lemma ResumeNothing(parsed: Parsed<seq<Bytes>>)
    ensures Resume([], parsed) == parsed
  {
    if parsed.Good? {
      assert [] + parsed.value == parsed.value;
    }
  }

  lemma ResumeStep(fields: seq<Bytes>, field: Bytes, parsed: Parsed<seq<Bytes>>)
    ensures Resume(fields, Resume([field], parsed)) == Resume(fields + [field], parsed)
  {
    if parsed.Good? {
      assert fields + ([field] + parsed.value) == fields + [field] + parsed.value;
    }
  }

  // ----- Encrypting a plaintext -----

  /** The pieces from an offset on: one piece, and the pieces behind it. */
  lemma PiecesStep(plain: Bytes, size: nat, offset: nat, end: nat)
    requires size > 0 && offset < |plain|
    requires end == if offset + size > |plain| then |plain| else offset + size
    ensures Pieces(plain[offset..], size) == [plain[offset..end]] + Pieces(plain[end..], size)
  {
    var s := plain[offset..];
    if |s| <= size {
      assert plain[end..] == [] && plain[offset..end] == s;
    } else {
      assert s[..size] == plain[offset..end] && s[size..] == plain[end..];
    }
  }

  method EncryptArtifactChunks(c: Cipher, o: Owner, plain: Bytes, keys: KeySet, nonces: Nonces)
    returns (result: Option<seq<Bytes>>)
    ensures result == EncryptChunks(c, o, plain, keys, nonces)
  {
    var overhead := EncodeArtifactChunk(o, 0, 1, []);
    if overhead.None? {
      return None;
    }
    var size := MAX_PLAINTEXT_SIZE - |overhead.value|;
    EncryptCases(c, o, plain, keys, nonces, size);
    if size <= 0 {
      return None;
    }
    var count := CountOf(|plain|, size);
    if count == 0 || count > MAX_CHUNKS {
      return None;
    }
    result := SealChunks(c, o, plain, size, count, keys, nonces);
  }

  /** The loop over the pieces of the plaintext. */
  method SealChunks(c: Cipher, o: Owner, plain: Bytes, size: nat, count: nat, keys: KeySet, nonces: Nonces)
    returns (result: Option<seq<Bytes>>)
    requires size > 0 && count == CountOf(|plain|, size)
    ensures result == SealPieces(c, o, Pieces(plain, size), 0, count, keys, nonces)
  {
    PiecesPartition(plain, size);
    var chunks: seq<Bytes> := [];
    var index, offset := 0, 0;
    ghost var left := Pieces(plain, size);
    ghost var all := SealPieces(c, o, left, 0, count, keys, nonces);
    PrependNothing(all);
    assert plain[0..] == plain;
    while index < count
      invariant 0 <= index <= count && |left| == count - index
      invariant 0 <= offset <= |plain| && left == Pieces(plain[offset..], size)
      invariant all == Prepend(chunks, SealPieces(c, o, left, index, count, keys, nonces))
    {
      var end := offset + size;
      if end > |plain| {
        end := |plain|;
      }
      var piece := plain[offset..end];
      ghost var rest := Pieces(plain[end..], size);
      PiecesStep(plain, size, offset, end);
      UnfoldSeal(c, o, chunks, left, piece, rest, index, count, keys, nonces);
      var encoded := EncodeArtifactChunk(o, index, count, piece);
      if encoded.None? {
        return None;
      }
      var encrypted := Encrypt(c, encoded.value, PayloadDomain, keys, nonces(index));
      if encrypted.None? {
        return None;
      }
      chunks := chunks + [encrypted.value];
      left := rest;
      offset := end;
      index := index + 1;
    }
    assert chunks + [] == chunks;
    result := Some(chunks);
  }

  /** Sealing the pieces that are left, one piece at a time. */
  lemma UnfoldSeal(c: Cipher, o: Owner, chunks: seq<Bytes>, left: seq<Bytes>, piece: Bytes, rest: seq<Bytes>,
                   index: nat, total: nat, keys: KeySet, nonces: Nonces)
    requires left == [piece] + rest
    ensures var all := Prepend(chunks, SealPieces(c, o, left, index, total, keys, nonces));
            var encoded := EncodeChunk(o, index, total, piece);
            && (encoded.None? ==> all == None)
            && (encoded.Some? ==>
                  var encrypted := Encrypt(c, encoded.value, PayloadDomain, keys, nonces(index));
                  && (encrypted.None? ==> all == None)
                  && (encrypted.Some? ==>
                        all == Prepend(chunks + [encrypted.value],
                                       SealPieces(c, o, rest, index + 1, total, keys, nonces))))
  {
    assert left[0] == piece && left[1..] == rest;
    var encoded := EncodeChunk(o, index, total, piece);
    if encoded.Some? {
      var encrypted := Encrypt(c, encoded.value, PayloadDomain, keys, nonces(index));
      if encrypted.Some? {
        PrependStep(chunks, encrypted.value, SealPieces(c, o, rest, index + 1, total, keys, nonces));
      }
    }
  }

  function Prepend(chunks: seq<Bytes>, others: Option<seq<Bytes>>): Option<seq<Bytes>> {
    match others
    case None => None
    case Some(rest) => Some(chunks + rest)
  }

  lemma PrependNothing(others: Option<seq<Bytes>>)
    ensures Prepend([], others) == others
  {
    if others.Some? {
      assert [] + others.value == others.value;
    }
  }

  lemma PrependStep(chunks: seq<Bytes>, chunk: Bytes, others: Option<seq<Bytes>>)
    ensures Prepend(chunks, Prepend([chunk], others)) == Prepend(chunks + [chunk], others)
  {
    if others.Some? {
      assert chunks + ([chunk] + others.value) == chunks + [chunk] + others.value;
    }
  }

  // ----- Writing and hashing the file -----

  /** A file that takes any part of what it is given, or fails. */
  class File {
    var content: Bytes

    constructor ()
      ensures content == []
    {
      content := [];
    }

    /** The operating system accepts some first part of the data; an error may follow. */
    method Write(data: Bytes) returns (written: nat, failed: bool)
      modifies this
      ensures written <= |data| && content == old(content) + data[..written]
    {
      written :| 0 <= written <= |data|;
      failed :| failed || !failed;
      content := content + data[..written];
    }

    /** Write until everything is taken. A failure leaves a first part of the data behind. */
    method WriteArtifactBytes(data: Bytes) returns (ok: bool)
      modifies this
      ensures ok ==> content == old(content) + data
      ensures old(content) <= content <= old(content) + data
    {
      var left := data;
      while |left| > 0
        invariant |left| <= |data| && left == data[|data| - |left|..]
        invariant content == old(content) + data[..|data| - |left|]
        decreases |left|
      {
        ghost var before := content;
        var taken, failed := Write(left);
        assert content == old(content) + data[..|data| - |left| + taken] by {
          assert data[..|data| - |left| + taken] == data[..|data| - |left|] + left[..taken];
        }
        if failed || taken == 0 {
          return false;
        }
        left := left[taken..];
      }
      assert data[..|data|] == data;
      ok := true;
    }

    /** One chunk behind its length. */
    method WriteFrame(chunk: Bytes) returns (ok: bool)
      modifies this
      ensures ok ==> content == old(content) + (U32(|chunk|) + chunk)
      ensures old(content) <= content <= old(content) + (U32(|chunk|) + chunk)
    {
      Associative(content, U32(|chunk|), chunk);
      ok := WriteArtifactBytes(U32(|chunk|));
      if ok {
        ok := WriteArtifactBytes(chunk);
      }
    }

    /** A file written in full holds exactly the encoding of chunks that can be framed; a write that
        fails leaves a beginning of it. */
    method WriteArtifactFile(chunks: seq<Bytes>) returns (ok: bool)
      modifies this
      ensures ok ==> Writable(chunks) && content == old(content) + FileBytes(chunks)
      ensures old(content) <= content <= old(content) + FileBytes(chunks)
    {
      ghost var whole := content + FileBytes(chunks);
      Associative(content, FileHead(|chunks|), Framed(chunks));
      ok := WriteArtifactBytes(FileHead(|chunks|));
      if !ok {
        return;
      }
      ghost var start := content;
      var index := 0;
      assert chunks[..0] == [] && start + [] == start;
      while index < |chunks|
        invariant 0 <= index <= |chunks| && Writable(chunks[..index])
        invariant content == start + Framed(chunks[..index]) && content <= whole
      {
        var chunk := chunks[index];
        if |chunk| == 0 || |chunk| > MAX_ENVELOPE_SIZE {
          return false;
        }
        FramePrefix(start, chunks, index);
        ok := WriteFrame(chunk);
        if !ok {
          return;
        }
        index := index + 1;
      }
      assert chunks[..|chunks|] == chunks;
    }
  }

  lemma FramePrefix(start: Bytes, chunks: seq<Bytes>, i: nat)
    requires i < |chunks|
    ensures start + Framed(chunks[..i]) + (U32(|chunks[i]|) + chunks[i]) == start + Framed(chunks[..i + 1])
    ensures start + Framed(chunks[..i + 1]) <= start + Framed(chunks)
  {
    assert chunks[..i + 1] == chunks[..i] + [chunks[i]];
    FramedAppend(chunks[..i], chunks[i]);
    FramedPrefix(chunks, i + 1);
    Associative(start, Framed(chunks[..i]), U32(|chunks[i]|) + chunks[i]);
    Associative(start, Framed(chunks[..i + 1]), Framed(chunks[i + 1..]));
  }

  /** The bytes fed to the digest are those of the file. */
  method DigestInput(chunks: seq<Bytes>) returns (input: Bytes)
    ensures input == FileBytes(chunks)
  {
    ghost var head := FileHead(|chunks|);
    input := FileHead(|chunks|);
    var i := 0;
    assert chunks[..0] == [] && head + [] == head;
    while i < |chunks|
      invariant 0 <= i <= |chunks|
      invariant input == head + Framed(chunks[..i])
    {
      FramePrefix(head, chunks, i);
      Associative(input, U32(|chunks[i]|), chunks[i]);
      input := input + U32(|chunks[i]|);
      input := input + chunks[i];
      i := i + 1;
    }
    assert chunks[..|chunks|] == chunks;
  }

  // ----- Reading the file -----

  /** Reading a length at an offset either finds no frame there, or the frame and what follows it. */
  lemma FrameAt(data: Bytes, offset: nat)
    requires offset <= |data|
    ensures |data| - offset < 4 ==> ParseFrame(data[offset..]).Bad?
    ensures |data| - offset >= 4 ==>
              var length := ReadU32(data[offset..offset + 4]);
              ParseFrame(data[offset..])
              == if length == 0 || length > MAX_ENVELOPE_SIZE || length > |data| - (offset + 4) then Bad
                 else Good(data[offset + 4..offset + 4 + length], data[offset + 4 + length..])
  {
    var rest := data[offset..];
    if |rest| >= 4 {
      var length := ReadU32(data[offset..offset + 4]);
      assert length == ReadU32(rest);
      if length <= |data| - (offset + 4) {
        assert rest[4..4 + length] == data[offset + 4..offset + 4 + length]
               && rest[4 + length..] == data[offset + 4 + length..];
      }
    }
  }

  lemma ShapeAt(data: Bytes, offset: nat, count: nat, length: nat, next: nat, left: nat)
    requires next == offset + 4 + length <= |data| && count == left + 1
    requires length == ReadU32(data[offset..offset + 4]) && 0 < length <= MAX_ENVELOPE_SIZE
    ensures ShapedFrames(data[offset..], count) == ShapedFrames(data[next..], left)
  {
    FrameAt(data, offset);
  }

  method ValidArtifactCiphertextShape(data: Bytes) returns (valid: bool)
    ensures valid <==> ValidShape(data)
  {
    if |data| < FILE_HEADER_SIZE {
      return false;
    }
    var same := SameMagic(data[..4], ARTIFACT_MAGIC);
    if !same || data[4] != FORMAT_VERSION {
      return false;
    }
    var count := ReadU32(data[5..9]);
    if count <= 0 || count > MAX_CHUNKS {
      return false;
    }
    var offset := FILE_HEADER_SIZE;
    var remaining := count;
    ghost var shaped := ShapedFrames(data[offset..], count);
    while remaining > 0
      invariant 0 <= remaining && FILE_HEADER_SIZE <= offset <= |data|
      invariant shaped == ShapedFrames(data[offset..], remaining)
    {
      if |data| - offset < 4 {
        return false;
      }
      ghost var start, before := offset, remaining;
      var length := ReadU32(data[offset..offset + 4]);
      offset := offset + 4;
      if length <= 0 || length > MAX_ENVELOPE_SIZE || length > |data| - offset {
        FrameAt(data, start);
        return false;
      }
      offset := offset + length;
      remaining := remaining - 1;
      ShapeAt(data, start, before, length, offset, remaining);
    }
    valid := offset == |data|;
  }

  lemma DecryptAt(c: Cipher, encoded: Bytes, record: Record, keys: KeySet, output: Bytes, offset: nat, index: nat,
                  count: nat, chunk: Bytes, next: nat, following: nat, inside: Option<Bytes>)
    requires offset + 4 + |chunk| == next <= |encoded| && following == index + 1 <= count
    requires |chunk| == ReadU32(encoded[offset..offset + 4]) && 0 < |chunk| <= MAX_ENVELOPE_SIZE
    requires chunk == encoded[offset + 4..next] && inside == OpenChunk(c, chunk, record, index, count, keys)
    ensures DecryptFrames(c, encoded[offset..], record, index, count, keys, output)
            == if inside.None? || |inside.value| > MAX_ARTIFACT_SIZE - |output| then Bad
               else DecryptFrames(c, encoded[next..], record, following, count, keys, output + inside.value)
  {
    FrameIs(encoded, offset, chunk, next);
    assert ParseFrame(encoded[offset..]) == Good(chunk, encoded[next..]);
  }

  lemma FrameIs(data: Bytes, offset: nat, chunk: Bytes, next: nat)
    requires offset + 4 + |chunk| == next <= |data|
    requires |chunk| == ReadU32(data[offset..offset + 4]) && 0 < |chunk| <= MAX_ENVELOPE_SIZE
    requires chunk == data[offset + 4..next]
    ensures ParseFrame(data[offset..]) == Good(chunk, data[next..])
  {
    FrameAt(data, offset);
  }

  method DecryptArtifactFile(c: Cipher, encoded: Bytes, record: Record, keys: KeySet) returns (plain: Option<Bytes>)
    ensures plain == DecryptFile(c, encoded, record, keys)
  {
    if |encoded| < FILE_HEADER_SIZE {
      return None;
    }
    var same := SameMagic(encoded[..4], ARTIFACT_MAGIC);
    if !same || encoded[4] != FORMAT_VERSION {
      return None;
    }
    var count := ReadU32(encoded[5..9]);
    if count == 0 || count > MAX_CHUNKS {
      return None;
    }
    var result := DecryptChunks(c, encoded, record, keys, count);
    if result.Bad? || result.rest != [] || |result.value| != record.plaintextSize {
      return None;
    }
    plain := Some(result.value);
  }

  /** The loop over the chunks; what it has not read is its rest. */
  method DecryptChunks(c: Cipher, encoded: Bytes, record: Record, keys: KeySet, count: nat)
    returns (result: Parsed<Bytes>)
    requires |encoded| >= FILE_HEADER_SIZE
    ensures result == DecryptFrames(c, encoded[FILE_HEADER_SIZE..], record, 0, count, keys, [])
  {
    var output: Bytes := [];
    var offset := FILE_HEADER_SIZE;
    var index := 0;
    ghost var all := DecryptFrames(c, encoded[offset..], record, 0, count, keys, []);
    while index < count
      invariant 0 <= index <= count && FILE_HEADER_SIZE <= offset <= |encoded|
      invariant all == DecryptFrames(c, encoded[offset..], record, index, count, keys, output)
    {
      ghost var start, current, known := offset, index, output;
      if |encoded| - offset < 4 {
        return Bad;
      }
      var length := ReadU32(encoded[offset..offset + 4]);
      offset := offset + 4;
      if length == 0 || length > MAX_ENVELOPE_SIZE || length > |encoded| - offset {
        FrameAt(encoded, start);
        return Bad;
      }
      var chunk := encoded[offset..offset + length];
      offset := offset + length;
      ghost var inside := OpenChunk(c, chunk, record, index, count, keys);
      DecryptAt(c, encoded, record, keys, known, start, index, count, chunk, offset, index + 1, inside);
      if |chunk| < 9 || ReadU32(chunk[5..9]) != record.keyVersion {
        return Bad;
      }
      var sealed := Decrypt(c, chunk, PayloadDomain, keys);
      if sealed.None? {
        return Bad;
      }
      var data := DecodeArtifactChunk(sealed.value, record, index, count);
      if data.None? || |data.value| > MAX_ARTIFACT_SIZE - |output| {
        return Bad;
      }
      output := output + data.value;
      index := index + 1;
    }
    result := Good(output, encoded[offset..]);
  }
}
