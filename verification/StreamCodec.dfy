/** The stream wire formats (src/stream-protocol.ts) and the stored segment format
    (src/worker/durable-objects/StreamDO.ts). The methods run over buffers and offsets; the
    functions say what the formats are. */
module StreamCodec {
  import opened Prelude
  import opened StreamBytes

  datatype Result<T> = Ok(value: T) | Rejected

  const MAX_STREAM_CHUNK_BYTES: nat := 1024 * 1024
  const MAX_STREAM_BATCH_BYTES: nat := 8 * 1024 * 1024
  const NEGOTIATED_STREAM_CHUNKS: nat := 512
  const MAX_STREAM_READ_BYTES: nat := 8 * 1024 * 1024
  const MAX_STREAM_ERROR_BYTES: nat := 16 * 1024
  const MAX_STREAM_INDEX: nat := 0x7fffffff

  const WRITE_MAGIC: nat := 0x57435357
  const WRITE_ACK_MAGIC: nat := 0x57435341
  const READ_MAGIC: nat := 0x57435352
  const PROTOCOL_VERSION: nat := 1
  const WRITE_HEADER_BYTES: nat := 8
  const WRITE_ACK_BYTES: nat := 16
  const READ_HEADER_BYTES: nat := 28

  // ---- write batches ------------------------------------------------------------------

  predicate SmallChunks(chunks: Chunks) { forall c :: c in chunks ==> |c| <= MAX_STREAM_CHUNK_BYTES }

  /** A batch the protocol carries. */
  predicate ValidBatch(chunks: Chunks) {
    && 1 <= |chunks| <= NEGOTIATED_STREAM_CHUNKS
    && SmallChunks(chunks)
    && Total(chunks) <= MAX_STREAM_BATCH_BYTES
  }

  ghost function WriteHeader(count: nat): (b: Bytes)
    requires count < U16_LIMIT
    ensures |b| == WRITE_HEADER_BYTES
  {
    U32(WRITE_MAGIC) + U16(PROTOCOL_VERSION) + U16(count)
  }

  ghost function EncodeBatch(chunks: Chunks): Bytes
    requires ValidBatch(chunks)
  {
    WriteHeader(|chunks|) + Frames(chunks)
  }

  ghost function DecodeBatch(b: Bytes): Result<Chunks> {
    if |b| < WRITE_HEADER_BYTES || GetU32(b, 0) != WRITE_MAGIC || GetU16(b, 4) != PROTOCOL_VERSION then Rejected
    else
      var parsed := ParseFrames(b, WRITE_HEADER_BYTES, GetU16(b, 6));
      if parsed.Some? && parsed.value.end == |b| && ValidBatch(parsed.value.chunks) then Ok(parsed.value.chunks)
      else Rejected
  }

  lemma WriteHeaderRead(b: Bytes, count: nat)
    requires |b| >= WRITE_HEADER_BYTES && count < U16_LIMIT
    ensures At(b, 0, WriteHeader(count)) <==>
            GetU32(b, 0) == WRITE_MAGIC && GetU16(b, 4) == PROTOCOL_VERSION && GetU16(b, 6) == count
  {
    CutAt(b, 0, U32(WRITE_MAGIC) + U16(PROTOCOL_VERSION), U16(count));
    CutAt(b, 0, U32(WRITE_MAGIC), U16(PROTOCOL_VERSION));
    ReadU32(b, 0, WRITE_MAGIC);
    ReadU16(b, 4, PROTOCOL_VERSION);
    ReadU16(b, 6, count);
  }

  /** decode(encode(x)) == x for write batches. */
  lemma BatchRoundTrip(chunks: Chunks)
    requires ValidBatch(chunks)
    ensures DecodeBatch(EncodeBatch(chunks)) == Ok(chunks)
  {
    var b := EncodeBatch(chunks);
    HeaderAndRest(b, WriteHeader(|chunks|), Frames(chunks));
    WriteHeaderRead(b, |chunks|);
    ParseFramed(b, WRITE_HEADER_BYTES, chunks);
  }

  /** The decoder accepts only byte strings the encoder can produce. */
  lemma BatchDecoderIsStrict(b: Bytes)
    requires DecodeBatch(b).Ok?
    ensures ValidBatch(DecodeBatch(b).value) && b == EncodeBatch(DecodeBatch(b).value)
  {
    var chunks := DecodeBatch(b).value;
    FramesOfParsed(b, WRITE_HEADER_BYTES, GetU16(b, 6));
    WriteHeaderRead(b, |chunks|);
    HeaderAndRest(b, WriteHeader(|chunks|), Frames(chunks));
  }

  lemma TotalOfPrefix(chunks: Chunks, i: nat)
    requires i <= |chunks|
    ensures Total(chunks[..i]) <= Total(chunks)
    ensures i < |chunks| ==> Total(chunks[..i + 1]) == Total(chunks[..i]) + |chunks[i]|
  {
    assert chunks == chunks[..i] + chunks[i..];
    TotalAppend(chunks[..i], chunks[i..]);
    if i < |chunks| {
      assert chunks[..i + 1] == chunks[..i] + [chunks[i]];
      TotalSnoc(chunks[..i], chunks[i]);
    }
  }

  /** validateStreamWriteChunks: the batch's payload bytes. */
  method ValidateStreamWriteChunks(chunks: Chunks) returns (total: Result<nat>)
    ensures total == if ValidBatch(chunks) then Ok(Total(chunks)) else Rejected
  {
    if |chunks| == 0 || |chunks| > NEGOTIATED_STREAM_CHUNKS { return Rejected; }
    var totalBytes := 0;
    var i := 0;
    while i < |chunks|
      invariant 0 <= i <= |chunks|
      invariant forall k :: 0 <= k < i ==> |chunks[k]| <= MAX_STREAM_CHUNK_BYTES
      invariant totalBytes == Total(chunks[..i]) <= MAX_STREAM_BATCH_BYTES
    {
      TotalOfPrefix(chunks, i);
      if |chunks[i]| > MAX_STREAM_CHUNK_BYTES { return Rejected; }
      totalBytes := totalBytes + |chunks[i]|;
      if totalBytes > MAX_STREAM_BATCH_BYTES {
        TotalOfPrefix(chunks, i + 1);
        return Rejected;
      }
      i := i + 1;
    }
    assert chunks[..i] == chunks;
    return Ok(totalBytes);
  }

  method EncodeStreamWriteBatch(chunks: Chunks) returns (r: Result<Bytes>)
    ensures r == if ValidBatch(chunks) then Ok(EncodeBatch(chunks)) else Rejected
  {
    var totalBytes := ValidateStreamWriteChunks(chunks);
    if totalBytes.Rejected? { return Rejected; }
    var encoded := new Byte[WRITE_HEADER_BYTES + |chunks| * 4 + totalBytes.value](_ => 0);
    var offset := FillU32(encoded, 0, WRITE_MAGIC);
    offset := FillU16(encoded, offset, PROTOCOL_VERSION);
    offset := FillU16(encoded, offset, |chunks|);
    assert encoded[..offset] == WriteHeader(|chunks|);
    offset := FillFrames(encoded, offset, chunks);
    assert encoded[..] == encoded[..offset];
    return Ok(encoded[..]);
  }

  /** Every chunk behind its length, from `from` on. */
  method FillFrames(encoded: array<Byte>, from: nat, chunks: Chunks) returns (offset: nat)
    requires Framable(chunks) && from + 4 * |chunks| + Total(chunks) <= encoded.Length
    modifies encoded
    ensures offset == from + |Frames(chunks)|
    ensures encoded[..offset] == old(encoded[..from]) + Frames(chunks)
  {
    offset := from;
    var i := 0;
    assert chunks[..0] == [];
    while i < |chunks|
      invariant 0 <= i <= |chunks| && offset == from + 4 * i + Total(chunks[..i]) <= encoded.Length
      invariant encoded[..offset] == old(encoded[..from]) + Frames(chunks[..i])
    {
      TotalOfPrefix(chunks, i);
      TotalOfPrefix(chunks, i + 1);
      FramesExtend(old(encoded[..from]), chunks, i);
      offset := FillU32(encoded, offset, |chunks[i]|);
      offset := Fill(encoded, offset, chunks[i]);
      i := i + 1;
    }
    assert chunks[..i] == chunks;
  }

  lemma FramesExtend(head: Bytes, chunks: Chunks, i: nat)
    requires i < |chunks| && Framable(chunks)
    ensures head + Frames(chunks[..i]) + U32(|chunks[i]|) + chunks[i] == head + Frames(chunks[..i + 1])
  {
    FramesSnoc(chunks[..i], chunks[i]);
    assert chunks[..i] + [chunks[i]] == chunks[..i + 1];
  }

  method ReadFrame(encoded: Bytes, offset: nat) returns (chunk: Option<Bytes>)
    ensures chunk == FrameAt(encoded, offset)
  {
    if offset + 4 > |encoded| { return None; }
    var length := GetU32(encoded, offset);
    if offset + 4 + length > |encoded| { return None; }
    SubIsSlice(encoded, offset + 4, length);
    return Some(encoded[offset + 4..offset + 4 + length]);
  }

  /** What was read so far and what is left make up the whole. */
  ghost predicate Reading(encoded: Bytes, whole: Option<Parsed>, chunks: Chunks, offset: nat, left: nat) {
    match Prepend(chunks, ParseFrames(encoded, offset, left))
    case None => whole.None?
    case Some(parsed) => whole == Some(parsed)
  }

  lemma NothingRead(encoded: Bytes, from: nat, count: nat)
    ensures Reading(encoded, ParseFrames(encoded, from, count), [], from, count)
  {
    PrependNothing(ParseFrames(encoded, from, count));
  }

  /** One more frame read. */
  lemma FrameRead(encoded: Bytes, whole: Option<Parsed>, chunks: Chunks, offset: nat, left: nat, chunk: Bytes)
    requires left > 0 && Reading(encoded, whole, chunks, offset, left) && FrameAt(encoded, offset) == Some(chunk)
    ensures Reading(encoded, whole, chunks + [chunk], offset + 4 + |chunk|, left - 1)
    ensures Total(chunks + [chunk]) == Total(chunks) + |chunk|
  {
    PrependOnce(chunks, chunk, ParseFrames(encoded, offset + 4 + |chunk|, left - 1));
    TotalSnoc(chunks, chunk);
  }

  lemma NoFrameRead(encoded: Bytes, whole: Option<Parsed>, chunks: Chunks, offset: nat, left: nat)
    requires left > 0 && Reading(encoded, whole, chunks, offset, left) && FrameAt(encoded, offset) == None
    ensures whole == None
  {
  }

  lemma FramesRead(encoded: Bytes, whole: Option<Parsed>, chunks: Chunks, offset: nat)
    requires Reading(encoded, whole, chunks, offset, 0)
    ensures whole == Some(Parsed(chunks, offset))
  {
    assert chunks + [] == chunks;
  }

  /** Frames that exceed their byte budget, if there is one, count as none. */
  function Within(parsed: Option<Parsed>, budget: Option<nat>): Option<Parsed> {
    if parsed.Some? && budget.Some? && Total(parsed.value.chunks) > budget.value then None else parsed
  }

  /** Read `count` frames from `from` on, within a byte budget if there is one. */
  method ReadFrames(encoded: Bytes, from: nat, count: nat, budget: Option<nat>) returns (r: Option<Parsed>)
    ensures r == Within(ParseFrames(encoded, from, count), budget)
  {
    ghost var whole := ParseFrames(encoded, from, count);
    var chunks: Chunks := [];
    var offset, index, totalBytes := from, 0, 0;
    NothingRead(encoded, from, count);
    while index < count
      invariant 0 <= index <= count && offset >= 0
      invariant Reading(encoded, whole, chunks, offset, count - index)
      invariant totalBytes == Total(chunks) && (budget.Some? ==> totalBytes <= budget.value)
    {
      var frame := ReadOne(encoded, whole, chunks, offset, count - index);
      if frame.None? { return None; }
      totalBytes := totalBytes + |frame.value|;
      chunks := chunks + [frame.value];
      offset := offset + 4 + |frame.value|;
      index := index + 1;
      if budget.Some? && totalBytes > budget.value {
        OverBudget(encoded, whole, chunks, offset, count - index);
        return None;
      }
    }
    FramesRead(encoded, whole, chunks, offset);
    return Some(Parsed(chunks, offset));
  }

  /** The next frame, and what reading it leaves. */
  method ReadOne(encoded: Bytes, ghost whole: Option<Parsed>, ghost chunks: Chunks, offset: nat, ghost left: nat)
    returns (frame: Option<Bytes>)
    requires left > 0 && Reading(encoded, whole, chunks, offset, left)
    ensures frame.None? ==> whole == None
    ensures frame.Some? ==> Reading(encoded, whole, chunks + [frame.value], offset + 4 + |frame.value|, left - 1)
    ensures frame.Some? ==> Total(chunks + [frame.value]) == Total(chunks) + |frame.value|
  {
    frame := ReadFrame(encoded, offset);
    if frame.None? { NoFrameRead(encoded, whole, chunks, offset, left); }
    else { FrameRead(encoded, whole, chunks, offset, left, frame.value); }
  }

  lemma PrependNothing(more: Option<Parsed>)
    ensures Prepend([], more) == more
  {
    if more.Some? { assert [] + more.value.chunks == more.value.chunks; }
  }

  lemma PrependOnce(done: Chunks, chunk: Bytes, more: Option<Parsed>)
    ensures Prepend(done, Prepend([chunk], more)) == Prepend(done + [chunk], more)
  {
    if more.Some? { assert done + ([chunk] + more.value.chunks) == done + [chunk] + more.value.chunks; }
  }

  lemma OverBudget(encoded: Bytes, whole: Option<Parsed>, chunks: Chunks, offset: nat, left: nat)
    requires Reading(encoded, whole, chunks, offset, left)
    ensures whole.Some? ==> Total(whole.value.chunks) >= Total(chunks)
  {
    var more := ParseFrames(encoded, offset, left);
    if more.Some? { TotalAppend(chunks, more.value.chunks); }
  }

  method DecodeStreamWriteBatch(encoded: Bytes) returns (r: Result<Chunks>)
    ensures r == DecodeBatch(encoded)
  {
    if |encoded| < WRITE_HEADER_BYTES { return Rejected; }
    if GetU32(encoded, 0) != WRITE_MAGIC { return Rejected; }
    if GetU16(encoded, 4) != PROTOCOL_VERSION { return Rejected; }
    var frames := ReadFrames(encoded, WRITE_HEADER_BYTES, GetU16(encoded, 6), None);
    if frames.None? { return Rejected; }
    if frames.value.end != |encoded| { return Rejected; }
    var valid := ValidateStreamWriteChunks(frames.value.chunks);
    if valid.Rejected? { return Rejected; }
    return Ok(frames.value.chunks);
  }

  // ---- write acknowledgements ------------------------------------------------------------

  datatype Ack = Ack(startIndex: int, count: int, tailIndex: int)

  predicate SafeIndex(value: int) { -1 <= value <= MAX_STREAM_INDEX }

  predicate EncodableAck(a: Ack) {
    SafeIndex(a.startIndex) && SafeIndex(a.tailIndex) && 1 <= a.count <= NEGOTIATED_STREAM_CHUNKS
  }

  ghost function EncodeAck(a: Ack): (b: Bytes)
    requires EncodableAck(a)
    ensures |b| == WRITE_ACK_BYTES
  {
    U32(WRITE_ACK_MAGIC) + U16(PROTOCOL_VERSION) + U16(a.count) + I32(a.startIndex) + I32(a.tailIndex)
  }

  function DecodeAck(b: Bytes): Result<Ack> {
    if |b| != WRITE_ACK_BYTES || GetU32(b, 0) != WRITE_ACK_MAGIC || GetU16(b, 4) != PROTOCOL_VERSION then Rejected
    else
      var a := Ack(GetI32(b, 8), GetU16(b, 6), GetI32(b, 12));
      if EncodableAck(a) && a.tailIndex == a.startIndex + a.count - 1 then Ok(a) else Rejected
  }

  lemma AckRead(a: Ack)
    requires EncodableAck(a)
    ensures
      var b := EncodeAck(a);
      && GetU32(b, 0) == WRITE_ACK_MAGIC && GetU16(b, 4) == PROTOCOL_VERSION && GetU16(b, 6) == a.count
      && GetI32(b, 8) == a.startIndex && GetI32(b, 12) == a.tailIndex
  {
    var b := EncodeAck(a);
    var word, version, count, start, tail :=
      U32(WRITE_ACK_MAGIC), U16(PROTOCOL_VERSION), U16(a.count), I32(a.startIndex), I32(a.tailIndex);
    HeaderAndRest(b, word + version + count + start, tail);
    CutAt(b, 0, word + version + count, start);
    CutAt(b, 0, word + version, count);
    CutAt(b, 0, word, version);
    ReadU32(b, 0, WRITE_ACK_MAGIC);
    ReadU16(b, 4, PROTOCOL_VERSION);
    ReadU16(b, 6, a.count);
    ReadI32(b, 8, a.startIndex);
    ReadI32(b, 12, a.tailIndex);
  }

  /** An acknowledgement survives the wire exactly when its offsets are consistent. */
  lemma AckRoundTrip(a: Ack)
    requires EncodableAck(a)
    ensures DecodeAck(EncodeAck(a)) == Ok(a) <==> a.tailIndex == a.startIndex + a.count - 1
  {
    AckRead(a);
  }

  method EncodeStreamWriteResult(result: Ack) returns (r: Result<Bytes>)
    ensures r == if EncodableAck(result) then Ok(EncodeAck(result)) else Rejected
  {
    if !EncodableAck(result) { return Rejected; }
    var encoded := new Byte[WRITE_ACK_BYTES](_ => 0);
    var offset := FillU32(encoded, 0, WRITE_ACK_MAGIC);
    assert encoded[..offset] == U32(WRITE_ACK_MAGIC);
    offset := FillU16(encoded, offset, PROTOCOL_VERSION);
    offset := FillU16(encoded, offset, result.count);
    offset := FillI32(encoded, offset, result.startIndex);
    offset := FillI32(encoded, offset, result.tailIndex);
    assert encoded[..] == encoded[..offset];
    return Ok(encoded[..]);
  }

  // ---- read results ---------------------------------------------------------------------------

  datatype StreamState = Open | Closed | Errored | Expired

  /** Name and message as the bytes the frame carries. */
  datatype StreamError = StreamError(name: Bytes, message: Bytes)

  datatype ReadResult = ReadResult(
    startIndex: int, tailIndex: int, chunks: Chunks, state: StreamState, timedOut: bool, error: Option<StreamError>)

  function ErrorName(r: ReadResult): Bytes { if r.error.Some? then r.error.value.name else [] }

  function ErrorMessage(r: ReadResult): Bytes { if r.error.Some? then r.error.value.message else [] }

  function ToWire(s: StreamState): Byte { match s case Open => 0 case Closed => 1 case Errored => 2 case Expired => 3 }

  function FromWire(b: Byte): Option<StreamState> {
    if b == 0 then Some(Open) else if b == 1 then Some(Closed) else if b == 2 then Some(Errored)
    else if b == 3 then Some(Expired) else None
  }

  /** The bounds the encoder checks. */
  predicate EncodableRead(r: ReadResult) {
    && SafeIndex(r.startIndex) && SafeIndex(r.tailIndex)
    && |r.chunks| <= NEGOTIATED_STREAM_CHUNKS
    && Total(r.chunks) + 4 * |r.chunks| <= MAX_STREAM_READ_BYTES + 4 * NEGOTIATED_STREAM_CHUNKS
    && |ErrorName(r)| + |ErrorMessage(r)| <= MAX_STREAM_ERROR_BYTES
  }

  lemma {:induction false} ChunkWithinTotal(chunks: Chunks, c: Bytes)
    requires c in chunks
    ensures |c| <= Total(chunks)
    decreases |chunks|
  {
    if c != chunks[0] { ChunkWithinTotal(chunks[1..], c); }
  }

  lemma EncodableIsFramable(r: ReadResult)
    requires EncodableRead(r)
    ensures Framable(r.chunks)
  {
    forall c | c in r.chunks ensures |c| < U32_LIMIT { ChunkWithinTotal(r.chunks, c); }
  }

  function ReadFlags(r: ReadResult): Bytes { [PROTOCOL_VERSION, ToWire(r.state), if r.timedOut then 1 else 0, 0] }

  ghost function ReadHeader(r: ReadResult): (b: Bytes)
    requires EncodableRead(r)
    ensures |b| == READ_HEADER_BYTES
  {
    U32(READ_MAGIC) + ReadFlags(r) + I32(r.startIndex) + I32(r.tailIndex) + U32(|r.chunks|) + U32(|ErrorName(r)|) +
        U32(|ErrorMessage(r)|)
  }

  ghost function EncodeRead(r: ReadResult): Bytes
    requires EncodableRead(r)
  {
    EncodableIsFramable(r);
    ReadHeader(r) + Frames(r.chunks) + ErrorName(r) + ErrorMessage(r)
  }

  /** The fixed part of a read frame. */
  datatype Head = Head(
    state: StreamState, timedOut: bool, startIndex: int, tailIndex: int,
    count: nat, nameLength: nat, messageLength: nat)

  function ParseHead(b: Bytes): Option<Head> {
    if |b| < READ_HEADER_BYTES || GetU32(b, 0) != READ_MAGIC || b[4] != PROTOCOL_VERSION ||
        FromWire(b[5]).None? then None
    else
      var h := Head(FromWire(b[5]).value, b[6] % 2 != 0, GetI32(b, 8), GetI32(b, 12),
                    GetU32(b, 16), GetU32(b, 20), GetU32(b, 24));
      if !SafeIndex(h.startIndex) || !SafeIndex(h.tailIndex) || h.count > NEGOTIATED_STREAM_CHUNKS
         || h.nameLength + h.messageLength > MAX_STREAM_ERROR_BYTES then None
      else Some(h)
  }

  /** The error text at the end of a frame; two empty parts mean there is none. */
  function ErrorOf(text: Bytes, nameLength: nat, messageLength: nat): Option<StreamError>
    requires |text| == nameLength + messageLength
  {
    if nameLength > 0 || messageLength > 0 then Some(StreamError(text[..nameLength], text[nameLength..])) else None
  }

  ghost function ParseBody(b: Bytes, h: Head): Result<ReadResult> {
    var parsed := ParseFrames(b, READ_HEADER_BYTES, h.count);
    if parsed.None? || Total(parsed.value.chunks) > MAX_STREAM_READ_BYTES
       || parsed.value.end + h.nameLength + h.messageLength != |b| then Rejected
    else Ok(ReadResult(h.startIndex, h.tailIndex, parsed.value.chunks, h.state, h.timedOut,
                       ErrorOf(b[parsed.value.end..], h.nameLength, h.messageLength)))
  }

  ghost function DecodeRead(b: Bytes): Result<ReadResult> {
    var h := ParseHead(b);
    if h.None? then Rejected else ParseBody(b, h.value)
  }

  lemma ReadHeaderParts(r: ReadResult, b: Bytes)
    requires EncodableRead(r) && |b| >= READ_HEADER_BYTES && At(b, 0, ReadHeader(r))
    ensures GetU32(b, 0) == READ_MAGIC && At(b, 4, ReadFlags(r))
    ensures GetI32(b, 8) == r.startIndex && GetI32(b, 12) == r.tailIndex
    ensures GetU32(b, 16) == |r.chunks| && GetU32(b, 20) == |ErrorName(r)| && GetU32(b, 24) == |ErrorMessage(r)|
  {
    var magic, flags, start, tail, count, name, message :=
      U32(READ_MAGIC), ReadFlags(r), I32(r.startIndex), I32(r.tailIndex),
      U32(|r.chunks|), U32(|ErrorName(r)|), U32(|ErrorMessage(r)|);
    CutAt(b, 0, magic + flags + start + tail + count + name, message);
    CutAt(b, 0, magic + flags + start + tail + count, name);
    CutAt(b, 0, magic + flags + start + tail, count);
    CutAt(b, 0, magic + flags + start, tail);
    CutAt(b, 0, magic + flags, start);
    CutAt(b, 0, magic, flags);
    ReadU32(b, 0, READ_MAGIC);
    ReadI32(b, 8, r.startIndex);
    ReadI32(b, 12, r.tailIndex);
    ReadU32(b, 16, |r.chunks|);
    ReadU32(b, 20, |ErrorName(r)|);
    ReadU32(b, 24, |ErrorMessage(r)|);
  }

  lemma ReadFlagsParts(r: ReadResult, b: Bytes)
    requires |b| >= READ_HEADER_BYTES && At(b, 4, ReadFlags(r))
    ensures b[4] == PROTOCOL_VERSION && FromWire(b[5]) == Some(r.state) && (b[6] % 2 != 0) == r.timedOut
  {
    AtIsSlice(b, 4, ReadFlags(r));
    var part := b[4..8];
    assert b[4] == part[0] && b[5] == part[1] && b[6] == part[2];
  }

  function HeadOf(r: ReadResult): Head {
    Head(r.state, r.timedOut, r.startIndex, r.tailIndex, |r.chunks|, |ErrorName(r)|, |ErrorMessage(r)|)
  }

  lemma HeadParsed(r: ReadResult, b: Bytes)
    requires EncodableRead(r) && |b| >= READ_HEADER_BYTES && At(b, 0, ReadHeader(r))
    ensures ParseHead(b) == Some(HeadOf(r))
  {
    ReadHeaderParts(r, b);
    ReadFlagsParts(r, b);
  }

  lemma FourParts(head: Bytes, frames: Bytes, name: Bytes, message: Bytes)
    ensures
      var b := head + frames + name + message;
      && At(b, 0, head) && At(b, |head|, frames) && b[|head| + |frames|..] == name + message
  {
    var b := head + frames + name + message;
    AtIsSlice(b, 0, head);
    AtIsSlice(b, |head|, frames);
  }

  /** The body of a frame: its chunks, within the limit, and its error text. */
  lemma BodyParsed(r: ReadResult, b: Bytes, text: Bytes)
    requires Framable(r.chunks) && At(b, READ_HEADER_BYTES, Frames(r.chunks))
    requires |text| == |ErrorName(r)| + |ErrorMessage(r)|
    requires |b| == READ_HEADER_BYTES + |Frames(r.chunks)| + |text| &&
             b[READ_HEADER_BYTES + |Frames(r.chunks)|..] == text
    ensures
      ParseBody(b, HeadOf(r)) ==
        if Total(r.chunks) > MAX_STREAM_READ_BYTES then Rejected
        else Ok(r.(error := ErrorOf(text, |ErrorName(r)|, |ErrorMessage(r)|)))
  {
    ParseFramed(b, READ_HEADER_BYTES, r.chunks);
    var parsed := ParseFrames(b, READ_HEADER_BYTES, |r.chunks|);
    assert parsed == Some(Parsed(r.chunks, READ_HEADER_BYTES + |Frames(r.chunks)|));
    assert b[parsed.value.end..] == text;
  }

  /** What the decoder makes of an encoded result. */
  lemma DecodeEncodedRead(r: ReadResult)
    requires EncodableRead(r)
    ensures
      var text := ErrorName(r) + ErrorMessage(r);
      DecodeRead(EncodeRead(r)) ==
        if Total(r.chunks) > MAX_STREAM_READ_BYTES then Rejected
        else Ok(r.(error := ErrorOf(text, |ErrorName(r)|, |ErrorMessage(r)|)))
  {
    var b := EncodeRead(r);
    EncodedParts(r);
    HeadParsed(r, b);
    BodyParsed(r, b, ErrorName(r) + ErrorMessage(r));
    HeadThenBody(b, HeadOf(r));
  }

  lemma EncodedParts(r: ReadResult)
    requires EncodableRead(r)
    ensures
      var b, text := EncodeRead(r), ErrorName(r) + ErrorMessage(r);
      && Framable(r.chunks) && At(b, 0, ReadHeader(r)) && At(b, READ_HEADER_BYTES, Frames(r.chunks))
      && |b| == READ_HEADER_BYTES + |Frames(r.chunks)| + |text|
      && b[READ_HEADER_BYTES + |Frames(r.chunks)|..] == text
  {
    EncodableIsFramable(r);
    FourParts(ReadHeader(r), Frames(r.chunks), ErrorName(r), ErrorMessage(r));
  }

  lemma HeadThenBody(b: Bytes, h: Head)
    requires ParseHead(b) == Some(h)
    ensures DecodeRead(b) == ParseBody(b, h)
  {
  }

  lemma ErrorSurvives(r: ReadResult)
    ensures
      ErrorOf(ErrorName(r) + ErrorMessage(r), |ErrorName(r)|, |ErrorMessage(r)|) == r.error <==>
      (r.error.Some? ==> r.error.value.name != [] || r.error.value.message != [])
  {
    var text := ErrorName(r) + ErrorMessage(r);
    assert text[..|ErrorName(r)|] == ErrorName(r) && text[|ErrorName(r)|..] == ErrorMessage(r);
  }

  /** A read result survives the wire exactly when its payload is within the decoder's limit
      and its error, if any, is not empty. */
  lemma ReadRoundTrip(r: ReadResult)
    requires EncodableRead(r)
    ensures DecodeRead(EncodeRead(r)) == Ok(r) <==>
            Total(r.chunks) <= MAX_STREAM_READ_BYTES
            && (r.error.Some? ==> r.error.value.name != [] || r.error.value.message != [])
  {
    DecodeEncodedRead(r);
    ErrorSurvives(r);
  }

  method EncodeStreamReadResult(r: ReadResult) returns (encoded: Result<Bytes>)
    ensures encoded == if EncodableRead(r) then Ok(EncodeRead(r)) else Rejected
  {
    if !SafeIndex(r.startIndex) || !SafeIndex(r.tailIndex) { return Rejected; }
    var chunkBytes := 0;
    var i := 0;
    while i < |r.chunks|
      invariant 0 <= i <= |r.chunks| && chunkBytes == Total(r.chunks[..i]) + 4 * i
    {
      TotalOfPrefix(r.chunks, i);
      chunkBytes := chunkBytes + 4 + |r.chunks[i]|;
      i := i + 1;
    }
    assert r.chunks[..i] == r.chunks;
    if |r.chunks| > NEGOTIATED_STREAM_CHUNKS || chunkBytes > MAX_STREAM_READ_BYTES + 4 * NEGOTIATED_STREAM_CHUNKS {
      return Rejected;
    }
    if |ErrorName(r)| + |ErrorMessage(r)| > MAX_STREAM_ERROR_BYTES { return Rejected; }
    EncodableIsFramable(r);
    var buffer := new Byte[READ_HEADER_BYTES + chunkBytes + |ErrorName(r)| + |ErrorMessage(r)|](_ => 0);
    var offset := FillReadHeader(buffer, r);
    offset := FillFrames(buffer, offset, r.chunks);
    offset := Fill(buffer, offset, ErrorName(r));
    offset := Fill(buffer, offset, ErrorMessage(r));
    assert buffer[..] == buffer[..offset];
    return Ok(buffer[..]);
  }

  method FillReadHeader(buffer: array<Byte>, r: ReadResult) returns (offset: nat)
    requires EncodableRead(r) && buffer.Length >= READ_HEADER_BYTES
    modifies buffer
    ensures offset == READ_HEADER_BYTES && buffer[..offset] == ReadHeader(r)
  {
    offset := FillU32(buffer, 0, READ_MAGIC);
    offset := Fill(buffer, offset, ReadFlags(r));
    offset := FillI32(buffer, offset, r.startIndex);
    offset := FillI32(buffer, offset, r.tailIndex);
    offset := FillU32(buffer, offset, |r.chunks|);
    offset := FillU32(buffer, offset, |ErrorName(r)|);
    offset := FillU32(buffer, offset, |ErrorMessage(r)|);
  }

  method DecodeHead(encoded: Bytes) returns (h: Option<Head>)
    ensures h == ParseHead(encoded)
  {
    if |encoded| < READ_HEADER_BYTES { return None; }
    if GetU32(encoded, 0) != READ_MAGIC || encoded[4] != PROTOCOL_VERSION { return None; }
    var state := FromWire(encoded[5]);
    if state.None? { return None; }
    var startIndex, tailIndex := GetI32(encoded, 8), GetI32(encoded, 12);
    if !SafeIndex(startIndex) || !SafeIndex(tailIndex) { return None; }
    var count, nameLength, messageLength := GetU32(encoded, 16), GetU32(encoded, 20), GetU32(encoded, 24);
    if count > NEGOTIATED_STREAM_CHUNKS { return None; }
    if nameLength + messageLength > MAX_STREAM_ERROR_BYTES { return None; }
    return Some(Head(state.value, encoded[6] % 2 != 0, startIndex, tailIndex, count, nameLength, messageLength));
  }

  method DecodeStreamReadResult(encoded: Bytes) returns (r: Result<ReadResult>)
    ensures r == DecodeRead(encoded)
  {
    var head := DecodeHead(encoded);
    if head.None? { return Rejected; }
    var h := head.value;
    var frames := ReadFrames(encoded, READ_HEADER_BYTES, h.count, Some(MAX_STREAM_READ_BYTES));
    if frames.None? { return Rejected; }
    if frames.value.end + h.nameLength + h.messageLength != |encoded| { return Rejected; }
    var error := ErrorOf(encoded[frames.value.end..], h.nameLength, h.messageLength);
    return Ok(ReadResult(h.startIndex, h.tailIndex, frames.value.chunks, h.state, h.timedOut, error));
  }
}
