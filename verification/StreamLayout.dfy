/** Where each field stands on the wire, byte by byte (src/stream-protocol.ts). */
module StreamLayout {
  import opened Prelude
  import opened StreamBytes
  import opened StreamCodec

  /** Two bytes, high one first. */
  function Half(b: Bytes, at: nat): nat
    requires at + 2 <= |b|
  {
    b[at] as nat * 256 + b[at + 1] as nat
  }

  /** Four bytes, high one first. */
  function Word(b: Bytes, at: nat): nat
    requires at + 4 <= |b|
  {
    Half(b, at) * 65536 + Half(b, at + 2)
  }

  /** Four bytes as a signed number. */
  function Signed(b: Bytes, at: nat): int
    requires at + 4 <= |b|
  {
    if Word(b, at) >= 0x8000_0000 then Word(b, at) - 0x1_0000_0000 else Word(b, at)
  }

  lemma OneMoreByte(b: Bytes, at: nat, n: nat)
    requires at + n + 1 <= |b|
    ensures Number(Sub(b, at, n + 1)) == Number(Sub(b, at, n)) * 256 + b[at + n] as nat
  {
    var part := Sub(b, at, n + 1);
    assert part[..n] == Sub(b, at, n) && part[n] == b[at + n];
  }

  lemma HalfRead(b: Bytes, at: nat)
    requires at + 2 <= |b|
    ensures GetU16(b, at) == Half(b, at)
  {
    OneMoreByte(b, at, 0);
    OneMoreByte(b, at, 1);
  }

  lemma WordRead(b: Bytes, at: nat)
    requires at + 4 <= |b|
    ensures GetU32(b, at) == Word(b, at) && GetI32(b, at) == Signed(b, at)
  {
    OneMoreByte(b, at, 0);
    OneMoreByte(b, at, 1);
    OneMoreByte(b, at, 2);
    OneMoreByte(b, at, 3);
  }

  /** The states on the wire. */
  lemma StatesOnTheWire()
    ensures ToWire(Open) == 0 && ToWire(Closed) == 1 && ToWire(Errored) == 2 && ToWire(Expired) == 3
    ensures forall b: Byte :: FromWire(b).Some? <==> b as nat <= 3
    ensures forall s: StreamState :: FromWire(ToWire(s)) == Some(s)
  {
  }

  // ---- frames -------------------------------------------------------------------------------------------

  /** Where a chunk's frame starts among the frames. */
  function OffsetOf(chunks: Chunks, i: nat): nat
    requires i <= |chunks|
    decreases i
  {
    if i == 0 then 0 else OffsetOf(chunks, i - 1) + 4 + |chunks[i - 1]|
  }

  lemma {:induction false} OffsetAfterFirst(chunks: Chunks, i: nat)
    requires 0 < i <= |chunks|
    ensures OffsetOf(chunks, i) == 4 + |chunks[0]| + OffsetOf(chunks[1..], i - 1)
    decreases i
  {
    if i > 1 { OffsetAfterFirst(chunks, i - 1); }
  }

  /** The frame of one chunk stands behind those of the chunks before it. */
  lemma {:induction false} FrameStands(b: Bytes, at: nat, chunks: Chunks, i: nat)
    requires Framable(chunks) && At(b, at, Frames(chunks)) && i < |chunks|
    ensures FrameAt(b, at + OffsetOf(chunks, i)) == Some(chunks[i])
    decreases |chunks|
  {
    FirstFrame(b, at, chunks);
    if i == 0 {
    } else {
      OffsetAfterFirst(chunks, i);
      FrameStands(b, at + 4 + |chunks[0]|, chunks[1..], i - 1);
    }
  }

  /** The chunk that stands behind its length at an offset. */
  function ChunkAt(b: Bytes, at: nat): Option<Bytes> {
    if at + 4 <= |b| && at + 4 + Word(b, at) <= |b| then Some(b[at + 4..at + 4 + Word(b, at)]) else None
  }

  /** A frame is a length of four bytes, high one first, and that many bytes. */
  lemma FrameIsChunk(b: Bytes, at: nat)
    ensures ChunkAt(b, at) == FrameAt(b, at)
  {
    if at + 4 <= |b| {
      WordRead(b, at);
      if at + 4 + Word(b, at) <= |b| { SubIsSlice(b, at + 4, Word(b, at)); }
    }
  }

  /** A write batch: the letters WCSW, version 1, the number of chunks, and each chunk behind its length. */
  lemma BatchLayout(chunks: Chunks)
    requires ValidBatch(chunks)
    ensures
      var b := EncodeBatch(chunks);
      && |b| == 8 + Total(chunks) + 4 * |chunks|
      && Word(b, 0) == 0x57435357 && Half(b, 4) == 1 && Half(b, 6) == |chunks|
  {
    var b := EncodeBatch(chunks);
    HeaderAndRest(b, WriteHeader(|chunks|), Frames(chunks));
    WriteHeaderRead(b, |chunks|);
    WordRead(b, 0);
    HalfRead(b, 4);
    HalfRead(b, 6);
  }

  lemma BatchChunkLayout(chunks: Chunks, i: nat)
    requires ValidBatch(chunks) && i < |chunks|
    ensures FrameAt(EncodeBatch(chunks), 8 + OffsetOf(chunks, i)) == Some(chunks[i])
  {
    var b := EncodeBatch(chunks);
    HeaderAndRest(b, WriteHeader(|chunks|), Frames(chunks));
    FrameStands(b, 8, chunks, i);
  }

  /** An acknowledgement: the letters WCSA, version 1, the count, then the two offsets, signed. */
  lemma AckLayout(a: Ack)
    requires EncodableAck(a)
    ensures
      var b := EncodeAck(a);
      && |b| == 16 && Word(b, 0) == 0x57435341 && Half(b, 4) == 1 && Half(b, 6) == a.count
      && Signed(b, 8) == a.startIndex && Signed(b, 12) == a.tailIndex
  {
    var b := EncodeAck(a);
    AckRead(a);
    WordRead(b, 0);
    HalfRead(b, 4);
    HalfRead(b, 6);
    WordRead(b, 8);
    WordRead(b, 12);
  }

  /** A read result: the letters WCSR, version 1, state, a flag, a zero, two signed offsets and three lengths; then
      the chunks behind their lengths, the error's name and its message. */
  lemma ReadLayout(r: ReadResult)
    requires EncodableRead(r)
    ensures
      var b := EncodeRead(r);
      && |b| == 28 + Total(r.chunks) + 4 * |r.chunks| + |ErrorName(r)| + |ErrorMessage(r)|
      && Word(b, 0) == 0x57435352 && Signed(b, 8) == r.startIndex && Signed(b, 12) == r.tailIndex
      && Word(b, 16) == |r.chunks| && Word(b, 20) == |ErrorName(r)| && Word(b, 24) == |ErrorMessage(r)|
  {
    EncodedParts(r);
    HeaderWords(r, EncodeRead(r));
  }

  lemma HeaderWords(r: ReadResult, b: Bytes)
    requires EncodableRead(r) && |b| >= 28 && At(b, 0, ReadHeader(r))
    ensures Word(b, 0) == 0x57435352 && Signed(b, 8) == r.startIndex && Signed(b, 12) == r.tailIndex
    ensures Word(b, 16) == |r.chunks| && Word(b, 20) == |ErrorName(r)| && Word(b, 24) == |ErrorMessage(r)|
  {
    ReadHeaderParts(r, b);
    WordRead(b, 0);
    WordRead(b, 8);
    WordRead(b, 12);
    WordRead(b, 16);
    WordRead(b, 20);
    WordRead(b, 24);
  }

  lemma ReadFlagsLayout(r: ReadResult)
    requires EncodableRead(r)
    ensures
      var b := EncodeRead(r);
      |b| >= 8 && b[4] == 1 && b[5] == ToWire(r.state) && b[6] == (if r.timedOut then 1 else 0) && b[7] == 0
  {
    EncodedParts(r);
    FlagBytes(r, EncodeRead(r));
  }

  lemma FlagBytes(r: ReadResult, b: Bytes)
    requires EncodableRead(r) && |b| >= 28 && At(b, 0, ReadHeader(r))
    ensures b[4] == 1 && b[5] == ToWire(r.state) && b[6] == (if r.timedOut then 1 else 0) && b[7] == 0
  {
    ReadHeaderParts(r, b);
    AtIsSlice(b, 4, ReadFlags(r));
    assert b[4] == b[4..8][0] && b[5] == b[4..8][1] && b[6] == b[4..8][2] && b[7] == b[4..8][3];
  }

  /** Its chunks are framed like those of a batch, from byte 28 on. */
  lemma ReadFramesLayout(r: ReadResult)
    requires EncodableRead(r)
    ensures Framable(r.chunks) && At(EncodeRead(r), 28, Frames(r.chunks))
  {
    EncodedParts(r);
  }

  lemma ReadErrorLayout(r: ReadResult)
    requires EncodableRead(r)
    ensures
      var b, at := EncodeRead(r), 28 + Total(r.chunks) + 4 * |r.chunks|;
      && at + |ErrorName(r)| <= |b|
      && b[at..at + |ErrorName(r)|] == ErrorName(r) && b[at + |ErrorName(r)|..] == ErrorMessage(r)
  {
    EncodableIsFramable(r);
    var head := ReadHeader(r) + Frames(r.chunks);
    assert EncodeRead(r) == head + ErrorName(r) + ErrorMessage(r);
  }
}
