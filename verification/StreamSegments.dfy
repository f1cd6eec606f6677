/** Stored segments: one write's chunks packed behind their count and lengths
    (src/worker/durable-objects/StreamDO.ts, encodeSegment, decodeSegment, packSegments). */
module StreamSegments {
  import opened Prelude
  import opened StreamBytes

  /** The small row beside a segment: how many chunks and payload bytes it packs. */
  datatype SegmentSize = SegmentSize(count: nat, bytes: nat)

  datatype Segment = Segment(start: nat, chunks: Chunks)

  const MAX_SEGMENT_BYTES: nat := 1024 * 1024

  function SizeOf(chunks: Chunks): SegmentSize { SegmentSize(|chunks|, Total(chunks)) }

  /** Chunks whose count and lengths fit their 32-bit fields. */
  predicate Packable(chunks: Chunks) { |chunks| < U32_LIMIT && Framable(chunks) }

  /** Where the k-th of `n` chunks starts. */
  function Position(n: nat, chunks: Chunks, k: nat): nat
    requires k <= |chunks|
  {
    4 + 4 * n + Total(chunks[..k])
  }

  /** The k-th length field and the k-th payload of a segment of `n` chunks. */
  ghost predicate Stored(value: Bytes, n: nat, chunks: Chunks, k: nat) {
    match Nth(chunks, k)
    case None => false
    case Some(chunk) =>
      && 4 + 4 * k + 4 <= |value|
      && GetU32(value, 4 + 4 * k) == |chunk| && At(value, Position(n, chunks, k), chunk)
  }

  function Nth(chunks: Chunks, k: nat): (chunk: Option<Bytes>)
    ensures chunk.Some? <==> k < |chunks|
  {
    if k < |chunks| then Some(chunks[k]) else None
  }

  /** The two rows of a segment hold exactly these chunks: `[u32 count][u32 length]*count`, then the payloads. */
  ghost predicate Packs(value: Bytes, size: SegmentSize, chunks: Chunks) {
    && size == SizeOf(chunks)
    && |value| == 4 + 4 * |chunks| + Total(chunks)
    && GetU32(value, 0) == |chunks|
    && forall k :: 0 <= k < |chunks| ==> Stored(value, |chunks|, chunks, k)
  }

  lemma PositionNext(n: nat, chunks: Chunks, k: nat)
    requires k < |chunks|
    ensures Position(n, chunks, k + 1) == Position(n, chunks, k) + |chunks[k]| <= 4 + 4 * n + Total(chunks)
  {
    assert chunks[..k + 1] == chunks[..k] + [chunks[k]];
    TotalSnoc(chunks[..k], chunks[k]);
    assert chunks == chunks[..k + 1] + chunks[k + 1..];
    TotalAppend(chunks[..k + 1], chunks[k + 1..]);
  }

  lemma StoredOnce(value: Bytes, n: nat, xs: Chunks, ys: Chunks, k: nat)
    requires Stored(value, n, xs, k) && Stored(value, n, ys, k) && xs[..k] == ys[..k]
    ensures xs[k] == ys[k] && xs[..k + 1] == ys[..k + 1]
  {
    assert xs[..k + 1] == xs[..k] + [xs[k]] && ys[..k + 1] == ys[..k] + [ys[k]];
  }

  /** The rows determine the chunks. */
  lemma {:induction false} PackedPrefix(value: Bytes, n: nat, xs: Chunks, ys: Chunks, i: nat)
    requires forall k :: 0 <= k < i ==> Stored(value, n, xs, k) && Stored(value, n, ys, k)
    requires i <= |xs| && i <= |ys|
    ensures xs[..i] == ys[..i]
  {
    if i > 0 {
      PackedPrefix(value, n, xs, ys, i - 1);
      StoredOnce(value, n, xs, ys, i - 1);
    }
  }

  lemma PackedOnce(value: Bytes, size: SegmentSize, xs: Chunks, ys: Chunks)
    requires Packs(value, size, xs) && Packs(value, size, ys)
    ensures xs == ys
  {
    PackedPrefix(value, |xs|, xs, ys, |xs|);
    assert xs[..|xs|] == xs && ys[..|xs|] == ys;
  }

  // ---- writing a segment ----------------------------------------------------------------

  predicate Same(b: Bytes, c: Bytes, from: nat, n: nat) {
    |b| == |c| && from + n <= |b| && b[from..from + n] == c[from..from + n]
  }

  lemma SameReads(b: Bytes, c: Bytes, from: nat, part: Bytes)
    requires Same(b, c, from, |part|) && At(b, from, part)
    ensures At(c, from, part)
  {
    SubIsSlice(b, from, |part|);
    SubIsSlice(c, from, |part|);
  }

  lemma SameNumber(b: Bytes, c: Bytes, from: nat)
    requires Same(b, c, from, 4)
    ensures GetU32(b, from) == GetU32(c, from)
  {
    SubIsSlice(b, from, 4);
    SubIsSlice(c, from, 4);
  }

  lemma StoredStays(b: Bytes, c: Bytes, n: nat, chunks: Chunks, k: nat)
    requires Stored(b, n, chunks, k) && Same(b, c, 4 + 4 * k, 4) && Same(b, c, Position(n, chunks, k), |chunks[k]|)
    ensures Stored(c, n, chunks, k)
  {
    SameNumber(b, c, 4 + 4 * k);
    SameReads(b, c, Position(n, chunks, k), chunks[k]);
  }

  /** Sum of lengths, as encodeSegment and decodeSegment need it. */
  method PayloadBytes(chunks: Chunks) returns (bytes: nat)
    ensures bytes == Total(chunks)
  {
    bytes := 0;
    var i := 0;
    while i < |chunks|
      invariant 0 <= i <= |chunks| && bytes == Total(chunks[..i])
    {
      PositionNext(0, chunks, i);
      bytes := bytes + |chunks[i]|;
      i := i + 1;
    }
    assert chunks[..i] == chunks;
  }

  method EncodeSegment(chunks: Chunks) returns (encoded: Bytes)
    requires Packable(chunks)
    ensures Packs(encoded, SizeOf(chunks), chunks)
  {
    var payloadBytes := PayloadBytes(chunks);
    var header := 4 + 4 * |chunks|;
    var buffer := new Byte[header + payloadBytes](_ => 0);
    var next := FillU32(buffer, 0, |chunks|);
    CountWritten(buffer[..], |chunks|);
    var offset, index := header, 0;
    assert chunks[..0] == [];
    while index < |chunks|
      invariant 0 <= index <= |chunks| && offset == Position(|chunks|, chunks, index) <= buffer.Length
      invariant GetU32(buffer[..], 0) == |chunks|
      invariant forall k :: 0 <= k < index ==> Stored(buffer[..], |chunks|, chunks, k)
    {
      PositionNext(|chunks|, chunks, index);
      PutChunk(buffer, chunks, index, offset);
      offset := offset + |chunks[index]|;
      index := index + 1;
    }
    return buffer[..];
  }

  lemma CountWritten(b: Bytes, n: nat)
    requires n < U32_LIMIT && |b| >= 4 && b[..4] == U32(n)
    ensures GetU32(b, 0) == n
  {
    SubIsSlice(b, 0, 4);
    assert b[0..4] == b[..4];
    ReadU32(b, 0, n);
  }

  /** The length and the payload of one chunk, each at its own cursor. */
  method PutChunk(buffer: array<Byte>, chunks: Chunks, index: nat, offset: nat)
    requires Packable(chunks) && index < |chunks|
    requires offset == Position(|chunks|, chunks, index) && offset + |chunks[index]| <= buffer.Length
    requires forall k :: 0 <= k < index ==> Stored(buffer[..], |chunks|, chunks, k)
    modifies buffer
    ensures forall k :: 0 <= k <= index ==> Stored(buffer[..], |chunks|, chunks, k)
    ensures GetU32(buffer[..], 0) == old(GetU32(buffer[..], 0))
  {
    var n, chunk := |chunks|, chunks[index];
    ghost var before := buffer[..];
    Limits();
    BytesOfIsBigEndian(|chunk|, 4);
    Overwrite(buffer, 4 + 4 * index, BigEndian(|chunk|, 4));
    ghost var middle := buffer[..];
    Overwrite(buffer, offset, chunk);
    ghost var after := buffer[..];
    OneMore(before, middle, after, chunks, index);
  }

  /** Put, with what stays said byte by byte. */
  method Overwrite(buffer: array<Byte>, at: nat, part: Bytes)
    requires at + |part| <= buffer.Length
    modifies buffer
    ensures forall from: nat, n: nat :: from + n <= buffer.Length && (from + n <= at || at + |part| <= from) ==>
              Same(old(buffer[..]), buffer[..], from, n)
    ensures At(buffer[..], at, part)
  {
    ghost var before := buffer[..];
    Put(buffer, at, part);
    assert forall j :: 0 <= j < at ==> buffer[j] == buffer[..at][j] == before[j];
    assert forall j :: at + |part| <= j < buffer.Length ==>
        buffer[j] == buffer[at + |part|..][j - at - |part|] == before[at + |part|..][j - at - |part|] == before[j];
    AtIsSlice(buffer[..], at, part);
  }

  lemma OneMore(before: Bytes, middle: Bytes, after: Bytes, chunks: Chunks, index: nat)
    requires index < |chunks| && Packable(chunks)
    requires forall k :: 0 <= k < index ==> Stored(before, |chunks|, chunks, k)
    requires 4 + 4 * |chunks| <= |before|
    requires forall from: nat, n: nat ::
               from + n <= |before| && (from + n <= 4 + 4 * index || 4 + 4 * index + 4 <= from) ==>
                 Same(before, middle, from, n)
    requires At(middle, 4 + 4 * index, U32(|chunks[index]|))
    requires forall from: nat, n: nat :: from + n <= |middle| && from + n <= Position(|chunks|, chunks, index) ==>
               Same(middle, after, from, n)
    requires At(after, Position(|chunks|, chunks, index), chunks[index])
    ensures forall k :: 0 <= k <= index ==> Stored(after, |chunks|, chunks, k)
    ensures GetU32(after, 0) == GetU32(before, 0)
  {
    SameNumber(before, middle, 0);
    SameNumber(middle, after, 0);
    forall k | 0 <= k < index ensures Stored(after, |chunks|, chunks, k) {
      PositionsRise(|chunks|, chunks, k, index);
      StoredStays(before, middle, |chunks|, chunks, k);
      StoredStays(middle, after, |chunks|, chunks, k);
    }
    ThisStored(middle, after, chunks, index);
  }

  lemma ThisStored(middle: Bytes, after: Bytes, chunks: Chunks, index: nat)
    requires index < |chunks| && Packable(chunks)
    requires At(middle, 4 + 4 * index, U32(|chunks[index]|)) && Same(middle, after, 4 + 4 * index, 4)
    requires At(after, Position(|chunks|, chunks, index), chunks[index])
    ensures Stored(after, |chunks|, chunks, index)
  {
    SameReads(middle, after, 4 + 4 * index, U32(|chunks[index]|));
    ReadU32(after, 4 + 4 * index, |chunks[index]|);
  }

  /** An earlier chunk ends before a later one starts. */
  lemma {:induction false} PositionsRise(n: nat, chunks: Chunks, k: nat, index: nat)
    requires k < index <= |chunks|
    ensures Position(n, chunks, k) + |chunks[k]| <= Position(n, chunks, index)
    decreases index
  {
    PositionNext(n, chunks, index - 1);
    if k < index - 1 { PositionsRise(n, chunks, k, index - 1); }
  }

  // ---- reading a segment ------------------------------------------------------------------

  /** A stored segment gives back its chunks; anything else is refused. */
  method DecodeSegment(value: Bytes, size: SegmentSize) returns (r: Option<Chunks>)
    ensures r.Some? ==> Packs(value, size, r.value)
    ensures r.None? ==> forall chunks :: !Packs(value, size, chunks)
  {
    if |value| < 4 { return None; }
    var count := GetU32(value, 0);
    var header := 4 + 4 * count;
    if count != size.count || header + size.bytes != |value| { return None; }
    var chunks: Chunks := [];
    var offset, index := header, 0;
    while index < count
      invariant 0 <= index <= count && |chunks| == index
      invariant offset == header + Total(chunks) <= |value|
      invariant forall k :: 0 <= k < index ==> Stored(value, count, chunks, k)
    {
      var length := GetU32(value, 4 + 4 * index);
      forall xs | Packs(value, size, xs) ensures offset + length <= |value| {
        NextWithin(value, size, xs, chunks, offset);
      }
      if offset + length > |value| { return None; }
      AppendStored(value, count, chunks, value[offset..offset + length], offset);
      chunks := chunks + [value[offset..offset + length]];
      offset := offset + length;
      index := index + 1;
    }
    forall xs | Packs(value, size, xs) ensures offset == |value| { WholeRead(value, size, xs, chunks); }
    if offset != |value| { return None; }
    return Some(chunks);
  }

  lemma NextWithin(value: Bytes, size: SegmentSize, xs: Chunks, chunks: Chunks, offset: nat)
    requires Packs(value, size, xs) && |chunks| < |xs|
    requires offset == 4 + 4 * |xs| + Total(chunks)
    requires forall k :: 0 <= k < |chunks| ==> Stored(value, |xs|, chunks, k)
    ensures offset + GetU32(value, 4 + 4 * |chunks|) <= |value|
  {
    PackedPrefix(value, |xs|, xs, chunks, |chunks|);
    assert chunks[..|chunks|] == chunks;
    assert Stored(value, |xs|, xs, |chunks|);
  }

  lemma WholeRead(value: Bytes, size: SegmentSize, xs: Chunks, chunks: Chunks)
    requires Packs(value, size, xs) && |chunks| == |xs|
    requires forall k :: 0 <= k < |chunks| ==> Stored(value, |xs|, chunks, k)
    ensures |value| == 4 + 4 * |chunks| + Total(chunks)
  {
    PackedPrefix(value, |xs|, xs, chunks, |xs|);
    assert xs[..|xs|] == xs && chunks[..|xs|] == chunks;
  }

  lemma AppendStored(value: Bytes, count: nat, chunks: Chunks, chunk: Bytes, offset: nat)
    requires forall k :: 0 <= k < |chunks| ==> Stored(value, count, chunks, k)
    requires 4 + 4 * |chunks| + 4 <= |value| && GetU32(value, 4 + 4 * |chunks|) == |chunk|
    requires offset == 4 + 4 * count + Total(chunks) && offset + |chunk| <= |value|
    requires chunk == value[offset..offset + |chunk|]
    ensures forall k :: 0 <= k <= |chunks| ==> Stored(value, count, chunks + [chunk], k)
    ensures Total(chunks + [chunk]) == Total(chunks) + |chunk|
  {
    TotalSnoc(chunks, chunk);
    forall k | 0 <= k < |chunks| ensures Stored(value, count, chunks + [chunk], k) {
      StillStored(value, count, chunks, chunk, k);
    }
    LastStored(value, count, chunks, chunk, offset);
  }

  lemma StillStored(value: Bytes, count: nat, chunks: Chunks, chunk: Bytes, k: nat)
    requires Stored(value, count, chunks, k)
    ensures Stored(value, count, chunks + [chunk], k)
  {
    PrefixStays(chunks, chunk, k);
  }

  lemma LastStored(value: Bytes, count: nat, chunks: Chunks, chunk: Bytes, offset: nat)
    requires 4 + 4 * |chunks| + 4 <= |value| && GetU32(value, 4 + 4 * |chunks|) == |chunk|
    requires offset == 4 + 4 * count + Total(chunks) && offset + |chunk| <= |value|
    requires chunk == value[offset..offset + |chunk|]
    ensures Stored(value, count, chunks + [chunk], |chunks|)
  {
    PrefixStays(chunks, chunk, |chunks|);
    var more, k := chunks + [chunk], |chunks|;
    assert Position(count, more, k) == offset && Nth(more, k) == Some(chunk);
    assert At(value, offset, chunk) by { AtIsSlice(value, offset, chunk); }
  }

  lemma PrefixStays(chunks: Chunks, chunk: Bytes, k: nat)
    requires k <= |chunks|
    ensures (chunks + [chunk])[..k] == chunks[..k]
    ensures (chunks + [chunk])[k] == if k < |chunks| then chunks[k] else chunk
    ensures k == |chunks| ==> chunks[..k] == chunks
  {
  }

  // ---- packing a write --------------------------------------------------------------

  /** The chunks of consecutive segments. */
  function Unpacked(segments: seq<Segment>): Chunks {
    if segments == [] then [] else segments[0].chunks + Unpacked(segments[1..])
  }

  /** Segments that follow each other from `start` on, none of them empty, each within the
      segment limit unless a single chunk exceeds it. */
  ghost predicate Consecutive(start: nat, segments: seq<Segment>)
    decreases |segments|
  {
    segments == [] ||
    (&& segments[0].start == start && segments[0].chunks != []
     && (|segments[0].chunks| == 1 || Total(segments[0].chunks) <= MAX_SEGMENT_BYTES)
     && Consecutive(start + |segments[0].chunks|, segments[1..]))
  }

  lemma {:induction false} SegmentsSnoc(start: nat, segments: seq<Segment>, next: Segment)
    requires Consecutive(start, segments) && next.start == start + |Unpacked(segments)| && next.chunks != []
    requires |next.chunks| == 1 || Total(next.chunks) <= MAX_SEGMENT_BYTES
    ensures Consecutive(start, segments + [next]) && Unpacked(segments + [next]) == Unpacked(segments) + next.chunks
    decreases |segments|
  {
    if segments == [] {
      assert segments + [next] == [next] && [next][1..] == [];
    } else {
      assert (segments + [next])[1..] == segments[1..] + [next];
      SegmentsSnoc(start + |segments[0].chunks|, segments[1..], next);
    }
  }

  /** Group one write's chunks into segments of at most MAX_SEGMENT_BYTES payload bytes. */
  method PackSegments(startIndex: nat, chunks: Chunks) returns (segments: seq<Segment>)
    ensures Consecutive(startIndex, segments) && Unpacked(segments) == chunks
  {
    segments := [];
    var current: Chunks := [];
    var bytes, start, i := 0, startIndex, 0;
    while i < |chunks|
      invariant 0 <= i <= |chunks| && Consecutive(startIndex, segments)
      invariant Unpacked(segments) + current == chunks[..i] && start == startIndex + |Unpacked(segments)|
      invariant bytes == Total(current) && (|current| <= 1 || bytes <= MAX_SEGMENT_BYTES)
    {
      var chunk := chunks[i];
      if |current| > 0 && bytes + |chunk| > MAX_SEGMENT_BYTES {
        SegmentsSnoc(startIndex, segments, Segment(start, current));
        segments := segments + [Segment(start, current)];
        start := start + |current|;
        current := [];
        bytes := 0;
      }
      TotalSnoc(current, chunk);
      assert chunks[..i + 1] == chunks[..i] + [chunk];
      current := current + [chunk];
      bytes := bytes + |chunk|;
      i := i + 1;
    }
    assert chunks[..i] == chunks;
    if |current| > 0 {
      SegmentsSnoc(startIndex, segments, Segment(start, current));
      segments := segments + [Segment(start, current)];
    }
  }
}
