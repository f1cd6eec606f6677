/** A stream cell: both layouts are one append-only log with a terminal state
    (src/worker/durable-objects/StreamDO.ts). Mutations are serialized by the cell, so each
    method is one transaction. */
module StreamCell {
  import opened Prelude
  import opened OrderedKeys
  import opened StreamBytes
  import opened StreamSegments
  import opened StreamCodec
  import opened StreamRows
  import opened StreamExpiry

  type RunId = string

  /** The `meta` row. `segmented` is the layout, fixed when the stream is created. */
  datatype Meta = Meta(
    count: nat, state: StreamState, owner: Option<RunId>, segmented: bool, error: Option<StreamError>,
    expiredAt: Option<nat>, expiredChunkCount: Option<nat>, payloadDeleted: bool)

  const NO_META := Meta(0, Open, None, false, None, None, None, false)

  const MAX_EXPIRE_CHUNK_LIMIT: nat := 256

  datatype Reply = Written(ack: Ack) | WriteRefused

  /** What expireStream answers. */
  datatype Fenced = Fenced(first: bool, chunks: nat, bytes: nat, done: bool)

  class StreamCell {
    var stored: bool
    var meta: Meta
    var chunkRows: ChunkRows
    var segmentRows: SegmentRows
    /** Everything ever written, and how much of it expiry pages have deleted. */
    ghost var log: Chunks
    ghost var gone: nat
    /** Where the remaining segments begin, and the end of the log. */
    ghost var cuts: seq<nat>

    ghost predicate MetaTrue()
      reads this
    {
      match meta case Meta(count, state, owner, segmented, error, expiredAt, expiredCount, deleted) =>
        && (!stored ==> meta == NO_META && log == [])
        && (state.Errored? <==> error.Some?)
        && |log| <= MAX_STREAM_INDEX && SmallChunks(log)
        && (if state.Expired? then
              && owner.Some? && expiredAt.Some? && expiredCount == Some(|log|)
              && (deleted <==> gone == |log|)
              && count == if deleted then 0 else |log|
            else gone == 0 && count == |log| && !deleted && expiredAt.None? && expiredCount.None?)
        && (log != [] ==> owner.Some?)
    }

    ghost predicate RowsTrue()
      reads this
    {
      match meta case Meta(_, _, _, segmented, _, _, _, _) =>
        if segmented then
          && chunkRows == NO_CHUNK_ROWS && SegmentsHold(segmentRows, log, cuts) && cuts[0] == gone
        else
          && segmentRows == NO_SEGMENT_ROWS && ChunksHold(chunkRows, log, gone)
    }

    ghost predicate Valid()
      reads this
    {
      match meta case Meta(_, _, _, _, _, _, _, _) => MetaTrue() && RowsTrue()
    }

    /** A new stream has no rows; `legacy` streams were created with one row per chunk. */
    constructor (legacyOwner: Option<RunId>)
      ensures Valid() && log == [] && meta.state.Open? && meta.owner == legacyOwner && !meta.segmented
      ensures stored == legacyOwner.Some?
    {
      stored := legacyOwner.Some?;
      meta := NO_META.(owner := legacyOwner);
      chunkRows, segmentRows := NO_CHUNK_ROWS, NO_SEGMENT_ROWS;
      log, gone, cuts := [], 0, [0];
    }

    predicate Foreign(run: RunId)
      reads this
    {
      meta.owner.Some? && meta.owner.value != run
    }

    /** Append one bounded batch; refused whole, or appended whole. */
    method WriteChunks(run: RunId, chunks: Chunks) returns (reply: Reply)
      requires Valid()
      modifies this
      ensures Valid()
      ensures reply.Written? <==>
              ValidBatch(chunks) && !old(Foreign(run)) && old(meta).state.Open? &&
                  old(|log|) + |chunks| <= MAX_STREAM_INDEX
      ensures reply.Written? ==>
                && log == old(log) + chunks && meta.state.Open? && meta.owner == Some(run)
                && reply.ack == Ack(old(|log|), |chunks|, |log| - 1)
                && meta.segmented == (old(meta).segmented || !old(stored))
      ensures reply.WriteRefused? ==> log == old(log) && meta == old(meta) && gone == old(gone)
    {
      var total := ValidateStreamWriteChunks(chunks);
      if total.Rejected? { return WriteRefused; }
      if Foreign(run) || !meta.state.Open? { return WriteRefused; }
      var startIndex := meta.count;
      if startIndex + |chunks| > MAX_STREAM_INDEX { return WriteRefused; }
      // A stream keeps the layout it was created with; new streams are segmented.
      var segmented := meta.segmented || !stored;
      if segmented {
        if !stored { FreshSegments(); }
        AppendSegments(chunks);
      } else {
        AppendChunks(chunks);
      }
      stored := true;
      meta := Meta(startIndex + |chunks|, Open, Some(run), segmented, None, None, None, false);
      return Written(Ack(startIndex, |chunks|, meta.count - 1));
    }

    /** A stream without rows is segmented as well as not. */
    ghost method FreshSegments()
      requires Valid() && !stored
      modifies this`cuts
      ensures cuts == [0] && SegmentsHold(segmentRows, log, cuts) && chunkRows == NO_CHUNK_ROWS
    {
      cuts := [0];
      assert chunkRows.payloads == map[] && chunkRows.sizes == map[];
    }

    method AppendSegments(chunks: Chunks)
      requires SegmentsHold(segmentRows, log, cuts) && ValidBatch(chunks) && |log| == meta.count
      modifies this`segmentRows, this`log, this`cuts
      ensures log == old(log) + chunks && SegmentsHold(segmentRows, log, cuts) && cuts[0] == old(cuts[0])
    {
      var segments := PackSegments(meta.count, chunks);
      var i := 0;
      ghost var before, rest := log, segments;
      while i < |segments|
        invariant 0 <= i <= |segments| && rest == segments[i..]
        invariant SegmentsHold(segmentRows, log, cuts) && cuts[0] == old(cuts[0])
        invariant Appending(log, before, chunks, rest)
      {
        assert rest[0] == segments[i];
        AppendOne(log, before, chunks, rest);
        PutSegment(segments[i]);
        rest := rest[1..];
        i := i + 1;
      }
      assert log + [] == log;
    }

    method PutSegment(segment: Segment)
      requires SegmentsHold(segmentRows, log, cuts) && segment.start == |log|
      requires Packable(segment.chunks) && segment.chunks != []
      modifies this`segmentRows, this`log, this`cuts
      ensures log == old(log) + segment.chunks && SegmentsHold(segmentRows, log, cuts) && cuts[0] == old(cuts[0])
    {
      var value := EncodeSegment(segment.chunks);
      var bytes := PayloadBytes(segment.chunks);
      SegmentAdded(segmentRows, log, cuts, value, segment.chunks);
      segmentRows := SegmentRows(segmentRows.values[segment.start := value],
                                 segmentRows.sizes[segment.start := SegmentSize(|segment.chunks|, bytes)]);
      cuts := cuts + [|log| + |segment.chunks|];
      log := log + segment.chunks;
    }

    method AppendChunks(chunks: Chunks)
      requires ChunksHold(chunkRows, log, 0) && |log| == meta.count
      modifies this`chunkRows, this`log
      ensures log == old(log) + chunks && ChunksHold(chunkRows, log, 0)
    {
      var offset := 0;
      while offset < |chunks|
        invariant 0 <= offset <= |chunks| && log == old(log) + chunks[..offset] && ChunksHold(chunkRows, log, 0)
      {
        var index := meta.count + offset;
        chunkRows := ChunkRows(chunkRows.payloads[index := chunks[offset]], chunkRows.sizes[index := |chunks[offset]|]);
        log := log + [chunks[offset]];
        assert chunks[..offset + 1] == chunks[..offset] + [chunks[offset]];
        offset := offset + 1;
      }
      assert chunks[..offset] == chunks;
    }

    /** Close idempotently; the first terminal state wins. False: not this run's, or expired. */
    method Close(run: RunId) returns (ok: bool)
      requires Valid()
      modifies this`meta, this`stored
      ensures Valid() && ok == (!old(Foreign(run)) && !old(meta).state.Expired?)
      ensures meta == if ok && old(meta).state.Open? then old(meta).(state := Closed, owner := Some(run)) else old(meta)
    {
      if Foreign(run) || meta.state.Expired? { return false; }
      if meta.state.Open? {
        meta := meta.(state := Closed, owner := Some(run));
        stored := true;
      }
      return true;
    }

    method Fail(run: RunId, error: StreamError) returns (ok: bool)
      requires Valid()
      modifies this`meta, this`stored
      ensures Valid() && ok == (!old(Foreign(run)) && !old(meta).state.Expired?)
      ensures meta == if ok && old(meta).state.Open?
                      then old(meta).(state := Errored, owner := Some(run), error := Some(error)) else old(meta)
    {
      if Foreign(run) || meta.state.Expired? { return false; }
      if meta.state.Open? {
        meta := meta.(state := Errored, owner := Some(run), error := Some(error));
        stored := true;
      }
      return true;
    }

    /** One bounded read: a prefix of log[startIndex..] within both limits, not empty while
        chunks are available and the stream is not expired. */
    method ReadSnapshot(run: RunId, startIndex: nat, maxChunks: nat, maxBytes: nat, timedOut: bool)
      returns (r: Option<ReadResult>)
      requires Valid() && maxBytes >= MAX_STREAM_CHUNK_BYTES
      ensures r.None? <==> Foreign(run)
      ensures r.Some? ==>
                && r.value.startIndex == startIndex && r.value.state == meta.state && r.value.error == meta.error
                && r.value.tailIndex == meta.count - 1 && r.value.timedOut == timedOut
                && startIndex + |r.value.chunks| <= Max(|log|, startIndex)
                && |r.value.chunks| <= maxChunks && Total(r.value.chunks) <= maxBytes
                && (r.value.chunks != [] ==> r.value.chunks == log[startIndex..startIndex + |r.value.chunks|])
                && (r.value.chunks == [] <==> meta.state.Expired? || maxChunks == 0 || startIndex >= |log|)
      // It stops where it should; a segmented read may also stop at a segment's end once the segments it had to
      // load use up the budget.
      ensures r.Some? && r.value.chunks != [] ==>
                var stop, available := startIndex + |r.value.chunks|, Min(maxChunks, |log| - startIndex);
                if meta.segmented then Stops(log, cuts, startIndex, stop, available, maxBytes)
                else Full(log, startIndex, stop, available, maxBytes)
    {
      if Foreign(run) { return None; }
      var available := if meta.state.Expired? then 0 else Max(0, Min(maxChunks, meta.count - startIndex));
      var chunks: Option<Chunks> := Some([]);
      if available > 0 {
        chunks := ReadRows(startIndex, available, maxBytes);
        ReadMeans(log, startIndex, available, maxBytes, chunks.value);
        assert available == Min(maxChunks, |log| - startIndex);
      }
      return Some(ReadResult(startIndex, meta.count - 1, chunks.value, meta.state, timedOut, meta.error));
    }

    method ReadRows(start: nat, available: nat, maxBytes: nat) returns (chunks: Option<Chunks>)
      requires Valid() && maxBytes >= MAX_STREAM_CHUNK_BYTES
      requires !meta.state.Expired? && 0 < available && start + available <= meta.count
      ensures chunks.Some? && ReadsFrom(log, start, available, maxBytes, chunks.value)
      ensures if meta.segmented then Stops(log, cuts, start, start + |chunks.value|, available, maxBytes)
              else Full(log, start, start + |chunks.value|, available, maxBytes)
    {
      if meta.segmented {
        chunks := ReadSegmentRows(segmentRows, start, available, maxBytes, log, cuts);
      } else {
        chunks := ReadChunkRows(chunkRows, start, available, maxBytes, log);
      }
    }

    /** Fence the stream and delete one page of rows. */
    method ExpireStream(run: RunId, expiredAt: nat, limit: nat, byteLimit: nat) returns (r: Option<Fenced>)
      requires Valid() && 0 < limit <= MAX_EXPIRE_CHUNK_LIMIT && byteLimit > 0
      modifies this
      ensures Valid() && log == old(log)
      ensures r.None? <==> old(Foreign(run))
      ensures r.None? ==> meta == old(meta) && gone == old(gone)
      // The fence is permanent and keeps its owner, its date and the count it found.
      ensures r.Some? ==> meta.state.Expired? && meta.owner == Some(run) && meta.expiredChunkCount == Some(|log|)
      ensures r.Some? ==>
                && (r.value.first <==> !old(meta).state.Expired?)
                && meta.expiredAt == (if r.value.first then Some(expiredAt) else old(meta).expiredAt)
                && (old(meta).state.Expired? ==> meta.owner == old(meta).owner)
      // Pages take chunks off the front, as many as the limits allow; the last one is the one that leaves no row.
      ensures r.Some? ==> gone == old(gone) + r.value.chunks && (r.value.done <==> gone == |log|)
      ensures r.Some? ==> r.value.bytes == Total(log[old(gone)..gone])
      ensures r.Some? ==> PageTaken(meta.segmented, log, old(gone), gone, old(cuts), cuts, limit, byteLimit)
      ensures r.Some? ==> (r.value.done <==> chunkRows == NO_CHUNK_ROWS && segmentRows == NO_SEGMENT_ROWS)
      ensures r.Some? && !r.value.done ==> r.value.chunks > 0
    {
      if Foreign(run) { return None; }
      var firstFence := !meta.state.Expired?;
      var page := ExpirePage(limit, byteLimit);
      if page.done && page.chunks == 0 && meta.state.Expired? && meta.payloadDeleted {
        return Some(Fenced(false, 0, 0, true));
      }
      stored := true;
      meta := Meta(if page.done then 0 else meta.count, StreamState.Expired, Some(run), meta.segmented, None,
                   if meta.expiredAt.Some? then meta.expiredAt else Some(expiredAt),
                   if meta.expiredChunkCount.Some? then meta.expiredChunkCount else Some(meta.count), page.done);
      return Some(Fenced(firstFence, page.chunks, page.bytes, page.done));
    }

    method ExpirePage(limit: nat, byteLimit: nat) returns (page: Page)
      requires Valid() && limit > 0
      modifies this`chunkRows, this`segmentRows, this`gone, this`cuts
      ensures RowsTrue() && gone == old(gone) + page.chunks <= |log|
      ensures page.done <==> gone == |log|
      ensures page.done <==> chunkRows == NO_CHUNK_ROWS && segmentRows == NO_SEGMENT_ROWS
      ensures !page.done ==> page.chunks > 0
      ensures page.bytes == Total(log[old(gone)..gone])
      ensures PageTaken(meta.segmented, log, old(gone), gone, old(cuts), cuts, limit, byteLimit)
    {
      if meta.segmented { page := ExpireSegments(limit, byteLimit); }
      else { page := ExpireChunks(limit, byteLimit); }
      NoRowsLeft();
    }

    method ExpireSegments(limit: nat, byteLimit: nat) returns (page: Page)
      requires SegmentsHold(segmentRows, log, cuts) && cuts[0] == gone && limit > 0
      modifies this`segmentRows, this`gone, this`cuts
      ensures SegmentsHold(segmentRows, log, cuts) && cuts[0] == gone == old(gone) + page.chunks <= |log|
      ensures (page.done <==> gone == |log|) && (!page.done ==> page.chunks > 0)
      ensures page.bytes == Total(log[old(gone)..gone])
      ensures |cuts| <= |old(cuts)| && SegmentPageFits(log, old(cuts), |old(cuts)| - |cuts|, limit, byteLimit)
    {
      ghost var p;
      var pages;
      segmentRows, pages, p := ExpireSegmentPage(segmentRows, limit, byteLimit, log, cuts);
      page := pages.value;
      cuts := cuts[p..];
      gone := gone + page.chunks;
    }

    method ExpireChunks(limit: nat, byteLimit: nat) returns (page: Page)
      requires ChunksHold(chunkRows, log, gone) && limit > 0
      modifies this`chunkRows, this`gone
      ensures ChunksHold(chunkRows, log, gone) && gone == old(gone) + page.chunks <= |log|
      ensures (page.done <==> gone == |log|) && (!page.done ==> page.chunks > 0)
      ensures page.bytes == Total(log[old(gone)..gone]) && ChunkPageFits(log, old(gone), page.chunks, limit, byteLimit)
    {
      chunkRows, page := ExpireChunkPage(chunkRows, limit, byteLimit, log, gone);
      gone := gone + page.chunks;
    }

    /** Pages repeated until the last one, as retention cleanup does: they end, and together
        report every chunk the fence found. */
    method ExpireAll(run: RunId, expiredAt: nat, limit: nat, byteLimit: nat) returns (total: nat)
      requires Valid() && !Foreign(run) && gone == 0 && 0 < limit <= MAX_EXPIRE_CHUNK_LIMIT && byteLimit > 0
      modifies this
      ensures Valid() && log == old(log) && meta.state.Expired? && meta.owner == Some(run)
      ensures total == |log| && meta.expiredChunkCount == Some(total)
      ensures chunkRows == NO_CHUNK_ROWS && segmentRows == NO_SEGMENT_ROWS
    {
      total := 0;
      var done := false;
      while !done
        invariant Valid() && log == old(log) && !Foreign(run) && total == gone
        invariant done ==> meta.state.Expired? && meta.owner == Some(run) && gone == |log|
        invariant done ==>
                  meta.expiredChunkCount == Some(|log|) && chunkRows == NO_CHUNK_ROWS && segmentRows == NO_SEGMENT_ROWS
        decreases !done, |log| - gone
      {
        var page := ExpireStream(run, expiredAt, limit, byteLimit);
        total := total + page.value.chunks;
        done := page.value.done;
      }
    }

    /** Rows are gone exactly when the whole log is. */
    lemma NoRowsLeft()
      requires RowsTrue()
      ensures gone == |log| <==> chunkRows == NO_CHUNK_ROWS && segmentRows == NO_SEGMENT_ROWS
    {
      if meta.segmented {
        if gone == |log| { assert |cuts| == 1; assert segmentRows.values.Keys == {} && segmentRows.sizes.Keys == {}; }
        else { assert cuts[..|cuts| - 1][0] in segmentRows.sizes.Keys; }
      } else {
        if gone == |log| { assert chunkRows.payloads == map[] && chunkRows.sizes == map[]; }
        else { assert gone in chunkRows.payloads; }
      }
    }
  }

  ghost function Joined(log: Chunks, rest: seq<Segment>): Option<Chunks> {
    if Consecutive(|log|, rest) then Some(log + Unpacked(rest)) else None
  }

  /** The log and the segments still to append make up the batch behind what was there before. */
  ghost predicate Appending(log: Chunks, before: Chunks, chunks: Chunks, rest: seq<Segment>) {
    match Joined(log, rest)
    case None => false
    case Some(all) => |before| <= |log| && all == before + chunks
  }

  lemma AppendOne(log: Chunks, before: Chunks, chunks: Chunks, rest: seq<Segment>)
    requires Appending(log, before, chunks, rest) && rest != [] && ValidBatch(chunks)
    ensures rest[0].start == |log| && rest[0].chunks != [] && Packable(rest[0].chunks)
    ensures Appending(log + rest[0].chunks, before, chunks, rest[1..])
  {
    var part, later := rest[0].chunks, Unpacked(rest[1..]);
    assert log + (part + later) == log + part + later;
    PartOfBatch(before, log, part, later, chunks);
  }

  lemma PartOfBatch(before: Chunks, log: Chunks, part: Chunks, rest: Chunks, chunks: Chunks)
    requires ValidBatch(chunks) && |before| <= |log| && log + part + rest == before + chunks
    ensures Packable(part)
  {
    forall c | c in part ensures |c| < U32_LIMIT {
      var i :| 0 <= i < |part| && part[i] == c;
      assert (log + part + rest)[|log| + i] == c;
      assert (before + chunks)[|log| + i] == chunks[|log| + i - |before|];
    }
    assert |part| <= |chunks|;
  }

  lemma CutAdded(cuts: seq<nat>, length: nat)
    requires cuts != [] && Increasing(cuts) && cuts[|cuts| - 1] < length
    ensures Increasing(cuts + [length])
    ensures (cuts + [length])[..|cuts|] == cuts[..|cuts| - 1] + [cuts[|cuts| - 1]]
  {
  }

  /** One more segment at the end of the log. */
  lemma SegmentAdded(rows: SegmentRows, log: Chunks, cuts: seq<nat>, value: Bytes, chunks: Chunks)
    requires SegmentsHold(rows, log, cuts) && chunks != [] && Packs(value, SizeOf(chunks), chunks)
    ensures
      var after := SegmentRows(rows.values[|log| := value], rows.sizes[|log| := SizeOf(chunks)]);
      SegmentsHold(after, log + chunks, cuts + [|log| + |chunks|])
  {
    var after := SegmentRows(rows.values[|log| := value], rows.sizes[|log| := SizeOf(chunks)]);
    var more, longer := cuts + [|log| + |chunks|], log + chunks;
    CutAdded(cuts, |log| + |chunks|);
    SegmentKeysAdded(rows, log, cuts, value, chunks);
    forall j | 0 <= j < |more| - 1 ensures SegmentHolds(after, longer, more, j) {
      if j < |cuts| - 1 { EarlierHolds(rows, log, cuts, value, chunks, j); }
      else { LastHolds(rows, log, cuts, value, chunks); }
    }
  }

  lemma SegmentKeysAdded(rows: SegmentRows, log: Chunks, cuts: seq<nat>, value: Bytes, chunks: Chunks)
    requires SegmentsHold(rows, log, cuts)
    ensures
      var starts := cuts[..|cuts| - 1] + [|log|];
      && rows.values[|log| := value].Keys == Elements(starts)
      && rows.sizes[|log| := SizeOf(chunks)].Keys == Elements(starts)
  {
    KeysAdded(rows.values.Keys, cuts[..|cuts| - 1], |log|);
    KeysAdded(rows.sizes.Keys, cuts[..|cuts| - 1], |log|);
  }

  lemma LastHolds(rows: SegmentRows, log: Chunks, cuts: seq<nat>, value: Bytes, chunks: Chunks)
    requires |cuts| > 0 && cuts[|cuts| - 1] == |log| && chunks != [] && Packs(value, SizeOf(chunks), chunks)
    ensures
      var after := SegmentRows(rows.values[|log| := value], rows.sizes[|log| := SizeOf(chunks)]);
      SegmentHolds(after, log + chunks, cuts + [|log| + |chunks|], |cuts| - 1)
  {
    assert (log + chunks)[|log|..|log| + |chunks|] == chunks;
  }

  lemma KeysAdded(keys: set<nat>, starts: seq<nat>, start: nat)
    requires keys == Elements(starts)
    ensures keys + {start} == Elements(starts + [start])
  {
    assert (starts + [start])[|starts|] == start;
    forall k | k in keys ensures k in starts + [start] {
      var j :| 0 <= j < |starts| && starts[j] == k;
      assert (starts + [start])[j] == k;
    }
  }

  lemma EarlierHolds(rows: SegmentRows, log: Chunks, cuts: seq<nat>, value: Bytes, chunks: Chunks, j: nat)
    requires SegmentsHold(rows, log, cuts) && j + 1 < |cuts|
    ensures
      var after := SegmentRows(rows.values[|log| := value], rows.sizes[|log| := SizeOf(chunks)]);
      SegmentHolds(after, log + chunks, cuts + [|log| + |chunks|], j)
  {
    assert SegmentHolds(rows, log, cuts, j);
    var more := cuts + [|log| + |chunks|];
    assert more[j] == cuts[j] && more[j + 1] == cuts[j + 1];
    assert (log + chunks)[cuts[j]..cuts[j + 1]] == log[cuts[j]..cuts[j + 1]];
  }
}
