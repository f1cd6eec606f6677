/** The client loops over a stream cell: batched writes and the pull loop of a reader
    (src/streamer.ts). */
module Streamer {
  import opened Prelude
  import opened StreamBytes
  import opened StreamCodec
  import opened StreamRows
  import opened StreamCell

  const MAX_STREAM_WRITE_CHUNKS: nat := 32

  /** The workers behind the i-th request: the chunks they accept, and what they advertise back.
      Every worker accepts at least the baseline. */
  datatype Worker = Worker(accepts: nat, advertises: nat)

  type Fleet = seq<Worker>

  predicate Baseline(w: Worker) { w.accepts >= MAX_STREAM_WRITE_CHUNKS && w.advertises >= 1 }

  /** Requests beyond the known ones meet a baseline worker. */
  function WorkerOf(fleet: Fleet, request: nat): (w: Worker)
    requires forall v :: v in fleet ==> Baseline(v)
    ensures Baseline(w)
  {
    if request < |fleet| then fleet[request] else Worker(MAX_STREAM_WRITE_CHUNKS, MAX_STREAM_WRITE_CHUNKS)
  }

  /** The next batch: within the chunk limit and the byte limit, and as long as both allow. */
  method NextBatch(chunks: Chunks, next: nat, chunkLimit: nat) returns (end: nat)
    requires next < |chunks| && SmallChunks(chunks) && chunkLimit >= 1
    ensures next < end <= |chunks| && end - next <= chunkLimit && Total(chunks[next..end]) <= MAX_STREAM_BATCH_BYTES
    ensures end < |chunks| && end - next < chunkLimit ==> Total(chunks[next..end + 1]) > MAX_STREAM_BATCH_BYTES
  {
    end := next;
    var batchBytes := 0;
    assert chunks[next..next] == [];
    while end < |chunks| && end - next < chunkLimit &&
        (end == next || batchBytes + |chunks[end]| <= MAX_STREAM_BATCH_BYTES)
      invariant next <= end <= |chunks| && end - next <= chunkLimit
      invariant batchBytes == Total(chunks[next..end]) <= MAX_STREAM_BATCH_BYTES
      invariant end == next ==> batchBytes == 0
    {
      ReadOneMore(chunks, next, end - next);
      assert next + (end - next) == end;
      batchBytes := batchBytes + |chunks[end]|;
      end := end + 1;
    }
    if end < |chunks| { ReadOneMore(chunks, next, end - next); }
  }

  /** The stream takes writes of this run. */
  predicate Takes(cell: StreamCell, run: RunId)
    reads cell
  {
    !cell.Foreign(run) && cell.meta.state.Open?
  }

  lemma PartIsSmall(chunks: Chunks, next: nat, end: nat)
    requires next <= end <= |chunks| && SmallChunks(chunks)
    ensures SmallChunks(chunks[next..end])
  {
    forall c | c in chunks[next..end] ensures |c| <= MAX_STREAM_CHUNK_BYTES {
      var i :| 0 <= i < end - next && chunks[next..end][i] == c;
      assert chunks[next + i] == c;
    }
  }

  method SendBatch(cell: StreamCell, run: RunId, chunks: Chunks, next: nat, end: nat) returns (ok: bool)
    requires cell.Valid() && next < end <= |chunks| && SmallChunks(chunks)
    requires end - next <= NEGOTIATED_STREAM_CHUNKS && Total(chunks[next..end]) <= MAX_STREAM_BATCH_BYTES
    modifies cell
    ensures cell.Valid()
    ensures ok <==> old(Takes(cell, run)) && old(|cell.log|) + end - next <= MAX_STREAM_INDEX
    ensures ok ==> Takes(cell, run) && cell.log == old(cell.log) + chunks[next..end]
    ensures !ok ==> cell.log == old(cell.log)
  {
    PartIsSmall(chunks, next, end);
    var reply := cell.WriteChunks(run, chunks[next..end]);
    ok := reply.Written?;
  }

  /** Write chunks in batches. An older worker refuses an oversized batch before writing
      anything, and the batch is cut smaller. */
  method WriteChunksToStream(cell: StreamCell, run: RunId, chunks: Chunks, advertised: nat, fleet: Fleet)
    returns (ok: bool, ghost written: nat)
    requires cell.Valid() && 1 <= advertised <= NEGOTIATED_STREAM_CHUNKS
    requires forall w :: w in fleet ==> Baseline(w)
    modifies cell
    ensures cell.Valid() && written <= |chunks|
    // Whatever was written is a prefix of the input, once and in order.
    ensures cell.log == old(cell.log) + chunks[..written] && (ok <==> written == |chunks|)
    ensures chunks == [] ==> ok
    ensures chunks != [] ==>
              (ok <==> SmallChunks(chunks) && old(Takes(cell, run)) && old(|cell.log|) + |chunks| <= MAX_STREAM_INDEX)
  {
    assert chunks[..0] == [];
    if |chunks| == 0 { return true, 0; }
    var small := AllSmall(chunks);
    if !small { return false, 0; }
    ok, written := SendAll(cell, run, chunks, advertised, fleet);
    if ok { assert chunks[..written] == chunks; }
  }

  function Upto(before: Chunks, chunks: Chunks, next: nat): Option<Chunks> {
    if next <= |chunks| then Some(before + chunks[..next]) else None
  }

  /** The log grew by exactly the first `next` chunks. */
  predicate Sent(log: Chunks, before: Chunks, chunks: Chunks, next: nat) {
    match Upto(before, chunks, next)
    case None => false
    case Some(all) => log == all
  }

  lemma SentMore(log: Chunks, before: Chunks, chunks: Chunks, next: nat, end: nat)
    requires Sent(log, before, chunks, next) && next <= end <= |chunks|
    ensures Sent(log + chunks[next..end], before, chunks, end) && |log| == |before| + next
  {
    assert before + chunks[..next] + chunks[next..end] == before + chunks[..end];
  }

  lemma SentIs(log: Chunks, before: Chunks, chunks: Chunks, next: nat)
    ensures Sent(log, before, chunks, next) <==> next <= |chunks| && log == before + chunks[..next]
    ensures Sent(before, before, chunks, 0)
  {
    assert before + chunks[..0] == before;
  }

  method SendAll(cell: StreamCell, run: RunId, chunks: Chunks, advertised: nat, fleet: Fleet)
    returns (ok: bool, ghost written: nat)
    requires cell.Valid() && 1 <= advertised <= NEGOTIATED_STREAM_CHUNKS && SmallChunks(chunks) && chunks != []
    requires forall w :: w in fleet ==> Baseline(w)
    modifies cell
    ensures cell.Valid() && written <= |chunks| && cell.log == old(cell.log) + chunks[..written]
    ensures ok <==> written == |chunks|
    ensures ok <==> old(Takes(cell, run)) && old(|cell.log|) + |chunks| <= MAX_STREAM_INDEX
  {
    var next, limit, request := 0, advertised, 0;
    ghost var before := cell.log;
    written := 0;
    SentIs(before, before, chunks, 0);
    while next < |chunks|
      invariant 0 <= next <= |chunks| && 1 <= limit <= NEGOTIATED_STREAM_CHUNKS
      invariant cell.Valid() && Sent(cell.log, before, chunks, next)
      invariant Takes(cell, run) == old(Takes(cell, run)) &&
                (next > 0 ==> Takes(cell, run) && |cell.log| <= MAX_STREAM_INDEX)
      decreases |chunks| - next, limit
    {
      var end := NextBatch(chunks, next, limit);
      var worker := WorkerOf(fleet, request);
      request := request + 1;
      if end - next > worker.accepts {
        // Only a batch above the baseline can be refused for its size.
        limit := MAX_STREAM_WRITE_CHUNKS;
        continue;
      }
      SentIs(cell.log, before, chunks, next);
      SentMore(cell.log, before, chunks, next, end);
      var sent := SendBatch(cell, run, chunks, next, end);
      if !sent { return false, next; }
      limit := Min(worker.advertises, NEGOTIATED_STREAM_CHUNKS);
      next := end;
    }
    SentIs(cell.log, before, chunks, next);
    return true, |chunks|;
  }

  method AllSmall(chunks: Chunks) returns (small: bool)
    ensures small == SmallChunks(chunks)
  {
    for i := 0 to |chunks|
      invariant forall k :: 0 <= k < i ==> |chunks[k]| <= MAX_STREAM_CHUNK_BYTES
    {
      if |chunks[i]| > MAX_STREAM_CHUNK_BYTES { return false; }
    }
    return true;
  }

  /** The log from `start` up to `next`; a reader ahead of the log has read nothing. */
  function Stretch(log: Chunks, start: nat, next: nat): Option<Chunks> {
    if start <= next <= |log| then Some(log[start..next]) else if next == start then Some([]) else None
  }

  /** The reader has exactly the chunks from its start index up to `next`. */
  predicate HasRead(log: Chunks, start: nat, next: nat, data: Chunks) {
    match Stretch(log, start, next)
    case None => false
    case Some(part) => data == part
  }

  /** Everything from `start` on. */
  function Rest(log: Chunks, start: nat): Chunks { if start <= |log| then log[start..] else [] }

  /** What a pull at `next` may bring. */
  predicate Pulled(log: Chunks, next: nat, chunks: Chunks) {
    match Stretch(log, next, next + |chunks|)
    case None => false
    case Some(part) => chunks == part && (chunks == [] <==> next >= |log|)
  }

  lemma ReadOn(log: Chunks, start: nat, next: nat, data: Chunks, chunks: Chunks)
    requires HasRead(log, start, next, data) && Pulled(log, next, chunks)
    ensures HasRead(log, start, next + |chunks|, data + chunks)
  {
    if start <= next && next + |chunks| <= |log| {
      assert log[start..next] + log[next..next + |chunks|] == log[start..next + |chunks|];
    }
    if chunks == [] { assert data + chunks == data; }
  }

  /** What was read stays the log's beginning when the log grows. */
  lemma ReadStays(before: Chunks, log: Chunks, start: nat, next: nat, data: Chunks)
    requires before <= log && HasRead(before, start, next, data)
    ensures HasRead(log, start, next, data)
  {
  }

  lemma ReadEnds(log: Chunks, start: nat, next: nat, data: Chunks)
    requires HasRead(log, start, next, data) && next >= |log|
    ensures data == Rest(log, start)
  {
  }

  lemma NothingRead(log: Chunks, start: nat)
    ensures HasRead(log, start, start, [])
  {
  }

  /** One pull: what a reader at `nextIndex` enqueues, or that the stream ended. */
  method Pull(cell: StreamCell, run: RunId, nextIndex: nat, chunkLimit: nat) returns (chunks: Chunks, closed: bool)
    requires cell.Valid() && !cell.Foreign(run) && 1 <= chunkLimit && !cell.meta.state.Expired?
    ensures Pulled(cell.log, nextIndex, chunks)
    ensures closed <==> chunks == [] && cell.meta.state.Closed?
  {
    var result := cell.ReadSnapshot(run, nextIndex, chunkLimit, MAX_STREAM_READ_BYTES, false);
    chunks := result.value.chunks;
    closed := |chunks| == 0 && result.value.state.Closed?;
  }

  /** Read on from `next` until a pull finds the closed stream's end. */
  method Drain(cell: StreamCell, run: RunId, startIndex: nat, next: nat, read: Chunks, chunkLimit: nat)
    returns (data: Chunks)
    requires cell.Valid() && !cell.Foreign(run) && cell.meta.state.Closed? && 1 <= chunkLimit
    requires HasRead(cell.log, startIndex, next, read)
    ensures data == Rest(cell.log, startIndex)
  {
    var nextIndex: nat, closed := next, false;
    data := read;
    while !closed
      invariant HasRead(cell.log, startIndex, nextIndex, data) && (closed ==> nextIndex >= |cell.log|)
      decreases !closed, |cell.log| - nextIndex
    {
      var chunks;
      chunks, closed := Pull(cell, run, nextIndex, chunkLimit);
      ReadOn(cell.log, startIndex, nextIndex, data, chunks);
      data, nextIndex := data + chunks, nextIndex + |chunks|;
    }
    ReadEnds(cell.log, startIndex, nextIndex, data);
  }

  method TryWrite(cell: StreamCell, run: RunId, batch: Chunks)
    requires cell.Valid() && Takes(cell, run)
    modifies cell
    ensures cell.Valid() && Takes(cell, run) && cell.log == Appended(old(cell.log), batch)
  {
    var reply := cell.WriteChunks(run, batch);
  }

  /** The log after one batch, and after several: each is appended whole if it is valid and has room. */
  function Appended(log: Chunks, batch: Chunks): Chunks {
    if ValidBatch(batch) && |log| + |batch| <= MAX_STREAM_INDEX then log + batch else log
  }

  function AppendedAll(log: Chunks, batches: seq<Chunks>): (r: Chunks)
    ensures log <= r
  {
    if batches == [] then log else Appended(AppendedAll(log, batches[..|batches| - 1]), batches[|batches| - 1])
  }

  function AppendedEach(log: Chunks, writes: seq<seq<Chunks>>): (r: Chunks)
    ensures log <= r
  {
    if writes == [] then log else AppendedAll(AppendedEach(log, writes[..|writes| - 1]), writes[|writes| - 1])
  }

  /** The writer appends any number of batches, each taken or refused, before the reader pulls once. */
  method WriteThenPull(cell: StreamCell, run: RunId, batches: seq<Chunks>, startIndex: nat, nextIndex: nat,
                       read: Chunks, chunkLimit: nat)
    returns (data: Chunks, next: nat)
    requires cell.Valid() && Takes(cell, run) && 1 <= chunkLimit && HasRead(cell.log, startIndex, nextIndex, read)
    modifies cell
    ensures cell.Valid() && Takes(cell, run) && cell.log == AppendedAll(old(cell.log), batches)
    ensures HasRead(cell.log, startIndex, next, data)
  {
    ghost var before := cell.log;
    for i := 0 to |batches|
      invariant cell.Valid() && Takes(cell, run) && cell.log == AppendedAll(before, batches[..i])
    {
      TryWrite(cell, run, batches[i]);
      assert batches[..i + 1][..i] == batches[..i];
    }
    assert batches[..|batches|] == batches;
    ReadStays(before, cell.log, startIndex, nextIndex, read);
    var chunks, closed := Pull(cell, run, nextIndex, chunkLimit);
    ReadOn(cell.log, startIndex, nextIndex, read, chunks);
    data, next := read + chunks, nextIndex + |chunks|;
  }

  /** A negative start index counts back from the tail that the reader finds. */
  function StartOf(startIndex: int, length: nat): nat {
    if startIndex < 0 then Max(0, length + startIndex) else startIndex
  }

  /** A reader that pulls while a writer appends between its pulls, and then closes, receives the log
      from its start index: every chunk once, in order. `writes[i]` is written before the i-th pull. */
  method ReadFromStream(cell: StreamCell, run: RunId, startIndex: int, writes: seq<seq<Chunks>>, chunkLimit: nat)
    returns (data: Chunks)
    requires cell.Valid() && Takes(cell, run) && 1 <= chunkLimit
    modifies cell
    ensures cell.Valid() && cell.log == AppendedEach(old(cell.log), writes) && cell.meta.state.Closed?
    ensures data == Rest(cell.log, StartOf(startIndex, old(|cell.log|)))
  {
    data := [];
    var start := StartOf(startIndex, cell.meta.count);
    var nextIndex, i := start, 0;
    NothingRead(cell.log, start);
    while i < |writes|
      invariant 0 <= i <= |writes| && cell.Valid() && Takes(cell, run)
      invariant cell.log == AppendedEach(old(cell.log), writes[..i])
      invariant HasRead(cell.log, start, nextIndex, data)
    {
      assert writes[..i + 1][..i] == writes[..i];
      data, nextIndex := WriteThenPull(cell, run, writes[i], start, nextIndex, data, chunkLimit);
      i := i + 1;
    }
    assert writes[..|writes|] == writes;
    var closing := cell.Close(run);
    data := Drain(cell, run, start, nextIndex, data, chunkLimit);
  }
}
