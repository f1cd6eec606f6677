/** The two row layouts of a stream and their bounded reads
    (src/worker/durable-objects/StreamDO.ts, readChunkRows, readSegmentRows). */
module StreamRows {
  import opened Prelude
  import opened OrderedKeys
  import opened StreamBytes
  import opened StreamSegments
  import opened StreamCodec

  /** One payload row and one size row per chunk. */
  datatype ChunkRows = ChunkRows(payloads: map<nat, Bytes>, sizes: map<nat, nat>)

  /** Segment rows keyed by their first index, with a small size row each. */
  datatype SegmentRows = SegmentRows(values: map<nat, Bytes>, sizes: map<nat, SegmentSize>)

  const NO_CHUNK_ROWS := ChunkRows(map[], map[])
  const NO_SEGMENT_ROWS := SegmentRows(map[], map[])

  /** The rows hold the log from index `gone` on. */
  ghost predicate ChunksHold(rows: ChunkRows, log: Chunks, gone: nat) {
    match rows case ChunkRows(payloads, sizes) =>
      && gone <= |log|
      && (forall i :: i in payloads <==> gone <= i < |log|)
      && (forall i :: i in sizes <==> gone <= i < |log|)
      && (forall i :: gone <= i < |log| ==> payloads[i] == log[i])
      && (forall i :: gone <= i < |log| ==> sizes[i] == |log[i]|)
  }

  /** The j-th segment holds the chunks up to the next cut. */
  ghost predicate SegmentHolds(rows: SegmentRows, log: Chunks, cuts: seq<nat>, j: nat) {
    && j + 1 < |cuts| && cuts[j] < cuts[j + 1] <= |log| && cuts[j] in rows.values && cuts[j] in rows.sizes
    && Packs(rows.values[cuts[j]], rows.sizes[cuts[j]], log[cuts[j]..cuts[j + 1]])
  }

  /** The rows hold the log from `cuts[0]` on, one segment between two cuts. */
  ghost predicate SegmentsHold(rows: SegmentRows, log: Chunks, cuts: seq<nat>) {
    match rows case SegmentRows(values, sizes) =>
      && |cuts| > 0 && Increasing(cuts) && cuts[|cuts| - 1] == |log|
      && values.Keys == Elements(cuts[..|cuts| - 1]) && sizes.Keys == Elements(cuts[..|cuts| - 1])
      && forall j :: 0 <= j < |cuts| - 1 ==> SegmentHolds(rows, log, cuts, j)
  }

  /** A stretch of the log. */
  datatype Span = Span(start: nat, stop: nat)

  /** The stretch is a read within both limits, and not nothing. */
  ghost predicate ReadsTo(log: Chunks, span: Span, available: nat, maxBytes: nat) {
    match span case Span(start, stop) =>
    && start <= stop <= |log| && stop <= start + available
    && Total(log[start..stop]) <= maxBytes
    && (available > 0 ==> start < stop)
  }

  /** What every read must answer. */
  ghost predicate ReadsFrom(log: Chunks, start: nat, available: nat, maxBytes: nat, chunks: Chunks) {
    match Span(start, start + |chunks|)
    case Span(_, stop) => ReadsTo(log, Span(start, stop), available, maxBytes) && chunks == log[start..stop]
  }

  function TotalBetween(log: Chunks, start: nat, stop: nat): Option<nat> {
    if start <= stop <= |log| then Some(Total(log[start..stop])) else None
  }

  /** A read that stops where it should: it has all that is available, or the next chunk does not fit. */
  ghost predicate Full(log: Chunks, start: nat, stop: nat, available: nat, maxBytes: nat) {
    match TotalBetween(log, start, stop)
    case None => false
    case Some(bytes) => stop == start + available || (stop < |log| && bytes + |log[stop]| > maxBytes)
  }

  /** A whole read: within the limits, and stopped where it should. */
  ghost predicate WholeRead(log: Chunks, start: nat, available: nat, maxBytes: nat, chunks: Chunks) {
    match TotalBetween(log, start, start + |chunks|)
    case None => false
    case Some(_) =>
      ReadsFrom(log, start, available, maxBytes, chunks) && Full(log, start, start + |chunks|, available, maxBytes)
  }

  /** What an answered read is. */
  lemma ReadMeans(log: Chunks, start: nat, available: nat, maxBytes: nat, chunks: Chunks)
    requires ReadsFrom(log, start, available, maxBytes, chunks) && available > 0
    ensures chunks != [] && |chunks| <= available && start + |chunks| <= |log| && Total(chunks) <= maxBytes
    ensures chunks == log[start..start + |chunks|]
  {
  }

  lemma ReadsFromTo(log: Chunks, start: nat, stop: nat, available: nat, maxBytes: nat, chunks: Chunks)
    requires ReadsTo(log, Span(start, stop), available, maxBytes) && chunks == log[start..stop]
    ensures ReadsFrom(log, start, available, maxBytes, chunks)
  {
    assert start + |chunks| == stop;
  }

  /** What a read is asked for when the stream is not expired: an available part of the log,
      and a budget no single chunk exceeds. */
  ghost predicate Askable(log: Chunks, start: nat, available: nat, maxBytes: nat) {
    start + available <= |log| && SmallChunks(log) && maxBytes >= MAX_STREAM_CHUNK_BYTES
  }

  lemma ReadOneMore(log: Chunks, start: nat, n: nat)
    requires start + n < |log|
    ensures log[start..start + n] + [log[start + n]] == log[start..start + n + 1]
    ensures Total(log[start..start + n + 1]) == Total(log[start..start + n]) + |log[start + n]|
  {
    assert log[start..start + n + 1] == log[start..start + n] + [log[start + n]];
    TotalSnoc(log[start..start + n], log[start + n]);
  }

  // ---- one row per chunk --------------------------------------------------------------

  ghost predicate SizesTrue(sizes: map<nat, nat>, log: Chunks, start: nat, available: nat) {
    && start + available <= |log| && SmallChunks(log)
    && forall i :: start <= i < start + available ==> i in sizes && sizes[i] == |log[i]|
  }

  /** `n` is the most chunks from `start` on that fit the budget. */
  ghost predicate Longest(log: Chunks, start: nat, available: nat, maxBytes: nat, n: nat) {
    && n <= available && start + available <= |log|
    && Total(log[start..start + n]) <= maxBytes
    && (n < available ==> Total(log[start..start + n + 1]) > maxBytes)
  }

  /** The indexes whose sizes fit the budget together. */
  method PlanChunks(sizes: map<nat, nat>, start: nat, available: nat, maxBytes: nat, ghost log: Chunks)
    returns (selected: Option<nat>)
    ensures SizesTrue(sizes, log, start, available) ==>
              selected.Some? && Longest(log, start, available, maxBytes, selected.value)
    ensures selected.Some? ==> selected.value <= available
  {
    ghost var intact := SizesTrue(sizes, log, start, available);
    var count, bytes := 0, 0;
    assert intact ==> log[start..start] == [];
    while count < available
      invariant 0 <= count <= available
      invariant intact ==> bytes == Total(log[start..start + count]) <= maxBytes
    {
      var index := start + count;
      if index !in sizes || sizes[index] > MAX_STREAM_CHUNK_BYTES { return None; }
      if intact { ReadOneMore(log, start, count); }
      if bytes + sizes[index] > maxBytes { return Some(count); }
      count := count + 1;
      bytes := bytes + sizes[index];
    }
    return Some(count);
  }

  /** Read the planned payload rows, checking each against its size row. */
  method ReadChunkRows(rows: ChunkRows, start: nat, available: nat, maxBytes: nat, ghost log: Chunks)
    returns (chunks: Option<Chunks>)
    ensures ChunksHold(rows, log, 0) && Askable(log, start, available, maxBytes) ==>
              chunks.Some? && WholeRead(log, start, available, maxBytes, chunks.value)
  {
    ghost var intact := ChunksHold(rows, log, 0) && Askable(log, start, available, maxBytes);
    if intact { HeldSizes(rows, log, start, available, maxBytes); }
    var selected := PlanChunks(rows.sizes, start, available, maxBytes, log);
    if selected.None? { return None; }
    chunks := LoadChunks(rows, start, selected.value, log);
    if intact { LongestIsRead(log, start, available, maxBytes, selected.value); }
  }

  lemma HeldSizes(rows: ChunkRows, log: Chunks, start: nat, available: nat, maxBytes: nat)
    requires ChunksHold(rows, log, 0) && Askable(log, start, available, maxBytes)
    ensures SizesTrue(rows.sizes, log, start, available)
  {
  }

  lemma LongestIsRead(log: Chunks, start: nat, available: nat, maxBytes: nat, n: nat)
    requires Askable(log, start, available, maxBytes) && Longest(log, start, available, maxBytes, n)
    ensures WholeRead(log, start, available, maxBytes, log[start..start + n])
  {
    if available > 0 { SingleFits(log, start); }
    if n < available { ReadOneMore(log, start, n); }
    assert |log[start..start + n]| == n;
  }

  method LoadChunks(rows: ChunkRows, start: nat, count: nat, ghost log: Chunks) returns (chunks: Option<Chunks>)
    ensures ChunksHold(rows, log, 0) && start + count <= |log| ==> chunks == Some(log[start..start + count])
  {
    ghost var intact := ChunksHold(rows, log, 0) && start + count <= |log|;
    var read: Chunks, offset := [], 0;
    while offset < count
      invariant 0 <= offset <= count
      invariant intact ==> read == log[start..start + offset]
    {
      var index := start + offset;
      if index !in rows.payloads || index !in rows.sizes || |rows.payloads[index]| != rows.sizes[index] { return None; }
      if intact { ReadOneMore(log, start, offset); }
      read := read + [rows.payloads[index]];
      offset := offset + 1;
    }
    return Some(read);
  }

  /** A budget of at least one chunk lets the first chunk through. */
  lemma SingleFits(log: Chunks, start: nat)
    requires start < |log| && SmallChunks(log)
    ensures Total(log[start..start + 1]) <= MAX_STREAM_CHUNK_BYTES
  {
    assert log[start..start] == [];
    ReadOneMore(log, start, 0);
  }

  // ---- segment rows ----------------------------------------------------------------------

  /** What planning needs of intact rows: the size rows tile `[cuts[0], last)`. */
  ghost predicate Tiles(rows: SegmentRows, cuts: seq<nat>, last: nat) {
    match rows case SegmentRows(_, sizes) =>
      && |cuts| > 0 && Increasing(cuts) && cuts[|cuts| - 1] == last
      && sizes.Keys == Elements(cuts[..|cuts| - 1])
      && forall j :: 0 <= j < |cuts| - 1 ==> TileAt(sizes, cuts, j)
  }

  ghost predicate TileAt(sizes: map<nat, SegmentSize>, cuts: seq<nat>, j: nat) {
    j + 1 < |cuts| && cuts[j] in sizes && cuts[j] + sizes[cuts[j]].count == cuts[j + 1]
  }

  lemma HeldIsTiled(rows: SegmentRows, log: Chunks, cuts: seq<nat>)
    requires SegmentsHold(rows, log, cuts)
    ensures Tiles(rows, cuts, |log|)
  {
    forall j | 0 <= j < |cuts| - 1 ensures TileAt(rows.sizes, cuts, j) { assert SegmentHolds(rows, log, cuts, j); }
  }

  datatype Planned = Planned(start: nat, size: SegmentSize)

  ghost predicate PlannedAt(planned: seq<Planned>, sizes: map<nat, SegmentSize>, cuts: seq<nat>, a: nat, i: nat) {
    && i < |planned| && a + i < |cuts| && cuts[a + i] in sizes
    && planned[i] == Planned(cuts[a + i], sizes[cuts[a + i]])
  }

  /** The segments that cover `[start, end)`: those between the cuts `a` and `a + |planned|`. */
  ghost predicate Covers(planned: seq<Planned>, rows: SegmentRows, cuts: seq<nat>, a: nat, start: nat, end: nat) {
    match rows case SegmentRows(_, sizes) =>
      && 0 < |planned| && a + |planned| < |cuts|
      && (forall i :: 0 <= i < |planned| ==> PlannedAt(planned, sizes, cuts, a, i))
      && cuts[a] <= start < cuts[a + 1] && end <= cuts[a + |planned|]
  }

  /** The index of the first element not below `x`. */
  function FirstAtLeast(s: seq<nat>, x: nat): (i: nat)
    ensures i <= |s| && (i < |s| ==> s[i] >= x) && forall j :: 0 <= j < i ==> s[j] < x
  {
    if s == [] || s[0] >= x then 0
    else
      var rest := FirstAtLeast(s[1..], x);
      assert forall j :: 0 <= j < rest ==> s[1..][j] < x;
      rest + 1
  }

  lemma {:induction false} IncreasingSpan(s: seq<nat>, low: nat, high: nat)
    requires Increasing(s) && low <= high && forall i :: 0 <= i < |s| ==> low <= s[i] < high
    ensures |s| <= high - low
    decreases |s|
  {
    if s != [] {
      assert forall i :: 0 <= i < |s| - 1 ==> s[i] < s[|s| - 1];
      IncreasingSpan(s[..|s| - 1], low, s[|s| - 1]);
    }
  }

  /** The keys of the rows a range listing looks at. */
  function Within(keys: set<nat>, start: nat, end: nat): set<nat> { set k | k in keys && start <= k < end }

  /** The segment starts inside `[start, end)` are the cuts from the first not below `start`
      to the first not below `end`. */
  lemma CutsInRange(cuts: seq<nat>, keys: set<nat>, start: nat, end: nat) returns (a: nat, b: nat)
    requires |cuts| > 0 && Increasing(cuts) && keys == Elements(cuts[..|cuts| - 1]) && start <= end <= cuts[|cuts| - 1]
    ensures a <= b < |cuts| && Within(keys, start, end) == Elements(cuts[a..b])
    ensures Increasing(cuts[a..b]) && |cuts[a..b]| <= end - start
    ensures start <= cuts[a] && (a > 0 ==> cuts[a - 1] < start) && end <= cuts[b]
  {
    a, b := FirstAtLeast(cuts, start), FirstAtLeast(cuts, end);
    forall k | k in keys && start <= k < end ensures k in cuts[a..b] { KeyIsCut(cuts, a, b, start, end, k); }
    forall k | k in cuts[a..b] ensures k in keys && start <= k < end { CutIsKey(cuts, a, b, k); }
    IncreasingSpan(cuts[a..b], start, end);
  }

  lemma KeyIsCut(cuts: seq<nat>, a: nat, b: nat, start: nat, end: nat, k: nat)
    requires |cuts| > 0 && k in cuts[..|cuts| - 1] && start <= k < end
    requires a <= b < |cuts| && end <= cuts[b] && Increasing(cuts)
    requires forall j :: 0 <= j < a ==> cuts[j] < start
    ensures k in cuts[a..b]
  {
    var j :| 0 <= j < |cuts| - 1 && cuts[..|cuts| - 1][j] == k;
    assert cuts[j] == k && a <= j < b;
    assert cuts[a..b][j - a] == cuts[j];
  }

  lemma CutIsKey(cuts: seq<nat>, a: nat, b: nat, k: nat)
    requires a <= b < |cuts| && k in cuts[a..b] && Increasing(cuts)
    ensures k in cuts[..|cuts| - 1] && cuts[a] <= k && k <= cuts[b] && exists j :: a <= j < b && cuts[j] == k
  {
    var i :| 0 <= i < b - a && cuts[a..b][i] == k;
    assert cuts[a + i] == k && cuts[..|cuts| - 1][a + i] == k;
  }

  function Starts(planned: seq<Planned>): (starts: seq<nat>)
    ensures |starts| == |planned| && forall i :: 0 <= i < |planned| ==> starts[i] == planned[i].start
  {
    seq(|planned|, i requires 0 <= i < |planned| => planned[i].start)
  }

  /** The size rows of a range of starts, in order. */
  method ListSegments(sizes: map<nat, SegmentSize>, start: nat, end: nat, limit: nat) returns (planned: seq<Planned>)
    ensures Lists(Starts(planned), Within(sizes.Keys, start, end), limit)
    ensures forall i :: 0 <= i < |planned| ==> planned[i].start in sizes && planned[i].size == sizes[planned[i].start]
  {
    var listed := ListKeys(Within(sizes.Keys, start, end), limit);
    forall i | 0 <= i < |listed| ensures listed[i] in sizes {
      assert listed[i] in listed;
      assert listed[i] in Within(sizes.Keys, start, end);
    }
    planned := seq(|listed|, i requires 0 <= i < |listed| => Planned(listed[i], sizes[listed[i]]));
    assert forall i :: 0 <= i < |listed| ==> planned[i] == Planned(listed[i], sizes[listed[i]]);
    assert Starts(planned) == listed;
  }

  /** What the listing finds on an intact stream. */
  lemma ListedCuts(planned: seq<Planned>, rows: SegmentRows, last: nat, cuts: seq<nat>, start: nat, available: nat)
    returns (a: nat, b: nat)
    requires Tiles(rows, cuts, last) && start + available <= last
    requires Lists(Starts(planned), Within(rows.sizes.Keys, start, start + available), available)
    requires forall i :: 0 <= i < |planned| ==>
             planned[i].start in rows.sizes && planned[i].size == rows.sizes[planned[i].start]
    ensures FromCut(planned, rows, cuts, a, b)
    ensures start <= cuts[a] && (a > 0 ==> cuts[a - 1] < start) && start + available <= cuts[b]
  {
    var starts := Starts(planned);
    var keys, end := rows.sizes.Keys, start + available;
    a, b := CutsInRange(cuts, keys, start, end);
    ListedAll(starts, cuts[a..b], available);
    forall i | 0 <= i < |planned| ensures PlannedAt(planned, rows.sizes, cuts, a, i) {
      assert starts[i] == cuts[a..b][i];
    }
  }

  /** The listed segments are those from the cut `a` on. */
  ghost predicate FromCut(planned: seq<Planned>, rows: SegmentRows, cuts: seq<nat>, a: nat, b: nat) {
    && a <= b < |cuts| && |planned| == b - a
    && forall i :: 0 <= i < |planned| ==> PlannedAt(planned, rows.sizes, cuts, a, i)
  }

  lemma PlanOnBoundary(planned: seq<Planned>, rows: SegmentRows, last: nat, cuts: seq<nat>, a: nat, b: nat, start: nat,
                       end: nat)
    requires Tiles(rows, cuts, last) && FromCut(planned, rows, cuts, a, b) && |planned| > 0
    requires planned[0].start == start <= cuts[a] && start < end <= cuts[b]
    ensures Covers(planned, rows, cuts, a, start, end)
  {
    assert PlannedAt(planned, rows.sizes, cuts, a, 0);
  }

  lemma PlanInside(head: Planned, planned: seq<Planned>, rows: SegmentRows, last: nat, cuts: seq<nat>, a: nat, b: nat,
                   start: nat, end: nat)
    requires Tiles(rows, cuts, last) && FromCut(planned, rows, cuts, a, b) && 0 < a
    requires cuts[a - 1] < start < cuts[a] && start < end <= cuts[b]
    requires cuts[a - 1] in rows.sizes && head == Planned(cuts[a - 1], rows.sizes[cuts[a - 1]])
    ensures Covers([head] + planned, rows, cuts, a - 1, start, end)
  {
    var full, before := [head] + planned, a - 1;
    forall i | 0 <= i < |full| ensures PlannedAt(full, rows.sizes, cuts, before, i) {
      if i > 0 { assert PlannedAt(planned, rows.sizes, cuts, a, i - 1); }
    }
  }

  lemma StartsInside(listed: seq<Planned>, rows: SegmentRows, cuts: seq<nat>, a: nat, b: nat, start: nat, end: nat)
    requires FromCut(listed, rows, cuts, a, b) && Increasing(cuts) && cuts[0] <= start
    requires start <= cuts[a] && start < end <= cuts[b] && !(|listed| > 0 && listed[0].start == start)
    ensures a > 0 && start < cuts[a]
  {
    if a < b { assert PlannedAt(listed, rows.sizes, cuts, a, 0); }
  }

  /** A read that starts inside a segment also needs the segment that contains its start. */
  method AddContaining(rows: SegmentRows, listed: seq<Planned>, start: nat, available: nat, ghost last: nat,
                       ghost cuts: seq<nat>)
    returns (planned: Option<seq<Planned>>, ghost a: nat)
    requires Lists(Starts(listed), Within(rows.sizes.Keys, start, start + available), available)
    requires forall i :: 0 <= i < |listed| ==>
             listed[i].start in rows.sizes && listed[i].size == rows.sizes[listed[i].start]
    ensures Tiles(rows, cuts, last) && cuts[0] <= start && available > 0 && start + available <= last ==>
              planned.Some? && Covers(planned.value, rows, cuts, a, start, start + available)
  {
    ghost var intact := Tiles(rows, cuts, last) && cuts[0] <= start && available > 0 && start + available <= last;
    a := 0;
    ghost var b := 0;
    if intact { a, b := ListedCuts(listed, rows, last, cuts, start, available); }
    if |listed| > 0 && listed[0].start == start {
      if intact { PlanOnBoundary(listed, rows, last, cuts, a, b, start, start + available); }
      return Some(listed), a;
    }
    var containing := LastKey(Within(rows.sizes.Keys, 0, start + 1));
    if intact { PlanWithContaining(containing, listed, rows, last, cuts, a, b, start, start + available); }
    if containing.None? { return None, 0; }
    planned := Some([Planned(containing.value, rows.sizes[containing.value])] + listed);
    if intact { a := a - 1; }
  }

  lemma PlanWithContaining(containing: Option<nat>, listed: seq<Planned>, rows: SegmentRows, last: nat, cuts: seq<nat>,
                           a: nat, b: nat, start: nat, end: nat)
    requires Tiles(rows, cuts, last) && FromCut(listed, rows, cuts, a, b) && cuts[0] <= start
    requires start <= cuts[a] && (a > 0 ==> cuts[a - 1] < start) && start < end <= cuts[b]
    requires !(|listed| > 0 && listed[0].start == start)
    requires LastOf(containing, Within(rows.sizes.Keys, 0, start + 1))
    ensures a > 0 && containing.Some? && containing.value in rows.sizes
    ensures Covers([Planned(containing.value, rows.sizes[containing.value])] + listed, rows, cuts, a - 1, start, end)
  {
    StartsInside(listed, rows, cuts, a, b, start, end);
    ContainingCut(containing, rows, last, cuts, start, a);
    PlanInside(Planned(containing.value, rows.sizes[containing.value]), listed, rows, last, cuts, a, b, start, end);
  }

  method PlanSegments(rows: SegmentRows, start: nat, available: nat, ghost last: nat, ghost cuts: seq<nat>)
    returns (planned: Option<seq<Planned>>, ghost a: nat)
    ensures Tiles(rows, cuts, last) && cuts[0] <= start && available > 0 && start + available <= last ==>
              planned.Some? && Covers(planned.value, rows, cuts, a, start, start + available)
  {
    ghost var intact := Tiles(rows, cuts, last) && cuts[0] <= start && available > 0 && start + available <= last;
    var listed := ListSegments(rows.sizes, start, start + available, available);
    planned, a := AddContaining(rows, listed, start, available, last, cuts);
    if planned.None? { return; }
    if intact { CoveringIsContiguous(planned.value, rows, last, cuts, a, start, start + available, 0, start); }
    var covered := CheckCoverage(planned.value, start, start + available);
    if !covered { planned := None; }
  }

  /** The segment before the first listed one contains the start. */
  lemma ContainingCut(containing: Option<nat>, rows: SegmentRows, last: nat, cuts: seq<nat>, start: nat, a: nat)
    requires Tiles(rows, cuts, last) && 0 < a < |cuts| && cuts[a - 1] < start < cuts[a]
    requires LastOf(containing, Within(rows.sizes.Keys, 0, start + 1))
    ensures containing == Some(cuts[a - 1])
  {
    var below := Within(rows.sizes.Keys, 0, start + 1);
    assert cuts[..|cuts| - 1][a - 1] in rows.sizes.Keys;
    assert cuts[a - 1] in below;
    forall k | k in below ensures k <= cuts[a - 1] {
      assert k in rows.sizes.Keys;
      var j :| 0 <= j < |cuts| - 1 && cuts[j] == k;
      assert j < a;
    }
  }

  lemma {:induction false} CoveringIsContiguous(planned: seq<Planned>, rows: SegmentRows, last: nat, cuts: seq<nat>,
                                                a: nat, start: nat, end: nat, index: nat, covered: nat)
    requires Tiles(rows, cuts, last) && Covers(planned, rows, cuts, a, start, end) && index <= |planned|
    requires covered == if index == 0 then start else cuts[a + index]
    ensures ContiguousFrom(planned, index, covered, end)
    decreases |planned| - index
  {
    if index < |planned| {
      assert PlannedAt(planned, rows.sizes, cuts, a, index) && TileAt(rows.sizes, cuts, a + index);
      CoveringIsContiguous(planned, rows, last, cuts, a, start, end, index + 1, cuts[a + index + 1]);
    }
  }

  /** The durable tail promises every offset in the range; a missing or overlapping size row is corruption. */
  method CheckCoverage(planned: seq<Planned>, start: nat, end: nat) returns (ok: bool)
    ensures ok == Contiguous(planned, start, end)
  {
    var covered := start;
    for index := 0 to |planned|
      invariant covered >= 0 && Contiguous(planned, start, end) == ContiguousFrom(planned, index, covered, end)
    {
      var p := planned[index];
      if p.start > covered { return false; }
      if index > 0 && p.start != covered { return false; }
      if p.start + p.size.count <= covered { return false; }
      covered := p.start + p.size.count;
    }
    return covered >= end;
  }

  predicate ContiguousFrom(planned: seq<Planned>, index: nat, covered: nat, end: nat)
    requires index <= |planned|
    decreases |planned| - index
  {
    if index == |planned| then covered >= end
    else
      var p := planned[index];
      && p.start <= covered && (index > 0 ==> p.start == covered) && covered < p.start + p.size.count
      && ContiguousFrom(planned, index + 1, p.start + p.size.count, end)
  }

  predicate Contiguous(planned: seq<Planned>, start: nat, end: nat) { ContiguousFrom(planned, 0, start, end) }

  function PlannedBytes(planned: seq<Planned>): nat {
    if planned == [] then 0 else PlannedBytes(planned[..|planned| - 1]) + planned[|planned| - 1].size.bytes
  }

  /** A planned segment's size row tells its bytes. */
  lemma PieceBytes(rows: SegmentRows, log: Chunks, cuts: seq<nat>, planned: seq<Planned>, a: nat, i: nat)
    requires SegmentsHold(rows, log, cuts) && FromCut(planned, rows, cuts, a, a + |planned|) && i < |planned|
    ensures cuts[a + i] < cuts[a + i + 1] <= |log|
    ensures planned[i].size.bytes == Total(log[cuts[a + i]..cuts[a + i + 1]])
  {
    PlannedPacks(rows, log, cuts, planned, a, i);
  }

  /** The planned bytes are those of the log between the first cut and the last. */
  lemma {:induction false} PlannedBytesAreTotal(rows: SegmentRows, log: Chunks, cuts: seq<nat>, planned: seq<Planned>,
                                                a: nat, n: nat)
    requires SegmentsHold(rows, log, cuts) && FromCut(planned, rows, cuts, a, a + |planned|) && n <= |planned|
    ensures cuts[a] <= cuts[a + n] <= |log| && PlannedBytes(planned[..n]) == Total(log[cuts[a]..cuts[a + n]])
    decreases n
  {
    if n == 0 {
      assert log[cuts[a]..cuts[a]] == [];
    } else {
      PlannedBytesAreTotal(rows, log, cuts, planned, a, n - 1);
      PieceBytes(rows, log, cuts, planned, a, n - 1);
      assert planned[..n][..n - 1] == planned[..n - 1];
      TakenContinues(log, cuts[a], cuts[a + n - 1], cuts[a + n]);
    }
  }

  /** A read cut off at the end of a segment: from the segment that contains its start on, the budget is used up. */
  ghost predicate CutOff(log: Chunks, cuts: seq<nat>, start: nat, stop: nat, maxBytes: nat, i: nat, j: nat) {
    && i < j < |cuts| && cuts[i] <= start < cuts[i + 1] && cuts[j] == stop <= |log|
    && cuts[i] <= stop && Total(log[cuts[i]..stop]) >= maxBytes
  }

  ghost predicate CutShort(log: Chunks, cuts: seq<nat>, start: nat, stop: nat, maxBytes: nat) {
    exists i, j :: CutOff(log, cuts, start, stop, maxBytes, i, j)
  }

  /** Where a read over segments may stop. */
  ghost predicate Stops(log: Chunks, cuts: seq<nat>, start: nat, stop: nat, available: nat, maxBytes: nat) {
    Full(log, start, stop, available, maxBytes) || CutShort(log, cuts, start, stop, maxBytes)
  }

  /** What a read over segments must answer. */
  ghost predicate ReadsSegments(log: Chunks, cuts: seq<nat>, start: nat, available: nat, maxBytes: nat,
                                chunks: Chunks)
  {
    match TotalBetween(log, start, start + |chunks|)
    case None => false
    case Some(_) =>
      && ReadsFrom(log, start, available, maxBytes, chunks)
      && Stops(log, cuts, start, start + |chunks|, available, maxBytes)
  }

  /** Segments until the byte budget is reached; at least one. */
  method SelectSegments(planned: seq<Planned>, maxBytes: nat) returns (count: nat)
    ensures count <= |planned| && (planned != [] ==> count > 0)
    ensures count < |planned| ==> PlannedBytes(planned[..count]) >= maxBytes
  {
    var plannedBytes := 0;
    count := 0;
    while count < |planned|
      invariant 0 <= count <= |planned| && plannedBytes == PlannedBytes(planned[..count])
    {
      assert planned[..count + 1][..count] == planned[..count];
      if count > 0 && plannedBytes >= maxBytes { return; }
      plannedBytes := plannedBytes + planned[count].size.bytes;
      count := count + 1;
    }
  }

  /** A piece of a segment from `first` on; unless stopped, all the rest. */
  ghost predicate TakenOf(segment: Chunks, first: nat, room: nat, budget: nat, n: nat, stopped: bool) {
    && first + n <= |segment| && n <= room && Total(segment[first..first + n]) <= budget
    && (if stopped then
          n == room || (first + n < |segment| && Total(segment[first..first + n]) + |segment[first + n]| > budget)
        else first + n == |segment|)
    && (first < |segment| && room > 0 && |segment[first]| <= budget ==> n > 0)
  }

  /** Take chunks of one decoded segment while they fit the room and the budget. */
  method TakeChunks(segment: Chunks, first: nat, room: nat, budget: nat) returns (n: nat, bytes: nat, stopped: bool)
    requires first <= |segment|
    ensures TakenOf(segment, first, room, budget, n, stopped) && bytes == Total(segment[first..first + n])
  {
    n, bytes := 0, 0;
    assert segment[first..first] == [];
    while first + n < |segment|
      invariant first + n <= |segment| && n <= room
      invariant bytes == Total(segment[first..first + n]) <= budget
      invariant n == 0 ==> bytes == 0
    {
      if n >= room || bytes + |segment[first + n]| > budget { return n, bytes, true; }
      ReadOneMore(segment, first, n);
      bytes := bytes + |segment[first + n]|;
      n := n + 1;
    }
    return n, bytes, false;
  }

  /** How far a read is: at its start, or at the end of a segment. */
  ghost predicate ReadUpTo(log: Chunks, reached: Option<nat>, start: nat, at: nat, end: nat, maxBytes: nat) {
    match reached
    case None => start == at <= end <= |log|
    case Some(cut) => start < at == cut <= end <= |log| && Total(log[start..at]) <= maxBytes
  }

  function Reached(cuts: seq<nat>, a: nat, index: nat): Option<nat>
    requires a + index < |cuts|
  {
    if index == 0 then None else Some(cuts[a + index])
  }

  /** Chunks taken at the end of a read continue it. */
  lemma TakenContinues(log: Chunks, start: nat, at: nat, end: nat)
    requires start <= at <= end <= |log|
    ensures log[start..at] + log[at..end] == log[start..end]
    ensures Total(log[start..end]) == Total(log[start..at]) + Total(log[at..end])
  {
    assert log[start..at] + log[at..end] == log[start..end];
    TotalAppend(log[start..at], log[at..end]);
  }

  lemma SliceOfSlice(log: Chunks, from: nat, to: nat, low: nat, high: nat)
    requires from <= low <= high <= to <= |log|
    ensures log[from..to][low - from..high - from] == log[low..high]
  {
    var outer := log[from..to];
    var inner := outer[low - from..high - from];
    assert |inner| == high - low;
    forall i | 0 <= i < high - low ensures inner[i] == log[low..high][i] {
      assert inner[i] == outer[low - from + i] == log[low + i];
    }
  }

  /** The condition under which segment reads are complete. */
  ghost predicate SegmentsIntact(rows: SegmentRows, log: Chunks, cuts: seq<nat>, planned: seq<Planned>, a: nat,
                                 start: nat, end: nat, maxBytes: nat) {
    match rows case SegmentRows(_, _) =>
      && SegmentsHold(rows, log, cuts) && FromCut(planned, rows, cuts, a, a + |planned|) && planned != []
      && cuts[a] <= start < cuts[a + 1] && start < end <= |log| && SmallChunks(log) &&
          maxBytes >= MAX_STREAM_CHUNK_BYTES
  }

  /** The i-th planned segment decodes to its piece of the log. */
  lemma PlannedPacks(rows: SegmentRows, log: Chunks, cuts: seq<nat>, planned: seq<Planned>, a: nat, i: nat)
    requires SegmentsHold(rows, log, cuts) && FromCut(planned, rows, cuts, a, a + |planned|) && i < |planned|
    ensures planned[i].start == cuts[a + i] < cuts[a + i + 1] <= |log| && cuts[a + i] in rows.values
    ensures Packs(rows.values[cuts[a + i]], planned[i].size, log[cuts[a + i]..cuts[a + i + 1]])
  {
    assert PlannedAt(planned, rows.sizes, cuts, a, i);
    assert SegmentHolds(rows, log, cuts, a + i);
  }

  /** The same, said of the log itself: its chunks from `at` up to `next`, out of a segment that ends at `to`. */
  ghost predicate TakenAt(log: Chunks, taken: Span, to: nat, room: nat, budget: nat, stopped: bool) {
    match taken case Span(at, next) =>
    && at <= next <= to <= |log| && next - at <= room && Total(log[at..next]) <= budget
    && (if stopped then next - at == room || (next < to && Total(log[at..next]) + |log[next]| > budget) else next == to)
    && (at < to && room > 0 && |log[at]| <= budget ==> at < next)
  }

  /** One more segment, holding the log's chunks up to `to`. */
  lemma SegmentRead(log: Chunks, to: nat, reached: Option<nat>, start: nat, at: nat, next: nat, end: nat, maxBytes: nat,
                    bytes: nat, stopped: bool)
    requires start < end <= |log| && SmallChunks(log) && maxBytes >= MAX_STREAM_CHUNK_BYTES
    requires ReadUpTo(log, reached, start, at, end, maxBytes) && at < to <= |log| && at <= end
    requires bytes == Total(log[start..at]) <= maxBytes
    requires TakenAt(log, Span(at, next), to, end - at, maxBytes - bytes, stopped)
    ensures stopped ==> ReadsTo(log, Span(start, next), end - start, maxBytes)
    ensures stopped ==> Full(log, start, next, end - start, maxBytes)
    ensures !stopped ==> ReadUpTo(log, Some(to), start, next, end, maxBytes)
    ensures Total(log[start..next]) == bytes + Total(log[at..next]) <= maxBytes
  {
    TakenContinues(log, start, at, next);
    if reached.None? { assert log[start..at] == []; }
  }

  /** Where a read stands, with the chunks and bytes it has collected. */
  datatype Progress = Progress(reached: Option<nat>, at: nat, bytes: nat, chunks: Chunks)

  ghost predicate OnTrack(log: Chunks, p: Progress, start: nat, end: nat, maxBytes: nat) {
    match p case Progress(reached, at, bytes, chunks) =>
      && start <= at <= end <= |log| && ReadUpTo(log, reached, start, at, end, maxBytes)
      && chunks == log[start..at] && bytes == Total(chunks) <= maxBytes
  }

  /** The planned rows hold the log's chunks up to `to`. */
  ghost predicate HoldsPiece(rows: SegmentRows, p: Planned, log: Chunks, to: nat) {
    match p case Planned(start, size) =>
      start in rows.values && start < to <= |log| && Packs(rows.values[start], size, log[start..to])
  }

  function Piece(log: Chunks, from: nat, n: nat): Option<Chunks> {
    if from + n <= |log| then Some(log[from..from + n]) else None
  }

  /** What was taken is the log from there on, as far as the segment and the limits go. */
  ghost predicate TakenPiece(log: Chunks, taken: Chunks, from: nat, to: nat, room: nat, budget: nat, stopped: bool) {
    match Piece(log, from, |taken|)
    case None => false
    case Some(part) => taken == part && TakenAt(log, Span(from, from + |taken|), to, room, budget, stopped)
  }

  lemma TakenOfLog(log: Chunks, from: nat, to: nat, at: nat, room: nat, budget: nat, n: nat, stopped: bool)
    requires from <= at <= to <= |log| && TakenOf(log[from..to], at - from, room, budget, n, stopped)
    ensures at - from + n <= |log[from..to]| &&
            TakenPiece(log, log[from..to][at - from..at - from + n], at, to, room, budget, stopped)
  {
    SliceOfSlice(log, from, to, at, at + n);
    if at < to { assert log[from..to][at - from] == log[at]; }
    if at + n < to { assert log[from..to][at - from + n] == log[at + n]; }
    assert |log[at..at + n]| == n;
  }

  /** Decode one segment and take what the read still wants of it. */
  method LoadSegment(rows: SegmentRows, p: Planned, expected: nat, room: nat, budget: nat, ghost log: Chunks,
                     ghost to: nat)
    returns (taken: Option<Chunks>, bytes: nat, stopped: bool)
    ensures taken.Some? ==> |taken.value| <= room && bytes == Total(taken.value) <= budget
    ensures HoldsPiece(rows, p, log, to) && p.start <= expected < to ==>
              taken.Some? && TakenPiece(log, taken.value, expected, to, room, budget, stopped)
  {
    if p.start > expected || p.start !in rows.values { return None, 0, true; }
    var segment := DecodeSegment(rows.values[p.start], p.size);
    ghost var holds := HoldsPiece(rows, p, log, to) && expected < to;
    if segment.None? { return None, 0, true; }
    if holds { PackedOnce(rows.values[p.start], p.size, segment.value, log[p.start..to]); }
    var first := expected - p.start;
    if first > |segment.value| { return None, 0, true; }
    var n;
    n, bytes, stopped := TakeChunks(segment.value, first, room, budget);
    if holds { TakenOfLog(log, p.start, to, expected, room, budget, n, stopped); }
    taken := Some(segment.value[first..first + n]);
  }

  /** After it the read is further on, or finished. */
  lemma ProgressMade(log: Chunks, p: Progress, next: nat, to: nat, start: nat, end: nat, maxBytes: nat, taken: Chunks,
                     stopped: bool)
    requires OnTrack(log, p, start, end, maxBytes) && start < end <= |log| && p.at < to <= |log|
    requires SmallChunks(log) && maxBytes >= MAX_STREAM_CHUNK_BYTES
    requires TakenAt(log, Span(p.at, next), to, end - p.at, maxBytes - p.bytes, stopped) && taken == log[p.at..next]
    ensures p.chunks + taken == log[start..next]
    ensures stopped ==> ReadsTo(log, Span(start, next), end - start, maxBytes)
    ensures stopped ==> Full(log, start, next, end - start, maxBytes)
    ensures !stopped ==>
            OnTrack(log, Progress(Some(to), next, p.bytes + Total(taken), p.chunks + taken), start, end, maxBytes)
  {
    SegmentRead(log, to, p.reached, start, p.at, next, end, maxBytes, p.bytes, stopped);
    TakenContinues(log, start, p.at, next);
  }

  /** The next planned segment of an intact read lies around its position. */
  lemma PieceAround(rows: SegmentRows, log: Chunks, cuts: seq<nat>, planned: seq<Planned>, a: nat, index: nat,
                    p: Progress, start: nat, end: nat, maxBytes: nat) returns (to: nat)
    requires SegmentsIntact(rows, log, cuts, planned, a, start, end, maxBytes) && index < |planned| &&
             a + index < |cuts|
    requires OnTrack(log, p, start, end, maxBytes) && p.reached == Reached(cuts, a, index)
    ensures a + index + 1 < |cuts| && Reached(cuts, a, index + 1) == Some(to)
    ensures HoldsPiece(rows, planned[index], log, to) && planned[index].start <= p.at < to <= |log|
    ensures start < end <= |log| && SmallChunks(log) && maxBytes >= MAX_STREAM_CHUNK_BYTES
  {
    PlannedPacks(rows, log, cuts, planned, a, index);
    to := cuts[a + index + 1];
  }

  lemma NextSegmentRead(log: Chunks, p: Progress, next: nat, to: nat, start: nat, end: nat, maxBytes: nat,
                        taken: Chunks, stopped: bool)
    requires OnTrack(log, p, start, end, maxBytes) && start < end <= |log| && p.at < to <= |log|
    requires SmallChunks(log) && maxBytes >= MAX_STREAM_CHUNK_BYTES
    requires TakenAt(log, Span(p.at, next), to, end - p.at, maxBytes - p.bytes, stopped)
    requires p.at <= next <= |log| && taken == log[p.at..next]
    ensures stopped ==> WholeRead(log, start, end - start, maxBytes, p.chunks + taken)
    ensures !stopped ==>
            OnTrack(log, Progress(Some(to), next, p.bytes + Total(taken), p.chunks + taken), start, end, maxBytes)
  {
    ProgressMade(log, p, next, to, start, end, maxBytes, taken, stopped);
    if stopped {
      ReadsFromTo(log, start, next, end - start, maxBytes, p.chunks + taken);
      assert start + |p.chunks + taken| == next;
    }
  }

  function CutAt(cuts: seq<nat>, i: nat): Option<nat> { if i < |cuts| then Some(cuts[i]) else None }

  /** A read of everything up to the cut `i`. */
  ghost predicate ReadOut(log: Chunks, cuts: seq<nat>, i: nat, start: nat, available: nat, maxBytes: nat,
                          chunks: Chunks)
  {
    match CutAt(cuts, i)
    case None => false
    case Some(cut) => ReadsFrom(log, start, available, maxBytes, chunks) && start + |chunks| == cut
  }

  /** All planned segments read: the read ends where the last one does. */
  lemma AllSegmentsRead(log: Chunks, cuts: seq<nat>, a: nat, index: nat, p: Progress, start: nat, end: nat,
                        maxBytes: nat)
    requires OnTrack(log, p, start, end, maxBytes) && 0 < index && a + index < |cuts| &&
             p.reached == Reached(cuts, a, index)
    ensures ReadOut(log, cuts, a + index, start, end - start, maxBytes, p.chunks)
  {
    ReadsFromTo(log, start, p.at, end - start, maxBytes, p.chunks);
  }

  /** A read that is on track through its first `index` segments. */
  ghost predicate Reading(rows: SegmentRows, log: Chunks, cuts: seq<nat>, planned: seq<Planned>, a: nat, index: nat,
                          p: Progress, start: nat, end: nat, maxBytes: nat)
  {
    match p case Progress(reached, _, _, _) =>
      && SegmentsIntact(rows, log, cuts, planned, a, start, end, maxBytes) && a + index < |cuts|
      && reached == Reached(cuts, a, index) && OnTrack(log, p, start, end, maxBytes)
  }

  function Further(p: Progress, cuts: seq<nat>, a: nat, index: nat, taken: Chunks): Progress {
    Progress(if a + index < |cuts| then Reached(cuts, a, index) else None,
             p.at + |taken|, p.bytes + Total(taken), p.chunks + taken)
  }

  lemma ReadNext(rows: SegmentRows, log: Chunks, cuts: seq<nat>, planned: seq<Planned>, a: nat, index: nat, p: Progress,
                 start: nat, end: nat, maxBytes: nat, to: nat, expected: nat, room: nat, budget: nat, taken: Chunks,
                     stopped: bool)
    requires Reading(rows, log, cuts, planned, a, index, p, start, end, maxBytes)
    requires a + index + 1 < |cuts| && Reached(cuts, a, index + 1) == Some(to)
    requires p.at == expected && expected + room == end && p.bytes + budget == maxBytes
    requires expected < to <= |log| && start < end <= |log| && SmallChunks(log) && maxBytes >= MAX_STREAM_CHUNK_BYTES
    requires TakenPiece(log, taken, expected, to, room, budget, stopped)
    ensures stopped ==> WholeRead(log, start, end - start, maxBytes, p.chunks + taken)
    ensures !stopped ==>
            Reading(rows, log, cuts, planned, a, index + 1, Further(p, cuts, a, index + 1, taken), start, end, maxBytes)
  {
    NextSegmentRead(log, p, p.at + |taken|, to, start, end, maxBytes, taken, stopped);
  }

  /** Load the next planned segment and go on from there. */
  method LoadNext(rows: SegmentRows, planned: seq<Planned>, index: nat, expected: nat, room: nat, budget: nat,
                  ghost log: Chunks, ghost cuts: seq<nat>, ghost a: nat, ghost p: Progress,
                  ghost start: nat, ghost end: nat, ghost maxBytes: nat)
    returns (taken: Option<Chunks>, more: nat, stopped: bool)
    requires index < |planned| && p.at == expected && expected + room == end && p.bytes + budget == maxBytes
    ensures taken.Some? ==> |taken.value| <= room && more == Total(taken.value) <= budget
    ensures Reading(rows, log, cuts, planned, a, index, p, start, end, maxBytes) ==>
              && taken.Some?
              && (stopped ==> WholeRead(log, start, end - start, maxBytes, p.chunks + taken.value))
              && (!stopped ==> Reading(rows, log, cuts, planned, a, index + 1,
                                       Further(p, cuts, a, index + 1, taken.value), start, end, maxBytes))
  {
    ghost var reading := Reading(rows, log, cuts, planned, a, index, p, start, end, maxBytes);
    ghost var to := 0;
    if reading { to := PieceAround(rows, log, cuts, planned, a, index, p, start, end, maxBytes); }
    taken, more, stopped := LoadSegment(rows, planned[index], expected, room, budget, log, to);
    if reading {
      ReadNext(rows, log, cuts, planned, a, index, p, start, end, maxBytes, to, expected, room, budget, taken.value,
               stopped);
    }
  }

  method LoadSegments(rows: SegmentRows, planned: seq<Planned>, start: nat, end: nat, maxBytes: nat,
                      ghost log: Chunks, ghost cuts: seq<nat>, ghost a: nat) returns (read: Option<Chunks>)
    requires start <= end
    ensures SegmentsIntact(rows, log, cuts, planned, a, start, end, maxBytes) ==>
              read.Some? && (WholeRead(log, start, end - start, maxBytes, read.value)
                             || ReadOut(log, cuts, a + |planned|, start, end - start, maxBytes, read.value))
  {
    ghost var intact := SegmentsIntact(rows, log, cuts, planned, a, start, end, maxBytes);
    var chunks: Chunks, bytes, expected, index := [], 0, start, 0;
    ghost var p := Progress(None, start, 0, []);
    assert intact ==> log[start..start] == [];
    while index < |planned|
      invariant 0 <= index <= |planned| && 0 <= bytes <= maxBytes && start <= expected <= end
      invariant p.at == expected && p.bytes == bytes && p.chunks == chunks
      invariant intact ==> Reading(rows, log, cuts, planned, a, index, p, start, end, maxBytes)
    {
      var taken, more, stopped :=
        LoadNext(rows, planned, index, expected, end - expected, maxBytes - bytes, log, cuts, a, p, start, end,
                 maxBytes);
      if taken.None? { return None; }
      chunks := chunks + taken.value;
      if stopped { return Some(chunks); }
      bytes := bytes + more;
      expected := expected + |taken.value|;
      index := index + 1;
      p := Further(p, cuts, a, index, taken.value);
    }
    if intact { AllSegmentsRead(log, cuts, a, index, p, start, end, maxBytes); }
    return Some(chunks);
  }

  /** The segment read: plan from the size rows, load what the budget needs, trim exactly. */
  method ReadSegmentRows(rows: SegmentRows, start: nat, available: nat, maxBytes: nat, ghost log: Chunks,
                         ghost cuts: seq<nat>)
    returns (chunks: Option<Chunks>)
    ensures SegmentsHold(rows, log, cuts) && cuts[0] == 0 && available > 0 &&
            Askable(log, start, available, maxBytes) ==>
              chunks.Some? && ReadsSegments(log, cuts, start, available, maxBytes, chunks.value)
  {
    ghost var intact := SegmentsHold(rows, log, cuts) && cuts[0] == 0 && available > 0 &&
        Askable(log, start, available, maxBytes);
    if intact { HeldIsTiled(rows, log, cuts); }
    ghost var a;
    var planned;
    planned, a := PlanSegments(rows, start, available, |log|, cuts);
    if planned.None? { return None; }
    var count := SelectSegments(planned.value, maxBytes);
    if intact { SelectedIntact(rows, log, cuts, planned.value, count, a, start, start + available, maxBytes); }
    chunks := LoadSegments(rows, planned.value[..count], start, start + available, maxBytes, log, cuts, a);
    if intact && !WholeRead(log, start, available, maxBytes, chunks.value) {
      SelectedEnds(rows, log, cuts, planned.value, count, a, start, available, maxBytes, chunks.value);
    }
  }

  /** A read that ends with its selected segments has all that is available, or was cut off by the budget. */
  lemma SelectedEnds(rows: SegmentRows, log: Chunks, cuts: seq<nat>, planned: seq<Planned>, count: nat, a: nat,
                     start: nat, available: nat, maxBytes: nat, chunks: Chunks)
    requires SegmentsHold(rows, log, cuts) && Covers(planned, rows, cuts, a, start, start + available)
    requires 0 < count <= |planned| && (count < |planned| ==> PlannedBytes(planned[..count]) >= maxBytes)
    requires ReadOut(log, cuts, a + count, start, available, maxBytes, chunks) && start + available <= |log|
    ensures ReadsSegments(log, cuts, start, available, maxBytes, chunks)
  {
    var stop := start + |chunks|;
    if !Full(log, start, stop, available, maxBytes) {
      PlannedBytesAreTotal(rows, log, cuts, planned, a, count);
      assert CutOff(log, cuts, start, stop, maxBytes, a, a + count);
    }
  }

  lemma SelectedIntact(rows: SegmentRows, log: Chunks, cuts: seq<nat>, planned: seq<Planned>, count: nat, a: nat,
                       start: nat, end: nat, maxBytes: nat)
    requires SegmentsHold(rows, log, cuts) && Covers(planned, rows, cuts, a, start, end) && 0 < count <= |planned|
    requires start < end <= |log| && SmallChunks(log) && maxBytes >= MAX_STREAM_CHUNK_BYTES
    ensures SegmentsIntact(rows, log, cuts, planned[..count], a, start, end, maxBytes)
  {
    var selected := planned[..count];
    forall i | 0 <= i < |selected| ensures PlannedAt(selected, rows.sizes, cuts, a, i) {
      assert PlannedAt(planned, rows.sizes, cuts, a, i);
    }
  }
}
