/** Paged deletion of a stream's rows (src/worker/durable-objects/StreamDO.ts,
    expireChunkPage and expireSegmentPage). */
module StreamExpiry {
  import opened Prelude
  import opened OrderedKeys
  import opened StreamBytes
  import opened StreamSegments
  import opened StreamRows

  /** What one page reports. */
  datatype Page = Page(chunks: nat, bytes: nat, done: bool)

  // ---- one row per chunk ---------------------------------------------------------------

  function WithoutChunks(rows: ChunkRows, page: seq<nat>): ChunkRows {
    ChunkRows(rows.payloads - Elements(page), rows.sizes - Elements(page))
  }

  /** The listed size rows that fit one page; the first always does. */
  method ChunkPage(sizes: map<nat, nat>, listed: seq<nat>, limit: nat, byteLimit: nat) returns (n: nat, bytes: nat)
    requires forall k :: k in listed ==> k in sizes
    requires limit > 0
    ensures n <= |listed| && n <= limit && (listed != [] ==> n > 0)
    ensures bytes == SizeSum(sizes, listed[..n])
    // It stays within the byte limit, and ends only where the next row exceeds a limit.
    ensures n <= 1 || bytes <= byteLimit
    ensures n == |listed| || n == limit || bytes + sizes[listed[n]] > byteLimit
  {
    n, bytes := 0, 0;
    while n < |listed| && n < limit
      invariant n <= |listed| && n <= limit && bytes == SizeSum(sizes, listed[..n])
      invariant n <= 1 || bytes <= byteLimit
      invariant n == 0 ==> bytes == 0
    {
      var size := sizes[listed[n]];
      if n > 0 && bytes + size > byteLimit { return; }
      assert listed[..n + 1][..n] == listed[..n];
      bytes := bytes + size;
      n := n + 1;
    }
  }

  function SizeSum(sizes: map<nat, nat>, keys: seq<nat>): nat {
    if keys == [] then 0
    else
      var last := keys[|keys| - 1];
      SizeSum(sizes, keys[..|keys| - 1]) + if last in sizes then sizes[last] else 0
  }

  /** A page took the chunks it reports off the front; it is the last one exactly when none are left. */
  ghost predicate ChunkPageIs(left: ChunkRows, page: Page, log: Chunks, gone: nat) {
    match page case Page(chunks, bytes, done) =>
      && gone + chunks <= |log| && ChunksHold(left, log, gone + chunks) && bytes == Total(log[gone..gone + chunks])
      && (done <==> gone + chunks == |log|) && (!done ==> chunks > 0)
  }

  /** A page holds one chunk, or as many as fit both limits. */
  ghost predicate ChunkPageFits(log: Chunks, from: nat, n: nat, limit: nat, byteLimit: nat) {
    match TotalBetween(log, from, from + n)
    case None => false
    case Some(bytes) =>
      && n <= limit && (n <= 1 || bytes <= byteLimit)
      && (from + n == |log| || n == limit || bytes + |log[from + n]| > byteLimit)
  }

  method ExpireChunkPage(rows: ChunkRows, limit: nat, byteLimit: nat, ghost log: Chunks, ghost gone: nat)
    returns (left: ChunkRows, page: Page)
    requires limit > 0
    // On any rows: a page ends the stream only by leaving none, and otherwise deletes a row.
    ensures page.done ==> left == NO_CHUNK_ROWS
    ensures !page.done ==> left.payloads.Keys + left.sizes.Keys < rows.payloads.Keys + rows.sizes.Keys
    // On well-formed rows it deletes exactly the chunks it reports, from the front.
    ensures ChunksHold(rows, log, gone) ==>
              ChunkPageIs(left, page, log, gone) && ChunkPageFits(log, gone, page.chunks, limit, byteLimit)
  {
    var listed := ListKeys(rows.sizes.Keys, limit + 1);
    if ChunksHold(rows, log, gone) { ChunksListed(rows, log, gone, listed, limit + 1); }
    if |listed| == 0 {
      left, page := ExpireOrphanChunk(rows);
      if ChunksHold(rows, log, gone) { EmptyChunkPage(rows, log, gone, limit, byteLimit); }
      return;
    }
    var n, bytes := ChunkPage(rows.sizes, listed, limit, byteLimit);
    left := WithoutChunks(rows, listed[..n]);
    PageDeletes(rows, listed, n, limit);
    page := Page(n, bytes, n == |listed| && left.payloads == map[]);
    if ChunksHold(rows, log, gone) { ChunkPageTaken(rows, log, gone, listed, n, bytes, limit, byteLimit); }
  }

  lemma ChunkPageTaken(rows: ChunkRows, log: Chunks, gone: nat, listed: seq<nat>, n: nat, bytes: nat, limit: nat,
                       byteLimit: nat)
    requires ChunksHold(rows, log, gone) && 0 < n <= |listed| == Min(limit + 1, |log| - gone) && n <= limit
    requires forall i :: 0 <= i < |listed| ==> listed[i] == gone + i
    requires bytes == SizeSum(rows.sizes, listed[..n]) && (n <= 1 || bytes <= byteLimit)
    requires n < |listed| ==> listed[n] in rows.sizes
    requires n == |listed| || n == limit || bytes + rows.sizes[listed[n]] > byteLimit
    ensures
      var left := WithoutChunks(rows, listed[..n]);
      ChunkPageIs(left, Page(n, bytes, n == |listed| && left.payloads == map[]), log, gone)
    ensures ChunkPageFits(log, gone, n, limit, byteLimit)
  {
    ChunkPageHolds(rows, log, gone, listed, n, limit);
    ChunkPageStops(rows, bytes, log, gone, listed, n, limit, byteLimit);
  }

  lemma ChunkPageStops(rows: ChunkRows, bytes: nat, log: Chunks, gone: nat, listed: seq<nat>, n: nat, limit: nat,
                       byteLimit: nat)
    requires ChunksHold(rows, log, gone) && n <= |listed| == Min(limit + 1, |log| - gone) && n <= limit
    requires forall i :: 0 <= i < |listed| ==> listed[i] == gone + i
    requires bytes == Total(log[gone..gone + n]) && (n <= 1 || bytes <= byteLimit)
    requires n == |listed| || n == limit || bytes + rows.sizes[listed[n]] > byteLimit
    ensures ChunkPageFits(log, gone, n, limit, byteLimit)
  {
  }

  /** Without size rows, a payload row left behind is deleted on its own. */
  method ExpireOrphanChunk(rows: ChunkRows) returns (left: ChunkRows, page: Page)
    requires rows.sizes == map[]
    ensures page.done ==> left == NO_CHUNK_ROWS
    ensures !page.done ==> left.payloads.Keys + left.sizes.Keys < rows.payloads.Keys + rows.sizes.Keys
    ensures rows.payloads == map[] ==> left == rows && page == Page(0, 0, true)
  {
    var first := ListKeys(rows.payloads.Keys, 1);
    if |first| == 0 {
      assert rows.payloads == map[];
      return rows, Page(0, 0, true);
    }
    assert first[0] in first;
    left := WithoutChunks(rows, [first[0]]);
    assert first[0] in rows.payloads.Keys && first[0] !in left.payloads.Keys;
    page := Page(1, |rows.payloads[first[0]]|, left.payloads == map[]);
  }

  lemma EmptyChunkPage(rows: ChunkRows, log: Chunks, gone: nat, limit: nat, byteLimit: nat)
    requires ChunksHold(rows, log, gone) && rows.sizes == map[]
    ensures rows.payloads == map[] && ChunkPageIs(rows, Page(0, 0, true), log, gone)
    ensures ChunkPageFits(log, gone, 0, limit, byteLimit)
  {
    assert gone !in rows.sizes;
    assert log[gone..gone] == [] && rows.payloads.Keys == {};
  }

  lemma ChunksListed(rows: ChunkRows, log: Chunks, gone: nat, listed: seq<nat>, limit: nat)
    requires ChunksHold(rows, log, gone) && Lists(listed, rows.sizes.Keys, limit)
    ensures |listed| == Min(limit, |log| - gone) && forall i :: 0 <= i < |listed| ==> listed[i] == gone + i
    ensures gone == |log| ==> rows == NO_CHUNK_ROWS
  {
    var all := seq(|log| - gone, i requires 0 <= i < |log| - gone => gone + i);
    assert rows.sizes.Keys == Elements(all) by {
      forall k | k in rows.sizes.Keys ensures k in all { assert all[k - gone] == k; }
    }
    ListedAll(listed, all, limit);
    if gone == |log| { assert rows.payloads == map[] && rows.sizes == map[]; }
  }

  lemma PageDeletes(rows: ChunkRows, listed: seq<nat>, n: nat, limit: nat)
    requires Lists(listed, rows.sizes.Keys, limit + 1) && 0 < n <= |listed| && n <= limit
    ensures
      var left := WithoutChunks(rows, listed[..n]);
      && left.payloads.Keys + left.sizes.Keys < rows.payloads.Keys + rows.sizes.Keys
      && (n == |listed| ==> left.sizes == map[])
  {
    var left := WithoutChunks(rows, listed[..n]);
    assert listed[..n][0] == listed[0] && listed[0] in listed;
    assert listed[0] in rows.sizes.Keys && listed[0] !in left.payloads.Keys + left.sizes.Keys;
    if n == |listed| { assert listed[..n] == listed; }
  }

  lemma ChunkPageHolds(rows: ChunkRows, log: Chunks, gone: nat, listed: seq<nat>, n: nat, limit: nat)
    requires ChunksHold(rows, log, gone) && 0 < n <= |listed| && n <= limit && |listed| == Min(limit + 1, |log| - gone)
    requires forall i :: 0 <= i < |listed| ==> listed[i] == gone + i
    ensures
      var left := WithoutChunks(rows, listed[..n]);
      ChunkPageIs(left, Page(n, SizeSum(rows.sizes, listed[..n]), n == |listed| && left.payloads == map[]), log, gone)
  {
    var left := WithoutChunks(rows, listed[..n]);
    forall i ensures i in Elements(listed[..n]) <==> gone <= i < gone + n {
      if gone <= i < gone + n { assert listed[..n][i - gone] == i; }
    }
    assert ChunksHold(left, log, gone + n);
    SizesAreLengths(rows, log, gone, listed, n);
    if gone + n < |log| { assert gone + n in left.payloads; }
  }

  lemma {:induction false} SizesAreLengths(rows: ChunkRows, log: Chunks, gone: nat, listed: seq<nat>, n: nat)
    requires ChunksHold(rows, log, gone) && n <= |listed| && gone + |listed| <= |log|
    requires forall i :: 0 <= i < |listed| ==> listed[i] == gone + i
    ensures SizeSum(rows.sizes, listed[..n]) == Total(log[gone..gone + n])
  {
    if n > 0 {
      SizesAreLengths(rows, log, gone, listed, n - 1);
      assert listed[..n][..n - 1] == listed[..n - 1];
      ReadOneMore(log, gone, n - 1);
    }
  }

  // ---- segment rows --------------------------------------------------------------------

  function WithoutSegments(rows: SegmentRows, page: seq<nat>): SegmentRows {
    SegmentRows(rows.values - Elements(page), rows.sizes - Elements(page))
  }

  /** Chunks and payload bytes of some segments. */
  function SegmentSum(sizes: map<nat, SegmentSize>, keys: seq<nat>): SegmentSize {
    if keys == [] then SegmentSize(0, 0)
    else
      var last, before := keys[|keys| - 1], SegmentSum(sizes, keys[..|keys| - 1]);
      if last in sizes then SegmentSize(before.count + sizes[last].count, before.bytes + sizes[last].bytes) else before
  }

  /** The listed size rows that fit one page; the first always does. None: a corrupt size row. */
  method SegmentPage(sizes: map<nat, SegmentSize>, listed: seq<nat>, limit: nat, byteLimit: nat)
    returns (n: Option<nat>, sum: SegmentSize)
    requires forall k :: k in listed ==> k in sizes
    requires limit > 0
    ensures n.Some? ==> n.value <= |listed| && n.value <= limit && (listed != [] ==> n.value > 0)
    ensures n.Some? ==> sum == SegmentSum(sizes, listed[..n.value])
    ensures (forall k :: k in listed ==> sizes[k].count > 0) ==> n.Some?
    // It stays within both limits, and ends only where the next segment exceeds one of them.
    ensures n.Some? && n.value > 1 ==> n.value <= sum.count <= limit && sum.bytes <= byteLimit
    ensures n.Some? && n.value < |listed| ==>
              var size := sizes[listed[n.value]];
              sum.count + size.count > limit || sum.bytes + size.bytes > byteLimit
  {
    var count := 0;
    sum := SegmentSize(0, 0);
    while count < |listed|
      invariant 0 <= count <= |listed| && sum == SegmentSum(sizes, listed[..count])
      invariant count <= sum.count && (count <= 1 || (sum.count <= limit && sum.bytes <= byteLimit))
    {
      var size := sizes[listed[count]];
      if size.count < 1 { return None, sum; }
      if count > 0 && (sum.count + size.count > limit || sum.bytes + size.bytes > byteLimit) {
        return Some(count), sum;
      }
      assert listed[..count + 1] == listed[..count] + [listed[count]];
      sum := SegmentSize(sum.count + size.count, sum.bytes + size.bytes);
      count := count + 1;
    }
    return Some(count), sum;
  }

  /** A page took the first `p` segments; it is the last one exactly when none are left. */
  ghost predicate SegmentPageIs(left: SegmentRows, page: Page, log: Chunks, cuts: seq<nat>, p: nat) {
    match page case Page(chunks, bytes, done) =>
      && p < |cuts| && SegmentsHold(left, log, cuts[p..]) && cuts[0] <= cuts[p] <= |log|
      && chunks == cuts[p] - cuts[0] && bytes == Total(log[cuts[0]..cuts[p]])
      && (done <==> cuts[p] == |log|) && (!done ==> chunks > 0)
  }

  /** A page holds one segment, or as many as fit both limits. */
  ghost predicate SegmentPageFits(log: Chunks, cuts: seq<nat>, p: nat, limit: nat, byteLimit: nat) {
    match Between(log, cuts, 0, p)
    case None => false
    case Some(taken) =>
      && (p <= 1 || (taken.count <= limit && taken.bytes <= byteLimit))
      && (p + 1 == |cuts|
          || match Between(log, cuts, 0, p + 1)
             case None => false
             case Some(more) => more.count > limit || more.bytes > byteLimit)
  }

  /** The chunks and bytes of the log between two cuts. */
  function Between(log: Chunks, cuts: seq<nat>, i: nat, j: nat): Option<SegmentSize> {
    if i <= j < |cuts| && cuts[i] <= cuts[j] <= |log|
    then Some(SegmentSize(cuts[j] - cuts[i], Total(log[cuts[i]..cuts[j]]))) else None
  }

  /** The rows of `log[from..to]` went, and the cuts before were these: one page of either layout. */
  ghost predicate PageTaken(segmented: bool, log: Chunks, from: nat, to: nat, before: seq<nat>, cuts: seq<nat>,
                            limit: nat, byteLimit: nat)
  {
    match TotalBetween(log, from, to)
    case None => false
    case Some(_) =>
      if segmented then
        |cuts| <= |before| && SegmentPageFits(log, before, |before| - |cuts|, limit, byteLimit)
      else ChunkPageFits(log, from, to - from, limit, byteLimit)
  }

  method ExpireSegmentPage(rows: SegmentRows, limit: nat, byteLimit: nat, ghost log: Chunks, ghost cuts: seq<nat>)
    returns (left: SegmentRows, page: Option<Page>, ghost p: nat)
    requires limit > 0
    ensures page.None? ==> left == rows
    ensures page.Some? && page.value.done ==> left == NO_SEGMENT_ROWS
    ensures page.Some? && !page.value.done ==>
              left.values.Keys + left.sizes.Keys < rows.values.Keys + rows.sizes.Keys
    ensures SegmentsHold(rows, log, cuts) ==>
              && page.Some? && SegmentPageIs(left, page.value, log, cuts, p)
              && SegmentPageFits(log, cuts, p, limit, byteLimit)
  {
    var listed := ListKeys(rows.sizes.Keys, limit + 1);
    p := 0;
    if SegmentsHold(rows, log, cuts) { SegmentsListed(rows, log, cuts, listed, limit + 1); }
    if |listed| == 0 {
      var orphan;
      left, orphan := ExpireOrphanSegment(rows);
      if SegmentsHold(rows, log, cuts) { EmptyPage(rows, log, cuts, limit, byteLimit); }
      return left, Some(orphan), 0;
    }
    var n, sum := SegmentPage(rows.sizes, listed, limit, byteLimit);
    if n.None? { return rows, None, 0; }
    left := WithoutSegments(rows, listed[..n.value]);
    SegmentPageDeletes(rows, listed, n.value, limit);
    p := n.value;
    page := Some(Page(sum.count, sum.bytes, n.value == |listed| && left.values == map[]));
    if SegmentsHold(rows, log, cuts) {
      SegmentPageHolds(rows, log, cuts, listed, p);
      SegmentPageStops(rows, log, cuts, listed, p, sum, limit, byteLimit);
    }
  }

  lemma SegmentPageStops(rows: SegmentRows, log: Chunks, cuts: seq<nat>, listed: seq<nat>, p: nat, sum: SegmentSize,
                         limit: nat, byteLimit: nat)
    requires SegmentsHold(rows, log, cuts) && 0 < p <= |listed| < |cuts| && listed == cuts[..|listed|] && limit > 0
    requires |listed| < limit + 1 ==> |listed| == |cuts| - 1
    requires |listed| <= limit + 1
    requires sum == SegmentSum(rows.sizes, listed[..p])
    requires p > 1 ==> p <= sum.count <= limit && sum.bytes <= byteLimit
    requires p < |listed| ==>
               && listed[p] in rows.sizes
               && (sum.count + rows.sizes[listed[p]].count > limit
                   || sum.bytes + rows.sizes[listed[p]].bytes > byteLimit)
    ensures SegmentPageFits(log, cuts, p, limit, byteLimit)
  {
    assert listed[..p] == cuts[..p];
    SegmentSumIsTotal(rows, log, cuts, p);
    if p < |listed| { NextSegment(rows, log, cuts, p); }
  }

  /** One segment more is its size row more. */
  lemma NextSegment(rows: SegmentRows, log: Chunks, cuts: seq<nat>, p: nat)
    requires SegmentsHold(rows, log, cuts) && p + 1 < |cuts|
    ensures cuts[p] in rows.sizes && Between(log, cuts, 0, p).Some?
    ensures
      var (taken, size) := (Between(log, cuts, 0, p).value, rows.sizes[cuts[p]]);
      Between(log, cuts, 0, p + 1) == Some(SegmentSize(taken.count + size.count, taken.bytes + size.bytes))
  {
    SegmentSizeIs(rows, log, cuts, p);
    TakenContinues(log, cuts[0], cuts[p], cuts[p + 1]);
  }

  /** Without size rows, a segment row left behind is deleted on its own. */
  method ExpireOrphanSegment(rows: SegmentRows) returns (left: SegmentRows, page: Page)
    requires rows.sizes == map[]
    ensures page.done ==> left == NO_SEGMENT_ROWS
    ensures !page.done ==> left.values.Keys + left.sizes.Keys < rows.values.Keys + rows.sizes.Keys
    ensures rows.values == map[] ==> left == rows && page == Page(0, 0, true)
  {
    var first := ListKeys(rows.values.Keys, 1);
    if |first| == 0 {
      assert rows.values == map[];
      return rows, Page(0, 0, true);
    }
    assert first[0] in first;
    left := WithoutSegments(rows, [first[0]]);
    assert first[0] in rows.values.Keys && first[0] !in left.values.Keys;
    page := Page(1, |rows.values[first[0]]|, left.values == map[]);
  }

  lemma SegmentsListed(rows: SegmentRows, log: Chunks, cuts: seq<nat>, listed: seq<nat>, limit: nat)
    requires SegmentsHold(rows, log, cuts) && Lists(listed, rows.sizes.Keys, limit)
    ensures |listed| < |cuts| && listed == cuts[..|listed|] && (|listed| < limit ==> |listed| == |cuts| - 1)
    ensures forall k :: k in listed ==> k in rows.sizes && rows.sizes[k].count > 0
    ensures |cuts| == 1 ==> rows == NO_SEGMENT_ROWS
  {
    var all := cuts[..|cuts| - 1];
    ListedAll(listed, all, limit);
    assert all[..|listed|] == cuts[..|listed|];
    forall k | k in listed ensures k in rows.sizes && rows.sizes[k].count > 0 {
      var j :| 0 <= j < |listed| && listed[j] == k;
      ListedRow(rows, log, cuts, j);
    }
    if |cuts| == 1 { NoSegments(rows, log, cuts); }
  }

  lemma ListedRow(rows: SegmentRows, log: Chunks, cuts: seq<nat>, j: nat)
    requires SegmentsHold(rows, log, cuts) && j < |cuts| - 1
    ensures cuts[j] in rows.sizes && rows.sizes[cuts[j]].count > 0
  {
    assert SegmentHolds(rows, log, cuts, j);
  }

  lemma NoSegments(rows: SegmentRows, log: Chunks, cuts: seq<nat>)
    requires SegmentsHold(rows, log, cuts) && |cuts| == 1
    ensures rows == NO_SEGMENT_ROWS
  {
    assert rows.values == map[] && rows.sizes == map[];
  }

  lemma SegmentPageDeletes(rows: SegmentRows, listed: seq<nat>, n: nat, limit: nat)
    requires Lists(listed, rows.sizes.Keys, limit + 1) && 0 < n <= |listed| && n <= limit
    ensures
      var left := WithoutSegments(rows, listed[..n]);
      && left.values.Keys + left.sizes.Keys < rows.values.Keys + rows.sizes.Keys
      && (n == |listed| ==> left.sizes == map[])
  {
    var left := WithoutSegments(rows, listed[..n]);
    assert listed[..n][0] == listed[0] && listed[0] in listed;
    assert listed[0] in rows.sizes.Keys && listed[0] !in left.values.Keys + left.sizes.Keys;
    if n == |listed| { assert listed[..n] == listed; }
  }

  lemma EmptyPage(rows: SegmentRows, log: Chunks, cuts: seq<nat>, limit: nat, byteLimit: nat)
    requires SegmentsHold(rows, log, cuts) && |cuts| == 1
    ensures SegmentPageIs(rows, Page(0, 0, true), log, cuts, 0) && SegmentPageFits(log, cuts, 0, limit, byteLimit)
  {
    assert cuts[0..] == cuts && log[cuts[0]..cuts[0]] == [];
  }

  /** Dropping the first segments leaves the rows of the later cuts. */
  lemma RemainingHold(rows: SegmentRows, log: Chunks, cuts: seq<nat>, p: nat)
    requires SegmentsHold(rows, log, cuts) && p < |cuts|
    ensures SegmentsHold(WithoutSegments(rows, cuts[..p]), log, cuts[p..])
  {
    var left, rest := WithoutSegments(rows, cuts[..p]), cuts[p..];
    RemainingKeys(rows.values.Keys, cuts, p);
    forall j | 0 <= j < |rest| - 1 ensures SegmentHolds(left, log, rest, j) {
      assert SegmentHolds(rows, log, cuts, p + j);
      assert rest[j] == cuts[p + j] && rest[j + 1] == cuts[p + j + 1];
      assert rest[..|rest| - 1][j] == rest[j];
    }
  }

  lemma SegmentPageHolds(rows: SegmentRows, log: Chunks, cuts: seq<nat>, listed: seq<nat>, p: nat)
    requires SegmentsHold(rows, log, cuts) && 0 < p <= |listed| < |cuts| && listed == cuts[..|listed|]
    ensures
      var left, sum := WithoutSegments(rows, listed[..p]), SegmentSum(rows.sizes, listed[..p]);
      SegmentPageIs(left, Page(sum.count, sum.bytes, p == |listed| && left.values == map[]), log, cuts, p)
  {
    assert listed[..p] == cuts[..p];
    var left := WithoutSegments(rows, cuts[..p]);
    RemainingHold(rows, log, cuts, p);
    SegmentSumIsTotal(rows, log, cuts, p);
    RemainingKeys(rows.values.Keys, cuts, p);
    var rest := cuts[p..][..|cuts| - p - 1];
    if p < |cuts| - 1 { assert rest[0] in left.values.Keys; } else { assert left.values.Keys == {}; }
  }

  lemma RemainingKeys(keys: set<nat>, cuts: seq<nat>, p: nat)
    requires p < |cuts| && Increasing(cuts) && keys == Elements(cuts[..|cuts| - 1])
    ensures keys - Elements(cuts[..p]) == Elements(cuts[p..][..|cuts| - p - 1])
  {
    var rest := cuts[p..][..|cuts| - p - 1];
    forall k | k in keys - Elements(cuts[..p]) ensures k in rest {
      var j :| 0 <= j < |cuts| - 1 && cuts[..|cuts| - 1][j] == k;
      assert forall i :: 0 <= i < p ==> cuts[..p][i] == cuts[i];
      assert j >= p && rest[j - p] == k;
    }
    forall k | k in rest ensures k in keys && k !in cuts[..p] {
      var j :| 0 <= j < |rest| && rest[j] == k;
      assert cuts[..|cuts| - 1][p + j] == k;
    }
  }

  lemma SegmentSizeIs(rows: SegmentRows, log: Chunks, cuts: seq<nat>, j: nat)
    requires SegmentsHold(rows, log, cuts) && j + 1 < |cuts|
    ensures cuts[j] in rows.sizes && cuts[j] < cuts[j + 1] <= |log|
    ensures rows.sizes[cuts[j]] == SegmentSize(cuts[j + 1] - cuts[j], Total(log[cuts[j]..cuts[j + 1]]))
  {
    assert SegmentHolds(rows, log, cuts, j);
  }

  lemma {:induction false} SegmentSumIsTotal(rows: SegmentRows, log: Chunks, cuts: seq<nat>, p: nat)
    requires SegmentsHold(rows, log, cuts) && p < |cuts|
    ensures cuts[0] <= cuts[p] <= |log|
    ensures SegmentSum(rows.sizes, cuts[..p]) == SegmentSize(cuts[p] - cuts[0], Total(log[cuts[0]..cuts[p]]))
  {
    if p == 0 {
      assert log[cuts[0]..cuts[0]] == [];
    } else {
      SegmentSumIsTotal(rows, log, cuts, p - 1);
      SegmentSizeIs(rows, log, cuts, p - 1);
      TakenContinues(log, cuts[0], cuts[p - 1], cuts[p]);
      SumOneMore(rows.sizes, cuts, p - 1);
    }
  }

  lemma SumOneMore(sizes: map<nat, SegmentSize>, cuts: seq<nat>, p: nat)
    requires p < |cuts| && cuts[p] in sizes
    ensures
      var before := SegmentSum(sizes, cuts[..p]);
      SegmentSum(sizes, cuts[..p + 1]) ==
          SegmentSize(before.count + sizes[cuts[p]].count, before.bytes + sizes[cuts[p]].bytes)
  {
    assert cuts[..p + 1][..p] == cuts[..p];
  }
}
