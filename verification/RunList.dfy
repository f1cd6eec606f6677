/** The filtered run listing over stale index metadata (src/run-list.ts). */
module RunList {
  import opened Prelude
  import opened KeyOrder
  import opened RunEvents
  import L = RunListing
  import RunLog

  const RUN_LIST_CONCURRENCY: nat := 8
  const MAX_RUN_LIST_LIMIT: nat := 1000

  /** What the index stores under a key: the run and its status when the entry was written. */
  datatype Entry = Entry(run: Id, status: RunStatus)

  datatype Request = Request(prefix: Key, statuses: Option<seq<RunStatus>>, limit: nat, cursor: Option<Key>,
                             reverse: bool)

  datatype Page = Page(keys: seq<Key>, statuses: seq<RunStatus>, cursor: Option<Key>, hasMore: bool)

  /** The index shards with their entries, and the status each readable run really has. */
  datatype Fleet = Fleet(shards: seq<set<Key>>, index: map<Key, Entry>, runs: map<Id, RunStatus>)

  /** One shard holds a key; an entry carries a status its run had. */
  ghost predicate Stale(f: Fleet) {
    match f
    case Fleet(shards, index, runs) =>
      && L.Disjoint(shards) && L.Union(shards) == index.Keys
      && forall k :: k in index && index[k].run in runs ==> RunLog.Reaches(index[k].status, runs[index[k].run])
  }

  // ---- the prefilter --------------------------------------------------------------------

  predicate IndexStatusExcludes(indexed: RunStatus, requested: RunStatus) {
    indexed != requested && (Ended(indexed) || requested.Pending?)
  }

  /** The prefilter drops a requested status exactly when no run can have moved to it. */
  lemma ExcludesExactly(indexed: RunStatus, requested: RunStatus)
    ensures IndexStatusExcludes(indexed, requested) <==> !RunLog.Reaches(indexed, requested)
  {
  }

  predicate Excluded(entry: Entry, statuses: Option<seq<RunStatus>>) {
    statuses.Some? && forall s :: s in statuses.value ==> IndexStatusExcludes(entry.status, s)
  }

  // ---- what is asked for ------------------------------------------------------------------

  /** The authoritative run exists and passes the filter; an empty filter passes none. */
  predicate Accepts(f: Fleet, statuses: Option<seq<RunStatus>>, k: Key) {
    && k in f.index && f.index[k].run in f.runs
    && (statuses.None? || f.runs[f.index[k].run] in statuses.value)
  }

  function OptionsOf(q: Request, cursor: Option<Key>): L.Options { L.Options(q.prefix, cursor, None, q.reverse) }

  /** The index entries that `q` asks for, behind a cursor. */
  function Asked(f: Fleet, q: Request, cursor: Option<Key>): set<Key> {
    set k | k in L.Matching(L.Union(f.shards), OptionsOf(q, cursor)) && Accepts(f, q.statuses, k)
  }

  /** An excluded entry is never what was asked for. */
  lemma ExcludedIsRefused(f: Fleet, statuses: Option<seq<RunStatus>>, k: Key)
    requires Stale(f) && k in f.index && Excluded(f.index[k], statuses)
    ensures !Accepts(f, statuses, k)
  {
    if f.index[k].run in f.runs { ExcludesExactly(f.index[k].status, f.runs[f.index[k].run]); }
  }

  // ---- the scan ---------------------------------------------------------------------------

  /** Matches found, candidates still to read, keys not yet listed: together they are what was asked for. */
  datatype Scan = Scan(matches: seq<Key>, ahead: seq<Key>, beyond: set<Key>)

  ghost predicate Scanning(scan: Scan, f: Fleet, q: Request, asked: set<Key>) {
    match scan
    case Scan(matches, ahead, beyond) =>
      && L.Underway(matches, asked, asked - Names(matches), q.reverse)
      && Ordered(ahead, q.reverse)
      && (forall a, b :: a in ahead && b in beyond ==> Before(a, b, q.reverse))
      && (forall k :: k in asked && k !in matches <==> (k in ahead || k in beyond) && Accepts(f, q.statuses, k))
  }

  lemma ScanStarts(f: Fleet, q: Request)
    ensures Scanning(Scan([], [], L.Matching(L.Union(f.shards), OptionsOf(q, q.cursor))), f, q, Asked(f, q, q.cursor))
  {
  }

  /** Reading one candidate. */
  lemma ScanOne(scan: Scan, f: Fleet, q: Request, asked: set<Key>)
    requires Scanning(scan, f, q, asked) && scan.ahead != []
    ensures
      var k := scan.ahead[0];
      var matches := if Accepts(f, q.statuses, k) then scan.matches + [k] else scan.matches;
      Scanning(Scan(matches, scan.ahead[1..], scan.beyond), f, q, asked)
  {
    var k, ahead := scan.ahead[0], scan.ahead[1..];
    assert k in scan.ahead;
    forall a | a in ahead ensures a in scan.ahead && Before(k, a, q.reverse) && a != k {
      var i :| 0 <= i < |ahead| && ahead[i] == a;
      assert scan.ahead[i + 1] == a;
      BeforeTotal(k, a, q.reverse);
    }
    forall a | a in scan.ahead ensures a == k || a in ahead {
      var i :| 0 <= i < |scan.ahead| && scan.ahead[i] == a;
      if i > 0 { assert ahead[i - 1] == a; }
    }
    forall b | b in scan.beyond ensures b != k { BeforeTotal(k, b, q.reverse); }
    if Accepts(f, q.statuses, k) {
      TakeMatch(scan, ahead, f, q, asked);
      assert forall x :: x in scan.matches + [k] <==> x in scan.matches || x == k;
    }
  }

  lemma TakeMatch(scan: Scan, ahead: seq<Key>, f: Fleet, q: Request, asked: set<Key>)
    requires Scanning(scan, f, q, asked) && scan.ahead != [] && Accepts(f, q.statuses, scan.ahead[0])
    requires forall a :: a in ahead ==> a in scan.ahead && Before(scan.ahead[0], a, q.reverse)
    requires forall a :: a in scan.ahead ==> a == scan.ahead[0] || a in ahead
    ensures L.Underway(scan.matches + [scan.ahead[0]], asked, asked - Names(scan.matches + [scan.ahead[0]]), q.reverse)
  {
    var k, rest := scan.ahead[0], asked - Names(scan.matches);
    assert k in scan.ahead && k in rest;
    forall other | other in rest && other !in [k] ensures Before(k, other, q.reverse) {
      assert other in asked && other !in scan.matches;
    }
    L.PageTaken(scan.matches, [k], asked, rest, 1, q.reverse);
    assert rest - Names([k]) == asked - Names(scan.matches + [k]);
  }

  /** Listing one index page brings its unexcluded keys ahead. */
  lemma ScanPage(matches: seq<Key>, rest: set<Key>, keys: seq<Key>, candidates: seq<Key>, n: nat, f: Fleet, q: Request,
                 asked: set<Key>)
    requires Scanning(Scan(matches, [], rest), f, q, asked) && Firsts(keys, rest, n, q.reverse)
    requires Ordered(candidates, q.reverse)
    requires forall k :: k in candidates ==> k in keys
    requires forall k :: k in keys && k !in candidates ==> !Accepts(f, q.statuses, k)
    ensures Scanning(Scan(matches, candidates, rest - Names(keys)), f, q, asked)
  {
    forall k ensures (k in candidates || k in rest - Names(keys)) && Accepts(f, q.statuses, k) <==>
        k in rest && Accepts(f, q.statuses, k) {
    }
  }

  /** The unexcluded keys of an index page, in order. */
  method Candidates(f: Fleet, q: Request, keys: seq<Key>) returns (candidates: seq<Key>)
    requires Stale(f) && Ordered(keys, q.reverse) && forall k :: k in keys ==> k in f.index
    ensures Ordered(candidates, q.reverse)
    ensures forall k :: k in candidates ==> k in keys
    ensures forall k :: k in keys && k !in candidates ==> !Accepts(f, q.statuses, k)
  {
    candidates := [];
    for i := 0 to |keys|
      invariant Ordered(candidates, q.reverse)
      invariant forall k :: k in candidates ==> k in keys[..i]
      invariant forall k :: k in keys[..i] && k !in candidates ==> !Accepts(f, q.statuses, k)
    {
      assert keys[..i + 1] == keys[..i] + [keys[i]];
      assert forall k :: k in keys[..i] ==> Before(k, keys[i], q.reverse);
      if Excluded(f.index[keys[i]], q.statuses) {
        ExcludedIsRefused(f, q.statuses, keys[i]);
      } else {
        candidates := candidates + [keys[i]];
      }
    }
    assert keys[..|keys|] == keys;
  }

  /** Read candidates in bounded batches until the page and its successor are known. */
  method ReadCandidates(f: Fleet, q: Request, found: seq<Key>, candidates: seq<Key>, ghost beyond: set<Key>,
                        ghost asked: set<Key>)
    returns (matches: seq<Key>, ghost ahead: seq<Key>)
    requires Scanning(Scan(found, candidates, beyond), f, q, asked)
    ensures Scanning(Scan(matches, ahead, beyond), f, q, asked)
    ensures |matches| <= q.limit ==> ahead == []
  {
    matches := found;
    var offset := 0;
    while offset < |candidates| && |matches| <= q.limit
      invariant offset <= |candidates|
      invariant Scanning(Scan(matches, candidates[offset..], beyond), f, q, asked)
    {
      var batch := Min(Min(RUN_LIST_CONCURRENCY, q.limit + 1 - |matches|), |candidates| - offset);
      var end := offset + batch;
      while offset < end
        invariant offset <= end <= |candidates|
        invariant Scanning(Scan(matches, candidates[offset..], beyond), f, q, asked)
      {
        var k := candidates[offset];
        ScanOne(Scan(matches, candidates[offset..], beyond), f, q, asked);
        assert candidates[offset..][1..] == candidates[offset + 1..];
        if Accepts(f, q.statuses, k) { matches := matches + [k]; }
        offset := offset + 1;
      }
    }
    ahead := candidates[offset..];
  }

  /** What was found is the page: its first keys are the first keys asked for. */
  lemma ScanEnds(scan: Scan, f: Fleet, q: Request, asked: set<Key>)
    requires Scanning(scan, f, q, asked)
    requires |scan.matches| > q.limit || (scan.ahead == [] && scan.beyond == {})
    ensures
      var keys := Cut(scan.matches, q.limit);
      Firsts(keys, asked, q.limit, q.reverse) && (|scan.matches| > q.limit <==> Names(keys) != asked)
  {
    if |scan.matches| > q.limit {
      var whole := scan.matches[..q.limit + 1];
      assert scan.matches == whole + scan.matches[q.limit + 1..];
      HeadIsFirsts(scan.matches, asked, q.limit + 1, q.reverse);
      L.ShorterListing(whole, asked, q.limit, q.reverse);
      assert whole[..q.limit] == scan.matches[..q.limit];
    }
  }

  function Cut(matches: seq<Key>, limit: nat): seq<Key> { if |matches| > limit then matches[..limit] else matches }

  /** Every match was read and accepted. */
  lemma MatchesAccepted(scan: Scan, f: Fleet, q: Request, cursor: Option<Key>, limit: nat)
    requires Scanning(scan, f, q, Asked(f, q, cursor))
    ensures forall i :: 0 <= i < |Cut(scan.matches, limit)| ==> Accepts(f, q.statuses, Cut(scan.matches, limit)[i])
  {
    forall i | 0 <= i < |Cut(scan.matches, limit)| ensures Accepts(f, q.statuses, Cut(scan.matches, limit)[i]) {
      assert scan.matches[i] in Names(scan.matches);
    }
  }

  lemma HeadIsFirsts(matches: seq<Key>, asked: set<Key>, n: nat, reverse: bool)
    requires L.Underway(matches, asked, asked - Names(matches), reverse) && n <= |matches|
    ensures Firsts(matches[..n], asked, n, reverse)
  {
    var head := matches[..n];
    assert forall i :: 0 <= i < n ==> head[i] == matches[i];
    forall k | k in head ensures k in asked {
      var i :| 0 <= i < n && head[i] == k;
      assert k in Names(matches) by { assert matches[i] == k; }
    }
    forall k, p | k in asked && k !in head && p in head ensures Before(p, k, reverse) {
      var j :| 0 <= j < n && head[j] == p;
      if k in matches {
        var i :| 0 <= i < |matches| && matches[i] == k;
        assert forall m :: 0 <= m < n ==> matches[m] in head;
      } else {
        assert matches[j] == p && k in asked - Names(matches);
      }
    }
  }

  /** The authoritative status behind an index key. */
  function StatusOf(f: Fleet, statuses: Option<seq<RunStatus>>, k: Key): RunStatus
    requires Accepts(f, statuses, k)
  {
    f.runs[f.index[k].run]
  }

  function StatusesOf(f: Fleet, statuses: Option<seq<RunStatus>>, keys: seq<Key>): (r: seq<RunStatus>)
    requires forall i :: 0 <= i < |keys| ==> Accepts(f, statuses, keys[i])
    ensures |r| == |keys| && forall i :: 0 <= i < |keys| ==> r[i] == StatusOf(f, statuses, keys[i])
  {
    seq(|keys|, i requires 0 <= i < |keys| => StatusOf(f, statuses, keys[i]))
  }

  /** The scan between index pages: `rest` is what the scan cursor still asks the index for. */
  ghost predicate Between(scan: Scan, f: Fleet, q: Request, asked: set<Key>, cursor: Option<Key>, exhausted: bool) {
    match scan
    case Scan(matches, ahead, rest) =>
      && Scanning(scan, f, q, asked)
      && (|matches| <= q.limit ==> ahead == [])
      && rest == if exhausted then {} else L.Matching(L.Union(f.shards), OptionsOf(q, cursor))
  }

  const LEAST_SCAN: nat := 50

  function ScanLimit(q: Request): nat { Min(MAX_RUN_LIST_LIMIT, Max(LEAST_SCAN, q.limit)) }

  /** One index page: list it, drop what the metadata excludes, read the rest. */
  method ScanPageOnce(f: Fleet, q: Request, found: seq<Key>, cursor: Option<Key>, ghost rest: set<Key>,
                      ghost asked: set<Key>)
    returns (matches: seq<Key>, next: Option<Key>, exhausted: bool, ghost after: Scan)
    requires Stale(f) && |found| <= q.limit && Between(Scan(found, [], rest), f, q, asked, cursor, false)
    ensures after.matches == matches && Between(after, f, q, asked, next, exhausted)
    ensures !exhausted ==> |after.beyond| < |rest|
  {
    var listed := L.ListRuns(f.shards, OptionsOf(q, cursor), ScanLimit(q));
    if listed.keys == [] {
      EmptyPageIsEnd(rest, ScanLimit(q), q.reverse);
      return found, cursor, true, Scan(found, [], {});
    }
    var candidates := Candidates(f, q, listed.keys);
    ScanPage(found, rest, listed.keys, candidates, ScanLimit(q), f, q, asked);
    L.RestAfterPage(L.Union(f.shards), OptionsOf(q, cursor), listed, ScanLimit(q));
    L.SmallerRest(rest, Names(listed.keys), listed.keys[0]);
    ghost var ahead;
    matches, ahead := ReadCandidates(f, q, found, candidates, rest - Names(listed.keys), asked);
    exhausted := listed.listComplete;
    next := if listed.cursor.Some? then listed.cursor else Some(listed.keys[|listed.keys| - 1]);
    after := Scan(matches, ahead, rest - Names(listed.keys));
  }

  /** One page of the filtered listing: the first `limit` runs asked for, and whether another exists. */
  method ListRunsPage(f: Fleet, q: Request) returns (page: Page)
    requires Stale(f)
    ensures Firsts(page.keys, Asked(f, q, q.cursor), q.limit, q.reverse)
    ensures page.hasMore <==> Names(page.keys) != Asked(f, q, q.cursor)
    ensures page.cursor == if page.hasMore && page.keys != [] then Some(page.keys[|page.keys| - 1]) else None
    ensures |page.statuses| == |page.keys|
    ensures forall i :: 0 <= i < |page.keys| ==>
            Accepts(f, q.statuses, page.keys[i]) && page.statuses[i] == StatusOf(f, q.statuses, page.keys[i])
  {
    var matches, scanCursor, exhausted := [], q.cursor, false;
    ghost var asked := Asked(f, q, q.cursor);
    ghost var scan := Scan([], [], L.Matching(L.Union(f.shards), OptionsOf(q, q.cursor)));
    ScanStarts(f, q);
    while |matches| <= q.limit && !exhausted
      invariant scan.matches == matches && Between(scan, f, q, asked, scanCursor, exhausted)
      decreases !exhausted, |scan.beyond|
    {
      matches, scanCursor, exhausted, scan := ScanPageOnce(f, q, matches, scanCursor, scan.beyond, asked);
    }
    ScanEnds(scan, f, q, asked);
    MatchesAccepted(scan, f, q, q.cursor, q.limit);
    var keys, hasMore := Cut(matches, q.limit), |matches| > q.limit;
    page := Page(keys, StatusesOf(f, q.statuses, keys),
                 if hasMore && keys != [] then Some(keys[|keys| - 1]) else None, hasMore);
  }

  lemma EmptyPageIsEnd(rest: set<Key>, n: nat, reverse: bool)
    requires Firsts([], rest, n, reverse) && n > 0
    ensures rest == {}
  {
    if Names([]) != rest { L.IncompleteIsFull([], rest, reverse, n); }
  }

  // ---- following cursors --------------------------------------------------------------------

  /** Behind the last key of a page lies exactly what the page left out. */
  lemma CursorLeavesRest(f: Fleet, q: Request, cursor: Option<Key>, keys: seq<Key>)
    requires Firsts(keys, Asked(f, q, cursor), q.limit, q.reverse) && keys != []
    ensures Asked(f, q, Some(keys[|keys| - 1])) == Asked(f, q, cursor) - Names(keys)
  {
    var last := keys[|keys| - 1];
    assert last in keys;
    L.CursorGoesOn(L.Union(f.shards), OptionsOf(q, cursor), last);
    forall k | k in Asked(f, q, cursor) ensures Before(last, k, q.reverse) <==> k !in keys {
      if k in keys {
        var i :| 0 <= i < |keys| && keys[i] == k;
        BeforeTotal(k, last, q.reverse);
      }
    }
  }

  lemma FollowOne(f: Fleet, q: Request, cursor: Option<Key>, keys: seq<Key>, all: seq<Key>, rest: set<Key>,
                  asked: set<Key>)
    requires L.Underway(all, asked, rest, q.reverse) && rest == Asked(f, q, cursor) && q.limit >= 1
    requires Firsts(keys, rest, q.limit, q.reverse)
    ensures L.Underway(all + keys, asked, rest - Names(keys), q.reverse)
    ensures
      if Names(keys) == rest then rest - Names(keys) == {}
      else
        && keys != [] && rest - Names(keys) == Asked(f, q, Some(keys[|keys| - 1]))
        && |rest - Names(keys)| < |rest|
  {
    L.PageTaken(all, keys, asked, rest, q.limit, q.reverse);
    if Names(keys) != rest {
      L.IncompleteIsFull(keys, rest, q.reverse, q.limit);
      CursorLeavesRest(f, q, cursor, keys);
    }
  }

  lemma SameAsked(f: Fleet, q: Request, p: Request, cursor: Option<Key>)
    requires p == q.(cursor := p.cursor)
    ensures Asked(f, p, cursor) == Asked(f, q, cursor)
  {
  }

  /** One more page behind the cursor. */
  method FollowPage(f: Fleet, q: Request, cursor: Option<Key>, all: seq<Key>, ghost rest: set<Key>,
                    ghost asked: set<Key>)
    returns (grown: seq<Key>, next: Option<Key>, more: bool, ghost left: set<Key>)
    requires Stale(f) && q.limit >= 1 && L.Underway(all, asked, rest, q.reverse) && rest == Asked(f, q, cursor)
    ensures L.Underway(grown, asked, left, q.reverse) && left == if more then Asked(f, q, next) else {}
    ensures more ==> |left| < |rest|
  {
    SameAsked(f, q, q.(cursor := cursor), cursor);
    var page := ListRunsPage(f, q.(cursor := cursor));
    FollowOne(f, q, cursor, page.keys, all, rest, asked);
    grown, next, more, left := all + page.keys, page.cursor, page.hasMore, rest - Names(page.keys);
  }

  /** Following cursors from a first page yields every run asked for once, in order. */
  method FollowPages(f: Fleet, q: Request) returns (all: seq<Key>)
    requires Stale(f) && q.limit >= 1
    ensures Ordered(all, q.reverse) && Names(all) == Asked(f, q, q.cursor)
  {
    all := [];
    var cursor, more := q.cursor, true;
    ghost var asked := Asked(f, q, q.cursor);
    ghost var rest := asked;
    while more
      invariant L.Underway(all, asked, rest, q.reverse) && rest == if more then Asked(f, q, cursor) else {}
      decreases more, |rest|
    {
      all, cursor, more, rest := FollowPage(f, q, cursor, all, rest, asked);
    }
    AllFollowed(all, asked, q.reverse);
  }

  lemma AllFollowed(all: seq<Key>, asked: set<Key>, reverse: bool)
    requires L.Underway(all, asked, {}, reverse)
    ensures Ordered(all, reverse) && Names(all) == asked
  {
    forall k | k in asked ensures k in Names(all) { assert k !in asked - Names(all); }
  }
}
