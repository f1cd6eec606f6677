/** The sharded run listing (src/indexes.ts, listRuns; src/worker/durable-objects/RunCatalogDO.ts, list). */
module RunListing {
  import opened Prelude
  import opened KeyOrder

  const MAX_INDEX_LIST_SIZE: nat := 1001
  const MAX_RUN_LIST_SIZE: nat := 1000
  /** The bytes of `run`. */
  const RUN_PREFIX: Key := [114, 117, 110]

  datatype Options = Options(prefix: Key, cursor: Option<Key>, end: Option<Key>, reverse: bool)

  datatype Page = Page(keys: seq<Key>, listComplete: bool, cursor: Option<Key>)

  predicate HasPrefix(key: Key, prefix: Key) { |prefix| <= |key| && key[..|prefix|] == prefix }

  /** An unprefixed read means all public run keys. */
  function EffectivePrefix(o: Options): Key { if o.prefix == [] then RUN_PREFIX else o.prefix }

  /** The bounds as the shard passes them on: reversed, a cursor takes the place of the end. */
  predicate InBounds(key: Key, o: Options) {
    if o.reverse then
      match o.cursor
      case Some(cursor) => Less(key, cursor)
      case None => o.end.None? || Less(key, o.end.value)
    else (o.cursor.None? || Less(o.cursor.value, key)) && (o.end.None? || Less(key, o.end.value))
  }

  function Matching(keys: set<Key>, o: Options): set<Key> {
    set k | k in keys && HasPrefix(k, EffectivePrefix(o)) && InBounds(k, o)
  }

  /** A listing without bounds holds exactly the keys that begin with its prefix, or with `run` when it has none. */
  lemma UnboundedIsByPrefix(keys: set<Key>, prefix: Key, reverse: bool, k: Key)
    ensures
      k in Matching(keys, Options(prefix, None, None, reverse)) <==>
      && k in keys && |k| >= |prefix| && (prefix == [] ==> |k| >= 3 && k[0] == 114 && k[1] == 117 && k[2] == 110)
      && forall i :: 0 <= i < |prefix| ==> k[i] == prefix[i]
  {
    if prefix == [] && |k| >= 3 { assert k[..3] == [k[0], k[1], k[2]]; }
    if |k| >= |prefix| && forall i :: 0 <= i < |prefix| ==> k[i] == prefix[i] { assert k[..|prefix|] == prefix; }
    if HasPrefix(k, prefix) { assert forall i :: 0 <= i < |prefix| ==> k[i] == k[..|prefix|][i]; }
  }

  /** What a caller asks for: past the cursor in its direction, and always below the end. */
  predicate Wanted(key: Key, o: Options) {
    && (o.cursor.None? || Before(o.cursor.value, key, o.reverse))
    && (o.end.None? || Less(key, o.end.value))
  }

  /** The first key at or past the end that the listing could hold, if any does. */
  function FirstPast(o: Options): Option<Key> {
    var prefix := EffectivePrefix(o);
    match o.end
    case None => None
    case Some(end) => if HasPrefix(end, prefix) then o.end else if Less(end, prefix) then Some(prefix) else None
  }

  /** A reversed listing whose cursor lies past the end, with room for a key between them. */
  predicate ReachesPast(o: Options) {
    o.reverse && o.cursor.Some? && FirstPast(o).Some? && Less(FirstPast(o).value, o.cursor.value)
  }

  lemma {:induction false} PrefixOrder(k: Key, prefix: Key, end: Key)
    requires HasPrefix(k, prefix)
    ensures k == prefix || Less(prefix, k)
    ensures !HasPrefix(end, prefix) && Less(prefix, end) ==> Less(k, end)
    decreases |prefix|
  {
    if prefix != [] {
      assert k[1..][..|prefix| - 1] == k[..|prefix|][1..] && prefix == [prefix[0]] + prefix[1..];
      assert k[0] == k[..|prefix|][0];
      if end != [] && end[0] == prefix[0] && |prefix| <= |end| {
        assert end[1..][..|prefix| - 1] == end[..|prefix|][1..];
        assert end[..|prefix|] == [end[0]] + end[..|prefix|][1..];
      }
      PrefixOrder(k[1..], prefix[1..], if end == [] then [] else end[1..]);
      assert k == [k[0]] + k[1..];
    }
  }

  /** Nothing in the listing's range lies between the end and its first key past it. */
  lemma FirstPastIsFirst(o: Options, k: Key)
    requires o.end.Some? && HasPrefix(k, EffectivePrefix(o)) && !Less(k, o.end.value)
    ensures FirstPast(o).Some? && (k == FirstPast(o).value || Less(FirstPast(o).value, k))
  {
    var prefix, end := EffectivePrefix(o), o.end.value;
    PrefixOrder(k, prefix, end);
    LessTotal(k, end);
    LessTotal(prefix, end);
    if end == prefix { assert HasPrefix(end, prefix); }
  }

  /** What a caller asks for, of these keys. */
  function Asked(keys: set<Key>, o: Options): set<Key> {
    set k | k in keys && HasPrefix(k, EffectivePrefix(o)) && Wanted(k, o)
  }

  /** Whatever the shards hold, nothing asked for is left out, and the listing is exactly what was asked
      for unless its reversed cursor lies past its end: then it lists keys at or past the end. */
  lemma BoundsAreWantedExactly(o: Options)
    ensures forall keys: set<Key> :: Asked(keys, o) <= Matching(keys, o)
    ensures (forall keys: set<Key> :: Matching(keys, o) == Asked(keys, o)) <==> !ReachesPast(o)
    ensures ReachesPast(o) ==> Matching({FirstPast(o).value}, o) != Asked({FirstPast(o).value}, o)
  {
    forall keys: set<Key> ensures Asked(keys, o) <= Matching(keys, o) { WantedIsListed(keys, o); }
    if ReachesPast(o) {
      var past := FirstPast(o).value;
      PastIsListed(o, past);
      assert past in Matching({past}, o) && past !in Asked({past}, o);
    } else {
      forall keys: set<Key> ensures Matching(keys, o) == Asked(keys, o) {
        WithinBounds(keys, o);
        WantedIsListed(keys, o);
      }
    }
  }

  lemma PastIsListed(o: Options, past: Key)
    requires ReachesPast(o) && past == FirstPast(o).value
    ensures HasPrefix(past, EffectivePrefix(o)) && InBounds(past, o) && !Wanted(past, o)
  {
    LessTotal(past, o.end.value);
  }

  lemma WithinBounds(keys: set<Key>, o: Options)
    requires !ReachesPast(o)
    ensures Matching(keys, o) <= Asked(keys, o)
  {
    forall k | k in Matching(keys, o) ensures Wanted(k, o) {
      if o.reverse && o.cursor.Some? && o.end.Some? && !Less(k, o.end.value) {
        FirstPastIsFirst(o, k);
        if k != FirstPast(o).value { LessTransitive(FirstPast(o).value, k, o.cursor.value); }
      }
    }
  }

  /** Nothing asked for is left out. */
  lemma WantedIsListed(keys: set<Key>, o: Options)
    ensures Asked(keys, o) <= Matching(keys, o)
  {
  }

  /** A reversed page read with cursor `run:9` and end `run:5` lists `run:7`, which lies past the end. */
  lemma CursorReplacesEnd()
    ensures
      var o := Options([], Some(RUN_PREFIX + [58, 57]), Some(RUN_PREFIX + [58, 53]), true);
      var past := RUN_PREFIX + [58, 55];
      past in Matching({past}, o) && !Wanted(past, o)
  {
    var o := Options([], Some(RUN_PREFIX + [58, 57]), Some(RUN_PREFIX + [58, 53]), true);
    var past := RUN_PREFIX + [58, 55];
    assert past[..3] == RUN_PREFIX;
    assert RUN_PREFIX + [58, 57] == [114, 117, 110, 58, 57] && past == [114, 117, 110, 58, 55] &&
           RUN_PREFIX + [58, 53] == [114, 117, 110, 58, 53];
    assert past[..4] == [114, 117, 110, 58] && [114, 117, 110, 58, 57][..4] == past[..4] &&
           [114, 117, 110, 58, 53][..4] == past[..4];
    LessAfterCommon(past, [114, 117, 110, 58, 57], 4);
    LessAfterCommon(past, [114, 117, 110, 58, 53], 4);
  }

  /** One shard's page: one key more than the limit shows whether more follow. */
  method ListShard(keys: set<Key>, o: Options, limit: nat) returns (page: Page)
    requires 1 <= limit <= MAX_INDEX_LIST_SIZE
    ensures Firsts(page.keys, Matching(keys, o), limit, o.reverse)
    ensures page.listComplete <==> Names(page.keys) == Matching(keys, o)
  {
    var entries := ListFirst(Matching(keys, o), limit + 1, o.reverse);
    var listComplete := |entries| <= limit;
    var listed := if listComplete then entries else entries[..limit];
    ShorterListing(entries, Matching(keys, o), limit, o.reverse);
    page := Page(listed, listComplete, if listComplete then None else Some(listed[|listed| - 1]));
  }

  /** A listing with room for one more key, cut to the limit. */
  lemma ShorterListing(entries: seq<Key>, keys: set<Key>, limit: nat, reverse: bool)
    requires Firsts(entries, keys, limit + 1, reverse)
    ensures |entries| <= limit ==> Firsts(entries, keys, limit, reverse) && Names(entries) == keys
    ensures |entries| > limit ==> Firsts(entries[..limit], keys, limit, reverse) && Names(entries[..limit]) != keys
  {
    if |entries| > limit {
      var listed, extra := entries[..limit], entries[limit];
      assert extra in entries && extra in keys;
      assert forall i :: 0 <= i < limit ==> listed[i] == entries[i];
      forall i | 0 <= i < limit ensures listed[i] != extra { BeforeTotal(entries[i], extra, reverse); }
      forall k, p | k in keys && k !in listed && p in listed ensures Before(p, k, reverse) {
        var i :| 0 <= i < limit && listed[i] == p;
        assert entries[i] == p && p in entries;
        if k in entries {
          var j :| 0 <= j < |entries| && entries[j] == k;
          assert forall m :: 0 <= m < limit ==> listed[m] == entries[m] && listed[m] in listed;
          assert j >= limit;
        }
      }
      forall k | k in listed ensures k in keys { var i :| 0 <= i < limit && listed[i] == k; assert entries[i] == k; }
      assert extra !in Names(listed);
    }
  }

  // ---- the merged page ------------------------------------------------------------------

  function Union(shards: seq<set<Key>>): set<Key> {
    if shards == [] then {} else shards[0] + Union(shards[1..])
  }

  /** What the first pages together offer the merge. */
  ghost predicate Gathered(candidates: set<Key>, shards: seq<set<Key>>, pages: seq<Page>, o: Options, limit: nat) {
    && |pages| <= |shards|
    && (forall i :: 0 <= i < |pages| ==> PageOf(pages[i], shards[i], o, limit))
    && (forall k :: k in candidates <==> Offered(pages, k))
  }

  ghost predicate Offered(pages: seq<Page>, k: Key) { exists i :: 0 <= i < |pages| && OnPage(pages[i], k) }

  predicate OnPage(page: Page, k: Key) {
    match page
    case Page(keys, _, _) => k in keys
  }

  ghost predicate PageOf(page: Page, shard: set<Key>, o: Options, limit: nat) {
    match page
    case Page(keys, listComplete, _) =>
      && Firsts(keys, Matching(shard, o), limit + 1, o.reverse)
      && (listComplete <==> Names(keys) == Matching(shard, o))
  }

  lemma {:induction false} InUnion(shards: seq<set<Key>>, k: Key)
    ensures k in Union(shards) <==> exists i :: 0 <= i < |shards| && k in shards[i]
    decreases |shards|
  {
    if shards != [] {
      InUnion(shards[1..], k);
      if k in shards[0] { assert 0 < |shards|; }
      if k in Union(shards[1..]) {
        var i :| 0 <= i < |shards[1..]| && k in shards[1..][i];
        assert k in shards[i + 1];
      }
      if exists i :: 0 < i < |shards| && k in shards[i] {
        var i :| 0 < i < |shards| && k in shards[i];
        assert k in shards[1..][i - 1];
      }
    }
  }

  /** The candidates hold the first `limit` matching keys of the union: a key a shard left out
      has more than `limit` of that shard's keys before it. */
  lemma MergeIsFirsts(page: seq<Key>, candidates: set<Key>, shards: seq<set<Key>>, pages: seq<Page>, o: Options,
                      limit: nat)
    requires Gathered(candidates, shards, pages, o, limit) && |pages| == |shards|
    requires Firsts(page, candidates, limit, o.reverse)
    ensures Firsts(page, Matching(Union(shards), o), limit, o.reverse)
  {
    var all := Matching(Union(shards), o);
    forall k | k in page ensures k in all {
      var i :| 0 <= i < |pages| && OnPage(pages[i], k);
      assert PageOf(pages[i], shards[i], o, limit);
      InUnion(shards, k);
    }
    forall k | k in all && k !in page ensures |page| == limit && forall p :: p in page ==> Before(p, k, o.reverse) {
      if k !in candidates { LeftOut(page, candidates, shards, pages, o, limit, k); }
    }
  }

  lemma LeftOut(page: seq<Key>, candidates: set<Key>, shards: seq<set<Key>>, pages: seq<Page>, o: Options, limit: nat,
                k: Key)
    requires Gathered(candidates, shards, pages, o, limit) && |pages| == |shards|
    requires Firsts(page, candidates, limit, o.reverse)
    requires k in Matching(Union(shards), o) && k !in candidates
    ensures |page| == limit && forall p :: p in page ==> Before(p, k, o.reverse)
  {
    InUnion(shards, k);
    var i :| 0 <= i < |shards| && k in shards[i];
    var offered := pages[i].keys;
    assert PageOf(pages[i], shards[i], o, limit) && k in Matching(shards[i], o) && k !in offered;
    assert |offered| == limit + 1 && Names(offered) <= candidates;
    OrderedCardinality(offered, o.reverse);
    OrderedCardinality(page, o.reverse);
    if Names(offered) <= Names(page) { SubsetCardinality(Names(offered), Names(page)); }
    var c :| c in Names(offered) && c !in Names(page);
    assert c in candidates && c !in page && Before(c, k, o.reverse);
    forall p | p in page ensures Before(p, k, o.reverse) { BeforeTransitive(p, c, k, o.reverse); }
  }

  /** Every key lives in one shard. */
  ghost predicate Disjoint(shards: seq<set<Key>>) {
    forall i, j, k :: 0 <= i < j < |shards| && k in shards[i] ==> k !in shards[j]
  }

  /** Ask every shard for one key more than the limit. */
  method GatherPages(shards: seq<set<Key>>, o: Options, limit: nat)
    returns (pages: seq<Page>, candidates: seq<Key>, complete: bool)
    requires 1 <= limit <= MAX_RUN_LIST_SIZE && Disjoint(shards)
    ensures |pages| == |shards| && Gathered(Names(candidates), shards, pages, o, limit) &&
            |Names(candidates)| == |candidates|
    ensures complete <==> forall i :: 0 <= i < |pages| ==> pages[i].listComplete
  {
    pages, candidates, complete := [], [], true;
    while |pages| < |shards|
      invariant |pages| <= |shards| && |Names(candidates)| == |candidates|
      invariant Gathered(Names(candidates), shards, pages, o, limit)
      invariant complete <==> forall j :: 0 <= j < |pages| ==> pages[j].listComplete
    {
      var page := ListShard(shards[|pages|], o, limit + 1);
      OnlyNewKeys(candidates, shards, pages, page, o, limit);
      GatherOne(candidates, shards, pages, page, o, limit);
      pages := pages + [page];
      candidates := candidates + page.keys;
      complete := complete && page.listComplete;
    }
  }

  /** One more shard's page brings only new keys. */
  lemma OnlyNewKeys(candidates: seq<Key>, shards: seq<set<Key>>, pages: seq<Page>, page: Page, o: Options, limit: nat)
    requires Gathered(Names(candidates), shards, pages, o, limit) && |Names(candidates)| == |candidates|
    requires Disjoint(shards) && |pages| < |shards| && PageOf(page, shards[|pages|], o, limit)
    ensures |Names(candidates + page.keys)| == |candidates + page.keys|
  {
    OrderedCardinality(page.keys, o.reverse);
    JoinedNames(candidates, page.keys);
    forall k | k in Names(page.keys) ensures k !in Names(candidates) { NotOffered(shards, pages, page, o, limit, k); }
    DisjointCardinality(Names(candidates), Names(page.keys));
  }

  lemma GatherOne(candidates: seq<Key>, shards: seq<set<Key>>, pages: seq<Page>, page: Page, o: Options, limit: nat)
    requires Gathered(Names(candidates), shards, pages, o, limit)
    requires |pages| < |shards| && PageOf(page, shards[|pages|], o, limit)
    ensures Gathered(Names(candidates + page.keys), shards, pages + [page], o, limit)
  {
    var more := pages + [page];
    forall k ensures k in Names(candidates + page.keys) <==> Offered(more, k) {
      OfferedMore(pages, page, k);
      assert k in Names(candidates) <==> Offered(pages, k);
    }
    forall i | 0 <= i < |more| ensures PageOf(more[i], shards[i], o, limit) {
      if i < |pages| { assert more[i] == pages[i]; }
    }
  }

  lemma OfferedMore(pages: seq<Page>, page: Page, k: Key)
    ensures Offered(pages + [page], k) <==> Offered(pages, k) || k in page.keys
  {
    var more := pages + [page];
    assert more[|pages|] == page && forall i :: 0 <= i < |pages| ==> more[i] == pages[i];
    if Offered(pages, k) {
      var i :| 0 <= i < |pages| && OnPage(pages[i], k);
      assert OnPage(more[i], k);
    }
    if k in page.keys { assert OnPage(more[|pages|], k); }
  }

  lemma NotOffered(shards: seq<set<Key>>, pages: seq<Page>, page: Page, o: Options, limit: nat, k: Key)
    requires Disjoint(shards) && |pages| < |shards| && PageOf(page, shards[|pages|], o, limit) && k in page.keys
    requires forall i :: 0 <= i < |pages| ==> PageOf(pages[i], shards[i], o, limit)
    ensures !Offered(pages, k)
  {
    assert k in shards[|pages|];
    forall i | 0 <= i < |pages| ensures !OnPage(pages[i], k) {
      assert PageOf(pages[i], shards[i], o, limit) && k !in shards[i];
    }
  }

  lemma JoinedNames(a: seq<Key>, b: seq<Key>)
    ensures Names(a + b) == Names(a) + Names(b)
  {
    assert forall i :: 0 <= i < |b| ==> (a + b)[|a| + i] == b[i];
  }

  lemma DisjointCardinality(a: set<Key>, b: set<Key>)
    requires a !! b
    ensures |a + b| == |a| + |b|
  {
  }

  /** The merged page of a fixed set of shards, as one sorted map would list it. */
  method ListRuns(shards: seq<set<Key>>, o: Options, limit: nat) returns (page: Page)
    requires 1 <= limit <= MAX_RUN_LIST_SIZE && Disjoint(shards)
    ensures Firsts(page.keys, Matching(Union(shards), o), limit, o.reverse)
    ensures page.listComplete <==> Names(page.keys) == Matching(Union(shards), o)
    ensures page.listComplete <==> page.cursor.None?
    ensures page.cursor.Some? ==> page.keys != [] && page.cursor.value == page.keys[|page.keys| - 1]
  {
    var keys, listComplete := MergePages(shards, o, limit);
    page := Page(keys, listComplete, if listComplete then None else Some(keys[|keys| - 1]));
  }

  /** Sort what the shards offered and keep the first `limit`. */
  method MergePages(shards: seq<set<Key>>, o: Options, limit: nat) returns (keys: seq<Key>, listComplete: bool)
    requires 1 <= limit <= MAX_RUN_LIST_SIZE && Disjoint(shards)
    ensures Firsts(keys, Matching(Union(shards), o), limit, o.reverse)
    ensures listComplete <==> Names(keys) == Matching(Union(shards), o)
    ensures !listComplete ==> keys != []
  {
    var pages, candidates, complete := GatherPages(shards, o, limit);
    var sorted := ListFirst(Names(candidates), |candidates|, o.reverse);
    keys := if |sorted| <= limit then sorted else sorted[..limit];
    listComplete := |candidates| <= limit && complete;
    Merged(sorted, candidates, shards, pages, o, limit, keys, listComplete);
  }

  lemma Merged(sorted: seq<Key>, candidates: seq<Key>, shards: seq<set<Key>>, pages: seq<Page>, o: Options, limit: nat,
               keys: seq<Key>, complete: bool)
    requires Gathered(Names(candidates), shards, pages, o, limit) && |pages| == |shards| && limit >= 1
    requires Firsts(sorted, Names(candidates), |candidates|, o.reverse) && |Names(candidates)| == |candidates|
    requires keys == if |sorted| <= limit then sorted else sorted[..limit]
    requires complete <==> |candidates| <= limit && forall i :: 0 <= i < |pages| ==> pages[i].listComplete
    ensures Firsts(keys, Matching(Union(shards), o), limit, o.reverse)
    ensures complete <==> Names(keys) == Matching(Union(shards), o)
    ensures !complete ==> keys != []
  {
    CutCandidates(sorted, candidates, o.reverse, limit);
    MergeIsFirsts(keys, Names(candidates), shards, pages, o, limit);
    CompleteExactly(keys, candidates, shards, pages, o, limit);
    if Names(keys) != Matching(Union(shards), o) {
      IncompleteIsFull(keys, Matching(Union(shards), o), o.reverse, limit);
    }
  }

  lemma IncompleteIsFull(keys: seq<Key>, all: set<Key>, reverse: bool, limit: nat)
    requires Firsts(keys, all, limit, reverse) && Names(keys) != all
    ensures |keys| == limit
  {
    assert exists k :: k in all && k !in Names(keys);
  }

  lemma CutCandidates(sorted: seq<Key>, candidates: seq<Key>, reverse: bool, limit: nat)
    requires Firsts(sorted, Names(candidates), |candidates|, reverse) && |Names(candidates)| == |candidates|
    ensures |sorted| == |candidates|
    ensures Firsts(if |sorted| <= limit then sorted else sorted[..limit], Names(candidates), limit, reverse)
  {
    OrderedCardinality(sorted, reverse);
    if Names(candidates) <= Names(sorted) {
      SubsetCardinality(Names(candidates), Names(sorted));
    } else {
      var k :| k in Names(candidates) && k !in Names(sorted);
      assert k !in sorted;
    }
    SameCardinality(Names(sorted), Names(candidates));
    if |sorted| > limit {
      var cut := sorted[..limit];
      forall k, p | k in Names(candidates) && k !in cut && p in cut ensures Before(p, k, reverse) {
        assert k in Names(sorted);
        var i :| 0 <= i < |sorted| && sorted[i] == k;
        var j :| 0 <= j < limit && cut[j] == p;
        assert forall m :: 0 <= m < limit ==> cut[m] == sorted[m] && cut[m] in cut;
        assert i >= limit;
      }
    }
  }

  lemma SameCardinality(a: set<Key>, b: set<Key>)
    requires a <= b && |a| == |b|
    ensures a == b
  {
    assert b == a + (b - a);
  }

  /** The merged page is complete exactly when nothing remains. */
  lemma CompleteExactly(keys: seq<Key>, candidates: seq<Key>, shards: seq<set<Key>>, pages: seq<Page>, o: Options,
                        limit: nat)
    requires Gathered(Names(candidates), shards, pages, o, limit) && |pages| == |shards| &&
             |Names(candidates)| == |candidates|
    requires Firsts(keys, Names(candidates), limit, o.reverse) &&
             Firsts(keys, Matching(Union(shards), o), limit, o.reverse)
    ensures
      (|candidates| <= limit && forall i :: 0 <= i < |pages| ==> pages[i].listComplete)
      <==> Names(keys) == Matching(Union(shards), o)
  {
    var all := Matching(Union(shards), o);
    OrderedCardinality(keys, o.reverse);
    if Names(keys) == all {
      forall i | 0 <= i < |pages| ensures pages[i].listComplete { ShardComplete(keys, shards, pages, o, limit, i); }
      assert Names(candidates) <= all by {
        forall k | k in Names(candidates) ensures k in all { OfferedIsMatching(shards, pages, o, limit, k); }
      }
      SubsetCardinality(Names(candidates), all);
    }
    if |candidates| <= limit && forall i :: 0 <= i < |pages| ==> pages[i].listComplete {
      forall k | k in all ensures k in Names(keys) {
        InUnion(shards, k);
        var i :| 0 <= i < |shards| && k in shards[i];
        assert PageOf(pages[i], shards[i], o, limit) && k in Names(pages[i].keys) && k in Names(candidates);
        AllTaken(keys, candidates, limit, o.reverse, k);
      }
    }
  }

  lemma AllTaken(keys: seq<Key>, candidates: seq<Key>, limit: nat, reverse: bool, k: Key)
    requires Firsts(keys, Names(candidates), limit, reverse) && |Names(candidates)| == |candidates| <= limit &&
             k in candidates
    ensures k in keys
  {
    OrderedCardinality(keys, reverse);
    if k !in keys {
      assert Names(keys) <= Names(candidates) && |Names(keys)| == limit;
      SubsetCardinality(Names(keys), Names(candidates));
      SameCardinality(Names(keys), Names(candidates));
    }
  }

  lemma OfferedIsMatching(shards: seq<set<Key>>, pages: seq<Page>, o: Options, limit: nat, k: Key)
    requires |pages| == |shards| && forall i :: 0 <= i < |shards| ==> PageOf(pages[i], shards[i], o, limit)
    requires Offered(pages, k)
    ensures k in Matching(Union(shards), o)
  {
    var i :| 0 <= i < |pages| && OnPage(pages[i], k);
    assert PageOf(pages[i], shards[i], o, limit);
    InUnion(shards, k);
  }

  lemma ShardComplete(keys: seq<Key>, shards: seq<set<Key>>, pages: seq<Page>, o: Options, limit: nat, i: nat)
    requires |pages| == |shards| && i < |pages| && PageOf(pages[i], shards[i], o, limit)
    requires Names(keys) == Matching(Union(shards), o) && |Names(keys)| <= limit
    ensures pages[i].listComplete
  {
    var offered := pages[i].keys;
    OrderedCardinality(offered, o.reverse);
    forall k | k in Matching(shards[i], o) ensures k in Names(keys) { InUnion(shards, k); }
    SubsetCardinality(Names(offered), Names(keys));
    forall k | k in Matching(shards[i], o) ensures k in Names(offered) {
      assert k !in offered ==> |offered| == limit + 1;
    }
  }

  // ---- following cursors --------------------------------------------------------------------

  /** Going on after the last returned key asks for exactly the keys behind it. */
  lemma CursorGoesOn(keys: set<Key>, o: Options, last: Key)
    requires last in Matching(keys, o)
    ensures Matching(keys, o.(cursor := Some(last))) == set k | k in Matching(keys, o) && Before(last, k, o.reverse)
  {
    forall k | k in keys ensures InBounds(k, o.(cursor := Some(last))) <==>
        InBounds(k, o) && Before(last, k, o.reverse) {
      if Before(last, k, o.reverse) { BoundsCarry(o, last, k); }
    }
  }

  lemma BoundsCarry(o: Options, last: Key, k: Key)
    requires InBounds(last, o) && Before(last, k, o.reverse)
    ensures InBounds(k, o) <==> InBounds(k, o.(cursor := Some(last)))
  {
    if o.reverse {
      match o.cursor
      case Some(cursor) => LessTransitive(k, last, cursor);
      case None => if o.end.Some? { LessTransitive(k, last, o.end.value); }
    } else if o.cursor.Some? {
      LessTransitive(o.cursor.value, last, k);
    }
  }

  /** What was listed so far, and what is still asked for. */
  ghost predicate Underway(all: seq<Key>, wanted: set<Key>, rest: set<Key>, reverse: bool) {
    && Ordered(all, reverse) && Names(all) <= wanted && rest == wanted - Names(all)
    && forall k, p :: k in rest && p in all ==> Before(p, k, reverse)
  }

  lemma PageTaken(all: seq<Key>, keys: seq<Key>, wanted: set<Key>, rest: set<Key>, n: nat, reverse: bool)
    requires Underway(all, wanted, rest, reverse) && Firsts(keys, rest, n, reverse)
    ensures Underway(all + keys, wanted, rest - Names(keys), reverse)
    ensures keys != [] ==> |rest - Names(keys)| < |rest|
  {
    PageExtends(all, keys, rest, n, reverse);
    JoinedNames(all, keys);
    if keys != [] {
      assert keys[0] in keys;
      SmallerRest(rest, Names(keys), keys[0]);
    }
  }

  /** Iterating cursors to the end enumerates the union once, in order, without gaps. */
  method FollowCursors(shards: seq<set<Key>>, o: Options, limit: nat) returns (all: seq<Key>)
    requires 1 <= limit <= MAX_RUN_LIST_SIZE && Disjoint(shards)
    ensures Ordered(all, o.reverse) && Names(all) == Matching(Union(shards), o)
  {
    all := [];
    var options, complete := o, false;
    ghost var wanted := Matching(Union(shards), o);
    ghost var rest := wanted;
    while !complete
      invariant options.reverse == o.reverse && Underway(all, wanted, rest, o.reverse)
      invariant complete ==> rest == {}
      invariant !complete ==> rest == Matching(Union(shards), options)
      decreases !complete, |rest|
    {
      var page := ListRuns(shards, options, limit);
      PageTaken(all, page.keys, wanted, rest, limit, o.reverse);
      RestAfterPage(Union(shards), options, page, limit);
      if page.cursor.Some? { options := options.(cursor := page.cursor); }
      all := all + page.keys;
      rest := rest - Names(page.keys);
      complete := page.listComplete;
    }
  }

  lemma PageExtends(all: seq<Key>, keys: seq<Key>, rest: set<Key>, n: nat, reverse: bool)
    requires Ordered(all, reverse) && Firsts(keys, rest, n, reverse)
    requires forall k, p :: k in rest && p in all ==> Before(p, k, reverse)
    ensures Ordered(all + keys, reverse)
    ensures forall k, p :: k in rest - Names(keys) && p in all + keys ==> Before(p, k, reverse)
  {
    var both := all + keys;
    forall i, j | 0 <= i < j < |both| ensures Before(both[i], both[j], reverse) {
      if i < |all| <= j { assert both[j] in keys && both[i] in all; }
    }
  }

  /** Behind the last key of an incomplete page lies exactly what the page left out. */
  lemma AfterPage(keys: set<Key>, o: Options, page: seq<Key>, limit: nat)
    requires Firsts(page, Matching(keys, o), limit, o.reverse) && page != []
    ensures Matching(keys, o.(cursor := Some(page[|page| - 1]))) == Matching(keys, o) - Names(page)
  {
    var last := page[|page| - 1];
    assert last in page;
    CursorGoesOn(keys, o, last);
    forall k | k in Matching(keys, o) ensures Before(last, k, o.reverse) <==> k !in page {
      if k in page {
        var i :| 0 <= i < |page| && page[i] == k;
        BeforeTotal(k, last, o.reverse);
      }
    }
  }

  /** A page leaves nothing when it is complete, and what its cursor asks for when it is not. */
  lemma RestAfterPage(keys: set<Key>, o: Options, page: Page, limit: nat)
    requires Firsts(page.keys, Matching(keys, o), limit, o.reverse)
    requires page.listComplete <==> Names(page.keys) == Matching(keys, o)
    requires page.cursor.Some? ==> page.keys != [] && page.cursor.value == page.keys[|page.keys| - 1]
    ensures page.listComplete ==> Matching(keys, o) - Names(page.keys) == {}
    ensures page.cursor.Some? ==> Matching(keys, o) - Names(page.keys) == Matching(keys, o.(cursor := page.cursor))
  {
    if page.cursor.Some? { AfterPage(keys, o, page.keys, limit); }
  }

  lemma SmallerRest(rest: set<Key>, taken: set<Key>, k: Key)
    requires k in rest && k in taken
    ensures |rest - taken| < |rest|
  {
    assert rest - taken < rest;
    SubsetCardinality(rest - taken, rest - {k});
  }
}
