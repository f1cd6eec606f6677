/** Event pages read beside a commit (src/apply-event.ts, listByPrefix and finalizeEventPage).
    An event id orders as its slot does, so pages are sequences of slots. */
module RunPages {
  import opened Prelude
  import opened RunEvents
  import opened RunLog

  /** A page of events; its cursor is the last returned slot when more follow. */
  datatype Page = Page(slots: seq<nat>, cursor: Option<nat>, hasMore: bool)

  /** What a response carries: no events at all, or a page. */
  datatype Reply = Plain | WithEvents(page: Page)

  datatype Params = Params(sinceCursor: Option<nat>, eventCount: Option<nat>)

  const SINCE_CURSOR_LIMIT: nat := 100

  function Above(log: map<nat, Event>, after: nat): set<nat> { set k | k in log && k > after }

  ghost function Least(keys: set<nat>): (k: nat)
    requires keys != {}
    ensures k in keys && forall j :: j in keys ==> k <= j
  {
    var k :| k in keys;
    var below := set j | j in keys && j < k;
    assert forall j :: j in keys ==> (j in below <==> j < k);
    if below == {} then k
    else
      assert k !in below && below < keys;
      Least(below)
  }

  /** Storage lists keys in order: the slots after `after`, at most `max` of them. */
  ghost function List(log: map<nat, Event>, after: nat, max: nat): seq<nat>
    decreases max
  {
    if max == 0 || Above(log, after) == {} then []
    else
      var first := Least(Above(log, after));
      [first] + List(log, first, max - 1)
  }

  /** Cursor paging: one entry more than the limit is listed to see whether more follow. */
  ghost function ListByPrefix(log: map<nat, Event>, after: nat, limit: nat): Page {
    var entries := List(log, after, limit + 1);
    var hasMore := |entries| > limit;
    var slots := if hasMore then entries[..limit] else entries;
    Page(slots, if hasMore && |slots| > 0 then Some(slots[|slots| - 1]) else None, hasMore)
  }

  function Before(slots: seq<nat>, committed: nat): seq<nat> {
    if slots == [] then [] else (if slots[0] < committed then [slots[0]] else []) + Before(slots[1..], committed)
  }

  /** The reply to a request whose event is at `committed`. */
  ghost function FinalizeEventPage(log: map<nat, Event>, committed: nat, params: Params): Reply {
    if params.sinceCursor.Some? then WithEvents(ListByPrefix(log, params.sinceCursor.value, SINCE_CURSOR_LIMIT))
    else if params.eventCount.None? || committed <= params.eventCount.value + 1 then Plain
    else
      var skipped := committed - params.eventCount.value - 1;
      var earlier := Before(ListByPrefix(log, params.eventCount.value, skipped).slots, committed);
      WithEvents(Page(earlier, None, |earlier| < skipped))
  }

  /** The slots first..last. */
  function Slots(first: nat, last: int): (r: seq<nat>)
    ensures forall i :: 0 <= i < |r| ==> r[i] == first + i
    ensures |r| == if last < first then 0 else last + 1 - first
  {
    if last < first then [] else seq(last + 1 - first, i requires i >= 0 => first + i)
  }

  /** On a dense log a listing has no gaps. */
  lemma {:induction false} ListIsDense(s: Store, after: nat, max: nat)
    requires Dense(s)
    ensures List(s.log, after, max) == Slots(after + 1, Min(after + max, s.sequence))
    decreases max
  {
    if max == 0 || after >= s.sequence {
      assert max == 0 || Above(s.log, after) == {};
    } else {
      assert after + 1 in Above(s.log, after);
      var first := Least(Above(s.log, after));
      assert first == after + 1;
      ListIsDense(s, after + 1, max - 1);
    }
  }

  lemma {:induction false} BeforeAll(slots: seq<nat>, committed: nat)
    requires forall i :: 0 <= i < |slots| ==> slots[i] < committed
    ensures Before(slots, committed) == slots
  {
    if slots != [] { BeforeAll(slots[1..], committed); }
  }

  /** A page on a dense log: the next `limit` slots, whether more follow, and where to go on. */
  lemma PageIsExact(s: Store, after: nat, limit: nat)
    requires Dense(s)
    ensures
      var page := ListByPrefix(s.log, after, limit);
      && page.slots == Slots(after + 1, Min(after + limit, s.sequence))
      && (page.hasMore <==> after + limit < s.sequence)
      && page.cursor == if page.hasMore && limit > 0 then Some(after + limit) else None
  {
    ListIsDense(s, after, limit + 1);
    var entries := List(s.log, after, limit + 1);
    if |entries| > limit {
      assert entries[..limit] == Slots(after + 1, after + limit);
    }
  }

  /** A writer that is behind gets exactly the events between its position and its own event. */
  lemma StaleReplayIsComplete(s: Store, committed: nat, count: nat)
    requires Inv(s) && committed in s.log && count + 1 < committed
    ensures FinalizeEventPage(s.log, committed, Params(None, Some(count))) ==
            WithEvents(Page(Slots(count + 1, committed - 1), None, false))
    ensures forall k :: k in Slots(count + 1, committed - 1) ==> k in s.log
  {
    PageIsExact(s, count, committed - count - 1);
    BeforeAll(Slots(count + 1, committed - 1), committed);
  }

  /** A writer that is not behind gets no events. */
  lemma FreshReplayIsPlain(s: Store, committed: nat, count: nat)
    requires Inv(s) && committed in s.log && committed <= count + 1
    ensures FinalizeEventPage(s.log, committed, Params(None, Some(count))).Plain?
  {
  }

  /** A reader that names a cursor gets the next events after it, its own included, whatever count it names. */
  lemma SinceCursorIsExact(s: Store, committed: nat, cursor: nat, count: Option<nat>)
    requires Dense(s)
    ensures
      var reply := FinalizeEventPage(s.log, committed, Params(Some(cursor), count));
      && reply.WithEvents?
      && reply.page.slots == Slots(cursor + 1, Min(cursor + 100, s.sequence))
      && (reply.page.hasMore <==> cursor + 100 < s.sequence)
      && reply.page.cursor == if cursor + 100 < s.sequence then Some(cursor + 100) else None
  {
    PageIsExact(s, cursor, SINCE_CURSOR_LIMIT);
  }

  ghost function Pages(log: map<nat, Event>, limit: nat): nat -> Page { (a: nat) => ListByPrefix(log, a, limit) }

  /** Following cursors from `after`, at most `pages` pages. */
  function Follow(next: nat -> Page, after: nat, pages: nat): seq<nat>
    decreases pages
  {
    if pages == 0 then []
    else next(after).slots + if next(after).cursor.Some? then Follow(next, next(after).cursor.value, pages - 1) else []
  }

  lemma SlotsJoin(first: nat, middle: nat, last: nat)
    requires first <= middle + 1 && middle <= last
    ensures Slots(first, middle) + Slots(middle + 1, last) == Slots(first, last)
  {
  }

  lemma {:induction false} ExactPagesEnumerate(next: nat -> Page, limit: nat, last: nat, after: nat, pages: nat)
    requires limit > 0 && after + pages >= last
    requires forall a: nat :: next(a).slots == Slots(a + 1, if a + limit < last then a + limit else last)
    requires forall a: nat :: next(a).cursor == if a + limit < last then Some(a + limit) else None
    ensures Follow(next, after, pages) == Slots(after + 1, last)
    decreases pages
  {
    if pages > 0 && after + limit < last {
      ExactPagesEnumerate(next, limit, last, after + limit, pages - 1);
      SlotsJoin(after + 1, after + limit, last);
    }
  }

  /** Pages of any positive size, followed to the end, enumerate the rest of the log once and in order. */
  lemma CursorsEnumerateLog(s: Store, after: nat, limit: nat, pages: nat)
    requires Dense(s) && limit > 0 && after + pages >= s.sequence
    ensures Follow(Pages(s.log, limit), after, pages) == Slots(after + 1, s.sequence)
  {
    var next := Pages(s.log, limit);
    forall a: nat ensures
      && next(a).slots == Slots(a + 1, if a + limit < s.sequence then a + limit else s.sequence)
      && next(a).cursor == if a + limit < s.sequence then Some(a + limit) else None
    {
      PageIsExact(s, a, limit);
    }
    ExactPagesEnumerate(next, limit, s.sequence, after, pages);
  }
}
