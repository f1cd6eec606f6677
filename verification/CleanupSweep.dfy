/** Retention cleanup of one run across its own cell, its stream registry and its streams, with
    delayed writers in between (src/worker/durable-objects/WorkflowRunDO.ts, StreamDO.ts). */
module CleanupSweep {
  import opened Prelude
  import opened RunRetention

  const STREAMS_PER_CLEANUP_PAGE: nat := 16
  const STREAM_CHUNKS_PER_CLEANUP_PAGE: int := 256
  const STREAM_BYTES_PER_CLEANUP_PAGE: int := 16 * 1024 * 1024

  type Name = string

  /** What is left of a stream, and whether its expiry fence stands. */
  datatype Stream = Stream(rows: nat, fenced: bool)

  /** A cleanup pass between its calls: what it read, what it was told, and the measure it began at. */
  datatype Pass =
    | Idle
    | Starting(generation: nat, begun: Measure)
    | IndexPage(generation: nat, listed: set<Key>, more: bool, begun: Measure)
    | StreamPage(generation: nat, todo: seq<Name>, completed: set<Name>, chunks: int, bytes: int, begun: Measure)
    | StreamsReported(generation: nat, deleted: nat, done: bool, begun: Measure)
    | QueuePage(generation: nat, listed: set<Key>, more: bool, begun: Measure)

  /** `closed` is the registry's fence. `streams` are all that were ever registered. */
  datatype World = World(
    cell: Cell, clock: nat, closed: bool, names: set<Name>, streams: map<Name, Stream>, pass: Pass)

  const EMPTY_WORLD := World(EMPTY, 0, false, {}, map[], Idle)

  predicate Done(s: Stream) { s.fenced && s.rows == 0 }

  // ---- the measure ------------------------------------------------------------------------

  /** Compared from left to right. */
  datatype Measure = Measure(phase: nat, open: nat, size: nat, unfenced: nat, rows: nat)

  predicate Lower(a: Measure, b: Measure) {
    match a case Measure(phase, open, size, unfenced, rows) =>
      || phase < b.phase
      || (phase == b.phase && open < b.open)
      || (phase == b.phase && open == b.open && size < b.size)
      || (phase == b.phase && open == b.open && size == b.size && unfenced < b.unfenced)
      || (phase == b.phase && open == b.open && size == b.size && unfenced == b.unfenced && rows < b.rows)
  }

  predicate AtMost(a: Measure, b: Measure) { a == b || Lower(a, b) }

  function Markers(keys: set<Key>): set<Key> { set k | k in keys && k.HookMarker? }

  function QueueEntries(keys: set<Key>): set<Key> { set k | k in keys && k.QueueEntry? }

  function Unfenced(names: set<Name>, streams: map<Name, Stream>): set<Name> {
    set n | n in names && n in streams && !streams[n].fenced
  }

  /** Rows left of the streams behind their fence; writers cannot raise them. */
  ghost function FencedRows(names: set<Name>, streams: map<Name, Stream>): nat
    decreases |names|
  {
    if names == {} then 0
    else
      var n :| n in names;
      (if n in streams && streams[n].fenced then streams[n].rows else 0) + FencedRows(names - {n}, streams)
  }

  ghost function StreamMeasure(closed: bool, names: set<Name>, streams: map<Name, Stream>): Measure {
    if !closed then Measure(4, 1, 0, 0, 0)
    else Measure(4, 0, |names|, |Unfenced(names, streams)|, FencedRows(names, streams))
  }

  /** The phase first; within it, what the phase still has to remove. */
  ghost function CellMeasure(c: Cell, sweep: Measure): Measure {
    match c.cleanup
    case None => Measure(if c.tombstone.Some? then 0 else 7, 0, 0, 0, 0)
    case Some(r) =>
      match r.phase
      case Retained => Measure(6, 0, 0, 0, 0)
      case Index => Measure(5, 0, |Markers(c.keys)|, 0, 0)
      case Streams => sweep
      case Queues => Measure(3, 0, |QueueEntries(c.keys)|, 0, 0)
      case Payload => Measure(2, 0, |c.keys|, 0, 0)
      case Tombstoned => Measure(1, 0, 0, 0, 0)
  }

  ghost function MeasureOf(w: World): Measure {
    match w case World(cell, _, closed, names, streams, _) => CellMeasure(cell, StreamMeasure(closed, names, streams))
  }

  // ---- steps ----------------------------------------------------------------------------------

  datatype Action =
    // Anything else in the run cell, other passes' transactions included.
    | OnCell(action: RunRetention.Action)
    // Writers.
    | Register(name: Name)
    | Append(name: Name, rows: nat)
    // Calls of other passes.
    | CloseRegistry
    | ExpireStream(name: Name, deleted: nat)
    | FinalizeRegistry(finished: set<Name>)
    // The observed pass.
    | BeginStart
    | CommitStart
    | BeginIndex(listed: set<Key>)
    | CommitIndex
    | BeginStreams(first: seq<Name>)
    | ExpireNext(deleted: nat, bytes: nat)
    | ReportStreams(deleted: nat)
    | CommitStreams
    | BeginQueues(listed: set<Key>)
    | CommitQueues
    | PayloadBatch(page: set<Key>)
    | Abandon

  datatype Timed = Timed(now: nat, action: Action)

  /** One page of an expiring stream: fenced, and a row gone unless none is left. */
  predicate PageOf(s: Stream, deleted: nat) { deleted <= s.rows && (deleted < s.rows ==> deleted > 0) }

  function Expire(streams: map<Name, Stream>, n: Name, deleted: nat): map<Name, Stream>
    requires n in streams && PageOf(streams[n], deleted)
  {
    streams[n := Stream(streams[n].rows - deleted, true)]
  }

  predicate InPhase(c: Cell, phase: Phase) { c.cleanup.Some? && c.cleanup.value.phase == phase }

  predicate PageOfKeys(listed: set<Key>, all: set<Key>, limit: nat) { listed <= all && |listed| == Min(limit, |all|) }

  /** The registry's first names. */
  predicate Listing(listed: seq<Name>, names: set<Name>) {
    && (forall n :: n in listed ==> n in names)
    && |listed| == Min(STREAMS_PER_CLEANUP_PAGE, |names|)
  }

  predicate BudgetLeft(p: Pass)
    requires p.StreamPage?
  {
    p.todo != [] && p.chunks > 0 && p.bytes > 0
  }

  predicate Enabled(w: World, t: Timed) {
    w.clock <= t.now &&
    match t.action
    case OnCell(a) =>
      && RunRetention.Enabled(w.cell, t.now, a)
      // A pass hands on the registry's answer, and an answered end is final.
      && (a.FinishStreams? && a.done ==> w.closed && w.names == {})
    case Register(_) => true
    case Append(n, _) => n in w.streams
    case CloseRegistry => w.closed || InPhase(w.cell, Streams)
    case ExpireStream(n, deleted) => w.closed && n in w.streams && PageOf(w.streams[n], deleted)
    case FinalizeRegistry(finished) => w.closed && forall n :: n in finished ==> n in w.streams && Done(w.streams[n])
    case BeginStart => w.pass.Idle? && InPhase(w.cell, Retained) && w.cell.cleanup.value.dueAt <= t.now
    case CommitStart => w.pass.Starting? && RunRetention.Enabled(w.cell, t.now, Start(w.pass.generation))
    case BeginIndex(listed) => w.pass.Idle? && InPhase(w.cell, Index) &&
        PageOfKeys(listed, Markers(w.cell.keys), HOOK_MARKER_PAGE_SIZE)
    case CommitIndex => w.pass.IndexPage?
    case BeginStreams(first) => w.pass.Idle? && InPhase(w.cell, Streams) && Listing(first, w.names)
    case ExpireNext(deleted, _) =>
      && w.pass.StreamPage? && BudgetLeft(w.pass)
      && w.pass.todo[0] in w.streams && PageOf(w.streams[w.pass.todo[0]], deleted)
    case ReportStreams(_) => w.pass.StreamPage? && !BudgetLeft(w.pass)
    case CommitStreams => w.pass.StreamsReported?
    case BeginQueues(listed) =>
      w.pass.Idle? && InPhase(w.cell, Queues) &&
          PageOfKeys(listed, QueueEntries(w.cell.keys), QUEUE_PAYLOADS_PER_CLEANUP_PAGE)
    case CommitQueues => w.pass.QueuePage?
    case PayloadBatch(page) => w.pass.Idle? && RunRetention.Enabled(w.cell, t.now, DeletePayload(page))
    case Abandon => !w.pass.Idle?
  }

  function Generation(c: Cell): nat
    requires c.cleanup.Some?
  {
    c.cleanup.value.generation
  }

  /** The run cell's transaction in a step, if there is one. */
  function CellPart(w: World, t: Timed): Option<RunRetention.Action>
    requires Enabled(w, t)
  {
    match t.action
    case OnCell(a) => Some(a)
    case CommitStart => Some(Start(w.pass.generation))
    case CommitIndex => Some(FinishIndex(w.pass.generation, w.pass.listed, w.pass.more))
    case CommitStreams => Some(FinishStreams(w.pass.generation, w.pass.deleted, w.pass.done))
    case CommitQueues => Some(FinishQueues(w.pass.generation, w.pass.listed, w.pass.more))
    case PayloadBatch(page) => Some(DeletePayload(page))
    case _ => None
  }

  /** A step at the registry or the streams. */
  function Sweep(w: World, t: Timed): World
    requires Enabled(w, t)
  {
    match t.action
    case Register(n) =>
      if w.closed then w
      else w.(names := w.names + {n}, streams := if n in w.streams then w.streams else w.streams[n := Stream(0, false)])
    case Append(n, rows) =>
      if w.streams[n].fenced then w else w.(streams := w.streams[n := Stream(w.streams[n].rows + rows, false)])
    case CloseRegistry => w.(closed := true)
    case BeginStreams(_) => w.(closed := true)
    case ExpireStream(n, deleted) => w.(streams := Expire(w.streams, n, deleted))
    case ExpireNext(deleted, _) => w.(streams := Expire(w.streams, w.pass.todo[0], deleted))
    case FinalizeRegistry(finished) => w.(names := w.names - finished)
    case ReportStreams(_) => w.(names := w.names - w.pass.completed)
    case _ => w
  }

  /** What the observed pass knows after a step. */
  ghost function PassAfter(w: World, t: Timed): Pass
    requires Enabled(w, t)
  {
    match t.action
    case BeginStart => Starting(Generation(w.cell), MeasureOf(w))
    case BeginIndex(listed) => IndexPage(Generation(w.cell), listed, listed < Markers(w.cell.keys), MeasureOf(w))
    case BeginStreams(first) =>
      StreamPage(Generation(w.cell), first, {}, STREAM_CHUNKS_PER_CLEANUP_PAGE, STREAM_BYTES_PER_CLEANUP_PAGE,
                 MeasureOf(w))
    case ExpireNext(deleted, bytes) =>
      var p, n := w.pass, w.pass.todo[0];
      p.(todo := p.todo[1..], completed := if deleted == w.streams[n].rows then p.completed + {n} else p.completed,
         chunks := p.chunks - deleted, bytes := p.bytes - bytes)
    case ReportStreams(deleted) =>
      StreamsReported(w.pass.generation, deleted, w.names - w.pass.completed == {}, w.pass.begun)
    case BeginQueues(listed) => QueuePage(Generation(w.cell), listed, listed < QueueEntries(w.cell.keys), MeasureOf(w))
    case CommitStart | CommitIndex | CommitStreams | CommitQueues | Abandon => Idle
    case _ => w.pass
  }

  ghost function Next(w: World, t: Timed): World
    requires Enabled(w, t)
  {
    match CellPart(w, t)
    case Some(a) => w.(cell := RunRetention.Apply(w.cell, t.now, a), pass := PassAfter(w, t), clock := t.now)
    case None => Sweep(w, t).(pass := PassAfter(w, t), clock := t.now)
  }

  // ---- what the other calls do ---------------------------------------------------------------

  /** The other streams are as they were. */
  ghost predicate OnlyStream(before: map<Name, Stream>, after: map<Name, Stream>, n: Name) {
    && after.Keys == before.Keys + {n}
    && forall m :: m in before && m != n ==> after[m] == before[m]
  }

  /** An open registry takes a new name with an empty stream, a closed one takes none; a known stream stays. */
  lemma RegistersUntilClosed(w: World, now: nat, n: Name)
    requires w.clock <= now
    ensures
      var after := Next(w, Timed(now, Register(n)));
      && after.cell == w.cell && after.closed == w.closed && after.pass == w.pass
      && (forall m :: m in after.names <==> m in w.names || (m == n && !w.closed))
      && (if w.closed || n in w.streams then after.streams == w.streams
          else OnlyStream(w.streams, after.streams, n) && after.streams[n] == Stream(0, false))
  {
  }

  /** A stream takes rows until it is fenced, and none afterwards. */
  lemma AppendsUntilFenced(w: World, now: nat, n: Name, rows: nat)
    requires w.clock <= now && n in w.streams
    ensures
      var after := Next(w, Timed(now, Append(n, rows)));
      && after.(streams := w.streams, clock := w.clock) == w && OnlyStream(w.streams, after.streams, n)
      && after.streams[n].fenced == w.streams[n].fenced
      && after.streams[n].rows == w.streams[n].rows + if w.streams[n].fenced then 0 else rows
  {
  }

  /** A page of expiry fences its stream and takes its rows; finished names leave the registry. */
  lemma ExpiryLands(w: World, now: nat, n: Name, deleted: nat, finished: set<Name>)
    requires w.clock <= now && w.closed && n in w.streams && PageOf(w.streams[n], deleted)
    requires forall m :: m in finished ==> m in w.streams && Done(w.streams[m])
    ensures
      var after := Next(w, Timed(now, ExpireStream(n, deleted)));
      && after.(streams := w.streams, clock := w.clock) == w && OnlyStream(w.streams, after.streams, n)
      && after.streams[n].fenced && after.streams[n].rows + deleted == w.streams[n].rows
    ensures
      var after := Next(w, Timed(now, FinalizeRegistry(finished)));
      && after.(names := w.names, clock := w.clock) == w
      && forall m :: m in after.names <==> m in w.names && m !in finished
  {
  }

  /** The registry is closed by the first page of the streams phase, and by any other pass's. */
  lemma Closes(w: World, now: nat, first: seq<Name>)
    requires w.clock <= now && w.pass.Idle? && InPhase(w.cell, Streams) && Listing(first, w.names)
    ensures
      var after := Next(w, Timed(now, BeginStreams(first)));
      after.closed && after.names == w.names && after.streams == w.streams && after.cell == w.cell
    ensures
      var after := Next(w, Timed(now, CloseRegistry));
      after.closed && after.(closed := w.closed, clock := w.clock) == w
  {
  }

  // ---- counting ------------------------------------------------------------------------------------

  lemma SubsetCardinality<T>(a: set<T>, b: set<T>)
    requires a <= b
    ensures |a| <= |b| && (a != b ==> |a| < |b|)
  {
    assert b == a + (b - a);
  }

  lemma {:induction false} FencedRowsWithout(names: set<Name>, streams: map<Name, Stream>, n: Name)
    requires n in names
    ensures FencedRows(names, streams) ==
            (if n in streams && streams[n].fenced then streams[n].rows else 0) + FencedRows(names - {n}, streams)
    decreases |names|
  {
    var m :| m in names && FencedRows(names, streams) ==
             (if m in streams && streams[m].fenced then streams[m].rows else 0) + FencedRows(names - {m}, streams);
    if m != n {
      FencedRowsWithout(names - {m}, streams, n);
      FencedRowsWithout(names - {n}, streams, m);
      assert names - {m} - {n} == names - {n} - {m};
    }
  }

  lemma {:induction false} FencedRowsElsewhere(names: set<Name>, streams: map<Name, Stream>, n: Name, s: Stream)
    requires n !in names
    ensures FencedRows(names, streams[n := s]) == FencedRows(names, streams)
    decreases |names|
  {
    if names != {} {
      var m :| m in names;
      FencedRowsWithout(names, streams, m);
      FencedRowsWithout(names, streams[n := s], m);
      FencedRowsElsewhere(names - {m}, streams, n, s);
    }
  }

  // ---- the measure never rises --------------------------------------------------------------------------

  lemma LowerTransitive(a: Measure, b: Measure, c: Measure)
    requires AtMost(a, b) && AtMost(b, c)
    ensures AtMost(a, c) && (Lower(a, b) || Lower(b, c) ==> Lower(a, c))
  {
  }

  /** Before its phases begin, a record only appears, or moves to the first one. */
  lemma StartKeepsMeasure(c: Cell, now: nat, a: RunRetention.Action, sweep: Measure)
    requires c.cleanup.None? || c.cleanup.value.phase.Retained?
    requires Sound(c) && RunRetention.Enabled(c, now, a)
    ensures AtMost(CellMeasure(RunRetention.Apply(c, now, a), sweep), CellMeasure(c, sweep))
  {
  }

  /** In its phases, a step that leaves the phase alone only loses rows. */
  lemma RowsKeepMeasure(c: Cell, after: Cell, sweep: Measure)
    requires c.cleanup.Some? && after.cleanup.Some? && after.cleanup.value.phase == c.cleanup.value.phase
    requires after.keys <= c.keys
    ensures AtMost(CellMeasure(after, sweep), CellMeasure(c, sweep))
  {
    SubsetCardinality(Markers(after.keys), Markers(c.keys));
    SubsetCardinality(QueueEntries(after.keys), QueueEntries(c.keys));
    SubsetCardinality(after.keys, c.keys);
  }

  function PhaseRank(c: Cell): nat {
    match c.cleanup
    case None => 0
    case Some(r) =>
      match r.phase
      case Retained => 6
      case Index => 5
      case Streams => 4
      case Queues => 3
      case Payload => 2
      case Tombstoned => 1
  }

  /** Phases are never taken back. */
  lemma PhaseMovesOn(c: Cell, now: nat, a: RunRetention.Action)
    requires Sound(c) && c.cleanup.Some? && !c.cleanup.value.phase.Retained? && RunRetention.Enabled(c, now, a)
    ensures PhaseRank(RunRetention.Apply(c, now, a)) <= PhaseRank(c)
    ensures RunRetention.Apply(c, now, a).cleanup.None? ==> RunRetention.Apply(c, now, a).tombstone.Some?
  {
  }

  lemma CellKeepsMeasure(c: Cell, now: nat, a: RunRetention.Action, sweep: Measure)
    requires Sound(c) && RunRetention.Enabled(c, now, a) && sweep.phase == 4
    ensures AtMost(CellMeasure(RunRetention.Apply(c, now, a), sweep), CellMeasure(c, sweep))
  {
    if c.cleanup.None? || c.cleanup.value.phase.Retained? {
      StartKeepsMeasure(c, now, a, sweep);
    } else {
      var after := RunRetention.Apply(c, now, a);
      StepKeepsExpired(c, now, a, now);
      PhaseMovesOn(c, now, a);
      if PhaseRank(after) == PhaseRank(c) { RowsKeepMeasure(c, after, sweep); }
    }
  }

  /** A page of an expiring stream fences one more, or takes rows from one that was fenced; it
      changes nothing only when the stream was finished or is no longer registered. */
  lemma ExpireKeepsMeasure(names: set<Name>, streams: map<Name, Stream>, n: Name, deleted: nat)
    requires n in streams && PageOf(streams[n], deleted)
    ensures AtMost(StreamMeasure(true, names, Expire(streams, n, deleted)), StreamMeasure(true, names, streams))
    ensures n in names && !Done(streams[n]) ==>
              Lower(StreamMeasure(true, names, Expire(streams, n, deleted)), StreamMeasure(true, names, streams))
  {
    var after := Expire(streams, n, deleted);
    if n in names {
      FencedRowsWithout(names, streams, n);
      FencedRowsWithout(names, after, n);
      FencedRowsElsewhere(names - {n}, streams, n, after[n]);
      SubsetCardinality(Unfenced(names, after), Unfenced(names, streams));
      if !streams[n].fenced { assert n in Unfenced(names, streams) && n !in Unfenced(names, after); }
      else { assert Unfenced(names, after) == Unfenced(names, streams); }
    } else {
      FencedRowsElsewhere(names, streams, n, after[n]);
      assert Unfenced(names, after) == Unfenced(names, streams);
    }
  }

  lemma AppendKeepsMeasure(names: set<Name>, streams: map<Name, Stream>, n: Name, rows: nat)
    requires n in streams && !streams[n].fenced
    ensures StreamMeasure(true, names, streams[n := Stream(rows, false)]) == StreamMeasure(true, names, streams)
  {
    var after := streams[n := Stream(rows, false)];
    assert Unfenced(names, after) == Unfenced(names, streams);
    if n in names {
      FencedRowsWithout(names, streams, n);
      FencedRowsWithout(names, after, n);
      FencedRowsElsewhere(names - {n}, streams, n, after[n]);
    } else {
      FencedRowsElsewhere(names, streams, n, after[n]);
    }
  }

  lemma FinalizeKeepsMeasure(names: set<Name>, streams: map<Name, Stream>, finished: set<Name>)
    ensures AtMost(StreamMeasure(true, names - finished, streams), StreamMeasure(true, names, streams))
  {
    SubsetCardinality(names - finished, names);
  }

  lemma SweepKeepsMeasure(w: World, t: Timed)
    requires Enabled(w, t)
    ensures
      var after := Sweep(w, t);
      && after.cell == w.cell
      && AtMost(StreamMeasure(after.closed, after.names, after.streams), StreamMeasure(w.closed, w.names, w.streams))
  {
    match t.action
    case Append(n, rows) =>
        if !w.streams[n].fenced { AppendKeepsMeasure(w.names, w.streams, n, w.streams[n].rows + rows); }
    case ExpireStream(n, deleted) => ExpireKeepsMeasure(w.names, w.streams, n, deleted);
    case ExpireNext(deleted, _) => ExpireKeepsMeasure(w.names, w.streams, w.pass.todo[0], deleted);
    case FinalizeRegistry(finished) => FinalizeKeepsMeasure(w.names, w.streams, finished);
    case ReportStreams(_) => FinalizeKeepsMeasure(w.names, w.streams, w.pass.completed);
    case _ =>
  }

  /** No step raises the measure: not a writer, not another pass, not a failure. */
  lemma StepKeepsMeasure(w: World, t: Timed)
    requires Sound(w.cell) && Enabled(w, t)
    ensures AtMost(MeasureOf(Next(w, t)), MeasureOf(w))
  {
    match CellPart(w, t)
    case Some(a) => CellKeepsMeasure(w.cell, t.now, a, StreamMeasure(w.closed, w.names, w.streams));
    case None => SweepKeepsMeasure(w, t);
  }

  // ---- the invariant ---------------------------------------------------------------------------------

  predicate PastStreams(c: Cell) { c.tombstone.Some? || InPhase(c, Queues) || InPhase(c, Payload) }

  /** Every stream ever registered is still registered or finished; past its phase none is registered. */
  ghost predicate SweepInv(w: World) {
    match w case World(cell, _, closed, names, streams, _) =>
      && Sound(cell) && names <= streams.Keys
      && (forall n :: n in streams && n !in names ==> Done(streams[n]))
      && (PastStreams(cell) ==> closed && names == {})
      && (InPhase(cell, Streams) || PastStreams(cell) || !closed)
  }

  predicate FreshBudget(p: Pass)
    requires p.StreamPage?
  {
    p.chunks == STREAM_CHUNKS_PER_CLEANUP_PAGE && p.bytes == STREAM_BYTES_PER_CLEANUP_PAGE
  }

  function Elements(todo: seq<Name>): set<Name> { set n | n in todo }

  /** What an unfinished pass owes: at its commit the measure is below the one it began at. */
  ghost predicate PassInv(w: World) {
    match w.pass
    case Idle => true
    case Starting(_, begun) => begun.phase == 6 && AtMost(MeasureOf(w), begun)
    case IndexPage(_, listed, more, begun) =>
      && begun.phase == 5 && begun.open == 0 && AtMost(MeasureOf(w), begun) && Expired(w.cell, w.clock)
      && |Markers(w.cell.keys) + listed| <= begun.size && (more ==> listed != {})
    case StreamPage(_, todo, completed, chunks, bytes, begun) =>
      && begun.phase == 4 && AtMost(MeasureOf(w), begun) && w.closed
      && (forall n :: n in todo ==> n in w.streams)
      && (forall n :: n in completed ==> n in w.streams && Done(w.streams[n]))
      && (begun.open == 0 ==> |w.names + (completed + Elements(todo))| <= begun.size)
      && (Lower(MeasureOf(w), begun) || completed != {} || (FreshBudget(w.pass) && (todo == [] ==> w.names == {})))
    case StreamsReported(_, _, done, begun) =>
      && begun.phase == 4 && AtMost(MeasureOf(w), begun)
      && (done ==> w.closed && w.names == {}) && (done || Lower(MeasureOf(w), begun))
    case QueuePage(_, listed, more, begun) =>
      && begun.phase == 3 && begun.open == 0 && AtMost(MeasureOf(w), begun) && Expired(w.cell, w.clock)
      && |QueueEntries(w.cell.keys) + listed| <= begun.size && (more ==> listed != {})
  }

  lemma CellKeepsSweep(w: World, t: Timed)
    requires SweepInv(w) && PassInv(w) && Enabled(w, t) && CellPart(w, t).Some?
    ensures SweepInv(Next(w, t))
  {
    StepKeepsSound(w.cell, t.now, CellPart(w, t).value);
  }

  lemma OtherKeepsSweep(w: World, t: Timed)
    requires SweepInv(w) && PassInv(w) && Enabled(w, t) && CellPart(w, t).None?
    ensures SweepInv(Next(w, t))
  {
  }

  lemma StepKeepsSweep(w: World, t: Timed)
    requires SweepInv(w) && PassInv(w) && Enabled(w, t)
    ensures SweepInv(Next(w, t))
  {
    if CellPart(w, t).Some? { CellKeepsSweep(w, t); } else { OtherKeepsSweep(w, t); }
  }

  // ---- the observed pass ---------------------------------------------------------------------------------

  predicate OfOthers(a: Action) {
    a.OnCell? || a.Register? || a.Append? || a.CloseRegistry? || a.ExpireStream? || a.FinalizeRegistry? ||
        a.PayloadBatch?
  }

  lemma ListedStaysCounted<T>(now: set<T>, before: set<T>, listed: set<T>, bound: nat)
    requires now <= before && |before + listed| <= bound
    ensures |now + listed| <= bound
  {
    SubsetCardinality(now + listed, before + listed);
  }

  lemma ExpiredStays(w: World, t: Timed)
    requires SweepInv(w) && Enabled(w, t) && Expired(w.cell, w.clock)
    ensures Expired(Next(w, t).cell, t.now) && Next(w, t).cell.keys <= w.cell.keys
  {
    match CellPart(w, t)
    case Some(a) =>
      StepKeepsExpired(w.cell, t.now, a, t.now);
    case None =>
  }

  lemma OthersKeepKeyPages(w: World, t: Timed)
    requires SweepInv(w) && PassInv(w) && Enabled(w, t) && OfOthers(t.action)
    requires w.pass.IndexPage? || w.pass.QueuePage?
    ensures PassInv(Next(w, t))
  {
    StepKeepsMeasure(w, t);
    ExpiredStays(w, t);
    var after := Next(w, t);
    LowerTransitive(MeasureOf(after), MeasureOf(w), w.pass.begun);
    ListedStaysCounted(Markers(after.cell.keys), Markers(w.cell.keys), w.pass.listed,
                       if w.pass.IndexPage? then w.pass.begun.size else |Markers(w.cell.keys) + w.pass.listed|);
    ListedStaysCounted(QueueEntries(after.cell.keys), QueueEntries(w.cell.keys), w.pass.listed,
                       if w.pass.QueuePage? then w.pass.begun.size else |QueueEntries(w.cell.keys) + w.pass.listed|);
  }

  lemma OthersKeepStreams(w: World, t: Timed)
    requires SweepInv(w) && Enabled(w, t) && OfOthers(t.action) && w.closed
    ensures var after := Next(w, t); after.closed && after.names <= w.names && after.streams.Keys == w.streams.Keys
    ensures forall n :: n in w.streams && Done(w.streams[n]) ==> Done(Next(w, t).streams[n])
  {
  }

  lemma OthersKeepStreamPages(w: World, t: Timed)
    requires SweepInv(w) && PassInv(w) && Enabled(w, t) && OfOthers(t.action)
    requires w.pass.StreamPage? || w.pass.StreamsReported? || w.pass.Starting?
    ensures PassInv(Next(w, t))
  {
    StepKeepsMeasure(w, t);
    var after := Next(w, t);
    LowerTransitive(MeasureOf(after), MeasureOf(w), w.pass.begun);
    if w.closed { OthersKeepStreams(w, t); }
    if w.pass.StreamPage? {
      var owed := w.pass.completed + Elements(w.pass.todo);
      ListedStaysCounted(after.names, w.names, owed, |w.names + owed|);
    }
  }

  lemma BeginKeepsPass(w: World, t: Timed)
    requires SweepInv(w) && Enabled(w, t)
    requires t.action.BeginStart? || t.action.BeginIndex? || t.action.BeginQueues?
    ensures PassInv(Next(w, t))
  {
    match t.action
    case BeginIndex(listed) => assert Markers(w.cell.keys) + listed == Markers(w.cell.keys);
    case BeginQueues(listed) => assert QueueEntries(w.cell.keys) + listed == QueueEntries(w.cell.keys);
    case _ =>
  }

  lemma BeginStreamsKeepsPass(w: World, t: Timed)
    requires SweepInv(w) && Enabled(w, t) && t.action.BeginStreams?
    ensures PassInv(Next(w, t))
  {
    StepKeepsMeasure(w, t);
    var listed := t.action.first;
    assert w.names + ({} + Elements(listed)) == w.names;
    if listed == [] { assert w.names == {}; }
  }

  /** A page moves its stream from the listing to the finished ones, or out of the listing. */
  lemma FirstMoves(todo: seq<Name>, completed: set<Name>, after: set<Name>)
    requires todo != [] && (after == completed || after == completed + {todo[0]})
    ensures after + Elements(todo[1..]) <= completed + Elements(todo)
    ensures todo[0] in todo && forall n :: n in todo[1..] ==> n in todo
  {
    assert todo == [todo[0]] + todo[1..];
  }

  lemma FinishedStays(w: World, t: Timed)
    requires PassInv(w) && Enabled(w, t) && t.action.ExpireNext?
    ensures forall n :: n in Next(w, t).pass.completed ==> n in Next(w, t).streams && Done(Next(w, t).streams[n])
  {
  }

  lemma ExpireNextKeepsPass(w: World, t: Timed)
    requires SweepInv(w) && PassInv(w) && Enabled(w, t) && t.action.ExpireNext?
    ensures PassInv(Next(w, t))
  {
    StepKeepsMeasure(w, t);
    var p, after := w.pass, Next(w, t);
    LowerTransitive(MeasureOf(after), MeasureOf(w), p.begun);
    FirstMoves(p.todo, p.completed, after.pass.completed);
    FinishedStays(w, t);
    SubsetCardinality(after.names + (after.pass.completed + Elements(after.pass.todo)),
                      w.names + (p.completed + Elements(p.todo)));
    if after.pass.completed == {} { Unfinished(w, t); }
  }

  /** A page that does not finish its stream lowers the measure. */
  lemma Unfinished(w: World, t: Timed)
    requires SweepInv(w) && PassInv(w) && Enabled(w, t) && t.action.ExpireNext?
    requires t.action.deleted < w.streams[w.pass.todo[0]].rows
    ensures Lower(MeasureOf(Next(w, t)), w.pass.begun)
  {
    var n := w.pass.todo[0];
    assert n in w.names && !Done(w.streams[n]);
    ExpireKeepsMeasure(w.names, w.streams, n, t.action.deleted);
    LowerTransitive(MeasureOf(Next(w, t)), MeasureOf(w), w.pass.begun);
  }

  /** The registry's answer: finished, or the pass has brought the measure down. */
  lemma ReportKeepsPass(w: World, t: Timed)
    requires SweepInv(w) && PassInv(w) && Enabled(w, t) && t.action.ReportStreams?
    ensures PassInv(Next(w, t))
  {
    StepKeepsMeasure(w, t);
    var p, after := w.pass, Next(w, t);
    LowerTransitive(MeasureOf(after), MeasureOf(w), p.begun);
    if after.names != {} && !Lower(MeasureOf(w), p.begun) {
      var n :| n in p.completed;
      assert n in w.names + (p.completed + Elements(p.todo)) && n !in after.names;
      SubsetCardinality(after.names, w.names + (p.completed + Elements(p.todo)));
    }
  }

  lemma StepKeepsPass(w: World, t: Timed)
    requires SweepInv(w) && PassInv(w) && Enabled(w, t)
    ensures PassInv(Next(w, t))
  {
    if OfOthers(t.action) {
      match w.pass
      case Idle =>
      case IndexPage(_, _, _, _) => OthersKeepKeyPages(w, t);
      case QueuePage(_, _, _, _) => OthersKeepKeyPages(w, t);
      case _ => OthersKeepStreamPages(w, t);
    } else {
      match t.action
      case BeginStart => BeginKeepsPass(w, t);
      case BeginIndex(_) => BeginKeepsPass(w, t);
      case BeginQueues(_) => BeginKeepsPass(w, t);
      case BeginStreams(_) => BeginStreamsKeepsPass(w, t);
      case ExpireNext(_, _) => ExpireNextKeepsPass(w, t);
      case ReportStreams(_) => ReportKeepsPass(w, t);
      case _ =>
    }
  }

  // ---- theorems ---------------------------------------------------------------------------------------------

  ghost predicate Inv(w: World) { match w case World(_, _, _, _, _, _) => SweepInv(w) && PassInv(w) }

  lemma StepKeepsInv(w: World, t: Timed)
    requires Inv(w) && Enabled(w, t)
    ensures Inv(Next(w, t))
  {
    StepKeepsSweep(w, t);
    StepKeepsPass(w, t);
  }

  /** The pass found the record it had read. */
  predicate Succeeds(w: World, a: Action) {
    match a
    case CommitStart => w.pass.Starting? && Current(w.cell, Retained, w.pass.generation)
    case CommitIndex => w.pass.IndexPage? && Current(w.cell, Index, w.pass.generation)
    case CommitStreams => w.pass.StreamsReported? && Current(w.cell, Streams, w.pass.generation)
    case CommitQueues => w.pass.QueuePage? && Current(w.cell, Queues, w.pass.generation)
    case _ => false
  }

  lemma KeyPageLowers(c: Cell, now: nat, a: RunRetention.Action, begun: Measure, sweep: Measure)
    requires a.FinishIndex? || a.FinishQueues?
    requires a.FinishIndex? ==>
               Current(c, Index, a.generation) && begun.phase == 5 && begun.open == 0 &&
                   |Markers(c.keys) + a.listed| <= begun.size
    requires a.FinishQueues? ==>
               Current(c, Queues, a.generation) && begun.phase == 3 && begun.open == 0 &&
                   |QueueEntries(c.keys) + a.listed| <= begun.size
    requires a.more ==> a.listed != {}
    requires sweep.phase == 4
    ensures Lower(CellMeasure(RunRetention.Apply(c, now, a), sweep), begun)
  {
    if a.more {
      if a.FinishIndex? { PageRemoves(Markers(c.keys), a.listed, Markers(c.keys - a.listed)); }
      else { PageRemoves(QueueEntries(c.keys), a.listed, QueueEntries(c.keys - a.listed)); }
    }
  }

  lemma CommitStreamsLowers(w: World, t: Timed)
    requires PassInv(w) && Enabled(w, t) && Succeeds(w, t.action) && t.action.CommitStreams?
    ensures Lower(MeasureOf(Next(w, t)), w.pass.begun)
  {
  }

  lemma CommitStartLowers(w: World, t: Timed)
    requires PassInv(w) && Enabled(w, t) && Succeeds(w, t.action) && t.action.CommitStart?
    ensures Lower(MeasureOf(Next(w, t)), w.pass.begun)
  {
  }

  /** A successful page leaves the measure below the one it began at. */
  lemma CommitLowers(w: World, t: Timed)
    requires Inv(w) && Enabled(w, t) && Succeeds(w, t.action)
    ensures Lower(MeasureOf(Next(w, t)), w.pass.begun)
  {
    match t.action
    case CommitStart => CommitStartLowers(w, t);
    case CommitStreams => CommitStreamsLowers(w, t);
    case CommitIndex =>
        KeyPageLowers(w.cell, t.now, CellPart(w, t).value, w.pass.begun, StreamMeasure(w.closed, w.names, w.streams));
    case CommitQueues =>
        KeyPageLowers(w.cell, t.now, CellPart(w, t).value, w.pass.begun, StreamMeasure(w.closed, w.names, w.streams));
    case _ =>
  }

  lemma PageRemoves<T>(all: set<T>, listed: set<T>, left: set<T>)
    requires listed != {} && left == all - listed
    ensures |left| < |all + listed|
  {
    var k :| k in listed;
    assert k in all + listed && k !in left;
    SubsetCardinality(left, all + listed);
  }

  /** A payload page is one transaction. */
  lemma PayloadLowers(w: World, t: Timed)
    requires Inv(w) && Enabled(w, t) && t.action.PayloadBatch? && InPayload(w.cell)
    ensures Lower(MeasureOf(Next(w, t)), MeasureOf(w))
  {
    var page := t.action.page;
    if page != {} { PageRemoves(w.cell.keys, page, w.cell.keys - page); assert w.cell.keys + page == w.cell.keys; }
  }

  ghost function After(w: World, steps: seq<Timed>): World
    requires Behaviour(w, steps)
    decreases |steps|, 1
  {
    if steps == [] then w else Next(After(w, steps[..|steps| - 1]), steps[|steps| - 1])
  }

  ghost predicate Behaviour(w: World, steps: seq<Timed>)
    decreases |steps|, 0
  {
    steps == [] || (Behaviour(w, steps[..|steps| - 1]) && Enabled(After(w, steps[..|steps| - 1]), steps[|steps| - 1]))
  }

  lemma {:induction false} BehaviourKeepsInv(w: World, steps: seq<Timed>)
    requires Inv(w) && Behaviour(w, steps)
    ensures Inv(After(w, steps)) && AtMost(MeasureOf(After(w, steps)), MeasureOf(w))
  {
    if steps != [] {
      var before, last := After(w, steps[..|steps| - 1]), steps[|steps| - 1];
      BehaviourKeepsInv(w, steps[..|steps| - 1]);
      StepKeepsInv(before, last);
      StepKeepsMeasure(before, last);
      LowerTransitive(MeasureOf(Next(before, last)), MeasureOf(before), MeasureOf(w));
    }
  }

  /** When cleanup has ended, the tombstone is the run cell's only row, the registry is closed and
      empty, and every stream that was ever registered is fenced and has no row. */
  lemma CleanupEndsClean(steps: seq<Timed>)
    requires Behaviour(EMPTY_WORLD, steps)
    ensures
      var w := After(EMPTY_WORLD, steps);
      w.cell.tombstone.Some? && w.cell.cleanup.None? ==>
        w.cell.keys == {} && w.closed && w.names == {} && forall n :: n in w.streams ==> Done(w.streams[n])
  {
    BehaviourKeepsInv(EMPTY_WORLD, steps);
  }

  predicate Begins(a: Action) { a.BeginStart? || a.BeginIndex? || a.BeginStreams? || a.BeginQueues? }

  /** The pass that is under way began at the measure of `w`. */
  lemma {:induction false} BegunStays(w: World, steps: seq<Timed>)
    requires Behaviour(w, steps) && !w.pass.Idle? && forall i :: 0 <= i < |steps| ==> !Begins(steps[i].action)
    ensures After(w, steps).pass.Idle? || After(w, steps).pass.begun == w.pass.begun
  {
    if steps != [] {
      var before := steps[..|steps| - 1];
      assert forall i :: 0 <= i < |before| ==> before[i] == steps[i];
      BegunStays(w, before);
    }
  }

  /** A page of cleanup: from its begin to its successful commit, with any other steps in between;
      or one payload batch. */
  datatype Page = Paged(begin: Timed, between: seq<Timed>, commit: Timed) | Batch(step: Timed)

  ghost predicate Runs(w: World, page: Page) {
    match page
    case Batch(step) => Enabled(w, step) && step.action.PayloadBatch? && InPayload(w.cell)
    case Paged(begin, between, commit) =>
      && Enabled(w, begin) && Begins(begin.action)
      && Behaviour(Next(w, begin), between) && (forall i :: 0 <= i < |between| ==> !Begins(between[i].action))
      && Enabled(After(Next(w, begin), between), commit)
      && Succeeds(After(Next(w, begin), between), commit.action)
  }

  ghost function EndOf(w: World, page: Page): World
    requires Runs(w, page)
  {
    match page
    case Batch(step) => Next(w, step)
    case Paged(begin, between, commit) => Next(After(Next(w, begin), between), commit)
  }

  lemma PagedLowers(w: World, begin: Timed, between: seq<Timed>, commit: Timed)
    requires Inv(w) && Runs(w, Paged(begin, between, commit))
    ensures
      var end := EndOf(w, Paged(begin, between, commit));
      Inv(end) && Lower(MeasureOf(end), MeasureOf(w))
  {
    var begun := Next(w, begin);
    StepKeepsInv(w, begin);
    assert begun.pass.begun == MeasureOf(w);
    BehaviourKeepsInv(begun, between);
    BegunStays(begun, between);
    var ready := After(begun, between);
    StepKeepsInv(ready, commit);
    CommitLowers(ready, commit);
  }

  /** Every successful page strictly lowers the measure, whatever happened while it was under way. */
  lemma PageLowersMeasure(w: World, page: Page)
    requires Inv(w) && Runs(w, page)
    ensures Inv(EndOf(w, page)) && Lower(MeasureOf(EndOf(w, page)), MeasureOf(w))
  {
    match page
    case Batch(step) => PayloadLowers(w, step); StepKeepsInv(w, step);
    case Paged(begin, between, commit) => PagedLowers(w, begin, between, commit);
  }

  // ---- a page can always run ----------------------------------------------------------------------------------

  lemma {:induction false} TakeSome<T>(all: set<T>, n: nat) returns (page: set<T>)
    ensures page <= all && |page| == Min(n, |all|)
    decreases n
  {
    page := {};
    if n > 0 && all != {} {
      var k :| k in all;
      var rest := TakeSome(all - {k}, n - 1);
      page := rest + {k};
    }
  }

  lemma {:induction false} TakeListing<T>(all: set<T>, n: nat) returns (listed: seq<T>)
    ensures (forall k :: k in listed ==> k in all) && |listed| == Min(n, |all|)
    decreases n
  {
    listed := [];
    if n > 0 && all != {} {
      var k :| k in all;
      var rest := TakeListing(all - {k}, n - 1);
      listed := [k] + rest;
    }
  }

  lemma AfterOne(w: World, t: Timed)
    requires Enabled(w, t)
    ensures Behaviour(w, [t]) && After(w, [t]) == Next(w, t)
  {
    assert [t][..0] == [];
    assert Behaviour(w, []) && After(w, []) == w;
  }

  lemma AfterTwo(w: World, t: Timed, u: Timed)
    requires Enabled(w, t) && Enabled(Next(w, t), u)
    ensures Behaviour(w, [t, u]) && After(w, [t, u]) == Next(Next(w, t), u)
  {
    AfterOne(w, t);
    assert [t, u][..1] == [t];
  }

  lemma KeyPageAvailable(w: World, now: nat) returns (page: Page)
    requires Inv(w) && w.pass.Idle? && w.clock <= now && (InPhase(w.cell, Index) || InPhase(w.cell, Queues))
    ensures Runs(w, page)
  {
    var index := InPhase(w.cell, Index);
    var listed := TakeSome(if index then Markers(w.cell.keys) else QueueEntries(w.cell.keys),
                           if index then HOOK_MARKER_PAGE_SIZE else QUEUE_PAYLOADS_PER_CLEANUP_PAGE);
    page := Paged(Timed(now, if index then BeginIndex(listed) else BeginQueues(listed)), [],
                  Timed(now, if index then CommitIndex else CommitQueues));
    assert Behaviour(Next(w, page.begin), []);
  }

  lemma EmptyStreamPage(w: World, now: nat) returns (page: Page)
    requires Inv(w) && w.pass.Idle? && w.clock <= now && InPhase(w.cell, Streams) && w.names == {}
    ensures Runs(w, page)
  {
    var begin, report := Timed(now, BeginStreams([])), Timed(now, ReportStreams(0));
    AfterOne(Next(w, begin), report);
    page := Paged(begin, [report], Timed(now, CommitStreams));
  }

  /** A stream pass on `first` that expires its first stream whole. */
  function ExpireFirst(w: World, now: nat, first: seq<Name>): Timed
    requires first != [] && first[0] in w.streams
  {
    Timed(now, ExpireNext(w.streams[first[0]].rows, STREAM_BYTES_PER_CLEANUP_PAGE))
  }

  lemma FirstExpires(w: World, now: nat, first: seq<Name>)
    requires Inv(w) && w.pass.Idle? && w.clock <= now && InPhase(w.cell, Streams)
    requires Listing(first, w.names) && first != []
    ensures first[0] in w.streams && Enabled(w, Timed(now, BeginStreams(first)))
    ensures Enabled(Next(w, Timed(now, BeginStreams(first))), ExpireFirst(w, now, first))
  {
    assert first[0] in first && first[0] in w.names;
  }

  lemma FirstReported(w: World, now: nat, first: seq<Name>)
    requires Inv(w) && w.pass.Idle? && w.clock <= now && InPhase(w.cell, Streams)
    requires Listing(first, w.names) && first != [] && first[0] in w.streams
    ensures
      var expired := Next(Next(w, Timed(now, BeginStreams(first))), ExpireFirst(w, now, first));
      var reported := Next(expired, Timed(now, ReportStreams(0)));
      && Enabled(expired, Timed(now, ReportStreams(0)))
      && Enabled(reported, Timed(now, CommitStreams)) && Succeeds(reported, CommitStreams)
  {
    assert first[0] in first && first[0] in w.names;
  }

  lemma TwoStepPage(w: World, begin: Timed, first: Timed, second: Timed, commit: Timed)
    requires Enabled(w, begin) && Begins(begin.action) && !Begins(first.action) && !Begins(second.action)
    requires Enabled(Next(w, begin), first) && Enabled(Next(Next(w, begin), first), second)
    requires Enabled(Next(Next(Next(w, begin), first), second), commit)
    requires Succeeds(Next(Next(Next(w, begin), first), second), commit.action)
    ensures Runs(w, Paged(begin, [first, second], commit))
  {
    AfterTwo(Next(w, begin), first, second);
  }

  lemma OneStreamPage(w: World, now: nat, first: seq<Name>) returns (page: Page)
    requires Inv(w) && w.pass.Idle? && w.clock <= now && InPhase(w.cell, Streams)
    requires Listing(first, w.names) && first != []
    ensures Runs(w, page)
  {
    FirstExpires(w, now, first);
    FirstReported(w, now, first);
    var begin, report, commit :=
        Timed(now, BeginStreams(first)), Timed(now, ReportStreams(0)), Timed(now, CommitStreams);
    TwoStepPage(w, begin, ExpireFirst(w, now, first), report, commit);
    page := Paged(begin, [ExpireFirst(w, now, first), report], commit);
  }

  lemma StreamPageAvailable(w: World, now: nat) returns (page: Page)
    requires Inv(w) && w.pass.Idle? && w.clock <= now && InPhase(w.cell, Streams)
    ensures Runs(w, page)
  {
    var first := TakeListing(w.names, STREAMS_PER_CLEANUP_PAGE);
    if first == [] { page := EmptyStreamPage(w, now); } else { page := OneStreamPage(w, now, first); }
  }

  /** Between passes, as long as a due record is stored, a page can run to a successful end: cleanup
      stops only when the record is gone. */
  lemma PageAvailable(w: World, now: nat) returns (page: Page)
    requires Inv(w) && w.pass.Idle? && w.clock <= now && w.cell.cleanup.Some?
    requires w.cell.cleanup.value.dueAt <= now || !w.cell.cleanup.value.phase.Retained?
    ensures Runs(w, page)
  {
    match w.cell.cleanup.value.phase
    case Retained =>
      page := Paged(Timed(now, BeginStart), [], Timed(now, CommitStart));
      assert Behaviour(Next(w, page.begin), []);
    case Streams => page := StreamPageAvailable(w, now);
    case Payload =>
      var keys := TakeSome(w.cell.keys, PAYLOAD_DELETE_BATCH);
      page := Batch(Timed(now, PayloadBatch(keys)));
    case _ => page := KeyPageAvailable(w, now);
  }

  // ---- termination ------------------------------------------------------------------------------------------------

  /** A page that runs to its end, and what others do before the next one. */
  datatype Leg = Leg(start: World, page: Page, pause: seq<Timed>)

  ghost function Reached(leg: Leg): Option<World> {
    if Runs(leg.start, leg.page) && Behaviour(EndOf(leg.start, leg.page), leg.pause)
    then Some(After(EndOf(leg.start, leg.page), leg.pause)) else None
  }

  ghost predicate Leads(leg: Leg, next: Leg) {
    match Reached(leg)
    case None => false
    case Some(w) => w == next.start
  }

  lemma NextIsLower(leg: Leg, next: Leg)
    requires Inv(leg.start) && Leads(leg, next)
    ensures Inv(next.start) && Lower(MeasureOf(next.start), MeasureOf(leg.start))
  {
    var end := EndOf(leg.start, leg.page);
    PageLowersMeasure(leg.start, leg.page);
    BehaviourKeepsInv(end, leg.pause);
    LowerTransitive(MeasureOf(next.start), MeasureOf(end), MeasureOf(leg.start));
  }

  lemma {:induction false} NoEndlessDescent(m: nat -> Measure, sound: nat -> bool, down: nat -> bool, k: nat)
    returns (last: nat)
    requires sound(k) && forall i: nat :: sound(i) && down(i) ==> sound(i + 1) && Lower(m(i + 1), m(i))
    ensures last >= k && !down(last)
    decreases m(k).phase, m(k).open, m(k).size, m(k).unfenced, m(k).rows
  {
    if down(k) { last := NoEndlessDescent(m, sound, down, k + 1); } else { last := k; }
  }

  /** Cleanup terminates: successful pages cannot follow each other for ever. */
  lemma CleanupTerminates(legs: nat -> Leg, reached: nat -> bool) returns (last: nat)
    requires Inv(legs(0).start) && forall j: nat :: reached(j) ==> Leads(legs(j), legs(j + 1))
    ensures !reached(last)
  {
    forall i: nat | Inv(legs(i).start) && reached(i)
      ensures Inv(legs(i + 1).start) && Lower(MeasureOf(legs(i + 1).start), MeasureOf(legs(i).start))
    {
      NextIsLower(legs(i), legs(i + 1));
    }
    last := NoEndlessDescent((i: nat) => MeasureOf(legs(i).start), (i: nat) => Inv(legs(i).start), reached, 0);
  }
}
