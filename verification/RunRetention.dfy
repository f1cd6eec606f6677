/** The retention record of one run cell: scheduling, the permanent expiry fence and the
    transactions of its cleanup (src/worker/durable-objects/WorkflowRunDO.ts, src/retention.ts). */
module RunRetention {
  import opened Prelude

  const MAX_DATE_MS: nat := 8_640_000_000_000_000
  const HOOK_MARKER_PAGE_SIZE: nat := 64
  const QUEUE_PAYLOADS_PER_CLEANUP_PAGE: nat := 128
  const PAYLOAD_DELETE_BATCH: nat := 128

  datatype Phase = Retained | Index | Streams | Queues | Payload | Tombstoned

  datatype Record = Record(
    dueAt: nat, phase: Phase, generation: nat, attempts: nat, tombstonedAt: Option<nat>,
    deletedPayloadKeys: nat, deletedStreams: nat, deletedQueuePayloads: nat)

  datatype Tombstone = Tombstone(expiredAt: nat, tombstonedAt: nat, cleanup: Record)

  /** Every other row of the cell, by what cleanup looks for. */
  datatype Key = HookMarker(hook: string, token: string) | QueueEntry(message: string) | TheRun | Row(name: string)

  /** The dates of the run row, when there is one. */
  datatype Run = Run(createdAt: nat, completedAt: Option<nat>, expiredAt: Option<nat>)

  datatype Cell = Cell(cleanup: Option<Record>, tombstone: Option<Tombstone>, keys: set<Key>, run: Run)

  const EMPTY := Cell(None, None, {}, Run(0, None, None))

  // ---- the expiry fence --------------------------------------------------------------------

  function CleanupTombstone(r: Record, now: nat): Tombstone {
    Tombstone(r.dueAt, now, r.(phase := Tombstoned, tombstonedAt := Some(now)))
  }

  function TombstoneFrom(c: Cell, now: nat): Option<Tombstone> {
    match c.tombstone
    case Some(_) => c.tombstone
    case None =>
      match c.cleanup
      case None => None
      case Some(r) =>
        if r.phase.Retained? && r.dueAt > now then None
        else Some(CleanupTombstone(r, if r.tombstonedAt.Some? then r.tombstonedAt.value else r.dueAt))
  }

  predicate Expired(c: Cell, now: nat) { TombstoneFrom(c, now).Some? }

  // ---- scheduling ------------------------------------------------------------------------------

  /** The deadline, unless it is out of range. */
  function Deadline(base: nat, retention: nat): Option<nat> {
    if base + retention > MAX_DATE_MS then None else Some(base + retention)
  }

  function NewRecord(dueAt: nat): Record { Record(dueAt, Retained, 0, 0, None, 0, 0, 0) }

  function Stamped(c: Cell, dueAt: nat, r: Record): Cell {
    c.(cleanup := Some(r), run := if TheRun in c.keys then c.run.(expiredAt := Some(dueAt)) else c.run)
  }

  function DoSchedule(c: Cell, retention: nat): Cell {
    if c.cleanup.Some? || c.tombstone.Some? || TheRun !in c.keys || c.run.completedAt.None? then c
    else match Deadline(c.run.completedAt.value, retention)
      case None => c
      case Some(dueAt) => Stamped(c, dueAt, NewRecord(dueAt))
  }

  function DoEnforce(c: Cell, retention: nat, scheduledTime: nat): Cell {
    if c.tombstone.Some? || TheRun !in c.keys then c
    else match Deadline(c.run.createdAt, retention)
      case None => c
      case Some(dueAt) =>
        if dueAt > scheduledTime then c
        else match c.cleanup
          case None => Stamped(c, dueAt, NewRecord(dueAt))
          case Some(r) =>
            if r.phase.Retained? && dueAt < r.dueAt
            then Stamped(c, dueAt, r.(dueAt := dueAt, generation := r.generation + 1)) else c
  }

  function DoCleanupNow(c: Cell, now: nat): Cell {
    match c.cleanup
    case None => c
    case Some(r) =>
      if r.phase.Tombstoned? then c else Stamped(c, now, r.(dueAt := now, generation := r.generation + 1))
  }

  // ---- the ends of cleanup pages ----------------------------------------------------------------

  /** The record a pass read is still the one stored. */
  predicate Current(c: Cell, phase: Phase, generation: nat) {
    match c.cleanup
    case None => false
    case Some(r) => r.phase == phase && r.generation == generation
  }

  function Moved(r: Record, phase: Phase): Record { r.(phase := phase, generation := r.generation + 1, attempts := 0) }

  function DoStart(c: Cell, generation: nat): Cell {
    if Current(c, Retained, generation) then c.(cleanup := Some(Moved(c.cleanup.value, Index))) else c
  }

  function DoFinishIndex(c: Cell, generation: nat, listed: set<Key>, more: bool): Cell {
    if !Current(c, Index, generation) then c
    else c.(keys := c.keys - listed, cleanup := Some(Moved(c.cleanup.value, if more then Index else Streams)))
  }

  function DoFinishStreams(c: Cell, generation: nat, deleted: nat, done: bool): Cell {
    if !Current(c, Streams, generation) then c
    else c.(cleanup := Some(Moved(c.cleanup.value, if done then Queues else Streams).(deletedStreams := deleted)))
  }

  function DoFinishQueues(c: Cell, generation: nat, listed: set<Key>, more: bool): Cell {
    if !Current(c, Queues, generation) then c
    else
      var r := c.cleanup.value;
      c.(keys := c.keys - listed,
         cleanup := Some(Moved(r, if more then Queues else Payload)
                         .(deletedQueuePayloads := r.deletedQueuePayloads + |listed|)))
  }

  predicate InPayload(c: Cell) { c.cleanup.Some? && c.cleanup.value.phase.Payload? }

  /** One batch of rows, or the tombstone alone when none are left. */
  function DoPayload(c: Cell, now: nat, page: set<Key>): Cell {
    if !InPayload(c) then c
    else
      var r := c.cleanup.value;
      if page != {} then
        Cell(Some(r.(deletedPayloadKeys := r.deletedPayloadKeys + |page|, generation := r.generation + 1)),
             Some(CleanupTombstone(r, now)), c.keys - page, c.run)
      else
        var completed := Moved(r, Tombstoned).(tombstonedAt := Some(now));
        Cell(None, Some(CleanupTombstone(completed, now)), c.keys, c.run)
  }

  function DoFail(c: Cell, phase: Phase, generation: nat): Cell {
    if !Current(c, phase, generation) || phase.Tombstoned? then c
    else
      var r := c.cleanup.value;
      c.(cleanup := Some(r.(generation := r.generation + 1, attempts := r.attempts + 1)))
  }

  // ---- the other writers of the cell --------------------------------------------------------------

  /** A guarded transaction: an event, a hook resolution, a payload registration, a queue
      reservation or delivery claim. It may end the run and schedule its retention. */
  function DoWrite(c: Cell, now: nat, adds: set<Key>, drops: set<Key>, run: Run, dueAt: Option<nat>): Cell {
    if Expired(c, now) then c
    else
      Cell(if c.cleanup.None? && dueAt.Some? then Some(NewRecord(dueAt.value)) else c.cleanup,
           c.tombstone, (c.keys - drops) + adds, run)
  }

  datatype Action =
    | Write(adds: set<Key>, drops: set<Key>, run: Run, dueAt: Option<nat>)
    // Terminal cleanup, unregistration and the unguarded queue calls only rewrite or delete rows.
    | Drop(drops: set<Key>)
    | Schedule(retention: nat)
    | Enforce(retention: nat, scheduledTime: nat)
    | CleanupNow
    | Start(generation: nat)
    | FinishIndex(generation: nat, listed: set<Key>, more: bool)
    | FinishStreams(generation: nat, deleted: nat, done: bool)
    | FinishQueues(generation: nat, listed: set<Key>, more: bool)
    | DeletePayload(page: set<Key>)
    | Fail(phase: Phase, generation: nat)

  function Apply(c: Cell, now: nat, a: Action): Cell {
    match a
    case Write(adds, drops, run, dueAt) => DoWrite(c, now, adds, drops, run, dueAt)
    case Drop(drops) => c.(keys := c.keys - drops)
    case Schedule(retention) => DoSchedule(c, retention)
    case Enforce(retention, scheduledTime) => DoEnforce(c, retention, scheduledTime)
    case CleanupNow => DoCleanupNow(c, now)
    case Start(generation) => DoStart(c, generation)
    case FinishIndex(generation, listed, more) => DoFinishIndex(c, generation, listed, more)
    case FinishStreams(generation, deleted, done) => DoFinishStreams(c, generation, deleted, done)
    case FinishQueues(generation, listed, more) => DoFinishQueues(c, generation, listed, more)
    case DeletePayload(page) => DoPayload(c, now, page)
    case Fail(phase, generation) => DoFail(c, phase, generation)
  }

  /** Pages delete rows of the cell; a payload page is empty only when no row is left. A pass
      starts only when it is due. */
  predicate Enabled(c: Cell, now: nat, a: Action) {
    match a
    case Start(_) => c.cleanup.Some? ==> c.cleanup.value.dueAt <= now
    case DeletePayload(page) => page <= c.keys && |page| == Min(PAYLOAD_DELETE_BATCH, |c.keys|)
    case _ => true
  }

  // ---- what every step keeps -------------------------------------------------------------------------

  /** A tombstone stands beside the payload phase, or alone. */
  predicate Sound(c: Cell) {
    && (c.cleanup.Some? ==> !c.cleanup.value.phase.Tombstoned?)
    && (c.tombstone.Some? ==> if c.cleanup.Some? then c.cleanup.value.phase.Payload? else c.keys == {})
  }

  lemma StepKeepsSound(c: Cell, now: nat, a: Action)
    requires Sound(c) && Enabled(c, now, a)
    ensures Sound(Apply(c, now, a))
  {
  }

  /** Expiry survives the step and all later times, and an expired cell only loses rows. */
  lemma StepKeepsExpired(c: Cell, now: nat, a: Action, later: nat)
    requires Sound(c) && Enabled(c, now, a) && Expired(c, now) && now <= later
    ensures Expired(Apply(c, now, a), later) && Apply(c, now, a).keys <= c.keys
  {
  }

  /** A record that kept its generation was not touched. */
  lemma GenerationNamesRecord(c: Cell, now: nat, a: Action)
    requires c.cleanup.Some? && Apply(c, now, a).cleanup.Some?
    ensures c.cleanup.value.generation <= Apply(c, now, a).cleanup.value.generation
    ensures c.cleanup.value.generation == Apply(c, now, a).cleanup.value.generation ==>
            Apply(c, now, a).cleanup == c.cleanup
  {
  }

  datatype Step = Step(now: nat, action: Action)

  function After(c: Cell, steps: seq<Step>): Cell {
    if steps == [] then c
    else var last := steps[|steps| - 1]; Apply(After(c, steps[..|steps| - 1]), last.now, last.action)
  }

  /** Steps run at times that never go back. */
  predicate Behaviour(c: Cell, since: nat, steps: seq<Step>) {
    steps == [] ||
    var before, last := steps[..|steps| - 1], steps[|steps| - 1];
    && Behaviour(c, since, before)
    && (if before == [] then since else before[|before| - 1].now) <= last.now
    && Enabled(After(c, before), last.now, last.action)
  }

  function LastTime(since: nat, steps: seq<Step>): nat { if steps == [] then since else steps[|steps| - 1].now }

  lemma {:induction false} BehaviourKeepsSound(steps: seq<Step>)
    requires Behaviour(EMPTY, 0, steps)
    ensures Sound(After(EMPTY, steps))
  {
    if steps != [] {
      BehaviourKeepsSound(steps[..|steps| - 1]);
      StepKeepsSound(After(EMPTY, steps[..|steps| - 1]), steps[|steps| - 1].now, steps[|steps| - 1].action);
    }
  }

  /** Once a run reads as expired it does so for good, whatever cleanup, `cleanupNow`, retention
      enforcement, failures or delayed writers do, and nothing is ever stored for it again. */
  lemma {:induction false} ExpiryIsPermanent(c: Cell, since: nat, steps: seq<Step>, later: nat)
    requires Sound(c) && Expired(c, since) && Behaviour(c, since, steps) && LastTime(since, steps) <= later
    ensures Sound(After(c, steps)) && Expired(After(c, steps), later) && After(c, steps).keys <= c.keys
  {
    if steps == [] {
      assert c.tombstone.Some? || c.cleanup.Some?;
    } else {
      var before, last := steps[..|steps| - 1], steps[|steps| - 1];
      ExpiryIsPermanent(c, since, before, last.now);
      StepKeepsSound(After(c, before), last.now, last.action);
      StepKeepsExpired(After(c, before), last.now, last.action, later);
    }
  }

  /** A guarded write changes nothing once the run has expired, and what it does is allowed before. */
  lemma LateWritesAreSilent(c: Cell, since: nat, steps: seq<Step>, later: nat, w: Action)
    requires Sound(c) && Expired(c, since) && Behaviour(c, since, steps) && LastTime(since, steps) <= later && w.Write?
    ensures Apply(After(c, steps), later, w) == After(c, steps)
  {
    ExpiryIsPermanent(c, since, steps, later);
  }

  /** Cleanup that ended leaves the tombstone as the only row. */
  lemma EndsWithTombstoneAlone(steps: seq<Step>)
    requires Behaviour(EMPTY, 0, steps)
    ensures
      var c := After(EMPTY, steps);
      c.tombstone.Some? && c.cleanup.None? ==> c.keys == {}
  {
    BehaviourKeepsSound(steps);
  }

  // ---- what each transaction brings about ------------------------------------------------------------

  /** A run reads as expired behind a tombstone, from its due date on, or while cleanup is under way. */
  lemma ExpiredExactly(c: Cell, now: nat)
    ensures
      Expired(c, now) <==>
      c.tombstone.Some? || (c.cleanup.Some? && (c.cleanup.value.phase != Retained || c.cleanup.value.dueAt <= now))
    ensures
      Expired(c, now) ==>
        TombstoneFrom(c, now).value.expiredAt ==
        if c.tombstone.Some? then c.tombstone.value.expiredAt else c.cleanup.value.dueAt
  {
  }

  /** The next phase after each but the last. */
  function NextPhase(phase: Phase): Phase {
    match phase
    case Retained => Index
    case Index => Streams
    case Streams => Queues
    case Queues => Payload
    case Payload => Tombstoned
    case Tombstoned => Tombstoned
  }

  function Finishes(a: Action): Option<(Phase, nat, set<Key>, bool)> {
    match a
    case Start(generation) => Some((Retained, generation, {}, false))
    case FinishIndex(generation, listed, more) => Some((Index, generation, listed, more))
    case FinishStreams(generation, _, done) => Some((Streams, generation, {}, !done))
    case FinishQueues(generation, listed, more) => Some((Queues, generation, listed, more))
    case _ => None
  }

  /** The end of a page moves cleanup one phase on, or stays for another page; the rows it listed are gone and
      no others, and the count of queue registrations is that of the rows. Under another generation or in
      another phase it changes nothing. */
  lemma FinishMovesOn(c: Cell, now: nat, a: Action)
    requires Finishes(a).Some?
    ensures
      var ((phase, generation, listed, more), t) := (Finishes(a).value, Apply(c, now, a));
      if c.cleanup.Some? && c.cleanup.value.phase == phase && c.cleanup.value.generation == generation then
        && t.keys == c.keys - listed && t.tombstone == c.tombstone && t.run == c.run && t.cleanup.Some?
        && t.cleanup.value.phase == (if more then phase else NextPhase(phase))
        && t.cleanup.value.dueAt == c.cleanup.value.dueAt && t.cleanup.value.attempts == 0
        && t.cleanup.value.generation == generation + 1
        && t.cleanup.value.deletedPayloadKeys == c.cleanup.value.deletedPayloadKeys
        && t.cleanup.value.deletedQueuePayloads ==
           c.cleanup.value.deletedQueuePayloads + (if phase == Queues then |listed| else 0)
        && t.cleanup.value.deletedStreams == (if a.FinishStreams? then a.deleted else c.cleanup.value.deletedStreams)
      else t == c
  {
  }

  /** A payload batch removes the rows it took, counts them and leaves the tombstone; with no row left it leaves
      the tombstone alone, which keeps the record's date and counts. */
  lemma PayloadMovesOn(c: Cell, now: nat, page: set<Key>)
    requires c.cleanup.Some? && c.cleanup.value.phase == Payload
    ensures
      var (r, t) := (c.cleanup.value, Apply(c, now, DeletePayload(page)));
      && t.keys == c.keys - page && t.tombstone.Some? && t.run == c.run
      && t.tombstone.value.expiredAt == r.dueAt && t.tombstone.value.tombstonedAt == now
      && (if page == {} then
            && t.cleanup.None? && t.tombstone.value.cleanup.phase == Tombstoned
            && t.tombstone.value.cleanup.deletedPayloadKeys == r.deletedPayloadKeys
            && t.tombstone.value.cleanup.deletedStreams == r.deletedStreams
            && t.tombstone.value.cleanup.deletedQueuePayloads == r.deletedQueuePayloads
          else
            && t.cleanup.Some? && t.cleanup.value.phase == Payload && t.cleanup.value.dueAt == r.dueAt
            && t.cleanup.value.deletedPayloadKeys == r.deletedPayloadKeys + |page|
            && t.cleanup.value.generation == r.generation + 1)
  {
  }

  /** A failure is counted against the record it happened to, and nothing else moves. */
  lemma FailureCounts(c: Cell, now: nat, phase: Phase, generation: nat)
    ensures
      var t := Apply(c, now, Fail(phase, generation));
      && t.keys == c.keys && t.tombstone == c.tombstone && t.run == c.run
      && (if c.cleanup.Some? && c.cleanup.value.phase == phase != Tombstoned && c.cleanup.value.generation == generation
          then
            && t.cleanup.Some? && t.cleanup.value.attempts == c.cleanup.value.attempts + 1
            && t.cleanup.value.generation == generation + 1 && t.cleanup.value.phase == phase
            && t.cleanup.value.dueAt == c.cleanup.value.dueAt
          else t.cleanup == c.cleanup)
  {
  }

  /** Before its expiry a run takes every write as given, and the retention that ends it is scheduled once. */
  lemma WriteLands(c: Cell, now: nat, adds: set<Key>, drops: set<Key>, run: Run, dueAt: Option<nat>)
    requires c.tombstone.None? && (c.cleanup.Some? ==> c.cleanup.value.phase == Retained && now < c.cleanup.value.dueAt)
    ensures
      var t := Apply(c, now, Write(adds, drops, run, dueAt));
      && t.keys == (c.keys - drops) + adds && t.run == run && t.tombstone.None?
      && (if c.cleanup.None? && dueAt.Some? then
            forall later :: Expired(t, later) <==> dueAt.value <= later
          else t.cleanup == c.cleanup)
  {
  }

  // ---- when a run expires --------------------------------------------------------------------------------

  /** The run has ended and nothing is scheduled for it. */
  predicate Schedulable(c: Cell) {
    c.cleanup.None? && c.tombstone.None? && TheRun in c.keys && c.run.completedAt.Some?
  }

  /** A finished run expires exactly when its retention after its completion has passed, and its row says so. */
  lemma ScheduledExpiry(c: Cell, now: nat, retention: nat, t: nat)
    requires Schedulable(c) && c.run.completedAt.value + retention <= MAX_DATE_MS
    ensures Expired(Apply(c, now, Schedule(retention)), t) <==> c.run.completedAt.value + retention <= t
    ensures Apply(c, now, Schedule(retention)).run.expiredAt == Some(c.run.completedAt.value + retention)
    ensures Apply(c, now, Schedule(retention)).keys == c.keys
  {
  }

  /** Scheduling leaves alone whatever is scheduled or gone, a run that has not ended, and a date out of range. */
  lemma NothingToSchedule(c: Cell, now: nat, retention: nat)
    requires !Schedulable(c) || c.run.completedAt.value + retention > MAX_DATE_MS
    ensures Apply(c, now, Schedule(retention)) == c
  {
  }

  /** The maximum age: a run that is old enough reads as expired from that age on, active or not, and no later
      than it did before; a younger run is not touched. */
  lemma EnforcedExpiry(c: Cell, now: nat, retention: nat, scheduledTime: nat, t: nat)
    requires TheRun in c.keys && c.run.createdAt + retention <= MAX_DATE_MS
    ensures
      var after := Apply(c, now, Enforce(retention, scheduledTime));
      if c.run.createdAt + retention <= scheduledTime
      then Expired(after, t) <==> Expired(c, t) || c.run.createdAt + retention <= t
      else after == c
  {
  }

  /** Operator cleanup of a finished or scheduled run: it reads as expired from now on. */
  lemma CleanedUpNow(c: Cell, now: nat, retention: nat, t: nat)
    requires now <= t && Sound(c)
    requires c.cleanup.Some? || (Schedulable(c) && c.run.completedAt.value + retention <= MAX_DATE_MS)
    ensures
      var after := Apply(Apply(c, now, Schedule(retention)), now, CleanupNow);
      && Expired(after, t) && after.keys == c.keys && after.cleanup.Some? && after.cleanup.value.dueAt == now
      && (TheRun in c.keys ==> after.run.expiredAt == Some(now))
  {
  }
}
