/** The retention transactions of a run cell as it runs them
    (src/worker/durable-objects/WorkflowRunDO.ts). */
module RetentionCell {
  import opened Prelude
  import opened RunRetention

  datatype Enforcement = Missing | NotDue | Scheduled | AlreadyExpired | OutOfRange

  /** Any `n` of the stored keys, or all of them. */
  method ListKeys(keys: set<Key>, n: nat) returns (page: set<Key>)
    ensures page <= keys && |page| == Min(n, |keys|)
  {
    page := {};
    var rest := keys;
    while |page| < n && rest != {}
      invariant page <= keys && rest == keys - page && |page| + |rest| == |keys| && |page| <= n
      decreases rest
    {
      var k :| k in rest;
      page, rest := page + {k}, rest - {k};
    }
  }

  /** The answer of the maximum-age policy: what keeps it from applying, in order, or whether the date that then
      stands has passed. */
  function EnforcementOf(c: Cell, retention: nat, scheduledTime: nat, now: nat): Enforcement {
    var due := c.run.createdAt + retention;
    if c.tombstone.Some? then AlreadyExpired
    else if TheRun !in c.keys then Missing
    else if due > MAX_DATE_MS then OutOfRange
    else if due > scheduledTime then NotDue
    else if due <= now && (c.cleanup.None? || c.cleanup.value.phase.Retained?) then AlreadyExpired
    else if c.cleanup.Some? && c.cleanup.value.dueAt <= now then AlreadyExpired
    else Scheduled
  }

  class RetentionCell {
    var cleanup: Option<Record>
    var tombstone: Option<Tombstone>
    var keys: set<Key>
    var run: Run

    constructor ()
      ensures State() == EMPTY
    {
      cleanup, tombstone, keys, run := None, None, {}, EMPTY.run;
    }

    function State(): Cell
      reads this
    {
      Cell(cleanup, tombstone, keys, run)
    }

    method StampRun(dueAt: nat)
      modifies this`run
      ensures run == if TheRun in keys then old(run).(expiredAt := Some(dueAt)) else old(run)
    {
      if TheRun in keys { run := run.(expiredAt := Some(dueAt)); }
    }

    /** Schedule a finished run; an existing record is kept. */
    method ScheduleCleanup(retention: nat) returns (r: Option<Record>)
      modifies this`cleanup, this`run
      ensures State() == DoSchedule(old(State()), retention) && r == cleanup
      ensures old(Schedulable(State()) && run.completedAt.value + retention <= MAX_DATE_MS) ==>
                forall t :: Expired(State(), t) <==> old(run.completedAt.value) + retention <= t
    {
      if cleanup.Some? { return cleanup; }
      if tombstone.Some? { return None; }
      if TheRun !in keys || run.completedAt.None? { return None; }
      var dueAt := Deadline(run.completedAt.value, retention);
      if dueAt.None? { return None; }
      StampRun(dueAt.value);
      cleanup := Some(NewRecord(dueAt.value));
      r := cleanup;
    }

    /** The maximum-age policy: a record appears, or its date moves earlier, never later. */
    method EnforceRetention(retention: nat, scheduledTime: nat, now: nat) returns (r: Enforcement)
      modifies this`cleanup, this`run
      ensures State() == DoEnforce(old(State()), retention, scheduledTime)
      ensures r == old(EnforcementOf(State(), retention, scheduledTime, now))
      ensures (r.Scheduled? || r.AlreadyExpired?) && tombstone.None? ==>
                forall t :: old(run.createdAt) + retention <= t ==> Expired(State(), t)
      ensures r.NotDue? || r.Missing? || r.OutOfRange? ==> State() == old(State())
      ensures r.Scheduled? || r.AlreadyExpired? ==> cleanup.Some? || tombstone.Some?
      ensures old(cleanup).Some? ==> cleanup.Some? && cleanup.value.dueAt <= old(cleanup).value.dueAt
      ensures r.Scheduled? ==> cleanup.Some? && now < cleanup.value.dueAt
      ensures r.AlreadyExpired? ==> tombstone.Some? || cleanup.value.dueAt <= now
    {
      if tombstone.Some? { return AlreadyExpired; }
      if TheRun !in keys { return Missing; }
      var dueAt := Deadline(run.createdAt, retention);
      if dueAt.None? { return OutOfRange; }
      if dueAt.value > scheduledTime { return NotDue; }
      if cleanup.None? {
        StampRun(dueAt.value);
        cleanup := Some(NewRecord(dueAt.value));
      } else if cleanup.value.phase.Retained? && dueAt.value < cleanup.value.dueAt {
        StampRun(dueAt.value);
        cleanup := Some(cleanup.value.(dueAt := dueAt.value, generation := cleanup.value.generation + 1));
      }
      r := if cleanup.value.dueAt <= now then AlreadyExpired else Scheduled;
    }

    /** Operator cleanup: the record falls due at once. */
    method CleanupNow(retention: nat, now: nat)
      modifies this`cleanup, this`run
      ensures State() == DoCleanupNow(DoSchedule(old(State()), retention), now)
      ensures cleanup.Some? && !cleanup.value.phase.Tombstoned? ==> Expired(State(), now)
    {
      if cleanup.None? { var _ := ScheduleCleanup(retention); }
      if cleanup.None? || cleanup.value.phase.Tombstoned? { return; }
      StampRun(now);
      cleanup := Some(cleanup.value.(dueAt := now, generation := cleanup.value.generation + 1));
    }

    /** The phase moves only when the record is still the one the pass read. */
    method SetCleanupPhase(expected: Record, next: Phase)
      modifies this`cleanup
      ensures if Current(old(State()), expected.phase, expected.generation)
              then cleanup == Some(Moved(old(cleanup).value, next)) else cleanup == old(cleanup)
    {
      if cleanup.None? || cleanup.value.phase != expected.phase || cleanup.value.generation != expected.generation {
        return;
      }
      cleanup := Some(cleanup.value.(phase := next, generation := cleanup.value.generation + 1, attempts := 0));
    }

    /** The end of an index page, after the catalog and the hook shards were told. */
    method FinishIndexPage(expected: Record, listed: set<Key>, more: bool)
      modifies this`cleanup, this`keys
      ensures State() == DoFinishIndex(old(State()), expected.generation, listed, more)
    {
      if cleanup.None? || !cleanup.value.phase.Index? || cleanup.value.generation != expected.generation { return; }
      keys := keys - listed;
      var r := cleanup.value;
      if !more { r := r.(phase := Streams); }
      cleanup := Some(r.(generation := r.generation + 1, attempts := 0));
    }

    method FinishStreamPage(expected: Record, deleted: nat, done: bool)
      modifies this`cleanup
      ensures State() == DoFinishStreams(old(State()), expected.generation, deleted, done)
    {
      if cleanup.None? || !cleanup.value.phase.Streams? || cleanup.value.generation != expected.generation { return; }
      var r := cleanup.value;
      cleanup := Some(r.(deletedStreams := deleted, phase := if done then Queues else Streams,
                         generation := r.generation + 1, attempts := 0));
    }

    /** List queue registrations; the objects are deleted before the rows are. */
    method ListQueuePage() returns (listed: set<Key>, more: bool)
      ensures listed <= keys && (forall k :: k in listed ==> k.QueueEntry?) &&
              |listed| <= QUEUE_PAYLOADS_PER_CLEANUP_PAGE
      ensures more <==> exists k :: k in keys && k.QueueEntry? && k !in listed
    {
      var entries := set k | k in keys && k.QueueEntry?;
      listed := ListKeys(entries, QUEUE_PAYLOADS_PER_CLEANUP_PAGE);
      more := listed < entries;
      assert listed != entries ==> exists k :: k in entries && k !in listed;
    }

    method FinishQueuePage(expected: Record, listed: set<Key>, more: bool)
      modifies this`cleanup, this`keys
      ensures State() == DoFinishQueues(old(State()), expected.generation, listed, more)
    {
      if cleanup.None? || !cleanup.value.phase.Queues? || cleanup.value.generation != expected.generation { return; }
      keys := keys - listed;
      var r := cleanup.value;
      cleanup := Some(r.(deletedQueuePayloads := r.deletedQueuePayloads + |listed|,
                         phase := if more then Queues else Payload,
                         generation := r.generation + 1, attempts := 0));
    }

    /** One batch of rows under the tombstone; without any left, the tombstone alone stays. */
    method DeletePayloadBatch(now: nat) returns (done: bool, ghost page: set<Key>)
      modifies this`cleanup, this`tombstone, this`keys
      ensures page <= old(keys) && (InPayload(old(State())) ==> |page| == Min(PAYLOAD_DELETE_BATCH, |old(keys)|))
      ensures State() == DoPayload(old(State()), now, page)
      ensures done <==> !InPayload(State())
    {
      page := {};
      if cleanup.None? || !cleanup.value.phase.Payload? { return true, {}; }
      var batch := ListKeys(keys, PAYLOAD_DELETE_BATCH);
      page := batch;
      var r := cleanup.value;
      tombstone := Some(CleanupTombstone(r, now));
      if batch != {} {
        keys := keys - batch;
        cleanup := Some(r.(deletedPayloadKeys := r.deletedPayloadKeys + |batch|, generation := r.generation + 1));
        return false, batch;
      }
      var completed :=
          r.(phase := Tombstoned, generation := r.generation + 1, attempts := 0, tombstonedAt := Some(now));
      tombstone := Some(CleanupTombstone(completed, now));
      cleanup := None;
      done := true;
    }

    method RecordCleanupFailure(expected: Record)
      modifies this`cleanup
      ensures State() == DoFail(old(State()), expected.phase, expected.generation)
    {
      if cleanup.None? || cleanup.value.phase != expected.phase || cleanup.value.generation != expected.generation
         || cleanup.value.phase.Tombstoned? { return; }
      var r := cleanup.value;
      cleanup := Some(r.(generation := r.generation + 1, attempts := r.attempts + 1));
    }

    /** The payload phase run to its end: every row but the tombstone goes, and each is counted once. */
    method DeletePayload(now: nat)
      requires Sound(State()) && InPayload(State())
      modifies this
      ensures cleanup.None? && tombstone.Some? && keys == {}
      ensures tombstone.value.cleanup.deletedPayloadKeys == old(cleanup).value.deletedPayloadKeys + |old(keys)|
      ensures tombstone.value.expiredAt == old(cleanup).value.dueAt
    {
      var done := false;
      ghost var counted := cleanup.value.deletedPayloadKeys + |keys|;
      while !done
        invariant Sound(State()) && (done <==> !InPayload(State())) &&
                  (done ==> cleanup.None? && tombstone.Some? && keys == {})
        invariant !done ==>
                    && cleanup.value.deletedPayloadKeys + |keys| == counted
                    && cleanup.value.dueAt == old(cleanup).value.dueAt
        invariant done ==>
                    && tombstone.value.cleanup.deletedPayloadKeys == counted
                    && tombstone.value.expiredAt == old(cleanup).value.dueAt
        decreases !done, |keys|
      {
        ghost var before := State();
        ghost var page;
        done, page := DeletePayloadBatch(now);
        StepKeepsSound(before, now, RunRetention.DeletePayload(page));
        assert before.keys == page + (before.keys - page);
      }
    }
  }
}
