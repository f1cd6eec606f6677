/** One run-catalog shard: published entries, expiry fences and their compaction
    (src/worker/durable-objects/RunCatalogDO.ts, src/lifecycle.ts). */
module RunCatalog {
  import opened Prelude

  type RunId = string
  type Metadata = string

  const MAX_FLEET_RPC_TIMEOUT_MS: nat := 5 * 60 * 1000
  const FLEET_IDEMPOTENT_ATTEMPTS: nat := 3
  const FLEET_RETRY_BACKOFF_MAX_MS: nat := 900
  const MAX_IDEMPOTENT_RPC_LIFETIME_MS: nat :=
    FLEET_IDEMPOTENT_ATTEMPTS * MAX_FLEET_RPC_TIMEOUT_MS + FLEET_RETRY_BACKOFF_MAX_MS
  const MAX_RUN_INDEX_PUBLICATION_LIFETIME_MS: nat := MAX_FLEET_RPC_TIMEOUT_MS + MAX_IDEMPOTENT_RPC_LIFETIME_MS
  const CATALOG_FENCE_GRACE_MS: nat := MAX_RUN_INDEX_PUBLICATION_LIFETIME_MS
  const LIFECYCLE_COMPACTION_BATCH: nat := 128
  const LIFECYCLE_COMPACTION_RETRY_MS: nat := 1000

  /** `run:<workflow>:<created>:<id>` and `runall:<created>:<id>`. */
  datatype Key = OfWorkflow(workflow: string, created: nat, run: RunId) | Global(created: nat, run: RunId)

  datatype KeyPair = KeyPair(first: Key, second: Key)

  predicate Canonical(run: RunId, keys: KeyPair) {
    && keys.first.OfWorkflow? && keys.second.Global?
    && keys.first.run == run && keys.second == Global(keys.first.created, run)
  }

  datatype Fence = Fence(expiredAt: nat, compactAt: nat)

  /** A row of the compaction queue; it sorts by time. */
  datatype GcRow = GcRow(compactAt: nat, run: RunId)

  datatype Shard = Shard(
    entries: map<Key, Metadata>, records: map<RunId, KeyPair>, fences: map<RunId, Fence>, gc: set<GcRow>,
    alarm: Option<nat>, clock: nat)

  const EMPTY := Shard(map[], map[], map[], {}, None, 0)

  datatype Action =
    | Upsert(run: RunId, keys: KeyPair, metadata: Metadata, lease: nat)
    | Expire(run: RunId, expiredAt: nat)
    | DeleteStale(run: RunId, key: Key, expected: Metadata)
    | Compact(page: set<GcRow>, more: bool)
    | CompactFails

  /** A transaction and the time it runs at. */
  datatype Step = Step(now: nat, action: Action)

  // ---- publication ---------------------------------------------------------------

  predicate Live(lease: nat, now: nat) { now < lease <= now + MAX_RUN_INDEX_PUBLICATION_LIFETIME_MS }

  predicate Stores(s: Shard, now: nat, run: RunId, lease: nat) { run !in s.fences && Live(lease, now) }

  function DoUpsert(s: Shard, now: nat, run: RunId, keys: KeyPair, metadata: Metadata, lease: nat): Shard {
    if Stores(s, now, run, lease)
    then s.(entries := s.entries[keys.first := metadata][keys.second := metadata], records := s.records[run := keys])
    else s
  }

  // ---- expiry ------------------------------------------------------------------------

  function ArmAtMost(alarm: Option<nat>, at: nat): Option<nat> {
    if alarm.None? || at < alarm.value then Some(at) else alarm
  }

  function CompactAt(s: Shard, now: nat, run: RunId): nat {
    if run in s.fences then s.fences[run].compactAt else now + CATALOG_FENCE_GRACE_MS
  }

  function DoExpire(s: Shard, now: nat, run: RunId, expiredAt: nat): Shard {
    if run !in s.records then s
    else
      var at := CompactAt(s, now, run);
      s.(fences := s.fences[run := Fence(expiredAt, at)], gc := s.gc + {GcRow(at, run)},
         alarm := ArmAtMost(s.alarm, at),
         entries := s.entries - {s.records[run].first, s.records[run].second}, records := s.records - {run})
  }

  // ---- compaction ----------------------------------------------------------------------

  /** A bounded listing of the due rows; `more` when further due rows exist. */
  ghost predicate DuePage(s: Shard, now: nat, page: set<GcRow>, more: bool) {
    && page <= s.gc && |page| <= LIFECYCLE_COMPACTION_BATCH
    && (forall r :: r in page ==> r.compactAt <= now)
    && (!more ==> forall r :: r in s.gc && r.compactAt <= now ==> r in page)
  }

  /** The fences a page removes: those whose own row it holds. */
  function Compacted(s: Shard, page: set<GcRow>): set<RunId> {
    set run | run in s.fences && GcRow(s.fences[run].compactAt, run) in page
  }

  /** The first row left, when some are. */
  ghost function FirstRow(gc: set<GcRow>): (row: GcRow)
    requires gc != {}
    ensures row in gc && forall r :: r in gc ==> row.compactAt <= r.compactAt
    decreases gc
  {
    var row :| row in gc;
    if gc == {row} then row
    else
      var best := FirstRow(gc - {row});
      if best.compactAt < row.compactAt then best else row
  }

  ghost function NextAlarm(gc: set<GcRow>, now: nat, more: bool): Option<nat> {
    if more then Some(now + 1) else if gc == {} then None else Some(Max(now + 1, FirstRow(gc).compactAt))
  }

  ghost function DoCompact(s: Shard, now: nat, page: set<GcRow>, more: bool): Shard {
    var gc := s.gc - page;
    s.(fences := s.fences - Compacted(s, page), gc := gc, alarm := NextAlarm(gc, now, more))
  }

  function DoDeleteStale(s: Shard, run: RunId, key: Key, expected: Metadata): Shard {
    if key in s.entries && s.entries[key] == expected then s.(entries := s.entries - {key}) else s
  }

  ghost predicate Enabled(s: Shard, step: Step) {
    && s.clock <= step.now
    && match step.action
       case Upsert(run, keys, _, _) => Canonical(run, keys)
       case DeleteStale(run, key, _) => key.Global? && key.run == run
       case Compact(page, more) => s.alarm.Some? && s.alarm.value <= step.now && DuePage(s, step.now, page, more)
       case CompactFails => s.alarm.Some? && s.alarm.value <= step.now
       case Expire(_, _) => true
  }

  ghost function Apply(s: Shard, step: Step): Shard {
    var now := step.now;
    var after :=
      match step.action
      case Upsert(run, keys, metadata, lease) => DoUpsert(s, now, run, keys, metadata, lease)
      case Expire(run, expiredAt) => DoExpire(s, now, run, expiredAt)
      case DeleteStale(run, key, expected) => DoDeleteStale(s, run, key, expected)
      case Compact(page, more) => DoCompact(s, now, page, more)
      case CompactFails => s.(alarm := Some(now + LIFECYCLE_COMPACTION_RETRY_MS));
    after.(clock := now)
  }

  ghost predicate Behaviour(s: Shard, steps: seq<Step>)
    decreases |steps|
  {
    steps == [] || (Enabled(s, steps[0]) && Behaviour(Apply(s, steps[0]), steps[1..]))
  }

  ghost function After(s: Shard, steps: seq<Step>): Shard
    decreases |steps|
  {
    if steps == [] then s else After(Apply(s, steps[0]), steps[1..])
  }

  // ---- every fence is seen to ---------------------------------------------------------------

  /** Fenced runs have no recorded keys, each fence has its own compaction row, and while rows
      wait an alarm is armed no later than they fall due, or than the retry of a failed pass. */
  ghost predicate Inv(s: Shard) {
    match s case Shard(_, records, fences, gc, alarm, clock) =>
      && (forall run :: run in fences ==> run !in records && GcRow(fences[run].compactAt, run) in gc)
      && (forall r :: r in gc ==> alarm.Some?)
      && (forall r :: r in gc ==> alarm.value <= Max(r.compactAt, clock + LIFECYCLE_COMPACTION_RETRY_MS))
      && (forall run :: run in records ==> Canonical(run, records[run]))
  }

  lemma StepKeepsInv(s: Shard, step: Step)
    requires Inv(s) && Enabled(s, step)
    ensures Inv(Apply(s, step))
  {
  }

  lemma {:induction false} BehaviourKeepsInv(s: Shard, steps: seq<Step>)
    requires Inv(s) && Behaviour(s, steps)
    ensures Inv(After(s, steps))
    decreases |steps|
  {
    if steps != [] {
      StepKeepsInv(s, steps[0]);
      BehaviourKeepsInv(Apply(s, steps[0]), steps[1..]);
    }
  }

  // ---- no resurrection ---------------------------------------------------------------------

  /** A fence outlives every lease issued by `t`, or its time has passed, and theirs with it. */
  predicate Guarded(s: Shard, run: RunId, t: nat) {
    (run in s.fences && s.fences[run].compactAt >= t + CATALOG_FENCE_GRACE_MS) || s.clock >= t + CATALOG_FENCE_GRACE_MS
  }

  lemma ExpireGuards(s: Shard, now: nat, run: RunId, expiredAt: nat)
    requires Inv(s) && s.clock <= now && run in s.records
    ensures Guarded(Apply(s, Step(now, Expire(run, expiredAt))), run, now)
    ensures
      var after := Apply(s, Step(now, Expire(run, expiredAt)));
      run in after.fences && s.records[run].first !in after.entries && s.records[run].second !in after.entries
  {
  }

  lemma StepKeepsGuard(s: Shard, step: Step, run: RunId, t: nat)
    requires Guarded(s, run, t) && Enabled(s, step)
    ensures Guarded(Apply(s, step), run, t)
  {
  }

  lemma {:induction false} BehaviourKeepsGuard(s: Shard, steps: seq<Step>, run: RunId, t: nat)
    requires Guarded(s, run, t) && Behaviour(s, steps)
    ensures Guarded(After(s, steps), run, t) && After(s, steps).clock >= s.clock
    decreases |steps|
  {
    if steps != [] {
      StepKeepsGuard(s, steps[0], run, t);
      BehaviourKeepsGuard(Apply(s, steps[0]), steps[1..], run, t);
    }
  }

  /** Once a recorded run is expired at `t`, no publication whose lease was issued by then is
      ever stored again, however delayed, before or after its fence is compacted. */
  lemma NoResurrection(s: Shard, t: nat, run: RunId, expiredAt: nat, steps: seq<Step>,
                       now: nat, keys: KeyPair, metadata: Metadata, issuedAt: nat)
    requires Inv(s) && s.clock <= t && run in s.records
    requires
      var fenced := Apply(s, Step(t, Expire(run, expiredAt)));
      Behaviour(fenced, steps) && After(fenced, steps).clock <= now
    requires issuedAt <= t
    ensures
      var later := After(Apply(s, Step(t, Expire(run, expiredAt))), steps);
      DoUpsert(later, now, run, keys, metadata, issuedAt + MAX_RUN_INDEX_PUBLICATION_LIFETIME_MS) == later
  {
    ExpireGuards(s, t, run, expiredAt);
    BehaviourKeepsGuard(Apply(s, Step(t, Expire(run, expiredAt))), steps, run, t);
  }

  /** The recorded pair is what it takes: an expiry without it installs nothing, and a lease
      issued at that moment stores the run again unless an earlier fence still stands. */
  lemma ExpiryFencesExactlyRecordedRuns(s: Shard, t: nat, run: RunId, expiredAt: nat, keys: KeyPair, metadata: Metadata)
    requires Inv(s) && s.clock <= t && Canonical(run, keys)
    ensures
      var after := Apply(s, Step(t, Expire(run, expiredAt)));
      Stores(after, t, run, t + MAX_RUN_INDEX_PUBLICATION_LIFETIME_MS) <==> run !in s.records && run !in s.fences
  {
  }

  // ---- what each transaction brings about ---------------------------------------------------------

  /** A publication under a live lease, unfenced, stores both keys and the record, and nothing else moves; any
      other stores nothing. */
  lemma PublicationStores(s: Shard, t: nat, run: RunId, keys: KeyPair, metadata: Metadata, lease: nat)
    ensures
      var after := Apply(s, Step(t, Upsert(run, keys, metadata, lease)));
      && after.fences == s.fences && after.gc == s.gc && after.alarm == s.alarm
      && (if run !in s.fences && t < lease <= t + MAX_RUN_INDEX_PUBLICATION_LIFETIME_MS then
            && keys.first in after.entries && after.entries[keys.first] == metadata
            && keys.second in after.entries && after.entries[keys.second] == metadata
            && after.entries - {keys.first, keys.second} == s.entries - {keys.first, keys.second}
            && run in after.records && after.records[run] == keys && after.records - {run} == s.records - {run}
          else after.entries == s.entries && after.records == s.records)
  {
    var after := Apply(s, Step(t, Upsert(run, keys, metadata, lease)));
    assert after.entries - {keys.first, keys.second} == s.entries - {keys.first, keys.second};
    assert after.records - {run} == s.records - {run};
  }

  /** The expiry of a recorded run takes both its entries and its record, leaves its fence with the compaction row
      and an alarm by then, and touches no other run's; a run without a record is left alone. */
  lemma ExpiryRemoves(s: Shard, t: nat, run: RunId, expiredAt: nat)
    ensures
      var after := Apply(s, Step(t, Expire(run, expiredAt)));
      if run !in s.records then after == s.(clock := t)
      else
        var keys := s.records[run];
        && after.entries == s.entries - {keys.first, keys.second} && after.records == s.records - {run}
        && run in after.fences && after.fences[run].expiredAt == expiredAt
        && after.fences[run].compactAt ==
           (if run in s.fences then s.fences[run].compactAt else t + CATALOG_FENCE_GRACE_MS)
        && after.fences - {run} == s.fences - {run}
        && after.gc == s.gc + {GcRow(after.fences[run].compactAt, run)}
        && after.alarm.Some? && after.alarm.value <= after.fences[run].compactAt
        && (s.alarm.Some? ==> after.alarm.value <= s.alarm.value)
  {
    var after := Apply(s, Step(t, Expire(run, expiredAt)));
    assert run in s.records ==> after.fences - {run} == s.fences - {run};
  }

  /** A page of due rows takes exactly the fences whose own row it holds; entries and records stay. */
  lemma CompactionLifts(s: Shard, t: nat, page: set<GcRow>, more: bool)
    ensures
      var after := Apply(s, Step(t, Compact(page, more)));
      && after.entries == s.entries && after.records == s.records && after.gc == s.gc - page
      && (forall run :: run in after.fences <==> run in s.fences && GcRow(s.fences[run].compactAt, run) !in page)
      && (forall run :: run in after.fences ==> after.fences[run] == s.fences[run])
      && (after.alarm.None? <==> !more && s.gc - page == {})
  {
  }

  /** A stale entry goes exactly if it still holds what was expected of it. */
  lemma StaleEntryGoes(s: Shard, t: nat, run: RunId, key: Key, expected: Metadata)
    ensures
      var after := Apply(s, Step(t, DeleteStale(run, key, expected)));
      && after.records == s.records && after.fences == s.fences && after.gc == s.gc
      && after.entries == if key in s.entries && s.entries[key] == expected then s.entries - {key} else s.entries
  {
  }

  /** Once its fence has been compacted, a run that is published under a live lease is stored again: the fence is
      the only thing that keeps it out. */
  lemma FenceLifts(s: Shard, t: nat, later: nat, run: RunId, more: bool, keys: KeyPair, metadata: Metadata, lease: nat)
    requires run in s.fences && later < lease <= later + MAX_RUN_INDEX_PUBLICATION_LIFETIME_MS
    ensures
      var lifted := Apply(s, Step(t, Compact({GcRow(s.fences[run].compactAt, run)}, more)));
      var after := Apply(lifted, Step(later, Upsert(run, keys, metadata, lease)));
      run in after.records && keys.first in after.entries && keys.second in after.entries
  {
    var lifted := Apply(s, Step(t, Compact({GcRow(s.fences[run].compactAt, run)}, more)));
    PublicationStores(lifted, later, run, keys, metadata, lease);
  }

  // ---- every recorded run is listed --------------------------------------------------------------

  /** Whether the run's recorded global entry was taken as stale since its last publication. */
  ghost function TakenBy(taken: bool, s: Shard, step: Step, run: RunId): bool {
    match step.action
    case Upsert(r, _, _, lease) => taken && !(r == run && Stores(s, step.now, r, lease))
    case DeleteStale(r, key, expected) =>
      taken || (run in s.records && key == s.records[run].second && key in s.entries && s.entries[key] == expected)
    case _ => taken
  }

  ghost function Taken(s: Shard, steps: seq<Step>, run: RunId, taken: bool): bool
    decreases |steps|
  {
    if steps == [] then taken else Taken(Apply(s, steps[0]), steps[1..], run, TakenBy(taken, s, steps[0], run))
  }

  /** A recorded run's workflow entry is stored, and its global one unless it was taken. */
  ghost predicate Listed(s: Shard, run: RunId, taken: bool) {
    match s case Shard(entries, records, _, _, _, _) =>
      run in records ==> records[run].first in entries && (records[run].second in entries <==> !taken)
  }

  lemma StepKeepsListed(s: Shard, step: Step, run: RunId, taken: bool)
    requires Inv(s) && Enabled(s, step) && Listed(s, run, taken)
    ensures Listed(Apply(s, step), run, TakenBy(taken, s, step, run))
  {
  }

  /** Over every run of a shard: whoever is recorded is found under its workflow, and under the global order too
      unless a reader took that entry as stale after the last publication. */
  lemma {:induction false} RecordedIsListed(s: Shard, steps: seq<Step>, run: RunId, taken: bool)
    requires Inv(s) && Behaviour(s, steps) && Listed(s, run, taken)
    ensures Listed(After(s, steps), run, Taken(s, steps, run, taken))
    decreases |steps|
  {
    if steps != [] {
      StepKeepsListed(s, steps[0], run, taken);
      StepKeepsInv(s, steps[0]);
      RecordedIsListed(Apply(s, steps[0]), steps[1..], run, TakenBy(taken, s, steps[0], run));
    }
  }

  /** Deleting a canonical pair of keys counts the entries that went. */
  ghost predicate Counted(keys: KeyPair, before: map<Key, Metadata>, after: map<Key, Metadata>, deleted: nat) {
    match keys case KeyPair(first, second) => first != second ==> deleted == |before| - |after|
  }

  // ---- the cell -----------------------------------------------------------------------------

  /** The durable object: the same transactions on stored rows. */
  class Catalog {
    var entries: map<Key, Metadata>
    var records: map<RunId, KeyPair>
    var fences: map<RunId, Fence>
    var gc: set<GcRow>
    var alarm: Option<nat>
    ghost var clock: nat

    ghost function State(): Shard
      reads this
    {
      Shard(entries, records, fences, gc, alarm, clock)
    }

    constructor ()
      ensures State() == EMPTY
    {
      entries, records, fences, gc, alarm, clock := map[], map[], map[], {}, None, 0;
    }

    method UpsertRun(run: RunId, keys: KeyPair, metadata: Metadata, publicationExpiresAt: nat, now: nat)
      returns (stored: bool)
      requires Enabled(State(), Step(now, Upsert(run, keys, metadata, publicationExpiresAt)))
      modifies this
      ensures State() == Apply(old(State()), Step(now, Upsert(run, keys, metadata, publicationExpiresAt)))
      ensures stored == Stores(old(State()), now, run, publicationExpiresAt)
      ensures stored ==> keys.first in entries && entries[keys.first] == metadata
      ensures stored ==> keys.second in entries && entries[keys.second] == metadata
    {
      clock := now;
      if run in fences { return false; }
      if publicationExpiresAt <= now || publicationExpiresAt > now + MAX_RUN_INDEX_PUBLICATION_LIFETIME_MS {
        return false;
      }
      if keys.first in entries && entries[keys.first] == metadata && keys.second in entries &&
          entries[keys.second] == metadata
         && run in records && records[run] == keys {
        // An idempotent republication changes nothing.
        assert entries == entries[keys.first := metadata][keys.second := metadata] && records == records[run := keys];
        return true;
      }
      entries := entries[keys.first := metadata][keys.second := metadata];
      records := records[run := keys];
      return true;
    }

    /** A bulk deletion counts what it removed. */
    method DeleteEntries(keys: KeyPair) returns (deleted: nat)
      modifies this`entries
      ensures entries == old(entries) - {keys.first, keys.second}
      ensures Counted(keys, old(entries), entries, deleted)
    {
      deleted := (if keys.first in entries then 1 else 0) + (if keys.second in entries then 1 else 0);
      PairRemoved(entries, keys);
      entries := entries - {keys.first, keys.second};
    }

    method ExpireRun(run: RunId, expiredAt: nat, now: nat) returns (deleted: nat)
      requires Enabled(State(), Step(now, Expire(run, expiredAt)))
      modifies this
      ensures State() == Apply(old(State()), Step(now, Expire(run, expiredAt)))
      ensures run in old(records) ==> Counted(old(records)[run], old(entries), entries, deleted)
      ensures run !in old(records) ==> deleted == 0
    {
      clock := now;
      if run !in records { return 0; }
      var keys := records[run];
      var compactAt := if run in fences then fences[run].compactAt else now + CATALOG_FENCE_GRACE_MS;
      PutFence(run, expiredAt, compactAt);
      deleted := DeleteEntries(keys);
      records := records - {run};
    }

    /** The fence, its compaction row and an alarm for it. */
    method PutFence(run: RunId, expiredAt: nat, compactAt: nat)
      modifies this`fences, this`gc, this`alarm
      ensures fences == old(fences)[run := Fence(expiredAt, compactAt)]
      ensures gc == old(gc) + {GcRow(compactAt, run)} && alarm == ArmAtMost(old(alarm), compactAt)
    {
      fences := fences[run := Fence(expiredAt, compactAt)];
      gc := gc + {GcRow(compactAt, run)};
      if alarm.None? || compactAt < alarm.value { alarm := Some(compactAt); }
    }

    method DeleteStaleGlobalRun(run: RunId, key: Key, expected: Metadata, now: nat) returns (deleted: bool)
      requires Enabled(State(), Step(now, DeleteStale(run, key, expected)))
      modifies this
      ensures State() == Apply(old(State()), Step(now, DeleteStale(run, key, expected)))
      ensures deleted <==> key in old(entries) && old(entries)[key] == expected
    {
      clock := now;
      if key !in entries || entries[key] != expected { return false; }
      entries := entries - {key};
      return true;
    }

    /** One alarm: remove the fences whose rows are due, and arm for the first row left. */
    method CompactExpiryFences(page: set<GcRow>, more: bool, now: nat)
      requires Enabled(State(), Step(now, Compact(page, more)))
      modifies this
      ensures State() == Apply(old(State()), Step(now, Compact(page, more)))
    {
      clock := now;
      ghost var before := fences;
      var todo, removed := page, {};
      while todo != {}
        invariant todo <= page && fences == before && gc == old(gc)
        invariant removed == set r | r in page - todo && r.run in before &&
                  before[r.run].compactAt == r.compactAt :: r.run
        decreases todo
      {
        var row :| row in todo;
        if row.run in fences && fences[row.run].compactAt == row.compactAt { removed := removed + {row.run}; }
        todo := todo - {row};
      }
      assert page - todo == page;
      assert removed == Compacted(old(State()), page) by {
        forall run ensures run in removed <==> run in Compacted(old(State()), page) {
          if run in Compacted(old(State()), page) {
            var row := GcRow(before[run].compactAt, run);
            assert row in page && row.run == run;
          }
        }
      }
      fences := fences - removed;
      gc := gc - page;
      if more {
        alarm := Some(now + 1);
      } else {
        var next := FirstOf(gc);
        alarm := if next.Some? then Some(Max(now + 1, next.value.compactAt)) else None;
      }
    }
  }

  lemma KeyRemoved(entries: map<Key, Metadata>, k: Key)
    ensures |entries - {k}| == |entries| - if k in entries then 1 else 0
  {
    assert (entries - {k}).Keys == entries.Keys - {k};
    assert |entries| == |entries.Keys| && |entries - {k}| == |(entries - {k}).Keys|;
  }

  lemma PairRemoved(entries: map<Key, Metadata>, keys: KeyPair)
    ensures keys.first != keys.second ==>
              |entries - {keys.first, keys.second}| ==
              |entries| - (if keys.first in entries then 1 else 0) - (if keys.second in entries then 1 else 0)
  {
    KeyRemoved(entries, keys.first);
    KeyRemoved(entries - {keys.first}, keys.second);
    assert entries - {keys.first} - {keys.second} == entries - {keys.first, keys.second};
  }

  method FirstOf(gc: set<GcRow>) returns (row: Option<GcRow>)
    ensures row.None? <==> gc == {}
    ensures row.Some? ==> row.value in gc && row.value.compactAt == FirstRow(gc).compactAt
  {
    if gc == {} { return None; }
    var best :| best in gc;
    var todo := gc;
    while todo != {}
      invariant todo <= gc && best in gc && forall r :: r in gc && r !in todo ==> best.compactAt <= r.compactAt
      decreases todo
    {
      var r :| r in todo;
      if r.compactAt < best.compactAt { best := r; }
      todo := todo - {r};
    }
    return Some(best);
  }
}
