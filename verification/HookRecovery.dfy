/** No token is stuck: from every reachable state in which no run holds it, whatever stopped half-way is
    brought to its end and the token can be taken again
    (src/worker/durable-objects/HookTokenDO.ts, WorkflowRunDO.ts, src/indexes.ts). */
module HookRecovery {
  import opened Prelude
  import opened HookToken
  import opened HookCell
  import opened HookProtocol
  import opened HookInvariant
  import opened HookAttempts
  import opened HookTheorems
  import opened HookHalfDone
  import opened HookProgress
  import Run = HookCell

  // ---- runs that settle --------------------------------------------------------------------------

  /** Neither a run's own step nor a creation. */
  predicate Quiet(step: Step) { !step.OfRun? && !(step.Serve? && step.serve.DeliverCreate?) }

  /** The runs stand where they stood, and no hook came to life. */
  ghost predicate RunsStand(s: Sys, t: Sys) {
    forall r :: RunStands(CellAt(s, r), CellAt(t, r))
  }

  predicate RunStands(c: Cell, d: Cell) {
    match d case Cell(phase, live, created, _, _, _) =>
      phase == c.phase && created == c.created && forall h :: h in live ==> h in c.live
  }

  lemma ServeStands(s: Sys, act: ServeAct)
    requires ServeEnabled(s, act) && !act.DeliverCreate?
    ensures RunStands(CellAt(s, Target(act)), CellAt(DoServeAct(s, act), Target(act)))
  {
  }

  lemma QuietStands(s: Sys, step: Step, t: Sys)
    requires Enabled(s, step) && Quiet(step) && t == Do(s, step)
    ensures RunsStand(s, t)
  {
    forall r ensures RunStands(CellAt(s, r), CellAt(t, r)) {
      if step.Serve? && r == Target(step.serve) { ServeStands(s, step.serve); }
      else if step.Serve? { ServeOthersStay(s, step.serve, r); }
      else { OthersKeepCells(s, step); }
    }
  }

  /** What every reachable state has. */
  ghost predicate Kept(s: Sys) { match Judge(s) case Sound => CommitsSent(s) case Unsound => false }

  ghost predicate AllQuiet(steps: seq<Step>) { forall i :: 0 <= i < |steps| ==> Quiet(steps[i]) }

  lemma StandsOn(s: Sys, t: Sys, u: Sys)
    requires RunsStand(s, t) && RunsStand(t, u)
    ensures RunsStand(s, u)
  {
    forall r ensures RunStands(CellAt(s, r), CellAt(u, r)) {
      assert RunStands(CellAt(s, r), CellAt(t, r)) && RunStands(CellAt(t, r), CellAt(u, r));
    }
  }

  lemma {:induction false} QuietRun(s: Sys, steps: seq<Step>, t: Sys)
    requires Kept(s) && Leads(s, steps, t) && AllQuiet(steps)
    ensures Kept(t) && RunsStand(s, t)
    decreases |steps|
  {
    if steps == [] {
      assert forall r :: RunStands(CellAt(s, r), CellAt(t, r));
    } else {
      CarefulKeepsInv(s, steps[0]);
      QuietStands(s, steps[0], Do(s, steps[0]));
      QuietRun(Do(s, steps[0]), steps[1..], t);
      StandsOn(s, Do(s, steps[0]), t);
    }
  }

  // ---- one part after another ----------------------------------------------------------------------

  ghost predicate Unheld(s: Sys) { forall x :: !Holds(s, x) }

  lemma UnheldStays(s: Sys, t: Sys)
    requires Unheld(s) && RunsStand(s, t)
    ensures Unheld(t)
  {
    forall x ensures !Holds(t, x) { assert RunStands(Of(s, x), Of(t, x)) && !Holds(s, x); }
  }

  lemma SettlingIsQuiet(s: Sys, i: Takeover)
    ensures AllQuiet(SettleSteps(s, i))
  {
  }

  lemma TakeoverCleared(s: Sys) returns (steps: seq<Step>, t: Sys)
    requires Kept(s) && Unheld(s)
    ensures Leads(s, steps, t) && AllQuiet(steps) && t.shard.takeover.None?
  {
    match s.shard.takeover
    case None => steps, t := [], s;
    case Some(i) =>
      assert CellOk(CellAt(s, i.victim.run));
      t := TakeoverCanSettle(s);
      steps := SettleSteps(s, i);
      SettlingIsQuiet(s, i);
  }

  lemma ClaimCleared(s: Sys) returns (steps: seq<Step>, t: Sys)
    requires Kept(s) && Unheld(s)
    ensures Leads(s, steps, t) && AllQuiet(steps) && t.shard == s.shard.(claim := None)
  {
    match s.shard.claim
    case None => steps, t := [], s;
    case Some(cl) =>
      assert CellOk(CellAt(s, cl.owner.run)) && !Holds(s, cl.owner);
      t := ClaimCanSettle(s);
      steps := ClaimSteps(s, cl);
  }

  lemma LostRecordIsDead(s: Sys, x: Owner)
    requires Kept(s) && s.shard.record.Some? && s.shard.record.value.owner == x && !Holds(s, x)
    ensures Dead(Of(s, x), x.hook)
  {
    assert CellOk(CellAt(s, x.run));
  }

  lemma RecordCleared(s: Sys) returns (steps: seq<Step>, t: Sys)
    requires Kept(s) && Unheld(s) && s.shard.claim.None? && s.shard.takeover.None?
    ensures Leads(s, steps, t) && AllQuiet(steps) && Untaken(t.shard)
  {
    match s.shard.record
    case None => steps, t := [], s;
    case Some(hook) =>
      var x := hook.owner;
      LostRecordIsDead(s, x);
      var announce, release := Answer(AnnounceRelease(x, false)), OfShard(ReleaseHook(x, false));
      LeadsTwo(s, announce, release);
      steps, t := [announce, release], Do(Do(s, announce), release);
  }

  // ---- the theorems -----------------------------------------------------------------------------------

  /** A token that no run holds can be freed, without any run doing anything: a takeover or a claim left behind is
      settled, and the record of a hook that is gone is released. */
  lemma TokenCanBeFreed(s: Sys) returns (steps: seq<Step>, t: Sys)
    requires Kept(s) && Unheld(s)
    ensures Leads(s, steps, t) && AllQuiet(steps) && RunsStand(s, t) && Untaken(t.shard)
  {
    var first, second, third: seq<Step>;
    var u, v: Sys;
    first, u := TakeoverCleared(s);
    QuietRun(s, first, u);
    UnheldStays(s, u);
    second, v := ClaimCleared(u);
    QuietRun(u, second, v);
    UnheldStays(u, v);
    third, t := RecordCleared(v);
    LeadsOn(s, first, u, second, v);
    LeadsOn(s, first + second, v, third, t);
    steps := first + second + third;
    QuietRun(s, steps, t);
  }

  /** No token is stuck: in every reachable state a token that no run holds can be brought to any hook that an
      active run has not created yet. */
  lemma NoTokenIsStuck(states: seq<Sys>, steps: seq<Step>, i: nat, x: Owner, retain: Option<nat>)
    returns (more: seq<Step>, t: Sys)
    requires Behaviour(states, steps) && i < |states|
    requires Unheld(states[i]) && Of(states[i], x).phase.Active? && x.hook !in Of(states[i], x).created
    ensures Leads(states[i], more, t) && Holds(t, x) && t.shard.record == Some(Hook(x, retain))
  {
    var s := states[i];
    ReachableInv(states, steps, i);
    var free, freed := TokenCanBeFreed(s);
    assert RunStands(Of(s, x), Of(freed, x));
    var id;
    id, t := FreeTokenCanBeTaken(freed, x, retain);
    more := free + TakeFreeSteps(x, id, retain);
    LeadsOn(s, free, freed, TakeFreeSteps(x, id, retain), t);
  }

  // ---- the shorter ways -----------------------------------------------------------------------------------

  /** A claim whose hook committed is published at once by whoever asks its run. */
  lemma ClaimCanBePublished(s: Sys) returns (t: Sys)
    requires Kept(s) && s.shard.claim.Some? && Holds(s, s.shard.claim.value.owner)
    ensures
      var cl := s.shard.claim.value;
      var hook := HookOf(Of(s, cl.owner), cl.owner);
      && Leads(s, [OfClient(Observe), Answer(AnswerCommitted(cl)), OfShard(PublishClaim(cl, hook))], t)
      && t.shard == s.shard.(claim := None, record := Some(hook)) && t.cells == s.cells
  {
    var cl := s.shard.claim.value;
    var hook := HookOf(Of(s, cl.owner), cl.owner);
    var observed := Do(s, OfClient(Observe));
    assert AskClaim(cl) in observed.net && observed.shard == s.shard && observed.cells == s.cells;
    var answered := Do(observed, Answer(AnswerCommitted(cl)));
    assert StillCommitted(cl, hook) in answered.net && answered.shard == s.shard;
    LeadsThree(s, OfClient(Observe), Answer(AnswerCommitted(cl)), OfShard(PublishClaim(cl, hook)));
    t := Do(answered, OfShard(PublishClaim(cl, hook)));
  }

  /** A forced claimant does not wait for another's lease: the claim is fenced or published at once. */
  lemma ClaimCanBePreempted(s: Sys) returns (t: Sys)
    requires s.shard.claim.Some?
    ensures
      var cl := s.shard.claim.value;
      && Leads(s, [OfClient(Observe), Serve(ResolveExpired(cl)), OfShard(Preempt(cl, Behind(s, cl)))], t)
      && t.now == s.now && t.shard.claim.None? && t.shard.takeover == s.shard.takeover
      && t.shard.record == if Behind(s, cl).Some? then Behind(s, cl) else s.shard.record
  {
    var cl := s.shard.claim.value;
    var observed := Do(s, OfClient(Observe));
    assert AskClaim(cl) in observed.net && observed.shard == s.shard && observed.cells == s.cells;
    var resolved := Do(observed, Serve(ResolveExpired(cl)));
    assert Resolved(cl, Behind(s, cl)) in resolved.net && resolved.shard == s.shard;
    LeadsThree(s, OfClient(Observe), Serve(ResolveExpired(cl)), OfShard(Preempt(cl, Behind(s, cl))));
    t := Do(resolved, OfShard(Preempt(cl, Behind(s, cl))));
  }

  /** Whoever published a record for another run asks that run again; a record whose hook is gone by then is
      withdrawn, and one whose hook stands stays. */
  lemma StaleRecordIsWithdrawn(s: Sys, cl: Claim, record: Hook) returns (t: Sys)
    requires StillCommitted(cl, record) in s.net && record.owner == cl.owner
    requires s.shard.record.None? && s.shard.claim == Some(cl)
    ensures
      var published := Do(s, OfShard(PublishClaim(cl, record)));
      && Leads(s, [OfShard(PublishClaim(cl, record)), Answer(AnswerConfirm(cl.owner))], t)
      && t.shard == s.shard.(record := Some(record), claim := None)
      && (!Holds(s, cl.owner) ==>
            && Enabled(t, OfShard(Withdraw(cl.owner)))
            && Do(t, OfShard(Withdraw(cl.owner))).shard == s.shard.(claim := None))
      && (Holds(s, cl.owner) ==> t.net == published.net)
  {
    var publish, confirm := OfShard(PublishClaim(cl, record)), Answer(AnswerConfirm(cl.owner));
    var published := Do(s, publish);
    assert AskConfirm(cl.owner) in published.net && published.cells == s.cells;
    LeadsTwo(s, publish, confirm);
    t := Do(published, confirm);
  }

  function EndedSteps(x: Owner): seq<Step> {
    [OfRun(EndRun(x.run)), Answer(AnnounceRelease(x, true)), OfShard(ReleaseHook(x, true))]
  }

  /** A run that ends with a retained hook keeps the token exactly until the retention is over. */
  lemma EndedRunKeepsToken(s: Sys, x: Owner, until: nat, wait: nat) returns (kept: Sys, t: Sys)
    requires s.shard == FREE.(record := Some(Hook(x, Some(until)))) && Of(s, x).phase.Active? && s.now < until
    ensures Leads(s, EndedSteps(x), kept) && Leads(kept, [OfClient(Tick(wait)), OfShard(CompactRetained)], t)
    ensures !Holds(kept, x) && kept.now == s.now
    ensures t.shard.record == if s.now + wait < until then s.shard.record else None
    ensures s.now + wait >= until ==> t.shard == FREE
  {
    var end, announce, release :=
      OfRun(EndRun(x.run)), Answer(AnnounceRelease(x, true)), OfShard(ReleaseHook(x, true));
    var ended := Do(s, end);
    assert Of(ended, x).phase.Terminal? && ended.shard == s.shard && ended.now == s.now;
    kept := Do(Do(ended, announce), release);
    LeadsThree(s, end, announce, release);
    t := Do(Do(kept, OfClient(Tick(wait))), OfShard(CompactRetained));
    LeadsTwo(kept, OfClient(Tick(wait)), OfShard(CompactRetained));
  }

  /** No creation under this key can commit, and none did. */
  predicate Hopeless(c: Cell, h: HookId, key: Key) { !Live(c, h) && !Able(c, h, key) }

  /** A creation that is refused, and one whose answer was lost and that is resolved as not committed, give the
      token back: the claim is released, and nothing can commit under its key any more. */
  lemma RefusedClaimIsReleased(s: Sys, x: Owner, key: Key, from: Option<Owner>, retain: Option<nat>)
    returns (refused: Sys, resolved: Sys)
    requires Create(x, key, from) in s.net && key.token.Some? && HasClaim(s.shard, x, key.token.value)
    requires x.hook !in Of(s, x).live
    ensures
      var deliver, release := Serve(DeliverCreate(x, key, from, retain)), OfShard(ReleaseClaim(x, key.token.value));
      !Able(Of(s, x), x.hook, key) ==>
        Leads(s, [deliver, release], refused) && refused.shard == s.shard.(claim := None)
    ensures
      var resolve, release := Serve(ResolveTokenClaim(x, key, from)), OfShard(ReleaseClaim(x, key.token.value));
      && Leads(s, [resolve, release], resolved) && resolved.shard == s.shard.(claim := None)
      && Hopeless(Of(resolved, x), x.hook, key)
  {
    var release := OfShard(ReleaseClaim(x, key.token.value));
    var deliver, resolve := Serve(DeliverCreate(x, key, from, retain)), Serve(ResolveTokenClaim(x, key, from));
    refused, resolved := Do(Do(s, deliver), release), Do(Do(s, resolve), release);
    if !Able(Of(s, x), x.hook, key) { LeadsTwo(s, deliver, release); }
    LeadsTwo(s, resolve, release);
  }

  /** Once the hook-ID shard had its expired claim fenced, no creation under it can commit. */
  lemma ExpiredHookIdIsFenced(s: Sys, x: Owner, id: ClaimId)
    requires ServeEnabled(s, FenceById(x, id)) && !Live(Of(s, x), x.hook) && CellOk(Of(s, x))
    ensures
      var t := Do(s, Serve(FenceById(x, id)));
      && t.shard == s.shard && Hopeless(Of(t, x), x.hook, Exact(id)) && Hopeless(Of(t, x), x.hook, Key(None, id))
  {
  }

  /** A hook whose run ended before its publication is published as a retained one. */
  lemma EndedHookIsRetained(s: Sys, x: Owner, id: ClaimId, until: nat, lease: nat) returns (t: Sys)
    requires s.shard == FREE.(claim := Some(Claim(x, id, lease))) && s.now < lease && s.now < until
    requires Of(s, x).phase.Terminal? && Reported(x, Exact(id), Hook(x, Some(until))) in s.net
    ensures
      Leads(s, [Answer(AnswerStatus(x.run)), OfShard(Finalize(Exact(id), Hook(x, Some(until)), false))], t)
    ensures t.shard == TokenState(Some(Hook(x, Some(until))), None, Some(Retained(x, until)), None)
  {
    var answer, finalize := Answer(AnswerStatus(x.run)), OfShard(Finalize(Exact(id), Hook(x, Some(until)), false));
    var answered := Do(s, answer);
    assert Status(x.run, false) in answered.net && answered.shard == s.shard;
    LeadsTwo(s, answer, finalize);
    t := Do(answered, finalize);
  }

  /** A token that an ended run retains can be taken over by force, without anything to dispose. */
  lemma RetainedTokenCanBeClaimed(s: Sys, x: Owner, victim: Hook, id: ClaimId) returns (t: Sys)
    requires s.shard.record == Some(victim) && s.shard.takeover.None? && RetentionAhead(victim, s.now)
    requires Over(Of(s, victim.owner)) && victim.owner != x && !Of(s, x).phase.Missing? && id !in s.ids
    ensures
      Leads(s, [OfClient(Observe), Answer(AnswerVictim(victim)), OfShard(OpenTakeover(x, id, victim, false, s.now))], t)
    ensures
      t.shard == s.shard.(takeover := Some(Takeover(x, id, victim.owner, false, s.now + HOOK_TAKEOVER_SETTLE_MS)))
    ensures Grant(x, id, Some(victim.owner)) in t.held && t.cells == s.cells
  {
    var answer, open := Answer(AnswerVictim(victim)), OfShard(OpenTakeover(x, id, victim, false, s.now));
    var observed := Do(s, OfClient(Observe));
    assert AskVictim(victim) in observed.net && observed.(net := s.net) == s;
    var answered := Do(observed, answer);
    assert Victim(victim, false) in answered.net && answered.(net := s.net) == s;
    LeadsThree(s, OfClient(Observe), answer, open);
    t := Do(answered, open);
  }

  /** The claimer of a pending takeover that asks again gets its reservation back, and can create under it. */
  lemma TakeoverCanBeJoined(s: Sys) returns (t: Sys)
    requires s.shard.takeover.Some?
    ensures
      var i := s.shard.takeover.value;
      && Leads(s, [OfClient(JoinTakeover), OfClient(SendCreate(Grant(i.claimer, i.id, Some(i.victim))))], t)
      && Create(i.claimer, Exact(i.id), Some(i.victim)) in t.net && t.shard == s.shard && t.cells == s.cells
  {
    var i := s.shard.takeover.value;
    var create := OfClient(SendCreate(Grant(i.claimer, i.id, Some(i.victim))));
    LeadsTwo(s, OfClient(JoinTakeover), create);
    t := Do(Do(s, OfClient(JoinTakeover)), create);
  }
}
