/** From every state the token protocol can go on: a free token can be taken, a claim and a takeover can
    be settled, with the outcome the claimer's log asks for
    (src/worker/durable-objects/HookTokenDO.ts, src/indexes.ts). */
module HookProgress {
  import opened Prelude
  import opened HookToken
  import opened HookCell
  import opened HookProtocol
  import opened HookInvariant
  import opened HookAttempts
  import opened HookTheorems
  import opened HookHalfDone
  import Run = HookCell

  // ---- takeovers ---------------------------------------------------------------------------------

  /** An enabled settlement ends the pending takeover at once, with the record it brings. */
  lemma RollForwardEnds(s: Sys, i: Takeover, hook: Option<Hook>)
    requires Inv(s) && s.shard.takeover == Some(i) && Enabled(s, OfShard(RollForward(i, hook)))
    ensures
      var t := Do(s, OfShard(RollForward(i, hook)));
      && t.shard == TokenState(hook, s.shard.claim, None, None) && t.cells == s.cells
      && (hook.Some? ==> hook.value.owner == i.claimer) && TakenOver(t, i)
  {
    RolledForward(s, i, hook);
  }

  /** What the claimer's log decides; an expired run does not look. */
  predicate Moves(c: Cell, i: Takeover) { !c.phase.Expired? && Run.Journaled(c, i) }

  /** The token after the settlement of `i`. */
  function Settlement(s: Sys, i: Takeover): TokenState {
    if Moves(Of(s, i.claimer), i)
    then TokenState(CommittedHook(Of(s, i.claimer), i.claimer), s.shard.claim, None, None)
    else s.shard.(takeover := None)
  }

  lemma Asked(s: Sys, i: Takeover) returns (t: Sys)
    requires s.shard.takeover == Some(i)
    ensures Leads(s, [OfClient(Observe), Serve(ResolveForced(i))], t)
    ensures t.shard == s.shard && AskForced(i) in t.net
    ensures
      if Moves(Of(s, i.claimer), i) then
        && Decided(i, true, CommittedHook(Of(s, i.claimer), i.claimer)) in t.net
        && t.cells == s.cells[i.claimer.run := Of(s, i.claimer)]
      else Decided(i, false, None) in t.net
  {
    var observed := Do(s, OfClient(Observe));
    assert AskForced(i) in observed.net && observed.cells == s.cells && observed.shard == s.shard;
    t := Do(observed, Serve(ResolveForced(i)));
    LeadsTwo(s, OfClient(Observe), Serve(ResolveForced(i)));
  }

  lemma LeadsOne(s: Sys, step: Step)
    requires Enabled(s, step) && Careful(s, step)
    ensures Leads(s, [step], Do(s, step))
  {
    assert [step][1..] == [];
    assert Leads(Do(s, step), [], Do(s, step));
  }

  /** The end of a settlement that moves the token: a running victim's hook is disposed first. */
  function MoveSteps(i: Takeover, hook: Option<Hook>): seq<Step> {
    if i.victimRunning then [Serve(ForceDispose(i, hook)), OfShard(RollForward(i, hook))]
    else [OfShard(RollForward(i, hook))]
  }

  lemma Moved(s: Sys, i: Takeover, hook: Option<Hook>) returns (t: Sys)
    requires s.shard.takeover == Some(i) && AskForced(i) in s.net && Decided(i, true, hook) in s.net
    ensures Leads(s, MoveSteps(i, hook), t) && t.shard == TokenState(hook, s.shard.claim, None, None)
    ensures
      t.cells ==
      if i.victimRunning
      then s.cells[i.victim.run := Run.ForceDispose(Of(s, i.victim), i.victim.hook, i.claimer)] else s.cells
  {
    var forward := OfShard(RollForward(i, hook));
    if i.victimRunning {
      var dispose := Serve(ForceDispose(i, hook));
      var disposed := Do(s, dispose);
      assert disposed.shard == s.shard && VictimDone(i) in disposed.net && s.net <= disposed.net;
      t := Do(disposed, forward);
      LeadsTwo(s, dispose, forward);
    } else {
      t := Do(s, forward);
      LeadsOne(s, forward);
    }
  }

  /** What any settler does: ask the claimer's cell, then move the token or drop the intent. */
  function SettleSteps(s: Sys, i: Takeover): seq<Step> {
    [OfClient(Observe), Serve(ResolveForced(i))]
    + if Moves(Of(s, i.claimer), i) then MoveSteps(i, CommittedHook(Of(s, i.claimer), i.claimer))
      else [OfShard(DropIntent(i))]
  }

  /** A pending takeover can always be settled: the token moves exactly if the claimer's log holds the forced
      creation and its run has not expired, and then a running victim's hook is gone. */
  lemma TakeoverCanSettle(s: Sys) returns (t: Sys)
    requires s.shard.takeover.Some? && CellOk(Of(s, s.shard.takeover.value.victim))
    ensures Leads(s, SettleSteps(s, s.shard.takeover.value), t) && t.shard == Settlement(s, s.shard.takeover.value)
    ensures
      var i := s.shard.takeover.value;
      && (Moves(Of(s, i.claimer), i) && i.victimRunning ==> !Holds(t, i.victim))
      && (Moves(Of(s, i.claimer), i) && i.claimer.run != i.victim.run ==> Of(t, i.claimer) == Of(s, i.claimer))
  {
    var i := s.shard.takeover.value;
    var asked := Asked(s, i);
    var ask := [OfClient(Observe), Serve(ResolveForced(i))];
    if Moves(Of(s, i.claimer), i) {
      var hook := CommittedHook(Of(s, i.claimer), i.claimer);
      t := Moved(asked, i, hook);
      assert Of(asked, i.victim) == Of(s, i.victim);
      LeadsOn(s, ask, asked, MoveSteps(i, hook), t);
    } else {
      t := Do(asked, OfShard(DropIntent(i)));
      LeadsOne(asked, OfShard(DropIntent(i)));
      LeadsOn(s, ask, asked, [OfShard(DropIntent(i))], t);
    }
  }

  // ---- a takeover that goes through --------------------------------------------------------------

  function OwnSteps(a: Owner, b: Owner): seq<Step> {
    [OfRun(StartRun(a.run)), OfShard(Reserve(a, 1, None, None))] + CreateSteps(a) + PublishSteps(a) + ObserveSteps(a, b)
  }

  /** `a` owns the token, `b` takes it over by force, and a settler sees it through. */
  function ThroughSteps(a: Owner, b: Owner): seq<Step> {
    OwnSteps(a, b) + TakeSteps(a, b) + [OfClient(Observe), Serve(ResolveForced(Intent(a, b)))]
    + [Serve(ForceDispose(Intent(a, b), Some(Hook(b, None)))), OfShard(RollForward(Intent(a, b), Some(Hook(b, None))))]
  }

  lemma SettledThrough(s: Sys, a: Owner, b: Owner) returns (t: Sys)
    requires a.run != b.run && Opened(s, a, b)
    ensures
      Leads(s,
            [OfClient(Observe), Serve(ResolveForced(Intent(a, b)))] +
            [Serve(ForceDispose(Intent(a, b), Some(Hook(b, None)))),
             OfShard(RollForward(Intent(a, b), Some(Hook(b, None))))], t)
    ensures t.shard == FREE.(record := Some(Hook(b, None))) && !Holds(t, a) && Holds(t, b)
  {
    assert Of(s, b) == Holder(b.hook, 2, Some(a)) && Of(s, a) == Holder(a.hook, 1, None);
    t := TakeoverCanSettle(s);
    assert CommittedHook(Of(s, b), b) == Some(Hook(b, None));
  }

  /** Beside the takeover that ends half done, one that goes through: the running victim's hook is disposed, and
      the claimer's hook owns the token. */
  lemma TakeoverGoesThrough(a: Owner, b: Owner) returns (states: seq<Sys>)
    requires a.run != b.run
    ensures Behaviour(states, ThroughSteps(a, b))
    ensures
      var end := states[|ThroughSteps(a, b)|];
      end.shard == FREE.(record := Some(Hook(b, None))) && !Holds(end, a) && Holds(end, b)
  {
    var s := FirstHalf(a, b);
    var taken := BTakesOver(s, a, b);
    var t := SettledThrough(taken, a, b);
    var settle := [OfClient(Observe), Serve(ResolveForced(Intent(a, b)))]
                  + [Serve(ForceDispose(Intent(a, b), Some(Hook(b, None)))),
                     OfShard(RollForward(Intent(a, b), Some(Hook(b, None))))];
    LeadsOn(INIT, OwnSteps(a, b), s, TakeSteps(a, b), taken);
    LeadsOn(INIT, OwnSteps(a, b) + TakeSteps(a, b), taken, settle, t);
    assert OwnSteps(a, b) + TakeSteps(a, b) + settle == ThroughSteps(a, b);
    states := LeadsIsBehaviour(INIT, ThroughSteps(a, b), t);
  }

  // ---- claims ----------------------------------------------------------------------------------------

  /** The hook behind a claim, as its run's cell answers and fences. */
  function Behind(s: Sys, cl: Claim): Option<Hook> { Run.ResolveExpiredClaim(Of(s, cl.owner), cl.owner, cl.id).1 }

  function ClaimSteps(s: Sys, cl: Claim): seq<Step> {
    [OfClient(Tick(cl.expiresAt)), OfClient(Observe)]
    + [Serve(ResolveExpired(cl)), OfShard(CompactClaim(s.now + cl.expiresAt, cl, Behind(s, cl)))]
  }

  /** A claim never blocks a token for good: once its lease has passed it can be resolved, and a hook that
      committed under it becomes the record. */
  lemma ClaimCanSettle(s: Sys) returns (t: Sys)
    requires s.shard.claim.Some?
    ensures Leads(s, ClaimSteps(s, s.shard.claim.value), t)
    ensures
      var hook := Behind(s, s.shard.claim.value);
      t.shard == s.shard.(claim := None, record := if hook.Some? then hook else s.shard.record)
  {
    var cl := s.shard.claim.value;
    var first := [OfClient(Tick(cl.expiresAt)), OfClient(Observe)];
    var ticked := Do(s, OfClient(Tick(cl.expiresAt)));
    var observed := Do(ticked, OfClient(Observe));
    assert AskClaim(cl) in observed.net && observed.shard == s.shard && observed.cells == s.cells;
    LeadsTwo(s, OfClient(Tick(cl.expiresAt)), OfClient(Observe));
    var resolve, compact := Serve(ResolveExpired(cl)), OfShard(CompactClaim(s.now + cl.expiresAt, cl, Behind(s, cl)));
    t := Do(Do(observed, resolve), compact);
    LeadsTwo(observed, resolve, compact);
    LeadsOn(s, first, observed, [resolve, compact], t);
  }

  // ---- a free token ------------------------------------------------------------------------------------

  lemma {:induction false} FreshId(used: set<ClaimId>) returns (id: ClaimId)
    ensures id !in used && forall k :: k in used ==> k < id
    decreases used
  {
    if used == {} {
      id := 0;
    } else {
      var k :| k in used;
      var rest := FreshId(used - {k});
      id := if k < rest then rest else k + 1;
      assert forall j :: j in used ==> j == k || j in used - {k};
    }
  }

  function TakeFreeSteps(x: Owner, id: ClaimId, retain: Option<nat>): seq<Step> {
    [OfShard(Reserve(x, id, None, None)), OfClient(SendCreate(Grant(x, id, None)))]
    + [Serve(DeliverCreate(x, Exact(id), None, retain)), Answer(AnswerStatus(x.run)),
       OfShard(Finalize(Exact(id), Hook(x, retain), true))]
  }

  /** Nobody has the token: a stale retention marker may be left. */
  predicate Untaken(ts: TokenState) { ts.record.None? && ts.claim.None? && ts.takeover.None? }

  lemma FreePublished(s: Sys, x: Owner, id: ClaimId, retain: Option<nat>) returns (t: Sys)
    requires Untaken(s.shard.(claim := None)) && s.shard.claim == Some(Claim(x, id, s.now + HOOK_CLAIM_LEASE_MS))
    requires Create(x, Exact(id), None) in s.net && Able(Of(s, x), x.hook, Exact(id))
    ensures
      Leads(s, [Serve(DeliverCreate(x, Exact(id), None, retain)), Answer(AnswerStatus(x.run)),
                OfShard(Finalize(Exact(id), Hook(x, retain), true))], t)
    ensures t.shard == s.shard.(record := Some(Hook(x, retain)), claim := None) && Holds(t, x)
  {
    var deliver, answer := Serve(DeliverCreate(x, Exact(id), None, retain)), Answer(AnswerStatus(x.run));
    var finalize := OfShard(Finalize(Exact(id), Hook(x, retain), true));
    t := Do(Do(Do(s, deliver), answer), finalize);
    LeadsThree(s, deliver, answer, finalize);
  }

  lemma FreeTaken(s: Sys, x: Owner, id: ClaimId, retain: Option<nat>) returns (t: Sys)
    requires Untaken(s.shard) && Of(s, x).phase.Active? && x.hook !in Of(s, x).created
    requires id !in s.ids && Exact(id) !in Of(s, x).fenced
    ensures Leads(s, TakeFreeSteps(x, id, retain), t)
    ensures t.shard == s.shard.(record := Some(Hook(x, retain))) && Holds(t, x)
  {
    var reserve, send := OfShard(Reserve(x, id, None, None)), OfClient(SendCreate(Grant(x, id, None)));
    var reserved := Do(s, reserve);
    assert reserved.shard == s.shard.(claim := Some(Claim(x, id, s.now + HOOK_CLAIM_LEASE_MS)));
    var sent := Do(reserved, send);
    assert sent.shard == reserved.shard && sent.cells == s.cells && Create(x, Exact(id), None) in sent.net;
    LeadsTwo(s, reserve, send);
    var deliver, answer := Serve(DeliverCreate(x, Exact(id), None, retain)), Answer(AnswerStatus(x.run));
    var finalize := OfShard(Finalize(Exact(id), Hook(x, retain), true));
    t := FreePublished(sent, x, id, retain);
    LeadsOn(s, [reserve, send], sent, [deliver, answer, finalize], t);
  }

  /** A token that nobody has can be taken by any hook that an active run has not created yet. */
  lemma FreeTokenCanBeTaken(s: Sys, x: Owner, retain: Option<nat>) returns (id: ClaimId, t: Sys)
    requires Untaken(s.shard) && Of(s, x).phase.Active? && x.hook !in Of(s, x).created
    ensures Leads(s, TakeFreeSteps(x, id, retain), t)
    ensures t.shard == s.shard.(record := Some(Hook(x, retain))) && Holds(t, x)
  {
    var fenced := set key | key in Of(s, x).fenced :: key.hookId;
    id := FreshId(s.ids.Keys + fenced);
    assert forall key :: key in Of(s, x).fenced ==> key.hookId in fenced;
    t := FreeTaken(s, x, id, retain);
  }
}
