/** What the token protocol guarantees over whole runs, and where the client's code falls short. */
module HookTheorems {
  import opened Prelude
  import opened HookToken
  import opened HookCell
  import opened HookProtocol
  import opened HookInvariant
  import opened HookPreservation
  import opened HookAttempts
  import Shard = HookToken
  import Run = HookCell

  /** A client gives back only a claim under which nothing was sent: the claim its attempt proposed,
      before its creation. */
  ghost predicate Careful(s: Sys, step: Step) {
    step.OfClient? && step.client.Abandon? ==> Unsent(s, step.client.owner, step.client.id)
  }

  /** A step whose abandoned reservation, if any, nobody depends on. */
  ghost predicate Harmless(s: Sys, step: Step) {
    step.OfClient? && step.client.Abandon? ==> Unused(s, step.client.owner, step.client.id)
  }

  lemma RunActKeepsInv(s: Sys, act: RunAct)
    requires Inv(s) && RunEnabled(s, act)
    ensures Inv(DoRunAct(s, act))
  {
    match act
    case StartRun(r) => PhaseKeepsInv(s, r, Active);
    case EndRun(r) => PhaseKeepsInv(s, r, Terminal);
    case ExpireRun(r) => PhaseKeepsInv(s, r, Expired);
    case CreateElsewhere(r, h) => CreateElsewhereKeepsInv(s, r, h);
    case DisposeHook(r, h) => DisposeKeepsInv(s, r, h);
    case CleanTerminal(r, h) => CleanTerminalKeepsInv(s, r, h);
  }

  lemma ServeActKeepsInv(s: Sys, act: ServeAct)
    requires Inv(s) && ServeEnabled(s, act)
    ensures Inv(DoServeAct(s, act))
  {
    match act
    case DeliverCreate(x, key, from, retain) => DeliverCreateKeepsInv(s, x, key, from, retain);
    case ResolveTokenClaim(x, key, from) => ResolveTokenClaimKeepsInv(s, x, key, from);
    case ResolveExpired(cl) => ResolveExpiredKeepsInv(s, cl);
    case ForceDispose(i, hook) => ForceDisposeKeepsInv(s, i, hook);
    case ResolveForced(i) => ResolveForcedKeepsInv(s, i);
    case FenceById(x, id) => FenceByIdKeepsInv(s, x, id);
  }

  lemma AnswerActKeepsInv(s: Sys, act: AnswerAct)
    requires Inv(s) && AnswerEnabled(s, act)
    ensures Inv(DoAnswerAct(s, act))
  {
    match act
    case AnswerCommitted(cl) => AnswerCommittedKeepsInv(s, cl);
    case AnswerConfirm(x) => AnswerConfirmKeepsInv(s, x);
    case AnswerVictim(record) => AnswerVictimKeepsInv(s, record);
    case AnswerStatus(r) => SendKeepsInv(s, {Status(r, CellAt(s, r).phase.Active?)});
    case AnnounceRelease(x, runEnded) => SendKeepsInv(s, {ReleaseBatch(x, runEnded)});
  }

  lemma ClientActKeepsInv(s: Sys, act: ClientAct)
    requires Inv(s) && ClientEnabled(s, act) && Harmless(s, OfClient(act))
    ensures Inv(DoClientAct(s, act))
  {
    match act
    case Tick(ms) => TickKeepsInv(s, ms);
    case Observe => ObserveKeepsInv(s);
    case JoinTakeover => JoinTakeoverKeepsInv(s);
    case SendCreate(g) => SendCreateKeepsInv(s, g);
    case SendReplay(x, key) => SendReplayKeepsInv(s, x, key);
    case Abandon(x, id) => AbandonKeepsInv(s, x, id);
  }

  lemma ShardActKeepsInv(s: Sys, act: ShardAct)
    requires Inv(s) && ShardEnabled(s, act)
    ensures Inv(DoShardAct(s, act))
  {
    match act
    case Reserve(x, id, expired, hook) => ReserveKeepsInv(s, x, id, expired, hook);
    case OpenTakeover(x, id, indexed, running, askedAt) => OpenTakeoverKeepsInv(s, x, id, indexed, running, askedAt);
    case Preempt(cl, hook) => PreemptKeepsInv(s, cl, hook);
    case RollForward(i, hook) => RollForwardKeepsInv(s, i, hook);
    case DropIntent(i) => DropIntentKeepsInv(s, i);
    case Finalize(key, record, active) => FinalizeKeepsInv(s, key, record, active);
    case ReleaseClaim(x, id) => ReleaseClaimKeepsInv(s, x, id);
    case ReleaseHook(x, runEnded) => ReleaseHookKeepsInv(s, x, runEnded);
    case PublishClaim(cl, record) => PublishClaimKeepsInv(s, cl, record);
    case Withdraw(x) => WithdrawKeepsInv(s, x);
    case CompactClaim(startedAt, cl, hook) => CompactClaimKeepsInv(s, startedAt, cl, hook);
    case CompactRetained => CompactRetainedKeepsInv(s);
  }

  lemma StepKeepsInv(s: Sys, step: Step)
    requires Inv(s) && Enabled(s, step) && Harmless(s, step)
    ensures Inv(Do(s, step))
  {
    match step
    case OfShard(act) => ShardActKeepsInv(s, act);
    case OfClient(act) => ClientActKeepsInv(s, act);
    case OfRun(act) => RunActKeepsInv(s, act);
    case Serve(act) => ServeActKeepsInv(s, act);
    case Answer(act) => AnswerActKeepsInv(s, act);
  }

  lemma CarefulKeepsInv(s: Sys, step: Step)
    requires Inv(s) && CommitsSent(s) && Enabled(s, step) && Careful(s, step)
    ensures Inv(Do(s, step)) && CommitsSent(Do(s, step))
  {
    if step.OfClient? && step.client.Abandon? { UnsentIsUnused(s, step.client.owner, step.client.id); }
    StepKeepsInv(s, step);
    StepKeepsSent(s, step);
  }

  // ---- whole runs -----------------------------------------------------------

  ghost predicate StepAt(states: seq<Sys>, steps: seq<Step>, i: nat)
    requires |states| == |steps| + 1 && i < |steps|
  {
    && Enabled(states[i], steps[i]) && Careful(states[i], steps[i])
    && states[i + 1] == Do(states[i], steps[i])
  }

  ghost predicate Behaviour(states: seq<Sys>, steps: seq<Step>) {
    && |states| == |steps| + 1
    && states[0] == INIT
    && forall i :: 0 <= i < |steps| ==> StepAt(states, steps, i)
  }

  lemma {:induction false} ReachableInv(states: seq<Sys>, steps: seq<Step>, i: nat)
    requires Behaviour(states, steps) && i < |states|
    ensures Inv(states[i]) && CommitsSent(states[i])
  {
    if i > 0 {
      ReachableInv(states, steps, i - 1);
      assert StepAt(states, steps, i - 1);
      CarefulKeepsInv(states[i - 1], steps[i - 1]);
    }
  }

  /** Coverage: however calls interleave, repeat, arrive late or get lost, the shard knows every active holder. */
  lemma TokenCoverage(states: seq<Sys>, steps: seq<Step>, i: nat, x: Owner)
    requires Behaviour(states, steps) && i < |states| && Holds(states[i], x)
    ensures Covered(states[i].shard, x)
  {
    ReachableInv(states, steps, i);
  }

  /** Two active hooks share the token only as the victim and the claimer of a pending takeover. */
  lemma SharedOnlyDuringTakeover(states: seq<Sys>, steps: seq<Step>, i: nat, x: Owner, y: Owner)
    requires Behaviour(states, steps) && i < |states|
    requires x != y && Holds(states[i], x) && Holds(states[i], y)
    ensures states[i].shard.takeover.Some?
    ensures {x, y} == {states[i].shard.takeover.value.victim, states[i].shard.takeover.value.claimer}
  {
    ReachableInv(states, steps, i);
    TokenCoverage(states, steps, i, x);
    TokenCoverage(states, steps, i, y);
  }

  // ---- forced takeover --------------------------------------------------------

  /** The takeover went through: the claimer's log holds the forced creation against this very
      victim, and the victim is gone, a running one with its delivery fence or its own disposal. */
  predicate TakenOver(s: Sys, i: Takeover) {
    && Journaled(Of(s, i.claimer), i)
    && !Holds(s, i.victim)
    && (i.victimRunning ==> Explained(Of(s, i.victim), i.victim.hook))
  }

  /** The reservation did not commit and never will. */
  predicate Foreclosed(s: Sys, x: Owner, id: ClaimId) {
    && !CommittedUnder(Of(s, x), x.hook, id)
    && (Over(Of(s, x)) || Exact(id) in Of(s, x).fenced)
  }

  /** The claimer's run expired with the forced creation in its log: an expired cell answers
      without reading its log. */
  predicate Forgotten(s: Sys, x: Owner, id: ClaimId) {
    Of(s, x).phase.Expired? && CommittedUnder(Of(s, x), x.hook, id)
  }

  lemma OnlySettlersEndTakeovers(s: Sys, act: ShardAct)
    requires ShardOk(s) && s.shard.takeover.Some? && DoShardAct(s, act).shard.takeover != s.shard.takeover
    ensures DoShardAct(s, act).shard.takeover.None?
    ensures
      || (act.RollForward? && act.intent.id == s.shard.takeover.value.id
          && DoShardAct(s, act).shard.record == act.hook)
      || (act.DropIntent? && act.intent.id == s.shard.takeover.value.id
          && DoShardAct(s, act).shard.record == s.shard.record)
  {
  }

  lemma OnlyRollForwardMovesRecord(s: Sys, act: ShardAct)
    requires ShardOk(s) && s.shard.record.Some? && DoShardAct(s, act).shard.record.Some?
    requires s.shard.record.value.owner != DoShardAct(s, act).shard.record.value.owner
    ensures act.RollForward? && Pending(s.shard, act.intent.id)
    ensures DoShardAct(s, act).shard.record == act.hook && DoShardAct(s, act).shard.takeover.None?
  {
  }

  lemma OthersKeepShard(s: Sys, step: Step)
    requires ShardOk(s) && !step.OfShard?
    ensures Do(s, step).shard.takeover == s.shard.takeover
    ensures Do(s, step).shard.record == s.shard.record
  {
  }

  lemma RolledForward(s: Sys, i: Takeover, hook: Option<Hook>)
    requires Inv(s) && ShardEnabled(s, RollForward(i, hook)) && Pending(s.shard, i.id)
    ensures s.shard.takeover == Some(i) && TakenOver(s, i)
    ensures match hook case Some(h) => h.owner == i.claimer case None => Dead(Of(s, i.claimer), i.claimer.hook)
  {
    DecisiveIsJournaled(s, i, hook);
    if i.victimRunning { assert MsgOk(s, VictimDone(i)); }
  }

  lemma Dropped(s: Sys, i: Takeover)
    requires Inv(s) && ShardEnabled(s, DropIntent(i)) && Pending(s.shard, i.id)
    ensures s.shard.takeover == Some(i)
    ensures Foreclosed(s, i.claimer, i.id) <==> !Forgotten(s, i.claimer, i.id)
  {
    assert MsgOk(s, Decided(i, false, None));
    assert IntentOk(s, s.intents[i.id]);
  }

  /** A pending takeover ends only one of two ways. */
  lemma TakeoverEnds(s: Sys, step: Step)
    requires Inv(s) && Enabled(s, step) && s.shard.takeover.Some?
    requires Do(s, step).shard.takeover != s.shard.takeover
    ensures
      var (i, t) := (s.shard.takeover.value, Do(s, step));
      && t.shard.takeover.None? && t.cells == s.cells
      && (|| (TakenOver(s, i)
              && (match t.shard.record
                  case Some(h) => h.owner == i.claimer
                  case None => Dead(Of(s, i.claimer), i.claimer.hook)))
          || (t.shard.record == s.shard.record
              && (Foreclosed(s, i.claimer, i.id) <==> !Forgotten(s, i.claimer, i.id))))
  {
    assert ShardOk(s);
    if !step.OfShard? {
      OthersKeepShard(s, step);
    } else {
      OnlySettlersEndTakeovers(s, step.shard);
      if step.shard.RollForward? {
        RolledForward(s, step.shard.intent, step.shard.hook);
      } else {
        Dropped(s, step.shard.intent);
      }
    }
  }

  // ---- run cells never go back ------------------------------------------------

  lemma SameCellGrows(c: Cell)
    ensures Grows(c, c)
  {
  }

  lemma WithCellGrows(s: Sys, q: RunId, d: Cell, ms: set<Msg>, r: RunId)
    requires Grows(CellAt(s, q), d)
    ensures Grows(CellAt(s, r), CellAt(WithCell(s, q, d, ms), r))
  {
    SameCellGrows(CellAt(s, r));
  }

  lemma FencingGrows(c: Cell, keys: set<Key>)
    ensures Grows(c, c) && Grows(c, c.(fenced := c.fenced + keys))
  {
  }

  lemma RunActGrows(s: Sys, act: RunAct, r: RunId)
    requires CellOk(CellAt(s, act.run)) && RunEnabled(s, act)
    ensures Grows(CellAt(s, r), CellAt(DoRunAct(s, act), r))
  {
    var c := CellAt(s, act.run);
    SameCellGrows(c);
    match act
    case StartRun(_) => PhaseGrows(c, Active); WithCellGrows(s, act.run, c.(phase := Active), {}, r);
    case EndRun(_) => PhaseGrows(c, Terminal); WithCellGrows(s, act.run, c.(phase := Terminal), {}, r);
    case ExpireRun(_) =>
      if !c.phase.Expired? { PhaseGrows(c, Expired); }
      WithCellGrows(s, act.run, c.(phase := Expired), {}, r);
    case CreateElsewhere(_, h) =>
      CreateElsewhereGrows(c, h);
      WithCellGrows(s, act.run, Run.CreateElsewhere(c, h), {}, r);
    case DisposeHook(_, h) => DisposeGrows(c, h); WithCellGrows(s, act.run, Run.Dispose(c, h), {}, r);
    case CleanTerminal(_, h) => DisposeGrows(c, h); WithCellGrows(s, act.run, Run.CleanTerminal(c, h), {}, r);
  }

  function Target(act: ServeAct): RunId {
    match act
    case DeliverCreate(x, _, _, _) => x.run
    case ResolveTokenClaim(x, _, _) => x.run
    case ResolveExpired(cl) => cl.owner.run
    case ForceDispose(i, _) => i.victim.run
    case ResolveForced(i) => i.claimer.run
    case FenceById(x, _) => x.run
  }

  lemma ServeTargetGrows(s: Sys, act: ServeAct)
    requires CellOk(CellAt(s, Target(act)))
    ensures Grows(CellAt(s, Target(act)), CellAt(DoServeAct(s, act), Target(act)))
  {
    match act
    case DeliverCreate(x, key, from, retain) => CreateGrows(Of(s, x), x, key, from, retain);
    case ResolveTokenClaim(x, key, from) => FencingGrows(Of(s, x), {key});
    case ResolveExpired(cl) => FencingGrows(Of(s, cl.owner), {Exact(cl.id), Key(None, cl.id)});
    case ForceDispose(i, _) =>
      SameCellGrows(Of(s, i.victim));
      ForceDisposeGrows(Of(s, i.victim), i.victim.hook, i.claimer);
    case ResolveForced(i) => FencingGrows(Of(s, i.claimer), {Exact(i.id), Key(None, i.id)});
    case FenceById(x, id) => FencingGrows(Of(s, x), {Exact(id), Key(None, id)});
  }

  lemma ServeOthersStay(s: Sys, act: ServeAct, r: RunId)
    requires r != Target(act)
    ensures CellAt(DoServeAct(s, act), r) == CellAt(s, r)
  {
  }

  lemma OthersKeepCells(s: Sys, step: Step)
    requires !step.OfRun? && !step.Serve?
    ensures Do(s, step).cells == s.cells
  {
  }

  lemma StepGrows(s: Sys, step: Step, r: RunId)
    requires Enabled(s, step) && forall q :: CellOk(CellAt(s, q))
    ensures Grows(CellAt(s, r), CellAt(Do(s, step), r))
  {
    if step.OfRun? {
      RunActGrows(s, step.run, r);
    } else if step.Serve? && r == Target(step.serve) {
      ServeTargetGrows(s, step.serve);
    } else {
      SameCellGrows(CellAt(s, r));
      if step.Serve? { ServeOthersStay(s, step.serve, r); } else { OthersKeepCells(s, step); }
    }
  }

  lemma GrowsKeepsForeclosed(c: Cell, d: Cell, h: HookId, id: ClaimId)
    requires Grows(c, d) && !CommittedUnder(c, h, id) && (Over(c) || Exact(id) in c.fenced)
    ensures !CommittedUnder(d, h, id) && (Over(d) || Exact(id) in d.fenced)
  {
  }

  lemma StepKeepsForeclosed(s: Sys, step: Step, t: Sys, x: Owner, id: ClaimId)
    requires Inv(s) && Enabled(s, step) && t == Do(s, step) && Foreclosed(s, x, id)
    ensures Foreclosed(t, x, id)
  {
    assert forall q :: CellOk(CellAt(s, q)) by { assert CellsOk(s); }
    StepGrows(s, step, x.run);
    GrowsKeepsForeclosed(Of(s, x), Of(t, x), x.hook, id);
  }

  lemma NextForeclosed(states: seq<Sys>, steps: seq<Step>, k: nat, x: Owner, id: ClaimId)
    requires Behaviour(states, steps) && k < |steps| && Foreclosed(states[k], x, id)
    ensures Foreclosed(states[k + 1], x, id)
  {
    ReachableInv(states, steps, k);
    assert StepAt(states, steps, k);
    StepKeepsForeclosed(states[k], steps[k], states[k + 1], x, id);
  }

  lemma {:induction false} ForeclosedForever(states: seq<Sys>, steps: seq<Step>, i: nat, j: nat, x: Owner, id: ClaimId)
    requires Behaviour(states, steps) && i <= j < |states| && Foreclosed(states[i], x, id)
    ensures Foreclosed(states[j], x, id)
    decreases j
  {
    if i < j {
      ForeclosedForever(states, steps, i, j - 1, x, id);
      NextForeclosed(states, steps, j - 1, x, id);
    }
  }

  lemma {:induction false} CommittedForever(states: seq<Sys>, steps: seq<Step>, i: nat, j: nat, x: Owner, id: ClaimId)
    requires Behaviour(states, steps) && i <= j < |states| && CommittedUnder(Of(states[i], x), x.hook, id)
    ensures CommittedUnder(Of(states[j], x), x.hook, id)
    decreases j
  {
    if i < j {
      CommittedForever(states, steps, i, j - 1, x, id);
      ReachableInv(states, steps, j - 1);
      assert StepAt(states, steps, j - 1);
      assert CellsOk(states[j - 1]);
      StepGrows(states[j - 1], steps[j - 1], x.run);
    }
  }

  /** A takeover that is no longer pending either moved the token, with the claimer's journal and the
      victim's removal behind it, or left the record alone. Then, from there on, its reservation can
      never commit, exactly unless the claimer had expired with the forced creation in its log. */
  lemma TakeoverIsAllOrNothing(states: seq<Sys>, steps: seq<Step>, i: nat, j: nat)
    requires Behaviour(states, steps) && i < j < |states|
    requires states[i].shard.takeover.Some? && states[i + 1].shard.takeover != states[i].shard.takeover
    ensures states[i + 1].shard.takeover.None?
    ensures
      var intent := states[i].shard.takeover.value;
      || (TakenOver(states[i + 1], intent)
          && (match states[i + 1].shard.record
              case Some(h) => h.owner == intent.claimer
              case None => Dead(Of(states[i + 1], intent.claimer), intent.claimer.hook)))
      || (states[i + 1].shard.record == states[i].shard.record
          && (Foreclosed(states[j], intent.claimer, intent.id) <==> !Forgotten(states[i], intent.claimer, intent.id)))
  {
    ReachableInv(states, steps, i);
    assert StepAt(states, steps, i);
    TakeoverEnds(states[i], steps[i]);
    var intent := states[i].shard.takeover.value;
    if Foreclosed(states[i], intent.claimer, intent.id) {
      ForeclosedForever(states, steps, i, j, intent.claimer, intent.id);
    } else if Forgotten(states[i], intent.claimer, intent.id) {
      CommittedForever(states, steps, i, j, intent.claimer, intent.id);
    }
  }

  /** The record changes hands directly only by a takeover of exactly this victim. */
  lemma RecordMovesOnlyByTakeover(states: seq<Sys>, steps: seq<Step>, i: nat)
    requires Behaviour(states, steps) && i < |steps|
    requires states[i].shard.record.Some? && states[i + 1].shard.record.Some?
    requires states[i].shard.record.value.owner != states[i + 1].shard.record.value.owner
    ensures states[i].shard.takeover.Some?
    ensures
      var intent := states[i].shard.takeover.value;
      && intent.victim == states[i].shard.record.value.owner
      && intent.claimer == states[i + 1].shard.record.value.owner
      && TakenOver(states[i], intent)
  {
    ReachableInv(states, steps, i);
    assert StepAt(states, steps, i);
    var s := states[i];
    assert ShardOk(s);
    if !steps[i].OfShard? {
      OthersKeepShard(s, steps[i]);
    } else {
      OnlyRollForwardMovesRecord(s, steps[i].shard);
      RolledForward(s, steps[i].shard.intent, steps[i].shard.hook);
    }
  }

  /** A delivery fence in any run cell is backed by a forced creation in the claimer's log against that hook. */
  lemma FenceIsBacked(states: seq<Sys>, steps: seq<Step>, i: nat, victim: Owner) returns (intent: Takeover)
    requires Behaviour(states, steps) && i < |states|
    requires victim.hook in Of(states[i], victim).forced
    ensures intent.claimer == Of(states[i], victim).forced[victim.hook] && intent.victim == victim
    ensures Journaled(Of(states[i], intent.claimer), intent)
    ensures !Holds(states[i], victim)
  {
    ReachableInv(states, steps, i);
    var s := states[i];
    assert CellOk(Of(s, victim));
    assert FencesOk(s);
    var id :|
      && id in s.intents
      && s.intents[id].claimer == Of(s, victim).forced[victim.hook] && s.intents[id].victim == victim
      && Journaled(Of(s, s.intents[id].claimer), s.intents[id]);
    intent := s.intents[id];
  }

  // ---- the abandoned reservation ------------------------------------------------

  /** Exactly when giving a reservation back before its creation was sent is safe: if nobody depends on
      it the invariant survives; otherwise coverage is lost at once, or by one creation already on its way. */
  lemma AbandonSafeExactlyWhenUnused(s: Sys, x: Owner, id: ClaimId) returns (late: Step)
    requires Inv(s) && ClientEnabled(s, Abandon(x, id))
    ensures
      var t := Do(s, OfClient(Abandon(x, id)));
      if Unused(s, x, id) then Inv(t) && Coverage(t)
      else !Coverage(t) || (Enabled(t, late) && Careful(t, late) && !Coverage(Do(t, late)))
  {
    late := OfClient(Tick(0));
    if Unused(s, x, id) {
      AbandonKeepsInv(s, x, id);
    } else {
      assert ShardOk(s);
      var t := DoAbandon(s, x, id);
      assert t.shard == s.shard.(claim := None);
      assert !Covered(t.shard, x);
      if Holds(s, x) {
        assert Holds(t, x);
      } else {
        var m :| m in s.net && m.Create? && m.owner == x && m.key.token == Some(id) && Able(Of(s, x), x.hook, m.key);
        late := Serve(DeliverCreate(x, m.key, m.claimedFrom, None));
        LateCreationUncovered(t, x, m.key, m.claimedFrom);
      }
    }
  }

  lemma LateCreationUncovered(t: Sys, x: Owner, key: Key, from: Option<Owner>)
    requires Able(Of(t, x), x.hook, key) && !Covered(t.shard, x)
    ensures !Coverage(DoDeliverCreate(t, x, key, from, None))
  {
    var u := DoDeliverCreate(t, x, key, from, None);
    assert Holds(u, x) && !Covered(u.shard, x);
  }

  // ---- a reservation given back too early ---------------------------------------

  /** `a` creates its hook and stops before publishing it; its retry gets the same claim, the hook-ID
      shard refuses, the claim is given back, and `b` takes the token from under the live hook. */
  ghost function LostTokenSteps(a: Owner, b: Owner): seq<Step> {
    [ OfRun(StartRun(a.run)),
      OfShard(Reserve(a, 1, None, None)),
      OfClient(SendCreate(Grant(a, 1, None))),
      Serve(DeliverCreate(a, Exact(1), None, None)),
      OfShard(Reserve(a, 2, None, None)),
      OfClient(Abandon(a, 1)),
      OfRun(StartRun(b.run)),
      OfShard(Reserve(b, 3, None, None)),
      OfClient(SendCreate(Grant(b, 3, None))),
      Serve(DeliverCreate(b, Exact(3), None, None)) ]
  }

  ghost function States(s: Sys, steps: seq<Step>): (states: seq<Sys>)
    ensures |states| == |steps| + 1 && states[0] == s
    ensures forall i :: 0 <= i < |steps| ==> states[i + 1] == Do(states[i], steps[i])
    decreases |steps|
  {
    if steps == [] then [s] else [s] + States(Do(s, steps[0]), steps[1..])
  }

  const ACTIVE := EMPTY.(phase := Active)

  ghost function WithHook(h: HookId, id: ClaimId): Cell {
    ACTIVE.(live := map[h := None], created := map[h := Run.Created(true, None, Some(id))])
  }

  /** The first half: `a` holds the token's only claim, then its hook is live, then the claim is gone. */
  ghost function Lost(a: Owner): Sys {
    Sys(0, FREE, map[a.run := WithHook(a.hook, 1)], map[1 := a, 2 := a], map[], {},
        {Create(a, Exact(1), None), Reported(a, Exact(1), Hook(a, None))})
  }

  lemma LosesCoverage(a: Owner, b: Owner)
    ensures
      var steps := LostTokenSteps(a, b);
      var states := States(INIT, steps);
      (forall i :: 0 <= i < 6 ==> Enabled(states[i], steps[i])) && states[6] == Lost(a) && !Careful(states[5], steps[5])
  {
    var steps := LostTokenSteps(a, b);
    var states := States(INIT, steps);
    var claim := FREE.(claim := Some(Claim(a, 1, HOOK_CLAIM_LEASE_MS)));
    var held := {Grant(a, 1, None)};
    assert Do(INIT, steps[0]) == Sys(0, FREE, map[a.run := ACTIVE], map[], map[], {}, {});
    assert states[1] == Do(INIT, steps[0]);
    assert states[2] == Do(states[1], steps[1]);
    assert states[2] == Sys(0, claim, map[a.run := ACTIVE], map[1 := a], map[], held, {});
    assert states[3] == Do(states[2], steps[2]);
    assert states[3] == Sys(0, claim, map[a.run := ACTIVE], map[1 := a], map[], held, {Create(a, Exact(1), None)});
    assert states[4] == Do(states[3], steps[3]);
    assert states[4] == Sys(0, claim, map[a.run := WithHook(a.hook, 1)], map[1 := a], map[], held, Lost(a).net);
    assert states[5] == Do(states[4], steps[4]);
    assert states[5] == Sys(0, claim, map[a.run := WithHook(a.hook, 1)], map[1 := a, 2 := a], map[], held, Lost(a).net);
    assert states[6] == Do(states[5], steps[5]);
    assert Grant(a, 1, None) in states[5].held && Create(a, Exact(1), None) in states[5].net;
  }

  lemma SecondHolder(a: Owner, b: Owner, s: Sys, steps: seq<Step>, states: seq<Sys>)
    requires a.run != b.run && s == Lost(a) && steps == LostTokenSteps(a, b)
    requires |states| == 11 && states[6] == s
    requires forall i :: 6 <= i < 10 ==> states[i + 1] == Do(states[i], steps[i])
    ensures forall i :: 6 <= i < 10 ==> Enabled(states[i], steps[i])
    ensures Holds(states[10], a) && Holds(states[10], b) && states[10].shard.takeover.None?
  {
    var claim := FREE.(claim := Some(Claim(b, 3, HOOK_CLAIM_LEASE_MS)));
    var cells := map[a.run := WithHook(a.hook, 1), b.run := ACTIVE];
    var ids := map[1 := a, 2 := a, 3 := b];
    var held := {Grant(b, 3, None)};
    assert states[7] == Do(states[6], steps[6]);
    assert states[7] == Sys(0, FREE, cells, s.ids, map[], {}, s.net);
    assert states[8] == Do(states[7], steps[7]);
    assert states[8] == Sys(0, claim, cells, ids, map[], held, s.net);
    assert states[9] == Do(states[8], steps[8]);
    assert states[9] == Sys(0, claim, cells, ids, map[], held, s.net + {Create(b, Exact(3), None)});
    assert states[10] == Do(states[9], steps[9]);
    assert Of(states[10], b) == WithHook(b.hook, 3);
  }

  /** Sequential attempts of one client lose the token: every step is one the code takes, in order,
      and two active runs end up holding the token with no takeover pending. */
  lemma RetriedReservationLosesToken(a: Owner, b: Owner)
    requires a.run != b.run
    ensures
      var steps := LostTokenSteps(a, b);
      var states := States(INIT, steps);
      && (forall i :: 0 <= i < |steps| ==> Enabled(states[i], steps[i]))
      && !Careful(states[5], steps[5])
      && Holds(states[6], a) && !Covered(states[6].shard, a)
      && Holds(states[10], a) && Holds(states[10], b) && states[10].shard.takeover.None?
  {
    LosesCoverage(a, b);
    SecondHolder(a, b, Lost(a), LostTokenSteps(a, b), States(INIT, LostTokenSteps(a, b)));
  }
}
