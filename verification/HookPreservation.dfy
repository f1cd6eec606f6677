/** Every step of the token protocol keeps the invariant. */
module HookPreservation {
  import opened Prelude
  import opened HookToken
  import opened HookCell
  import opened HookProtocol
  import opened HookInvariant
  import Shard = HookToken
  import Run = HookCell

  // ---- run cells -----------------------------------------------------------

  lemma WithCellIsCellStep(s: Sys, r: RunId, d: Cell, ms: set<Msg>)
    requires Grows(CellAt(s, r), d) && CellOk(d)
    ensures CellAt(WithCell(s, r, d, ms), r) == d
    ensures CellStep(s, WithCell(s, r, d, ms), r, ms)
  {
  }

  /** A run cell transaction that creates no hook, fences nothing new and forces nothing. */
  lemma QuietCellInv(s: Sys, r: RunId, d: Cell)
    requires Inv(s) && Grows(CellAt(s, r), d) && CellOk(d)
    requires forall h :: h in d.created && h !in CellAt(s, r).created ==>
             !d.created[h].onToken && d.created[h].under.None?
    requires d.fenced == CellAt(s, r).fenced && d.forced == CellAt(s, r).forced
    ensures Inv(WithCell(s, r, d, {}))
  {
    WithCellIsCellStep(s, r, d, {});
    CellStepInv(s, WithCell(s, r, d, {}), r, {});
  }

  lemma PhaseKeepsInv(s: Sys, r: RunId, p: Phase)
    requires Inv(s) && Rank(CellAt(s, r).phase) <= Rank(p) && (p.Active? ==> CellAt(s, r).phase.Missing?)
    ensures Inv(WithCell(s, r, CellAt(s, r).(phase := p), {}))
  {
    var c := CellAt(s, r);
    assert CellOk(c);
    if c.phase != p { PhaseGrows(c, p); }
    QuietCellInv(s, r, c.(phase := p));
  }

  lemma CreateElsewhereKeepsInv(s: Sys, r: RunId, h: HookId)
    requires Inv(s)
    ensures Inv(WithCell(s, r, Run.CreateElsewhere(CellAt(s, r), h), {}))
  {
    assert CellOk(CellAt(s, r));
    CreateElsewhereGrows(CellAt(s, r), h);
    QuietCellInv(s, r, Run.CreateElsewhere(CellAt(s, r), h));
  }

  lemma DisposeKeepsInv(s: Sys, r: RunId, h: HookId)
    requires Inv(s)
    ensures Inv(WithCell(s, r, Run.Dispose(CellAt(s, r), h), {}))
  {
    assert CellOk(CellAt(s, r));
    DisposeGrows(CellAt(s, r), h);
    QuietCellInv(s, r, Run.Dispose(CellAt(s, r), h));
  }

  lemma CleanTerminalKeepsInv(s: Sys, r: RunId, h: HookId)
    requires Inv(s)
    ensures Inv(WithCell(s, r, Run.CleanTerminal(CellAt(s, r), h), {}))
  {
    assert CellOk(CellAt(s, r));
    DisposeGrows(CellAt(s, r), h);
    QuietCellInv(s, r, Run.CleanTerminal(CellAt(s, r), h));
  }

  /** What a delivered creation answers is true of the state it leaves. */
  lemma CreateAnswerOk(s: Sys, x: Owner, key: Key, from: Option<Owner>, retain: Option<nat>, t: Sys, ms: set<Msg>)
    requires GrantOk(s, x, key, from) && CellOk(Of(s, x)) && ShardOk(s)
    requires Under(key).Some? && Under(key).value in s.intents ==>
               && s.intents[key.hookId].id == key.hookId && IntentOk(s, s.intents[key.hookId])
    requires key in Of(s, x).fenced ==> FenceOk(s, x.run, key)
    requires Of(t, x) == Run.Create(Of(s, x), x, key, from, retain).0 && t.ids == s.ids && t.intents == s.intents
    requires ms == match Run.Create(Of(s, x), x, key, from, retain).1
                   case Committed(hook) => {Reported(x, key, hook)}
                   case Refused => ReleaseOf(x, key)
    ensures forall m :: m in ms ==> MsgOk(t, m)
    ensures NewLiveOk(s, t, x.run) && NewLiveUnder(s, t, x.run)
  {
  }

  lemma DeliverCreateKeepsInv(s: Sys, x: Owner, key: Key, from: Option<Owner>, retain: Option<nat>)
    requires Inv(s) && Create(x, key, from) in s.net
    ensures Inv(DoDeliverCreate(s, x, key, from, retain))
  {
    var (d, answer) := Run.Create(Of(s, x), x, key, from, retain);
    var ms := match answer case Committed(hook) => {Reported(x, key, hook)} case Refused => ReleaseOf(x, key);
    var t := WithCell(s, x.run, d, ms);
    assert MsgOk(s, Create(x, key, from));
    assert CellOk(Of(s, x));
    CreateGrows(Of(s, x), x, key, from, retain);
    WithCellIsCellStep(s, x.run, d, ms);
    CreateAnswerOk(s, x, key, from, retain, t, ms);
    CellStepInv(s, t, x.run, ms);
  }

  function Fence(s: Sys, x: Owner, keys: set<Key>, ms: set<Msg>): Sys {
    WithCell(s, x.run, Of(s, x).(fenced := Of(s, x).fenced + keys), ms)
  }

  /** Nobody lives under a claim id that only `x`, whose hook is not live, proposed. */
  lemma NoneLiveUnder(s: Sys, x: Owner, keys: set<Key>, id: ClaimId)
    requires CellsOk(s) && id in s.ids && s.ids[id] == x && x.hook !in Of(s, x).live
    requires forall key :: key in keys && Under(key).Some? ==> key == Exact(id)
    ensures forall h :: h in Of(s, x).live && h in Of(s, x).created && Of(s, x).created[h].under.Some? ==>
              Exact(Of(s, x).created[h].under.value) !in keys
  {
    forall h | h in Of(s, x).live && h in Of(s, x).created && Of(s, x).created[h].under.Some?
      ensures Of(s, x).created[h].under.value != id
    {
      assert s.ids[Of(s, x).created[h].under.value] == Owner(x.run, h);
    }
  }

  /** Fencing keys of `x` in its run cell. */
  lemma FenceInv(s: Sys, x: Owner, keys: set<Key>, ms: set<Msg>, t: Sys)
    requires Inv(s) && t == Fence(s, x, keys, ms)
    requires forall h :: h in Of(s, x).live && h in Of(s, x).created && Of(s, x).created[h].under.Some? ==>
               Exact(Of(s, x).created[h].under.value) !in keys
    requires forall m :: m in ms ==> MsgOk(t, m)
    requires forall key :: key in keys ==> FenceOk(t, x.run, key)
    ensures Inv(t)
  {
    var d := Of(s, x).(fenced := Of(s, x).fenced + keys);
    assert CellOk(Of(s, x));
    FenceGrows(Of(s, x), keys);
    WithCellIsCellStep(s, x.run, d, ms);
    CellStepInv(s, t, x.run, ms);
  }

  /** A run cell that did not move, answering `ms`. */
  lemma UnmovedCellInv(s: Sys, r: RunId, ms: set<Msg>)
    requires Inv(s) && forall m :: m in ms ==> MsgOk(WithCell(s, r, CellAt(s, r), ms), m)
    ensures Inv(WithCell(s, r, CellAt(s, r), ms))
  {
    assert CellOk(CellAt(s, r));
    WithCellIsCellStep(s, r, CellAt(s, r), ms);
    CellStepInv(s, WithCell(s, r, CellAt(s, r), ms), r, ms);
  }

  lemma FenceTokenClaim(s: Sys, x: Owner, key: Key, t: Sys)
    requires GrantOk(s, x, key, None) || exists from :: GrantOk(s, x, key, from)
    requires CellOk(Of(s, x)) && CellsOk(s) && x.hook !in Of(s, x).live && t == Fence(s, x, {key}, ReleaseOf(x, key))
    ensures forall m :: m in ReleaseOf(x, key) ==> MsgOk(t, m)
    ensures FenceOk(t, x.run, key)
    ensures forall h :: h in Of(s, x).live && h in Of(s, x).created && Of(s, x).created[h].under.Some? ==>
              Exact(Of(s, x).created[h].under.value) != key
  {
    if key.token.Some? && Under(key).Some? { NoneLiveUnder(s, x, {key}, key.hookId); }
  }

  lemma ResolveTokenClaimKeepsInv(s: Sys, x: Owner, key: Key, from: Option<Owner>)
    requires Inv(s) && Create(x, key, from) in s.net
    ensures Inv(DoResolveTokenClaim(s, x, key))
  {
    var c := Of(s, x);
    assert GrantOk(s, x, key, from) by { assert MsgOk(s, Create(x, key, from)); }
    assert CellOk(c);
    if c.phase.Expired? {
      UnmovedCellInv(s, x.run, ReleaseOf(x, key));
    } else if x.hook in c.live {
      UnmovedCellInv(s, x.run, {});
    } else {
      var t := Fence(s, x, {key}, ReleaseOf(x, key));
      FenceTokenClaim(s, x, key, t);
      FenceInv(s, x, {key}, ReleaseOf(x, key), t);
    }
  }

  function BothForms(id: ClaimId): set<Key> { {Exact(id), Key(None, id)} }

  lemma FenceExpired(s: Sys, cl: Claim, t: Sys)
    requires ClaimKnown(s, cl) && CellsOk(s) && cl.owner.hook !in Of(s, cl.owner).live
    requires t == Fence(s, cl.owner, BothForms(cl.id), {Resolved(cl, None)})
    ensures MsgOk(t, Resolved(cl, None))
    ensures forall key :: key in BothForms(cl.id) ==> FenceOk(t, cl.owner.run, key)
  {
  }

  lemma ResolveExpiredKeepsInv(s: Sys, cl: Claim)
    requires Inv(s) && AskClaim(cl) in s.net
    ensures Inv(DoResolveExpired(s, cl))
  {
    var x := cl.owner;
    var c := Of(s, x);
    assert MsgOk(s, AskClaim(cl));
    assert CellOk(c);
    if Over(c) {
      UnmovedCellInv(s, x.run, {Resolved(cl, None)});
    } else if x.hook in c.live {
      UnmovedCellInv(s, x.run, {Resolved(cl, Some(HookOf(c, x)))});
    } else {
      var t := Fence(s, x, BothForms(cl.id), {Resolved(cl, None)});
      NoneLiveUnder(s, x, BothForms(cl.id), cl.id);
      FenceExpired(s, cl, t);
      FenceInv(s, x, BothForms(cl.id), {Resolved(cl, None)}, t);
    }
  }

  lemma FenceByIdKeepsInv(s: Sys, x: Owner, id: ClaimId)
    requires Inv(s) && id in s.ids && s.ids[id] == x && !Of(s, x).phase.Missing?
    ensures Inv(DoFenceById(s, x, id))
  {
    var c := Of(s, x);
    assert CellOk(c);
    if Over(c) || x.hook in c.live {
      UnmovedCellInv(s, x.run, {});
    } else {
      var t := Fence(s, x, BothForms(id), {});
      NoneLiveUnder(s, x, BothForms(id), id);
      FenceInv(s, x, BothForms(id), {}, t);
    }
  }

  /** The claimer's log does not hold this takeover: fencing it settles the reservation. */
  lemma FenceForced(s: Sys, i: Takeover, t: Sys)
    requires i.id in s.intents && s.intents[i.id] == i && IntentOk(s, i) && CellsOk(s)
    requires !Journaled(Of(s, i.claimer), i)
    requires t == Fence(s, i.claimer, BothForms(i.id), {Decided(i, false, None)})
    ensures MsgOk(t, Decided(i, false, None))
    ensures forall key :: key in BothForms(i.id) ==> FenceOk(t, i.claimer.run, key)
    ensures
      var c := Of(s, i.claimer);
      forall h :: h in c.live && h in c.created && c.created[h].under.Some? ==>
        Exact(c.created[h].under.value) !in BothForms(i.id)
  {
    var c := Of(s, i.claimer);
    forall h | h in c.live && h in c.created && c.created[h].under.Some? ensures c.created[h].under.value != i.id {
      assert s.ids[c.created[h].under.value] == Owner(i.claimer.run, h);
    }
  }

  lemma RefusedForcedKeepsInv(s: Sys, i: Takeover)
    requires Inv(s) && AskForced(i) in s.net && !Of(s, i.claimer).phase.Expired? && !Journaled(Of(s, i.claimer), i)
    ensures Inv(Fence(s, i.claimer, BothForms(i.id), {Decided(i, false, None)}))
  {
    assert MsgOk(s, AskForced(i));
    assert IntentOk(s, i);
    var t := Fence(s, i.claimer, BothForms(i.id), {Decided(i, false, None)});
    FenceForced(s, i, t);
    FenceInv(s, i.claimer, BothForms(i.id), {Decided(i, false, None)}, t);
  }

  lemma AnsweredForcedKeepsInv(s: Sys, i: Takeover, journaled: bool, hook: Option<Hook>)
    requires Inv(s) && MsgOk(s, Decided(i, journaled, hook))
    ensures Inv(WithCell(s, i.claimer.run, Of(s, i.claimer), {Decided(i, journaled, hook)}))
  {
    var t := WithCell(s, i.claimer.run, Of(s, i.claimer), {Decided(i, journaled, hook)});
    assert Of(t, i.claimer) == Of(s, i.claimer) && t.intents == s.intents;
    UnmovedCellInv(s, i.claimer.run, {Decided(i, journaled, hook)});
  }

  lemma ResolveForcedKeepsInv(s: Sys, i: Takeover)
    requires Inv(s) && AskForced(i) in s.net
    ensures Inv(DoResolveForced(s, i))
  {
    var c := Of(s, i.claimer);
    assert MsgOk(s, AskForced(i));
    assert IntentOk(s, i);
    if c.phase.Expired? {
      AnsweredForcedKeepsInv(s, i, false, None);
    } else if Journaled(c, i) {
      AnsweredForcedKeepsInv(s, i, true, CommittedHook(c, i.claimer));
    } else {
      RefusedForcedKeepsInv(s, i);
    }
  }

  lemma DecisiveIsJournaled(s: Sys, i: Takeover, hook: Option<Hook>)
    requires Inv(s) && Decisive(s, i, hook)
    ensures i.id in s.intents && s.intents[i.id] == i && IntentOk(s, i)
    ensures Journaled(Of(s, i.claimer), i)
    ensures hook.None? ==> Dead(Of(s, i.claimer), i.claimer.hook)
    ensures hook.Some? ==> hook.value.owner == i.claimer && Known(Of(s, i.claimer), i.claimer.hook)
  {
    assert MsgOk(s, AskForced(i));
    if Decided(i, true, hook) in s.net {
      assert MsgOk(s, Decided(i, true, hook));
    } else {
      assert MsgOk(s, Reported(i.claimer, Exact(i.id), hook.value));
    }
  }

  lemma ForceDisposeKeepsInv(s: Sys, i: Takeover, hook: Option<Hook>)
    requires Inv(s) && Decisive(s, i, hook)
    ensures Inv(DoForceDispose(s, i))
  {
    var v := i.victim;
    DecisiveIsJournaled(s, i, hook);
    if i.victimRunning {
      var d := Run.ForceDispose(Of(s, v), v.hook, i.claimer);
      assert CellOk(Of(s, v));
      ForceDisposeGrows(Of(s, v), v.hook, i.claimer);
      WithCellIsCellStep(s, v.run, d, {VictimDone(i)});
      var t := WithCell(s, v.run, d, {VictimDone(i)});
      CellStepJournaled(s, t, v.run, {VictimDone(i)}, i);
      assert MsgOk(t, VictimDone(i));
      CellStepInv(s, t, v.run, {VictimDone(i)});
    }
  }

  // ---- the shard ------------------------------------------------------------

  lemma SameShardInv(s: Sys, t: Sys, ms: set<Msg>)
    requires Inv(s) && ShardStep(s, t, ms) && t.shard == s.shard && t.intents == s.intents
    requires forall g :: g in t.held && g !in s.held ==> GrantOk(t, g.owner, Exact(g.id), g.claimedFrom)
    requires forall m :: m in ms ==> MsgOk(t, m)
    ensures Inv(t)
  {
    SameShardFacts(s, t, ms);
    KeptAuthority(s, t, ms);
    ShardStepInv(s, t, ms);
  }

  lemma SameShardFacts(s: Sys, t: Sys, ms: set<Msg>)
    requires ShardStep(s, t, ms) && t.shard == s.shard && t.intents == s.intents
    requires ShardOk(s) && IntentsOk(s) && Coverage(s)
    ensures ShardOk(t) && IntentsOk(t) && Coverage(t) && KeepsAuthority(s, t)
  {
    assert forall x :: Of(t, x) == Of(s, x);
    forall id | id in t.intents ensures t.intents[id].id == id && IntentOk(t, t.intents[id]) {
      assert IntentOk(s, s.intents[id]);
    }
    forall x | Holds(t, x) ensures Covered(t.shard, x) { assert Holds(s, x); }
  }

  lemma SendKeepsInv(s: Sys, ms: set<Msg>)
    requires Inv(s) && forall m :: m in ms ==> MsgOk(s, m)
    ensures Inv(Send(s, ms))
  {
    var t := Send(s, ms);
    forall m | m in ms ensures MsgOk(t, m) { ShardStepMsgSame(s, t, ms, m); }
    SameShardInv(s, t, ms);
  }

  lemma ShardStepMsgSame(s: Sys, t: Sys, ms: set<Msg>, m: Msg)
    requires ShardStep(s, t, ms) && t.shard == s.shard && MsgOk(s, m)
    ensures MsgOk(t, m)
  {
    if m.Create? { assert Of(t, m.owner) == Of(s, m.owner); }
    ShardStepMsg(s, t, ms, m);
  }

  /** `x` keeps the token through the new record, or does not hold it. */
  predicate Kept(s: Sys, ts: TokenState, x: Owner) {
    Holds(s, x) ==> ts.record.Some? && ts.record.value.owner == x
  }

  predicate SameClaim(left: Option<Claim>, right: Option<Claim>) {
    left.Some? && right.Some? && left.value.owner == right.value.owner && left.value.id == right.value.id
  }

  /** A shard transaction that admits nobody new and strands nobody. */
  predicate FairMove(s: Sys, ts: TokenState) {
    var old_ := s.shard;
    && (ts.claim.Some? ==> SameClaim(old_.claim, ts.claim) && ts.record.None? && ts.takeover.None?)
    && (ts.takeover.Some? ==> ts.takeover == old_.takeover)
    && (ts.takeover.Some? && ts.record.Some? ==>
          old_.record.Some? && ts.record.value.owner == old_.record.value.owner)
    && (old_.claim.Some? && ts.claim.None? ==>
          Kept(s, ts, old_.claim.value.owner)
          && !Able(Of(s, old_.claim.value.owner), old_.claim.value.owner.hook, Exact(old_.claim.value.id)))
    && (old_.takeover.Some? && ts.takeover.None? ==>
          Kept(s, ts, old_.takeover.value.claimer) && Settled(s, old_.takeover.value))
    && (old_.record.Some? ==> Kept(s, ts, old_.record.value.owner))
    && (ts.record.Some? ==> Known(Of(s, ts.record.value.owner), ts.record.value.owner.hook))
    && (ts.retained.Some? ==> Over(Of(s, ts.retained.value.owner)))
  }

  lemma FairMoveFacts(s: Sys, ts: TokenState, t: Sys, ms: set<Msg>)
    requires ShardOk(s) && IntentsOk(s) && Coverage(s) && FairMove(s, ts)
    requires t.shard == ts && ShardStep(s, t, ms) && t.intents == s.intents
    ensures ShardOk(t) && IntentsOk(t) && Coverage(t) && KeepsAuthority(s, t)
  {
    assert forall x :: Of(t, x) == Of(s, x);
    forall id | id in t.intents ensures t.intents[id].id == id && IntentOk(t, t.intents[id]) {
      assert IntentOk(s, s.intents[id]);
    }
    forall x | Holds(t, x) ensures Covered(t.shard, x) { assert Holds(s, x) && Covered(s.shard, x); }
  }

  lemma FairMoveInv(s: Sys, ts: TokenState, published: bool, x: Owner)
    requires Inv(s) && FairMove(s, ts)
    requires published ==> Known(Of(s, x), x.hook)
    ensures Inv(DoShard(s, ts, published, x))
  {
    var ms := if published then {AskConfirm(x)} else {};
    var t := DoShard(s, ts, published, x);
    FairMoveFacts(s, ts, t, ms);
    KeptAuthority(s, t, ms);
    ShardStepInv(s, t, ms);
  }

  /** What a resolved claim teaches: nothing lives or can still commit under it, or its hook exists. */
  lemma ResolvedClaimFair(s: Sys, cl: Claim, hook: Option<Hook>)
    requires ShardOk(s) && s.shard.claim.Some? && s.shard.claim.value.id == cl.id && MsgOk(s, Resolved(cl, hook))
    ensures s.shard.claim.value.owner == cl.owner
    ensures !Able(Of(s, cl.owner), cl.owner.hook, Exact(cl.id))
    ensures hook.None? ==> !Holds(s, cl.owner)
    ensures hook.Some? ==> hook.value.owner == cl.owner && Known(Of(s, cl.owner), cl.owner.hook)
  {
  }

  lemma PreemptKeepsInv(s: Sys, cl: Claim, hook: Option<Hook>)
    requires Inv(s) && Resolved(cl, hook) in s.net
    ensures Inv(DoPreempt(s, cl, hook))
  {
    var (ts, published) := Shard.PreemptClaim(s.shard, cl, hook);
    assert MsgOk(s, Resolved(cl, hook));
    if s.shard.claim.Some? && s.shard.claim.value.id == cl.id { ResolvedClaimFair(s, cl, hook); }
    FairMoveInv(s, ts, published, cl.owner);
  }

  lemma CompactClaimKeepsInv(s: Sys, startedAt: nat, cl: Claim, hook: Option<Hook>)
    requires Inv(s) && Resolved(cl, hook) in s.net
    ensures Inv(DoCompactClaim(s, startedAt, cl, hook))
  {
    var (ts, published) := Shard.CompactClaim(s.shard, startedAt, cl, hook);
    assert MsgOk(s, Resolved(cl, hook));
    if s.shard.claim.Some? && s.shard.claim.value.id == cl.id { ResolvedClaimFair(s, cl, hook); }
    FairMoveInv(s, ts, published, cl.owner);
  }

  lemma PublishClaimKeepsInv(s: Sys, cl: Claim, record: Hook)
    requires Inv(s) && StillCommitted(cl, record) in s.net
    ensures Inv(DoPublishClaim(s, cl, record))
  {
    var (ts, published) := Shard.PublishClaim(s.shard, cl, record);
    assert MsgOk(s, StillCommitted(cl, record));
    FairMoveInv(s, ts, published, cl.owner);
  }

  lemma RollForwardKeepsInv(s: Sys, i: Takeover, hook: Option<Hook>)
    requires Inv(s) && Decisive(s, i, hook) && (i.victimRunning ==> VictimDone(i) in s.net)
    ensures Inv(DoRollForward(s, i, hook))
  {
    DecisiveIsJournaled(s, i, hook);
    if i.victimRunning { assert MsgOk(s, VictimDone(i)); }
    var ts := Shard.RollForward(s.shard, i.id, hook);
    FairMoveInv(s, ts, Pending(s.shard, i.id) && hook.Some?, i.claimer);
  }

  lemma PlainMoveInv(s: Sys, ts: TokenState)
    requires Inv(s) && FairMove(s, ts)
    ensures Inv(s.(shard := ts))
  {
    FairMoveInv(s, ts, false, Owner("", ""));
    assert DoShard(s, ts, false, Owner("", "")) == s.(shard := ts);
  }

  lemma DropIntentFair(s: Sys, i: Takeover)
    requires ShardOk(s) && MsgOk(s, Decided(i, false, None)) && IntentOk(s, i)
    ensures FairMove(s, Shard.DropIntent(s.shard, i.id))
  {
  }

  lemma DropIntentKeepsInv(s: Sys, i: Takeover)
    requires Inv(s) && Decided(i, false, None) in s.net
    ensures Inv(s.(shard := Shard.DropIntent(s.shard, i.id)))
  {
    assert MsgOk(s, Decided(i, false, None));
    assert IntentOk(s, s.intents[i.id]);
    DropIntentFair(s, i);
    PlainMoveInv(s, Shard.DropIntent(s.shard, i.id));
  }

  lemma ReleaseClaimKeepsInv(s: Sys, x: Owner, id: ClaimId)
    requires Inv(s) && Release(x, id) in s.net
    ensures Inv(s.(shard := Shard.ReleaseClaim(s.shard, x, id)))
  {
    assert MsgOk(s, Release(x, id));
    PlainMoveInv(s, Shard.ReleaseClaim(s.shard, x, id));
  }

  lemma ReleaseHookFair(s: Sys, x: Owner, runEnded: bool)
    requires ShardOk(s) && Dead(Of(s, x), x.hook) && (runEnded ==> Over(Of(s, x)))
    ensures FairMove(s, Shard.ReleaseHook(s.shard, s.now, x, runEnded))
  {
  }

  lemma ReleaseHookKeepsInv(s: Sys, x: Owner, runEnded: bool)
    requires Inv(s) && ReleaseBatch(x, runEnded) in s.net
    ensures Inv(s.(shard := Shard.ReleaseHook(s.shard, s.now, x, runEnded)))
  {
    assert MsgOk(s, ReleaseBatch(x, runEnded));
    ReleaseHookFair(s, x, runEnded);
    PlainMoveInv(s, Shard.ReleaseHook(s.shard, s.now, x, runEnded));
  }

  lemma FinalizeFair(s: Sys, key: Key, record: Hook, active: bool)
    requires ShardOk(s) && MsgOk(s, Reported(record.owner, key, record)) && MsgOk(s, Status(record.owner.run, active))
    ensures active || RetentionAhead(record, s.now) ==>
              FairMove(s, Shard.Finalize(s.shard, s.now, record, key.token, active).0)
  {
  }

  lemma FinalizeKeepsInv(s: Sys, key: Key, record: Hook, active: bool)
    requires Inv(s) && Reported(record.owner, key, record) in s.net && Status(record.owner.run, active) in s.net
    ensures Inv(s.(shard := Shard.Finalize(s.shard, s.now, record, key.token, active).0))
  {
    assert MsgOk(s, Reported(record.owner, key, record));
    assert MsgOk(s, Status(record.owner.run, active));
    FinalizeFair(s, key, record, active);
    if !active && !RetentionAhead(record, s.now) { ReleaseHookFair(s, record.owner, false); }
    PlainMoveInv(s, Shard.Finalize(s.shard, s.now, record, key.token, active).0);
  }

  lemma WithdrawKeepsInv(s: Sys, x: Owner)
    requires Inv(s) && Gone(x) in s.net
    ensures Inv(s.(shard := Shard.Withdraw(s.shard, x)))
  {
    assert MsgOk(s, Gone(x));
    PlainMoveInv(s, Shard.Withdraw(s.shard, x));
  }

  lemma CompactRetainedKeepsInv(s: Sys)
    requires Inv(s)
    ensures Inv(s.(shard := Shard.CompactRetained(s.shard, s.now)))
  {
    PlainMoveInv(s, Shard.CompactRetained(s.shard, s.now));
  }

  // ---- admissions -----------------------------------------------------------

  /** A proposed claim id is remembered whether or not the shard used it. */
  lemma ProposeInv(s: Sys, x: Owner, id: ClaimId)
    requires Inv(s) && id !in s.ids
    ensures Inv(s.(ids := s.ids[id := x]))
  {
    SameShardInv(s, s.(ids := s.ids[id := x]), {});
  }

  lemma HoldInv(s: Sys, g: Grant)
    requires Inv(s) && GrantOk(s, g.owner, Exact(g.id), g.claimedFrom)
    ensures Inv(s.(held := s.held + {g}))
  {
    SameShardInv(s, s.(held := s.held + {g}), {});
  }

  function Admitted(s: Sys, x: Owner, id: ClaimId, expiresAt: nat): Sys {
    s.(shard := s.shard.(claim := Some(Claim(x, id, expiresAt))), held := s.held + {Grant(x, id, None)})
  }

  lemma FreeTokenUnheld(s: Sys)
    requires Coverage(s) && s.shard.record.None? && s.shard.claim.None? && s.shard.takeover.None?
    ensures forall y :: !Holds(s, y)
  {
    forall y ensures !Holds(s, y) { assert Holds(s, y) ==> Covered(s.shard, y); }
  }

  lemma AdmitFacts(s: Sys, x: Owner, id: ClaimId, t: Sys)
    requires ShardOk(s) && IntentsOk(s) && Coverage(s) && !Of(s, x).phase.Missing?
    requires s.shard.record.None? && s.shard.claim.None? && s.shard.takeover.None?
    requires id in s.ids && s.ids[id] == x && id !in s.intents
    requires t.shard.claim.Some? && t == Admitted(s, x, id, t.shard.claim.value.expiresAt)
    ensures ShardOk(t) && IntentsOk(t) && Coverage(t) && KeepsAuthority(s, t)
    ensures GrantOk(t, x, Exact(id), None)
  {
    FreeTokenUnheld(s);
    assert forall y :: Of(t, y) == Of(s, y);
    assert forall y :: Holds(t, y) ==> Holds(s, y);
    forall i | i in t.intents ensures t.intents[i].id == i && IntentOk(t, t.intents[i]) {
      assert IntentOk(s, s.intents[i]);
    }
  }

  /** A free token is admitted to its first claimant. */
  lemma AdmitInv(s: Sys, x: Owner, id: ClaimId, expiresAt: nat)
    requires Inv(s) && !Of(s, x).phase.Missing?
    requires s.shard.record.None? && s.shard.claim.None? && s.shard.takeover.None?
    requires id in s.ids && s.ids[id] == x && id !in s.intents
    ensures Inv(Admitted(s, x, id, expiresAt))
  {
    var t := Admitted(s, x, id, expiresAt);
    AdmitFacts(s, x, id, t);
    KeptAuthority(s, t, {});
    ShardStepInv(s, t, {});
  }

  lemma FreshId(s: Sys, id: ClaimId)
    requires Inv(s) && id !in s.ids
    ensures id !in s.intents
  {
    assert id in s.intents ==> IntentOk(s, s.intents[id]);
  }

  lemma ReserveFair(s: Sys, p: Sys, x: Owner, id: ClaimId, expired: Option<Claim>, hook: Option<Hook>)
    requires ShardOk(s) && !Of(s, x).phase.Missing? && id !in s.ids
    requires p == s.(ids := s.ids[id := x])
    requires if expired.Some? then MsgOk(s, Resolved(expired.value, hook)) else hook.None?
    ensures
      var (ts, answer) := Shard.Reserve(s.shard, s.now, x, id, expired, hook.Some?);
      if answer == Claimed(id) then
        && ts.claim == Some(Claim(x, id, s.now + HOOK_CLAIM_LEASE_MS)) && ts.record.None? && ts.takeover.None?
        && FairMove(p, ts.(claim := None))
      else
        && FairMove(p, ts)
        && (answer.Claimed? ==> GrantOk(p.(shard := ts), x, Exact(answer.id), None))
  {
    if expired.Some? && s.shard.claim.Some? && s.shard.claim.value.id == expired.value.id {
      ResolvedClaimFair(s, expired.value, hook);
    }
  }

  lemma ReserveNewInv(p: Sys, x: Owner, id: ClaimId, free: TokenState, e: nat, done: Sys)
    requires Inv(p) && FairMove(p, free) && !Of(p, x).phase.Missing?
    requires free.record.None? && free.claim.None? && free.takeover.None?
    requires id in p.ids && p.ids[id] == x && id !in p.intents
    requires done == Admitted(p.(shard := free), x, id, e)
    ensures Inv(done)
  {
    PlainMoveInv(p, free);
    AdmitInv(p.(shard := free), x, id, e);
  }

  lemma ReserveOldInv(p: Sys, x: Owner, ts: TokenState, held: Option<ClaimId>, done: Sys)
    requires Inv(p) && FairMove(p, ts)
    requires held.Some? ==> GrantOk(p.(shard := ts), x, Exact(held.value), None)
    requires done == if held.Some? then p.(shard := ts, held := p.held + {Grant(x, held.value, None)})
             else p.(shard := ts)
    ensures Inv(done)
  {
    PlainMoveInv(p, ts);
    if held.Some? { HoldInv(p.(shard := ts), Grant(x, held.value, None)); }
  }

  /** A reservation after its id was proposed: a new claim, an old one, or none. */
  lemma AnsweredInv(p: Sys, x: Owner, id: ClaimId, ts: TokenState, answer: ReserveAnswer)
    requires Inv(p) && !Of(p, x).phase.Missing? && id in p.ids && p.ids[id] == x && id !in p.intents
    requires
      if answer == Claimed(id) then
        && ts.claim == Some(Claim(x, id, p.now + HOOK_CLAIM_LEASE_MS)) && ts.record.None? && ts.takeover.None?
        && FairMove(p, ts.(claim := None))
      else FairMove(p, ts) && (answer.Claimed? ==> GrantOk(p.(shard := ts), x, Exact(answer.id), None))
    ensures Inv(Reserved(p, x, ts, answer))
  {
    if answer == Claimed(id) {
      ReserveNewInv(p, x, id, ts.(claim := None), p.now + HOOK_CLAIM_LEASE_MS, Reserved(p, x, ts, answer));
    } else {
      ReserveOldInv(p, x, ts, if answer.Claimed? then Some(answer.id) else None, Reserved(p, x, ts, answer));
    }
  }

  function Reserved(p: Sys, x: Owner, ts: TokenState, answer: ReserveAnswer): Sys {
    if answer.Claimed? then p.(shard := ts, held := p.held + {Grant(x, answer.id, None)}) else p.(shard := ts)
  }

  lemma ReserveKeepsInv(s: Sys, x: Owner, id: ClaimId, expired: Option<Claim>, hook: Option<Hook>)
    requires Inv(s) && !Of(s, x).phase.Missing? && id !in s.ids
    requires if expired.Some? then Resolved(expired.value, hook) in s.net else hook.None?
    ensures Inv(DoReserve(s, x, id, expired, hook.Some?))
  {
    var p := s.(ids := s.ids[id := x]);
    var (ts, answer) := Shard.Reserve(s.shard, s.now, x, id, expired, hook.Some?);
    if expired.Some? { assert MsgOk(s, Resolved(expired.value, hook)); }
    assert ShardOk(s);
    ReserveFair(s, p, x, id, expired, hook);
    FreshId(s, id);
    ProposeInv(s, x, id);
    AnsweredInv(p, x, id, ts, answer);
    assert DoReserve(s, x, id, expired, hook.Some?) == Reserved(p, x, ts, answer);
  }

  // ---- takeovers ------------------------------------------------------------

  function Opened(s: Sys, i: Takeover): Sys {
    s.(shard := s.shard.(takeover := Some(i)), intents := s.intents[i.id := i],
       ids := s.ids[i.id := i.claimer], held := s.held + {Grant(i.claimer, i.id, Some(i.victim))})
  }

  /** What a forced reservation finds when it opens its takeover. */
  ghost predicate Opens(s: Sys, i: Takeover) {
    && i.id !in s.ids && i.id !in s.intents && i.claimer != i.victim && !Of(s, i.claimer).phase.Missing?
    && s.shard.record.Some? && s.shard.record.value.owner == i.victim && s.shard.takeover.None?
    && (!i.victimRunning ==> Over(Of(s, i.victim)))
  }

  lemma OpenCovers(s: Sys, i: Takeover)
    requires ShardOk(s) && Coverage(s) && Opens(s, i)
    ensures Coverage(Opened(s, i)) && !Holds(s, i.claimer)
  {
    var t := Opened(s, i);
    assert forall y :: Of(t, y) == Of(s, y);
    assert !Holds(s, i.claimer) by { assert Holds(s, i.claimer) ==> Covered(s.shard, i.claimer); }
    forall y | Holds(t, y) ensures Covered(t.shard, y) { assert Holds(s, y) && Covered(s.shard, y); }
  }

  lemma OpenIntents(s: Sys, i: Takeover)
    requires CellsOk(s) && ShardOk(s) && IntentsOk(s) && Opens(s, i)
    ensures IntentsOk(Opened(s, i))
  {
    var t := Opened(s, i);
    assert IntentOk(t, i) by {
      var c := Of(s, i.claimer);
      assert i.claimer.hook in c.created && c.created[i.claimer.hook].under.Some? ==>
          c.created[i.claimer.hook].under.value in s.ids;
    }
    forall id | id in t.intents ensures t.intents[id].id == id && IntentOk(t, t.intents[id]) {
      if id != i.id { assert IntentOk(s, s.intents[id]); }
    }
  }

  lemma OpenFacts(s: Sys, i: Takeover)
    requires CellsOk(s) && ShardOk(s) && IntentsOk(s) && Coverage(s) && Opens(s, i)
    ensures var t := Opened(s, i);
            ShardOk(t) && IntentsOk(t) && Coverage(t) && KeepsAuthority(s, t) && ShardStep(s, t, {})
    ensures GrantOk(Opened(s, i), i.claimer, Exact(i.id), Some(i.victim))
  {
    OpenCovers(s, i);
    OpenIntents(s, i);
  }

  lemma OpenInv(s: Sys, i: Takeover)
    requires Inv(s)
    requires i.id !in s.ids && i.claimer != i.victim && !Of(s, i.claimer).phase.Missing?
    requires s.shard.record.Some? && s.shard.record.value.owner == i.victim && s.shard.takeover.None?
    requires !i.victimRunning ==> Over(Of(s, i.victim))
    ensures Inv(Opened(s, i))
  {
    FreshId(s, i.id);
    OpenFacts(s, i);
    KeptAuthority(s, Opened(s, i), {});
    ShardStepInv(s, Opened(s, i), {});
  }

  lemma OpenTakeoverKeepsInv(s: Sys, x: Owner, id: ClaimId, indexed: Hook, running: bool, askedAt: nat)
    requires Inv(s) && !Of(s, x).phase.Missing? && id !in s.ids && indexed.owner != x
    requires Victim(indexed, running) in s.net
    ensures Inv(DoOpenTakeover(s, x, id, indexed, running, askedAt))
  {
    assert MsgOk(s, Victim(indexed, running));
    var (ts, intent) :=
      Shard.OpenTakeover(s.shard, s.now, x, id, indexed, running, running || RetentionAhead(indexed, askedAt));
    match intent
    case None =>
      ProposeInv(s, x, id);
      PlainMoveInv(s.(ids := s.ids[id := x]), ts);
    case Some(i) =>
      OpenInv(s, i);
      assert DoOpenTakeover(s, x, id, indexed, running, askedAt) == Opened(s, i);
  }

  lemma JoinTakeoverKeepsInv(s: Sys)
    requires Inv(s)
    ensures Inv(DoJoinTakeover(s))
  {
    match s.shard.takeover
    case None =>
    case Some(i) =>
      assert IntentOk(s, s.intents[i.id]);
      HoldInv(s, Grant(i.claimer, i.id, Some(i.victim)));
  }

  // ---- clients --------------------------------------------------------------

  lemma SendCreateKeepsInv(s: Sys, g: Grant)
    requires Inv(s) && g in s.held
    ensures Inv(Send(s, {Create(g.owner, Exact(g.id), g.claimedFrom)}))
  {
    assert GrantOk(s, g.owner, Exact(g.id), g.claimedFrom);
    SendKeepsInv(s, {Create(g.owner, Exact(g.id), g.claimedFrom)});
  }

  lemma SendReplayKeepsInv(s: Sys, x: Owner, key: Key)
    requires Inv(s) && x.hook in Of(s, x).created
    requires key.token.Some? ==> key.token.value in s.ids && s.ids[key.token.value] == x
    ensures Inv(Send(s, {Create(x, key, None)}))
  {
    assert CellOk(Of(s, x));
    SendKeepsInv(s, {Create(x, key, None)});
  }

  lemma AbandonFacts(s: Sys, x: Owner, id: ClaimId, t: Sys)
    requires ShardOk(s) && IntentsOk(s) && Coverage(s) && Unused(s, x, id) && t == DoAbandon(s, x, id)
    requires GrantsOk(s) && NetOk(s)
    ensures ShardOk(t) && IntentsOk(t) && Coverage(t) && CreationsOk(s, t)
  {
    assert forall y :: Of(t, y) == Of(s, y);
    forall i | i in t.intents ensures t.intents[i].id == i && IntentOk(t, t.intents[i]) {
      assert IntentOk(s, s.intents[i]);
    }
    forall y | Holds(t, y) ensures Covered(t.shard, y) { assert Holds(s, y) && Covered(s.shard, y); }
    forall m | m in s.net && m.Create? ensures MsgOk(t, m) {
      assert MsgOk(s, m);
    }
    forall g | g in t.held ensures GrantOk(t, g.owner, Exact(g.id), g.claimedFrom) {
      assert GrantOk(s, g.owner, Exact(g.id), g.claimedFrom);
    }
  }

  lemma AbandonKeepsInv(s: Sys, x: Owner, id: ClaimId)
    requires Inv(s) && Unused(s, x, id)
    ensures Inv(DoAbandon(s, x, id))
  {
    AbandonFacts(s, x, id, DoAbandon(s, x, id));
    ShardStepInv(s, DoAbandon(s, x, id), {});
  }

  // ---- reads and answers ------------------------------------------------------

  lemma ObserveKeepsInv(s: Sys)
    requires Inv(s)
    ensures Inv(DoObserve(s))
  {
    QuestionsOk(s);
    SendKeepsInv(s, Questions(s));
  }

  lemma QuestionsOk(s: Sys)
    requires ShardOk(s)
    ensures forall m :: m in Questions(s) ==> MsgOk(s, m)
  {
  }

  lemma AnswerKeepsInv(s: Sys, m: Msg, answer: Msg)
    requires Inv(s) && m in s.net
    requires MsgOk(s, m) ==> MsgOk(s, answer)
    ensures Inv(Send(s, {answer}))
  {
    assert MsgOk(s, m);
    SendKeepsInv(s, {answer});
  }

  lemma AnswerConfirmKeepsInv(s: Sys, x: Owner)
    requires Inv(s) && AskConfirm(x) in s.net
    ensures Inv(DoAnswerConfirm(s, x))
  {
    assert CellOk(Of(s, x));
    if CommittedHook(Of(s, x), x).None? { AnswerKeepsInv(s, AskConfirm(x), Gone(x)); }
  }

  lemma AnswerCommittedKeepsInv(s: Sys, cl: Claim)
    requires Inv(s) && AskClaim(cl) in s.net
    ensures Inv(DoAnswerCommitted(s, cl))
  {
    assert CellOk(Of(s, cl.owner));
    match CommittedHook(Of(s, cl.owner), cl.owner)
    case None =>
    case Some(hook) => AnswerKeepsInv(s, AskClaim(cl), StillCommitted(cl, hook));
  }

  lemma AnswerVictimKeepsInv(s: Sys, record: Hook)
    requires Inv(s) && AskVictim(record) in s.net
    ensures Inv(Send(s, {Victim(record, Of(s, record.owner).phase.Active?)}))
  {
    assert CellOk(Of(s, record.owner));
    AnswerKeepsInv(s, AskVictim(record), Victim(record, Of(s, record.owner).phase.Active?));
  }

  lemma TickKeepsInv(s: Sys, ms: nat)
    requires Inv(s)
    ensures Inv(s.(now := s.now + ms))
  {
    SameShardInv(s, s.(now := s.now + ms), {});
  }
}
