/** The inductive invariant of the token protocol, and that every step keeps it. */
module HookInvariant {
  import opened Prelude
  import opened HookToken
  import opened HookCell
  import opened HookProtocol
  import Shard = HookToken
  import Run = HookCell

  /** The creation (x, key, from) may still commit only under the shard state that admitted it. */
  predicate Authorized(ts: TokenState, x: Owner, id: ClaimId, from: Option<Owner>) {
    || (HasClaim(ts, x, id) && from.None?)
    || (Pending(ts, id) && ts.takeover.value.claimer == x && from == Some(ts.takeover.value.victim))
  }

  predicate GrantOk(s: Sys, x: Owner, key: Key, from: Option<Owner>) {
    && !Of(s, x).phase.Missing?
    && (key.token.Some? ==> key.token.value in s.ids && s.ids[key.token.value] == x)
    && (Under(key).None? ==> x.hook in Of(s, x).created)
    && (Able(Of(s, x), x.hook, key) ==> Under(key).Some? && Authorized(s.shard, x, key.hookId, from))
  }

  predicate CommittedUnder(c: Cell, h: HookId, id: ClaimId) {
    h in c.created && c.created[h].under == Some(id)
  }

  predicate ClaimKnown(s: Sys, cl: Claim) {
    cl.id in s.ids && s.ids[cl.id] == cl.owner && !Of(s, cl.owner).phase.Missing?
  }

  /** The delivery fence or the run's own disposal explains why a hook is gone. */
  predicate Explained(c: Cell, h: HookId) {
    Over(c) || (h in c.created && h !in c.live && (h in c.forced || h in c.disposed))
  }

  predicate MsgOk(s: Sys, m: Msg) {
    match m
    case AskClaim(cl) => ClaimKnown(s, cl)
    case AskVictim(rec) => Known(Of(s, rec.owner), rec.owner.hook)
    case AskForced(i) => i.id in s.intents && s.intents[i.id] == i
    case AskConfirm(x) => Known(Of(s, x), x.hook)
    case Resolved(cl, hook) =>
      && ClaimKnown(s, cl)
      && (match hook
          case None => Void(Of(s, cl.owner), cl.owner.hook, cl.id)
          case Some(h) => h.owner == cl.owner && Known(Of(s, h.owner), h.owner.hook))
    case StillCommitted(cl, rec) =>
      ClaimKnown(s, cl) && rec.owner == cl.owner && Known(Of(s, rec.owner), rec.owner.hook)
    case Victim(rec, running) =>
      Known(Of(s, rec.owner), rec.owner.hook) && (!running ==> Over(Of(s, rec.owner)))
    case Decided(i, journaled, hook) =>
      && i.id in s.intents && s.intents[i.id] == i
      && (if journaled then
            && Journaled(Of(s, i.claimer), i)
            && (match hook case None => Dead(Of(s, i.claimer), i.claimer.hook) case Some(h) => h.owner == i.claimer)
          else
            || Of(s, i.claimer).phase.Expired?
            || (Exact(i.id) in Of(s, i.claimer).fenced && !CommittedUnder(Of(s, i.claimer), i.claimer.hook, i.id)))
    case VictimDone(i) =>
      && i.id in s.intents && s.intents[i.id] == i
      && Journaled(Of(s, i.claimer), i)
      && Explained(Of(s, i.victim), i.victim.hook)
    case Gone(x) => Dead(Of(s, x), x.hook)
    case Status(r, active) => !active ==> Over(CellAt(s, r))
    case Create(x, key, from) => GrantOk(s, x, key, from)
    case Reported(x, key, rec) =>
      && rec.owner == x && Known(Of(s, x), x.hook)
      && (Under(key).Some? && Under(key).value in s.intents ==>
            s.intents[Under(key).value].claimer == x && Journaled(Of(s, x), s.intents[Under(key).value]))
      && (key.token.Some? ==> key.token.value in s.ids)
    case Release(x, id) => Void(Of(s, x), x.hook, id)
    case ReleaseBatch(x, runEnded) =>
      Dead(Of(s, x), x.hook) && (runEnded ==> Over(Of(s, x)))
  }

  /** An opened takeover is pending, journaled, or can never commit. */
  predicate Settled(s: Sys, i: Takeover) {
    || Over(Of(s, i.claimer))
    || Journaled(Of(s, i.claimer), i)
    || Exact(i.id) in Of(s, i.claimer).fenced
  }

  predicate IntentOk(s: Sys, i: Takeover) {
    && i.id in s.ids && s.ids[i.id] == i.claimer
    && i.claimer != i.victim
    && !Of(s, i.claimer).phase.Missing?
    && Known(Of(s, i.victim), i.victim.hook)
    && (!i.victimRunning ==> Over(Of(s, i.victim)))
    && (var created := Of(s, i.claimer).created;
        i.claimer.hook in created && created[i.claimer.hook].under == Some(i.id) ==>
          created[i.claimer.hook].onToken && created[i.claimer.hook].claimedFrom == Some(i.victim))
    && (if Pending(s.shard, i.id) then s.shard.takeover.value == i else Settled(s, i))
  }

  predicate ShardOk(s: Sys) {
    var ts := s.shard;
    && (ts.claim.Some? ==>
          var cl := ts.claim.value;
          && ts.record.None? && ts.takeover.None?
          && ClaimKnown(s, cl) && cl.id !in s.intents
          && (Holds(s, cl.owner) ==> CommittedUnder(Of(s, cl.owner), cl.owner.hook, cl.id)))
    && (ts.record.Some? ==> Known(Of(s, ts.record.value.owner), ts.record.value.owner.hook))
    && (ts.retained.Some? ==> Over(Of(s, ts.retained.value.owner)))
    && (ts.takeover.Some? ==>
          var i := ts.takeover.value;
          && i.id in s.intents && s.intents[i.id] == i
          && (ts.record.Some? ==> ts.record.value.owner == i.victim)
          && (Holds(s, i.claimer) ==> CommittedUnder(Of(s, i.claimer), i.claimer.hook, i.id)))
  }

  ghost predicate CellsOk(s: Sys) {
    && (forall r :: CellOk(CellAt(s, r)))
    && (forall r, h :: h in CellAt(s, r).created && CellAt(s, r).created[h].under.Some? ==>
          CellAt(s, r).created[h].under.value in s.ids && s.ids[CellAt(s, r).created[h].under.value] == Owner(r, h))
    && (forall r, key :: key in CellAt(s, r).fenced ==> FenceOk(s, r, key))
  }

  /** A key that mixes two claim ids was only ever fenced for a hook that is gone. */
  predicate FenceOk(s: Sys, r: RunId, key: Key) {
    key.token.Some? && Under(key).None? ==>
      && key.token.value in s.ids && s.ids[key.token.value].run == r
      && Dead(CellAt(s, r), s.ids[key.token.value].hook)
  }

  /** A delivery fence names a claimer whose log holds the forced creation against this very hook. */
  ghost predicate FencesOk(s: Sys) {
    forall r, h :: h in CellAt(s, r).forced ==>
      exists id ::
        && id in s.intents
        && s.intents[id].claimer == CellAt(s, r).forced[h] && s.intents[id].victim == Owner(r, h)
        && Journaled(Of(s, s.intents[id].claimer), s.intents[id])
  }

  ghost predicate IntentsOk(s: Sys) {
    forall id :: id in s.intents ==> s.intents[id].id == id && IntentOk(s, s.intents[id])
  }

  ghost predicate GrantsOk(s: Sys) {
    forall g :: g in s.held ==> GrantOk(s, g.owner, Exact(g.id), g.claimedFrom)
  }

  ghost predicate NetOk(s: Sys) {
    forall m :: m in s.net ==> MsgOk(s, m)
  }

  datatype Verdict = Sound | Unsound

  /**
   * The parts of the invariant in one value: a lemma that carries the invariant from a state to an equal one, or
   * hands it on to a caller, then does not prove every part again.
   */
  ghost function Judge(s: Sys): Verdict {
    if && CellsOk(s)
       && ShardOk(s)
       && IntentsOk(s)
       && FencesOk(s)
       && GrantsOk(s)
       && NetOk(s)
       && Coverage(s)
    then Sound else Unsound
  }

  /** What every step keeps. */
  ghost predicate Inv(s: Sys) { Judge(s) == Sound }

  // ---- steps of one run cell ----------------------------------------------

  ghost predicate NewFenceKeysOk(s: Sys, t: Sys, r: RunId) {
    forall key :: key in CellAt(t, r).fenced && key !in CellAt(s, r).fenced ==> FenceOk(t, r, key)
  }

  /** One run cell grew; the shard did not move. */
  ghost predicate CellStep(s: Sys, t: Sys, r: RunId, m: set<Msg>) {
    && t == s.(cells := s.cells[r := CellAt(t, r)], net := s.net + m)
    && Grows(CellAt(s, r), CellAt(t, r))
    && CellOk(CellAt(t, r))
  }

  /** What a creation must satisfy for the invariant to survive it. */
  ghost predicate NewLiveOk(s: Sys, t: Sys, r: RunId) {
    forall h :: h in CellAt(t, r).created && h !in CellAt(s, r).created && CellAt(t, r).created[h].under.Some? ==>
      var x, id := Owner(r, h), CellAt(t, r).created[h].under.value;
      && id in s.ids && s.ids[id] == x
      && Authorized(s.shard, x, id, CellAt(t, r).created[h].claimedFrom)
      && CellAt(t, r).created[h].onToken
  }

  ghost predicate NewLiveUnder(s: Sys, t: Sys, r: RunId) {
    forall h :: h in CellAt(t, r).live && h !in CellAt(s, r).created ==>
      h in CellAt(t, r).created && CellAt(t, r).created[h].under.Some?
  }

  lemma CellStepBeliefs(s: Sys, t: Sys, r: RunId, m: set<Msg>, x: Owner, id: ClaimId, key: Key)
    requires CellStep(s, t, r, m)
    ensures Over(Of(s, x)) ==> Over(Of(t, x))
    ensures Dead(Of(s, x), x.hook) ==> Dead(Of(t, x), x.hook)
    ensures Known(Of(s, x), x.hook) ==> Known(Of(t, x), x.hook)
    ensures Void(Of(s, x), x.hook, id) ==> Void(Of(t, x), x.hook, id)
    ensures !Of(s, x).phase.Missing? && Able(Of(t, x), x.hook, key) ==> Able(Of(s, x), x.hook, key)
    ensures !Of(s, x).phase.Missing? ==> !Of(t, x).phase.Missing?
    ensures Explained(Of(s, x), x.hook) ==> Explained(Of(t, x), x.hook)
  {
    GrowsKeepsBeliefs(CellAt(s, r), CellAt(t, r), x.hook, id, key);
  }

  lemma CellStepJournaled(s: Sys, t: Sys, r: RunId, m: set<Msg>, i: Takeover)
    requires CellStep(s, t, r, m)
    ensures Journaled(Of(s, i.claimer), i) ==> Journaled(Of(t, i.claimer), i)
    ensures Settled(s, i) ==> Settled(t, i)
  {
  }

  lemma CellStepMsg(s: Sys, t: Sys, r: RunId, ms: set<Msg>, m: Msg)
    requires CellStep(s, t, r, ms) && MsgOk(s, m)
    ensures MsgOk(t, m)
  {
    match m
    case AskClaim(cl) => CellStepBeliefs(s, t, r, ms, cl.owner, cl.id, Exact(cl.id));
    case AskVictim(rec) => CellStepBeliefs(s, t, r, ms, rec.owner, 0, Exact(0));
    case AskForced(i) =>
    case AskConfirm(x) => CellStepBeliefs(s, t, r, ms, x, 0, Exact(0));
    case Resolved(cl, hook) => CellStepBeliefs(s, t, r, ms, cl.owner, cl.id, Exact(cl.id));
    case StillCommitted(cl, rec) => CellStepBeliefs(s, t, r, ms, rec.owner, 0, Exact(0));
    case Victim(rec, running) => CellStepBeliefs(s, t, r, ms, rec.owner, 0, Exact(0));
    case Decided(i, journaled, hook) =>
      CellStepBeliefs(s, t, r, ms, i.claimer, i.id, Exact(i.id));
      CellStepJournaled(s, t, r, ms, i);
    case VictimDone(i) =>
      CellStepBeliefs(s, t, r, ms, i.victim, i.id, Exact(i.id));
      CellStepJournaled(s, t, r, ms, i);
    case Gone(x) => CellStepBeliefs(s, t, r, ms, x, 0, Exact(0));
    case Status(run, active) => CellStepBeliefs(s, t, r, ms, Owner(run, ""), 0, Exact(0));
    case Create(x, key, from) => CellStepBeliefs(s, t, r, ms, x, 0, key);
    case Reported(x, key, rec) =>
      CellStepBeliefs(s, t, r, ms, x, 0, Exact(0));
      if Under(key).Some? && Under(key).value in s.intents {
        CellStepJournaled(s, t, r, ms, s.intents[Under(key).value]);
      }
    case Release(x, id) => CellStepBeliefs(s, t, r, ms, x, id, Exact(0));
    case ReleaseBatch(x, runEnded) => CellStepBeliefs(s, t, r, ms, x, 0, Exact(0));
  }

  lemma CellStepIntent(s: Sys, t: Sys, r: RunId, ms: set<Msg>, i: Takeover)
    requires CellsOk(s) && ShardOk(s) && CellStep(s, t, r, ms) && NewLiveOk(s, t, r)
    requires i.id in s.intents && s.intents[i.id] == i && IntentOk(s, i)
    ensures IntentOk(t, i)
  {
    CellStepBeliefs(s, t, r, ms, i.claimer, i.id, Exact(i.id));
    CellStepBeliefs(s, t, r, ms, i.victim, i.id, Exact(i.id));
    CellStepJournaled(s, t, r, ms, i);
  }

  lemma CellStepShard(s: Sys, t: Sys, r: RunId, ms: set<Msg>)
    requires CellsOk(s) && ShardOk(s) && CellStep(s, t, r, ms) && NewLiveOk(s, t, r) && NewLiveUnder(s, t, r)
    requires forall id :: id in s.intents ==> s.intents[id].id == id
    ensures ShardOk(t)
  {
    var ts := s.shard;
    if ts.claim.Some? { CellStepBeliefs(s, t, r, ms, ts.claim.value.owner, 0, Exact(0)); }
    if ts.record.Some? { CellStepBeliefs(s, t, r, ms, ts.record.value.owner, 0, Exact(0)); }
    if ts.retained.Some? { CellStepBeliefs(s, t, r, ms, ts.retained.value.owner, 0, Exact(0)); }
    if ts.takeover.Some? { CellStepBeliefs(s, t, r, ms, ts.takeover.value.claimer, 0, Exact(0)); }
  }

  ghost predicate NewFencesOk(s: Sys, t: Sys, r: RunId) {
    forall h :: h in CellAt(t, r).forced && h !in CellAt(s, r).forced ==>
      exists id ::
        && id in s.intents
        && s.intents[id].claimer == CellAt(t, r).forced[h] && s.intents[id].victim == Owner(r, h)
        && Journaled(Of(s, s.intents[id].claimer), s.intents[id])
  }

  lemma CellStepFences(s: Sys, t: Sys, r: RunId, ms: set<Msg>)
    requires FencesOk(s) && CellStep(s, t, r, ms) && NewFencesOk(s, t, r)
    ensures FencesOk(t)
  {
    forall q, h | h in CellAt(t, q).forced
      ensures exists id ::
                && id in t.intents
                && t.intents[id].claimer == CellAt(t, q).forced[h] && t.intents[id].victim == Owner(q, h)
                && Journaled(Of(t, t.intents[id].claimer), t.intents[id])
    {
      assert q == r || CellAt(t, q) == CellAt(s, q);
      assert h in CellAt(s, q).forced || q == r;
      var id :|
        && id in s.intents
        && s.intents[id].claimer == CellAt(t, q).forced[h] && s.intents[id].victim == Owner(q, h)
        && Journaled(Of(s, s.intents[id].claimer), s.intents[id]);
      CellStepJournaled(s, t, r, ms, s.intents[id]);
    }
  }

  lemma CellStepCells(s: Sys, t: Sys, r: RunId, ms: set<Msg>)
    requires CellsOk(s) && CellStep(s, t, r, ms) && NewLiveOk(s, t, r) && NewFenceKeysOk(s, t, r)
    ensures CellsOk(t)
  {
    forall q ensures CellOk(CellAt(t, q)) {
      assert q == r || CellAt(t, q) == CellAt(s, q);
    }
    forall q, h | h in CellAt(t, q).created && CellAt(t, q).created[h].under.Some?
      ensures CellAt(t, q).created[h].under.value in t.ids
      ensures t.ids[CellAt(t, q).created[h].under.value] == Owner(q, h)
    {
      assert q == r || CellAt(t, q) == CellAt(s, q);
    }
    forall q, key | key in CellAt(t, q).fenced ensures FenceOk(t, q, key) {
      assert q == r || CellAt(t, q) == CellAt(s, q);
      if key in CellAt(s, q).fenced && key.token.Some? && Under(key).None? {
        assert FenceOk(s, q, key);
        CellStepBeliefs(s, t, r, ms, s.ids[key.token.value], 0, key);
      }
    }
  }

  lemma CellStepIntents(s: Sys, t: Sys, r: RunId, ms: set<Msg>)
    requires Inv(s) && CellStep(s, t, r, ms) && NewLiveOk(s, t, r)
    ensures IntentsOk(t)
  {
    forall id | id in t.intents ensures t.intents[id].id == id && IntentOk(t, t.intents[id]) {
      CellStepIntent(s, t, r, ms, t.intents[id]);
    }
  }

  lemma CellStepGrants(s: Sys, t: Sys, r: RunId, ms: set<Msg>)
    requires Inv(s) && CellStep(s, t, r, ms)
    ensures GrantsOk(t)
  {
    forall g | g in t.held ensures GrantOk(t, g.owner, Exact(g.id), g.claimedFrom) {
      CellStepBeliefs(s, t, r, ms, g.owner, 0, Exact(g.id));
    }
  }

  lemma CellStepNet(s: Sys, t: Sys, r: RunId, ms: set<Msg>)
    requires Inv(s) && CellStep(s, t, r, ms) && forall m :: m in ms ==> MsgOk(t, m)
    ensures NetOk(t)
  {
    forall m | m in t.net ensures MsgOk(t, m) {
      if m in s.net { CellStepMsg(s, t, r, ms, m); }
    }
  }

  lemma CellStepCoverage(s: Sys, t: Sys, r: RunId, ms: set<Msg>)
    requires Inv(s) && CellStep(s, t, r, ms) && NewLiveOk(s, t, r) && NewLiveUnder(s, t, r)
    ensures Coverage(t)
  {
    forall x | Holds(t, x) ensures Covered(t.shard, x) {
      if !Holds(s, x) {
        assert CellAt(s, r).phase.Missing? ==> CellAt(s, r).created == map[];
      }
    }
  }

  lemma CellStepInv(s: Sys, t: Sys, r: RunId, ms: set<Msg>)
    requires Inv(s) && CellStep(s, t, r, ms)
    requires NewLiveOk(s, t, r) && NewLiveUnder(s, t, r) && NewFencesOk(s, t, r) && NewFenceKeysOk(s, t, r)
    requires forall m :: m in ms ==> MsgOk(t, m)
    ensures Inv(t)
  {
    CellStepShard(s, t, r, ms);
    CellStepFences(s, t, r, ms);
    CellStepIntents(s, t, r, ms);
    CellStepGrants(s, t, r, ms);
    CellStepNet(s, t, r, ms);
    CellStepCoverage(s, t, r, ms);
    CellStepCells(s, t, r, ms);
  }

  // ---- steps of the shard and the clients -----------------------------------

  /** No run cell moved; ids, intents and messages only grew. */
  ghost predicate ShardStep(s: Sys, t: Sys, ms: set<Msg>) {
    && t.cells == s.cells && t.net == s.net + ms
    && (forall id :: id in s.ids ==> id in t.ids && t.ids[id] == s.ids[id])
    && (forall id :: id in s.intents ==> id in t.intents && t.intents[id] == s.intents[id])
    && (forall id :: id in t.intents && id !in s.intents ==> id !in s.ids)
  }

  /** Whoever could still commit may still commit. */
  ghost predicate KeepsAuthority(s: Sys, t: Sys) {
    forall x, id, from ::
      Authorized(s.shard, x, id, from) && Able(Of(s, x), x.hook, Exact(id)) ==> Authorized(t.shard, x, id, from)
  }

  lemma ShardStepMsg(s: Sys, t: Sys, ms: set<Msg>, m: Msg)
    requires ShardStep(s, t, ms) && MsgOk(s, m)
    requires m.Create? ==> MsgOk(t, m)
    ensures MsgOk(t, m)
  {
    match m
    case AskClaim(cl) =>
    case AskVictim(rec) =>
    case AskForced(i) =>
    case AskConfirm(x) =>
    case Resolved(cl, hook) =>
    case StillCommitted(cl, rec) =>
    case Victim(rec, running) =>
    case Decided(i, journaled, hook) =>
    case VictimDone(i) =>
    case Gone(x) =>
    case Status(run, active) =>
    case Create(x, key, from) =>
    case Reported(x, key, rec) => assert Of(t, x) == Of(s, x);
    case Release(x, id) =>
    case ReleaseBatch(x, runEnded) =>
  }

  lemma ShardStepCells(s: Sys, t: Sys, ms: set<Msg>)
    requires ShardStep(s, t, ms) && CellsOk(s) && FencesOk(s)
    ensures CellsOk(t) && FencesOk(t)
  {
    assert forall r :: CellAt(t, r) == CellAt(s, r);
    forall r, key | key in CellAt(t, r).fenced ensures FenceOk(t, r, key) { assert FenceOk(s, r, key); }
    forall r, h | h in CellAt(t, r).forced
      ensures exists id ::
                && id in t.intents
                && t.intents[id].claimer == CellAt(t, r).forced[h] && t.intents[id].victim == Owner(r, h)
                && Journaled(Of(t, t.intents[id].claimer), t.intents[id])
    {
      var id :|
        && id in s.intents
        && s.intents[id].claimer == CellAt(s, r).forced[h] && s.intents[id].victim == Owner(r, h)
        && Journaled(Of(s, s.intents[id].claimer), s.intents[id]);
      assert Journaled(Of(t, t.intents[id].claimer), t.intents[id]);
    }
  }

  /** Every creation on its way is still admitted by the shard. */
  ghost predicate CreationsOk(s: Sys, t: Sys) {
    && (forall m :: m in s.net && m.Create? ==> MsgOk(t, m))
    && GrantsOk(t)
  }

  lemma ShardStepInv(s: Sys, t: Sys, ms: set<Msg>)
    requires Inv(s) && ShardStep(s, t, ms) && CreationsOk(s, t)
    requires ShardOk(t) && IntentsOk(t) && Coverage(t)
    requires forall m :: m in ms ==> MsgOk(t, m)
    ensures Inv(t)
  {
    ShardStepCells(s, t, ms);
    assert NetOk(t) by {
      forall m | m in t.net ensures MsgOk(t, m) {
        if m in s.net { ShardStepMsg(s, t, ms, m); }
      }
    }
  }

  lemma KeptAuthority(s: Sys, t: Sys, ms: set<Msg>)
    requires ShardStep(s, t, ms) && KeepsAuthority(s, t) && NetOk(s) && GrantsOk(s)
    requires forall g :: g in t.held && g !in s.held ==> GrantOk(t, g.owner, Exact(g.id), g.claimedFrom)
    ensures CreationsOk(s, t)
  {
    forall g | g in t.held ensures GrantOk(t, g.owner, Exact(g.id), g.claimedFrom) {
      if g in s.held { assert GrantOk(s, g.owner, Exact(g.id), g.claimedFrom); }
    }
    forall m | m in s.net && m.Create? ensures MsgOk(t, m) {
      assert MsgOk(s, m) && Of(t, m.owner) == Of(s, m.owner);
    }
  }
}
