/** When a client may give a reservation back: it was freshly proposed and nothing was sent under it
    (src/indexes.ts, reserveHook). */
module HookAttempts {
  import opened Prelude
  import opened HookToken
  import opened HookCell
  import opened HookProtocol
  import opened HookInvariant
  import Shard = HookToken
  import Run = HookCell

  /** No creation was ever sent under token claim `id`: an attempt that got the claim it proposed
      knows this of itself, until it sends one. */
  ghost predicate Unsent(s: Sys, x: Owner, id: ClaimId) {
    forall m :: m in s.net && m.Create? && m.owner == x ==> m.key.token != Some(id)
  }

  ghost predicate SentUnder(s: Sys, x: Owner, id: ClaimId) {
    exists from :: Create(x, Exact(id), from) in s.net
  }

  /** Whatever committed under a claim was sent under it. */
  ghost predicate CommitsSent(s: Sys) {
    forall r, h :: h in CellAt(s, r).created && CellAt(s, r).created[h].under.Some? ==>
      SentUnder(s, Owner(r, h), CellAt(s, r).created[h].under.value)
  }

  lemma ServeSends(s: Sys, act: ServeAct)
    ensures s.net <= DoServeAct(s, act).net
    ensures forall m :: m in DoServeAct(s, act).net && m.Create? ==> m in s.net
  {
  }

  lemma ShardSends(s: Sys, act: ShardAct)
    ensures s.net <= DoShardAct(s, act).net
    ensures forall m :: m in DoShardAct(s, act).net && m.Create? ==> m in s.net
  {
  }

  lemma AnswerSends(s: Sys, act: AnswerAct)
    ensures s.net <= DoAnswerAct(s, act).net
    ensures forall m :: m in DoAnswerAct(s, act).net && m.Create? ==> m in s.net
  {
  }

  /** Messages stay, and only clients send creations. */
  lemma OthersSend(s: Sys, step: Step)
    requires !step.OfClient?
    ensures s.net <= Do(s, step).net
    ensures forall m :: m in Do(s, step).net && m.Create? ==> m in s.net
  {
    match step
    case OfShard(act) => ShardSends(s, act);
    case Serve(act) => ServeSends(s, act);
    case Answer(act) => AnswerSends(s, act);
    case _ =>
  }

  lemma NetGrows(s: Sys, step: Step)
    ensures s.net <= Do(s, step).net
  {
    if !step.OfClient? { OthersSend(s, step); }
  }

  predicate Delivers(step: Step, x: Owner, id: ClaimId) {
    step.Serve? && step.serve.DeliverCreate? && step.serve.owner == x && step.serve.key == Exact(id)
  }

  lemma ServeCommits(s: Sys, act: ServeAct, r: RunId, h: HookId)
    requires h in CellAt(DoServeAct(s, act), r).created && CellAt(DoServeAct(s, act), r).created[h].under.Some?
    ensures
      var created := CellAt(DoServeAct(s, act), r).created[h];
      || (h in CellAt(s, r).created && CellAt(s, r).created[h] == created)
      || Delivers(Serve(act), Owner(r, h), created.under.value)
  {
  }

  lemma RunActCommits(s: Sys, act: RunAct, r: RunId, h: HookId)
    requires h in CellAt(DoRunAct(s, act), r).created && CellAt(DoRunAct(s, act), r).created[h].under.Some?
    ensures h in CellAt(s, r).created && CellAt(s, r).created[h] == CellAt(DoRunAct(s, act), r).created[h]
  {
  }

  lemma CellsStay(s: Sys, step: Step)
    requires !step.OfRun? && !step.Serve?
    ensures Do(s, step).cells == s.cells
  {
  }

  lemma StepKeepsSent(s: Sys, step: Step)
    requires CommitsSent(s) && Enabled(s, step)
    ensures CommitsSent(Do(s, step))
  {
    var t := Do(s, step);
    NetGrows(s, step);
    if !step.OfRun? && !step.Serve? { CellsStay(s, step); }
    forall r, h | h in CellAt(t, r).created && CellAt(t, r).created[h].under.Some?
      ensures SentUnder(t, Owner(r, h), CellAt(t, r).created[h].under.value)
    {
      var id := CellAt(t, r).created[h].under.value;
      if step.Serve? { ServeCommits(s, step.serve, r, h); }
      if step.OfRun? { RunActCommits(s, step.run, r, h); }
      if Delivers(step, Owner(r, h), id) {
        assert Create(Owner(r, h), Exact(id), step.serve.claimedFrom) in t.net;
      } else {
        var from :| Create(Owner(r, h), Exact(id), from) in s.net;
        assert Create(Owner(r, h), Exact(id), from) in t.net;
      }
    }
  }

  /** The client's guard is enough: nobody depends on a claim under which nothing was sent. */
  lemma UnsentIsUnused(s: Sys, x: Owner, id: ClaimId)
    requires Inv(s) && CommitsSent(s) && Unsent(s, x, id)
    ensures Unused(s, x, id)
  {
    assert ShardOk(s);
    assert CommittedUnder(Of(s, x), x.hook, id) ==> SentUnder(s, Owner(x.run, x.hook), id);
  }

  /** A claim that a reservation just proposed is one under which nothing was sent. */
  lemma FreshClaimIsUnsent(s: Sys, x: Owner, id: ClaimId, expired: Option<Claim>, hook: Option<Hook>)
    requires Inv(s) && Enabled(s, OfShard(Reserve(x, id, expired, hook)))
    ensures Unsent(Do(s, OfShard(Reserve(x, id, expired, hook))), x, id)
  {
    assert NetOk(s);
    forall m | m in s.net && m.Create? && m.owner == x ensures m.key.token != Some(id) { assert MsgOk(s, m); }
  }

  predicate Sends(step: Step, x: Owner, id: ClaimId) {
    step.OfClient? &&
    match step.client
    case SendCreate(g) => g.owner == x && g.id == id
    case SendReplay(y, key) => y == x && key.token == Some(id)
    case _ => false
  }

  lemma ClientSends(s: Sys, act: ClientAct, x: Owner, id: ClaimId)
    requires Unsent(s, x, id)
    ensures Unsent(DoClientAct(s, act), x, id) <==> !Sends(OfClient(act), x, id)
  {
    match act
    case SendCreate(g) => assert Create(g.owner, Exact(g.id), g.claimedFrom) in DoClientAct(s, act).net;
    case SendReplay(y, key) => assert Create(y, key, None) in DoClientAct(s, act).net;
    case _ =>
  }

  /** It stays so until some attempt of the same owner sends one. */
  lemma UnsentUntilSent(s: Sys, step: Step, x: Owner, id: ClaimId)
    requires Unsent(s, x, id)
    ensures Unsent(Do(s, step), x, id) <==> !Sends(step, x, id)
  {
    if step.OfClient? { ClientSends(s, step.client, x, id); } else { OthersSend(s, step); }
  }
}
