/** Whole histories of a run cell, expiry included, are histories of the hook protocol's cell, answers included
    (src/worker/durable-objects/WorkflowRunDO.ts, src/apply-event.ts). */
module HookHistory {
  import opened Prelude
  import R = RunEvents
  import L = RunLog
  import opened HookToken
  import opened HookCell
  import opened HookLink

  /** The store, and whether the retention fence stands before it. */
  datatype Fenced = Fenced(store: R.Store, expired: bool)

  /** A transaction with the admission key or claim id that its claim text names, if it has one. */
  datatype Tx = Expire | Run(tx: L.Transaction, key: Key, id: ClaimId)

  const NEW := Fenced(R.EMPTY, false)

  /** Behind the fence every transaction answers without touching a row. */
  function Step(w: Fenced, tx: Tx): Fenced {
    match tx
    case Expire => if w.store.tables.run.Some? then w.(expired := true) else w
    case Run(t, _, _) => if w.expired then w else w.(store := L.Step(w.store, t))
  }

  /** A claim text names a key or an id, and a token uses claims of its own. */
  predicate Named(tx: Tx, token: string, names: Names) {
    match tx
    case Expire => true
    case Run(t, key, id) =>
      match t
      case Apply(q, cx) =>
        q.CreateHook? ==> cx.claim == Some(KeyText(names, key)) && (q.token == token ==> Ours(names, key))
      case ResolveTokenClaim(_, on, claim) => claim == KeyText(names, key) && (on == token <==> Ours(names, key))
      case ResolveExpiredClaim(_, on, claim) =>
        claim == names.text(id) && (on.Some? ==> (on.value == token <==> names.ours(id)))
      case ResolveForcedClaim(_, on, claim, _) => claim == names.text(id) && (on == token <==> names.ours(id))
      case _ => true
  }

  ghost predicate Seen(w: Fenced, c: Cell, token: string, names: Names) {
    if w.expired then c.phase.Expired? else Represents(w.store, c, token, names)
  }

  function Intent(h: HookId, id: ClaimId, victim: R.Owner): Takeover {
    Takeover(Owner("", h), id, ToOwner(victim), false, 0)
  }

  /** The protocol's move for a transaction, or none. */
  function Move(w: Fenced, c: Cell, token: string, names: Names, tx: Tx): Cell {
    match tx
    case Expire => if w.store.tables.run.Some? then c.(phase := Expired) else c
    case Run(t, key, id) =>
      match t
      case Apply(q, cx) =>
        if c.phase.Expired? && !q.CreateHook? && !q.DisposeHook? then c
        else CellAfter(w.store, c, token, names, q, cx, key)
      case ForceDisposal(h, on, claimer, _) => if on == token then ForceDispose(c, h, ToOwner(claimer)) else c
      case ResolveForcedClaim(h, on, _, victim) =>
        if on == token then ResolveForced(c, Intent(h, id, victim)).0 else c
      case ResolveTokenClaim(h, on, _) => if on == token then HookCell.ResolveTokenClaim(c, h, key).0 else c
      case ResolveExpiredClaim(h, on, _) =>
        if (if on.Some? then on.value == token else names.ours(id) && h !in w.store.tables.hooks)
        then HookCell.ResolveExpiredClaim(c, Owner("", h), id).0 else c
      case CleanHook(h) => CleanTerminal(c, h)
      case _ => c
  }

  lemma ExpiredStaysSeen(w: Fenced, c: Cell, token: string, names: Names, tx: Tx)
    requires c.phase.Expired?
    ensures Move(w, c, token, names, tx).phase.Expired?
  {
  }

  lemma ForeignClaim(names: Names, id: ClaimId)
    requires Naming(names) && !names.ours(id)
    ensures forall k :: Ours(names, k) ==>
            KeyText(names, k) !in {names.text(id) + ":" + names.text(id), "-:" + names.text(id)}
  {
    ForeignKey(names, Exact(id));
    ForeignKey(names, Key(None, id));
    assert KeyText(names, Exact(id)) == names.text(id) + ":" + names.text(id) &&
           KeyText(names, Key(None, id)) == "-:" + names.text(id);
  }

  lemma TokenResolverMoves(s: R.Store, c: Cell, token: string, names: Names, tx: Tx)
    requires Naming(names) && Represents(s, c, token, names) && Named(tx, token, names) && tx.Run? &&
             tx.tx.ResolveTokenClaim?
    ensures Represents(L.Step(s, tx.tx), Move(Fenced(s, false), c, token, names, tx), token, names)
  {
    if tx.tx.token == token { ResolversAgree(s, c, token, names, Owner("", tx.tx.hook), tx.key, tx.id); }
    else { ForeignKey(names, tx.key); ForeignFence(s, c, token, names, {tx.tx.claim}); }
  }

  lemma ForcedResolverMoves(s: R.Store, c: Cell, token: string, names: Names, tx: Tx)
    requires Naming(names) && Represents(s, c, token, names) && Named(tx, token, names) && tx.Run? &&
             tx.tx.ResolveForcedClaim?
    ensures Represents(L.Step(s, tx.tx), Move(Fenced(s, false), c, token, names, tx), token, names)
  {
    if tx.tx.token == token {
      ForcedResolutionAgrees(s, c, token, names, Intent(tx.tx.hook, tx.id, tx.tx.victim));
    } else {
      ForeignClaim(names, tx.id);
      ForeignFence(s, c, token, names, {tx.tx.claim + ":" + tx.tx.claim, "-:" + tx.tx.claim});
    }
  }

  lemma ExpiredResolverMoves(s: R.Store, c: Cell, token: string, names: Names, tx: Tx)
    requires Naming(names) && Represents(s, c, token, names) && Named(tx, token, names) && tx.Run? &&
             tx.tx.ResolveExpiredClaim?
    ensures Represents(L.Step(s, tx.tx), Move(Fenced(s, false), c, token, names, tx), token, names)
  {
    assert OnToken(s, tx.tx.hook, token) <==> tx.tx.hook in c.live;
    if names.ours(tx.id) {
      FenceClaim(s, c, token, names, tx.id);
    } else {
      ForeignClaim(names, tx.id);
      ForeignFence(s, c, token, names, {tx.tx.claim + ":" + tx.tx.claim, "-:" + tx.tx.claim});
    }
  }

  lemma ForeignEndedDisposal(s: R.Store, c: Cell, token: string, names: Names, h: HookId, on: string, claimer: R.Owner,
                             now: nat)
    requires L.HooksTrue(s) && Represents(s, c, token, names) && on != token && L.RunEnded(s) && OnToken(s, h, on) &&
             h !in s.markers.forced
    ensures Represents(R.ForceDispose(s, h, on, claimer, now), c, token, names)
  {
    var after := R.ForceDispose(s, h, on, claimer, now);
    EndedDisposalRows(s, h, on, claimer, now);
    assert h !in c.live && CreatedAs(s, h, token, c.created[h]);
    SameRows(s, after, c, c, token, names);
    ForeignEndedLive(s, c, token, h, on, claimer, now);
    assert SameForced(after, c);
  }

  lemma ForeignEndedLive(s: R.Store, c: Cell, token: string, h: HookId, on: string, claimer: R.Owner, now: nat)
    requires SameLive(s, c, token) && on != token && L.RunEnded(s) && OnToken(s, h, on) && h !in s.markers.forced
    ensures SameLive(R.ForceDispose(s, h, on, claimer, now), c, token)
  {
    EndedDisposalRows(s, h, on, claimer, now);
  }

  /** A takeover of another token disposes no hook of this one. */
  lemma ForeignDisposal(s: R.Store, c: Cell, token: string, names: Names, h: HookId, on: string, claimer: R.Owner,
                        now: nat)
    requires L.Inv(s) && Represents(s, c, token, names) && on != token
    ensures Represents(L.Step(s, L.ForceDisposal(h, on, claimer, now)), c, token, names)
  {
    if OnToken(s, h, on) && h !in s.markers.forced {
      assert h !in c.live;
      if L.RunEnded(s) { ForeignEndedDisposal(s, c, token, names, h, on, claimer, now); }
      else {
        DisposalAgrees(s, c, token, names, R.Event(R.HookDisposed(h, Some(claimer)), now, s.tables.run.value.spec),
                       None);
      }
    }
  }

  lemma RowMoves(s: R.Store, c: Cell, token: string, names: Names, tx: Tx)
    requires L.Inv(s) && Represents(s, c, token, names) && tx.Run?
    requires tx.tx.ForceDisposal? || tx.tx.CleanHook? || tx.tx.CleanWait? || tx.tx.Stamp?
    ensures Represents(L.Step(s, tx.tx), Move(Fenced(s, false), c, token, names, tx), token, names)
  {
    match tx.tx
    case ForceDisposal(h, on, claimer, now) =>
      if on == token { ForcedDisposalAgrees(s, c, token, names, h, claimer, now); }
      else { ForeignDisposal(s, c, token, names, h, on, claimer, now); }
    case CleanHook(h) => TerminalCleanupAgrees(s, c, token, names, h);
    case CleanWait(wait) => OtherRowsMove(s, c, token, names, L.CleanWait(wait));
    case Stamp(dueAt) => OtherRowsMove(s, c, token, names, L.Stamp(dueAt));
    case _ =>
  }

  lemma OtherRowsMove(s: R.Store, c: Cell, token: string, names: Names, tx: L.Transaction)
    requires Represents(s, c, token, names) && (tx.CleanWait? || tx.Stamp?)
    ensures Represents(L.Step(s, tx), c, token, names)
  {
    var after := L.Step(s, tx);
    assert after.markers == s.markers && after.log == s.log && after.tables.hooks == s.tables.hooks &&
           PhaseOf(after) == PhaseOf(s);
    forall h | h in c.created ensures CreatedAs(after, h, token, c.created[h]) {
      assert CreatedAs(s, h, token, c.created[h]);
    }
  }

  // ---- answers ---------------------------------------------------------------------------------

  /** What the run cell answers; behind the fence it reads no row. */
  function Reply(w: Fenced, tx: L.Transaction): L.Reply {
    if !w.expired then L.ReplyTo(w.store, tx)
    else match tx
      case Apply(_, _) => L.Applied(R.Refused(R.RunExpired))
      case ResolveTokenClaim(_, _, _) => L.Committed(false)
      case ResolveExpiredClaim(_, _, _) => L.Found(None)
      case ResolveForcedClaim(_, _, _, _) => L.ForceResolved(false, None)
      case _ => L.Nothing
  }

  /** Creations and claim resolutions on the token get the protocol's answers. */
  predicate SameReply(w: Fenced, c: Cell, token: string, tx: Tx) {
    match tx
    case Expire => true
    case Run(t, key, id) =>
      match t
      case Apply(q, cx) =>
        Delivered(q, cx, token) ==>
          SameCreation(q, cx, q.hook in w.store.markers.hookEvents, R.HookOn(Step(w, tx).store, q.hook, token),
                       Reply(w, t), CreationOf(c, q, cx, key))
      case ResolveTokenClaim(h, on, _) =>
        on == token ==> Reply(w, t) == L.Committed(HookCell.ResolveTokenClaim(c, h, key).1)
      case ResolveExpiredClaim(h, on, _) =>
        (if on.Some? then on.value == token else h !in w.store.tables.hooks || OnToken(w.store, h, token)) ==>
          && Reply(w, t).Found?
          && SameHook(Owner("", h), Reply(w, t).hook, HookCell.ResolveExpiredClaim(c, Owner("", h), id).1)
      case ResolveForcedClaim(h, on, _, victim) =>
        on == token ==>
          && Reply(w, t).ForceResolved?
          && Reply(w, t).journaled == ResolveForced(c, Intent(h, id, victim)).1
          && SameHook(Owner("", h), Reply(w, t).hook, ResolveForced(c, Intent(h, id, victim)).2)
      case _ => true
  }

  lemma ExpiredReplies(w: Fenced, c: Cell, token: string, tx: Tx)
    requires w.expired && c.phase.Expired?
    ensures SameReply(w, c, token, tx)
  {
  }

  lemma ExpiredClaimAnswered(s: R.Store, c: Cell, token: string, tx: Tx)
    requires SameLive(s, c, token) && tx.Run? && tx.tx.ResolveExpiredClaim?
    ensures SameReply(Fenced(s, false), c, token, tx)
  {
    assert OnToken(s, tx.tx.hook, token) <==> tx.tx.hook in c.live;
  }

  lemma RepliesAgree(s: R.Store, c: Cell, token: string, names: Names, tx: Tx)
    requires Naming(names) && L.Inv(s) && Represents(s, c, token, names) && Named(tx, token, names) && tx.Run?
    ensures SameReply(Fenced(s, false), c, token, tx)
  {
    match tx.tx
    case Apply(q, cx) => RequestsAgree(s, c, token, names, q, cx, tx.key);
    case ResolveTokenClaim(h, _, _) => ResolversAgree(s, c, token, names, Owner("", h), tx.key, tx.id);
    case ResolveExpiredClaim(_, _, _) => ExpiredClaimAnswered(s, c, token, tx);
    case ResolveForcedClaim(h, _, _, victim) => ForcedResolutionAgrees(s, c, token, names, Intent(h, tx.id, victim));
    case _ =>
  }

  // ---- histories -------------------------------------------------------------------------------

  /** One transaction of the store is the protocol's move, with its answer, on either side of the fence. */
  lemma StepSimulates(w: Fenced, c: Cell, token: string, names: Names, tx: Tx)
    requires Naming(names) && L.Inv(w.store) && Seen(w, c, token, names) && Named(tx, token, names)
    ensures L.Inv(Step(w, tx).store) && Seen(Step(w, tx), Move(w, c, token, names, tx), token, names)
    ensures SameReply(w, c, token, tx)
  {
    if w.expired {
      ExpiredStaysSeen(w, c, token, names, tx);
      ExpiredReplies(w, c, token, tx);
    } else if tx.Run? {
      L.StepKeepsInv(w.store, tx.tx);
      StoreSimulates(w.store, c, token, names, tx);
      RepliesAgree(w.store, c, token, names, tx);
    }
  }

  lemma StoreSimulates(s: R.Store, c: Cell, token: string, names: Names, tx: Tx)
    requires Naming(names) && L.Inv(s) && Represents(s, c, token, names) && Named(tx, token, names) && tx.Run?
    ensures Represents(L.Step(s, tx.tx), Move(Fenced(s, false), c, token, names, tx), token, names)
  {
    match tx.tx
    case Apply(q, cx) => RequestsAgree(s, c, token, names, q, cx, tx.key);
    case ResolveTokenClaim(_, _, _) => TokenResolverMoves(s, c, token, names, tx);
    case ResolveForcedClaim(_, _, _, _) => ForcedResolverMoves(s, c, token, names, tx);
    case ResolveExpiredClaim(_, _, _) => ExpiredResolverMoves(s, c, token, names, tx);
    case _ => RowMoves(s, c, token, names, tx);
  }

  function After(history: seq<Tx>): Fenced {
    if history == [] then NEW else Step(After(history[..|history| - 1]), history[|history| - 1])
  }

  function CellOf(history: seq<Tx>, token: string, names: Names): Cell {
    if history == [] then EMPTY
    else
      var before := history[..|history| - 1];
      Move(After(before), CellOf(before, token, names), token, names, history[|history| - 1])
  }

  /** Every history of a run cell, seen from any token, is a history of the protocol's cell. */
  lemma {:induction false} HistorySimulates(history: seq<Tx>, token: string, names: Names)
    requires Naming(names) && forall i :: 0 <= i < |history| ==> Named(history[i], token, names)
    ensures L.Inv(After(history).store) && Seen(After(history), CellOf(history, token, names), token, names)
  {
    if history == [] {
      L.HistoryKeepsInv([]);
      EmptyRepresents(token, names);
    } else {
      var before := history[..|history| - 1];
      assert forall i :: 0 <= i < |before| ==> before[i] == history[i];
      HistorySimulates(before, token, names);
      StepSimulates(After(before), CellOf(before, token, names), token, names, history[|history| - 1]);
    }
  }

  /** Along any history, every creation and every claim resolution on the token is answered as the protocol's
      cell answers it. */
  lemma HistoryAnswers(history: seq<Tx>, token: string, names: Names, i: nat)
    requires Naming(names) && forall k :: 0 <= k < |history| ==> Named(history[k], token, names)
    requires i < |history|
    ensures SameReply(After(history[..i]), CellOf(history[..i], token, names), token, history[i])
  {
    HistorySimulates(history[..i], token, names);
    StepSimulates(After(history[..i]), CellOf(history[..i], token, names), token, names, history[i]);
  }
}
