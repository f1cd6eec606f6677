/** The run cell of the hook protocol is the run cell of the event log, seen from one token: every
    transaction on the store is the protocol's transaction on the cell. */
module HookLink {
  import opened Prelude
  import R = RunEvents
  import L = RunLog
  import opened HookToken
  import opened HookCell

  // ---- names ------------------------------------------------------------------------------

  /** How claim ids are written, and which of them the token's own shard and clients proposed. */
  datatype Names = Names(text: ClaimId -> string, ours: ClaimId -> bool)

  /** Claim ids are generated: distinct, without a colon, and never the placeholder. */
  ghost predicate Naming(names: Names) {
    && (forall a, b :: names.text(a) == names.text(b) ==> a == b)
    && (forall a :: ':' !in names.text(a) && names.text(a) != "-")
  }

  /** The key of an admission to this token. */
  predicate Ours(names: Names, key: Key) {
    match key.token
    case Some(id) => names.ours(id)
    case None => names.ours(key.hookId)
  }

  /** The text of an event claim. */
  function KeyText(names: Names, key: Key): string {
    (match key.token case Some(id) => names.text(id) case None => "-") + ":" + names.text(key.hookId)
  }

  lemma ColonSplits(a: string, b: string, c: string, d: string)
    requires ':' !in a && ':' !in c && a + ":" + b == c + ":" + d
    ensures a == c && b == d
  {
    var whole := a + ":" + b;
    assert whole[|a|] == ':' && (c + ":" + d)[|c|] == ':';
    assert forall i :: 0 <= i < |a| ==> whole[i] == a[i] && a[i] in a;
    assert forall i :: 0 <= i < |c| ==> whole[i] == c[i] && c[i] in c;
    assert a == whole[..|a|] && c == whole[..|c|];
    assert b == whole[|a| + 1..] && d == whole[|c| + 1..];
  }

  lemma KeyTextInjective(names: Names, j: Key, k: Key)
    requires Naming(names) && KeyText(names, j) == KeyText(names, k)
    ensures j == k
  {
    ColonSplits(match j.token case Some(id) => names.text(id) case None => "-", names.text(j.hookId),
                match k.token case Some(id) => names.text(id) case None => "-", names.text(k.hookId));
  }

  // ---- the view -----------------------------------------------------------------------------

  function ToOwner(o: R.Owner): Owner { Owner(o.run, o.hook) }

  function ToOwners(o: Option<R.Owner>): Option<Owner> { match o case None => None case Some(x) => Some(ToOwner(x)) }

  function PhaseOf(s: R.Store): Phase {
    match s.tables.run
    case None => Missing
    case Some(r) => if R.Ended(r.status) then Terminal else Active
  }

  /** What the log says about the creation of a hook. */
  ghost predicate CreatedAs(s: R.Store, h: HookId, token: string, created: Created) {
    h in s.markers.hookEvents && s.markers.hookEvents[h] in s.log &&
    var d := s.log[s.markers.hookEvents[h]].data;
    && d.HookCreated? && created.onToken == (d.token == token)
    && (created.onToken ==> created.claimedFrom == ToOwners(d.claimedFrom))
  }

  predicate OnToken(s: R.Store, h: HookId, token: string) { h in s.tables.hooks && s.tables.hooks[h].token == token }

  ghost predicate SameLive(s: R.Store, c: Cell, token: string) {
    match c case Cell(phase, live, _, _, _, _) =>
      && phase == PhaseOf(s)
      && (forall h :: h in live <==> OnToken(s, h, token))
      && (forall h :: h in live ==> live[h] == s.tables.hooks[h].retainUntil)
  }

  ghost predicate SameCreated(s: R.Store, c: Cell, token: string) {
    match c case Cell(_, _, created, _, _, _) =>
      && created.Keys == s.markers.hookEvents.Keys
      && (forall h :: h in created ==> CreatedAs(s, h, token, created[h]))
  }

  ghost predicate SameForced(s: R.Store, c: Cell) {
    match c case Cell(_, _, created, _, forced, _) =>
      forall h :: h in forced <==> h in s.markers.forced && h in created && created[h].onToken
  }

  ghost predicate SameFences(s: R.Store, c: Cell, names: Names) {
    match c case Cell(_, _, _, fenced, _, _) =>
      forall key :: Ours(names, key) ==> (key in fenced <==> KeyText(names, key) in s.markers.cancelled)
  }

  /** Runs are created at the current version. */
  predicate Current(s: R.Store) { s.tables.run.Some? ==> s.tables.run.value.spec == R.SPEC_VERSION_CURRENT }

  ghost predicate Represents(s: R.Store, c: Cell, token: string, names: Names) {
    match c case Cell(_, _, _, _, _, _) =>
      SameLive(s, c, token) && SameCreated(s, c, token) && SameForced(s, c) && SameFences(s, c, names) && Current(s)
  }

  lemma EmptyRepresents(token: string, names: Names)
    ensures Represents(R.EMPTY, EMPTY, token, names)
  {
  }

  // ---- fences ----------------------------------------------------------------------------------

  lemma FenceKey(s: R.Store, c: Cell, token: string, names: Names, key: Key)
    requires Naming(names) && Represents(s, c, token, names)
    ensures Represents(R.Fence(s, {KeyText(names, key)}), c.(fenced := c.fenced + {key}), token, names)
  {
    forall k | Ours(names, k)
      ensures KeyText(names, k) in s.markers.cancelled + {KeyText(names, key)} <==> k in c.fenced + {key}
    {
      if KeyText(names, k) == KeyText(names, key) { KeyTextInjective(names, k, key); }
    }
  }

  lemma FenceClaim(s: R.Store, c: Cell, token: string, names: Names, id: ClaimId)
    requires Naming(names) && Represents(s, c, token, names)
    ensures
      Represents(R.Fence(s, {names.text(id) + ":" + names.text(id), "-:" + names.text(id)}),
                 c.(fenced := c.fenced + {Exact(id), Key(None, id)}), token, names)
  {
    var exact, loose := Exact(id), Key(None, id);
    assert KeyText(names, exact) == names.text(id) + ":" + names.text(id);
    assert KeyText(names, loose) == "-:" + names.text(id);
    forall k | Ours(names, k)
      ensures
        KeyText(names, k) in s.markers.cancelled + {names.text(id) + ":" + names.text(id), "-:" + names.text(id)} <==>
        k in c.fenced + {exact, loose}
    {
      if KeyText(names, k) == KeyText(names, exact) { KeyTextInjective(names, k, exact); }
      if KeyText(names, k) == KeyText(names, loose) { KeyTextInjective(names, k, loose); }
    }
  }

  /** A fence under another token's claim is nothing to this token's cell. */
  lemma ForeignFence(s: R.Store, c: Cell, token: string, names: Names, texts: set<string>)
    requires Represents(s, c, token, names) && forall k :: Ours(names, k) ==> KeyText(names, k) !in texts
    ensures Represents(R.Fence(s, texts), c, token, names)
  {
  }

  lemma ForeignKey(names: Names, key: Key)
    requires Naming(names) && !Ours(names, key)
    ensures forall k :: Ours(names, k) ==> KeyText(names, k) != KeyText(names, key)
  {
    forall k | Ours(names, k) ensures KeyText(names, k) != KeyText(names, key) {
      if KeyText(names, k) == KeyText(names, key) { KeyTextInjective(names, k, key); }
    }
  }

  /** A stored row and what the protocol knows of the same hook. */
  predicate SameHook(x: Owner, row: Option<R.Hook>, hook: Option<Hook>) {
    match row
    case None => hook.None?
    case Some(r) => hook == Some(Hook(x, r.retainUntil))
  }

  /** The resolvers a shard calls before it gives a claim away: their fences and their answers. */
  lemma ResolversAgree(s: R.Store, c: Cell, token: string, names: Names, x: Owner, key: Key, id: ClaimId)
    requires Naming(names) && Represents(s, c, token, names)
    ensures
      Represents(L.Step(s, L.ResolveTokenClaim(x.hook, token, KeyText(names, key))),
                 ResolveTokenClaim(c, x.hook, key).0, token, names)
    ensures
      Represents(L.Step(s, L.ResolveExpiredClaim(x.hook, Some(token), names.text(id))),
                 ResolveExpiredClaim(c, x, id).0, token, names)
    ensures
      L.ReplyTo(s, L.ResolveTokenClaim(x.hook, token, KeyText(names, key))) ==
          L.Committed(ResolveTokenClaim(c, x.hook, key).1)
    ensures
      var reply := L.ReplyTo(s, L.ResolveExpiredClaim(x.hook, Some(token), names.text(id)));
      reply.Found? && SameHook(x, reply.hook, ResolveExpiredClaim(c, x, id).1)
  {
    assert OnToken(s, x.hook, token) <==> x.hook in c.live;
    FenceKey(s, c, token, names, key);
    FenceClaim(s, c, token, names, id);
  }

  lemma JournalAgrees(s: R.Store, c: Cell, token: string, intent: Takeover)
    requires SameCreated(s, c, token)
    ensures
      R.Journaled(s, intent.claimer.hook, token, R.Owner(intent.victim.run, intent.victim.hook)) <==>
          Journaled(c, intent)
  {
    var h := intent.claimer.hook;
    if h in c.created { assert CreatedAs(s, h, token, c.created[h]); }
  }

  /** The hook of a run that has not ended, as any reader gets it. */
  lemma LiveHooksAgree(s: R.Store, c: Cell, token: string, x: Owner)
    requires SameLive(s, c, token)
    ensures SameHook(x, R.LiveHookOn(s, x.hook, token), CommittedHook(c, x))
  {
    assert x.hook in c.live <==> OnToken(s, x.hook, token);
  }

  /** The settler's question: journaled in the log exactly when it is journaled in the cell, with the hook that
      is left of it, and fenced otherwise. */
  lemma ForcedResolutionAgrees(s: R.Store, c: Cell, token: string, names: Names, intent: Takeover)
    requires Naming(names) && Represents(s, c, token, names)
    ensures
      var victim := R.Owner(intent.victim.run, intent.victim.hook);
      var tx := L.ResolveForcedClaim(intent.claimer.hook, token, names.text(intent.id), victim);
      var (after, journaled, hook) := ResolveForced(c, intent);
      && Represents(L.Step(s, tx), after, token, names)
      && L.ReplyTo(s, tx).ForceResolved? && L.ReplyTo(s, tx).journaled == journaled
      && SameHook(intent.claimer, L.ReplyTo(s, tx).hook, hook)
  {
    JournalAgrees(s, c, token, intent);
    LiveHooksAgree(s, c, token, intent.claimer);
    FenceClaim(s, c, token, names, intent.id);
  }

  // ---- events --------------------------------------------------------------------------------------

  lemma FencesStay(s: R.Store, c: Cell, d: Cell, names: Names, e: R.Event, digest: Option<string>)
    requires SameFences(s, c, names) && Current(s) && e.spec == R.SPEC_VERSION_CURRENT && d.fenced == c.fenced
    ensures SameFences(R.Commit(s, e, digest), d, names) && Current(R.Commit(s, e, digest))
  {
    assert R.Commit(s, e, digest).markers.cancelled == s.markers.cancelled;
  }

  /** The log keeps what it said about earlier creations. */
  lemma CreationsStay(s: R.Store, c: Cell, token: string, e: R.Event, digest: Option<string>, h: HookId)
    requires L.Dense(s) && SameCreated(s, c, token) && h in c.created
    requires e.data.HookCreated? ==> e.data.hook != h
    ensures CreatedAs(R.Commit(s, e, digest), h, token, c.created[h])
  {
    assert CreatedAs(s, h, token, c.created[h]) && s.sequence + 1 !in s.log;
    assert R.Commit(s, e, digest).markers.hookEvents[h] == s.markers.hookEvents[h];
  }

  /** An event that neither creates nor disposes a hook moves at most the phase. */
  lemma OtherEventKeeps(s: R.Store, c: Cell, token: string, names: Names, e: R.Event, digest: Option<string>)
    requires Represents(s, c, token, names) && L.Dense(s) && e.spec == R.SPEC_VERSION_CURRENT
    requires !e.data.HookCreated? && !e.data.HookDisposed?
    ensures Represents(R.Commit(s, e, digest), c.(phase := PhaseOf(R.Commit(s, e, digest))), token, names)
  {
    var after := R.Commit(s, e, digest);
    assert after.markers.hookEvents == s.markers.hookEvents && after.markers.forced == s.markers.forced;
    FencesStay(s, c, c.(phase := PhaseOf(after)), names, e, digest);
    forall h | h in c.created ensures CreatedAs(after, h, token, c.created[h]) {
      CreationsStay(s, c, token, e, digest, h);
    }
  }

  /** A creation seen from one token. */
  function Born(c: Cell, token: string, d: R.EventData, under: Option<ClaimId>): Cell
    requires d.HookCreated?
  {
    if d.token == token
    then c.(created := c.created[d.hook := Created(true, ToOwners(d.claimedFrom), under)],
            live := c.live[d.hook := d.retainUntil])
    else c.(created := c.created[d.hook := Created(false, None, None)])
  }

  lemma BornCreated(s: R.Store, c: Cell, token: string, e: R.Event, digest: Option<string>, under: Option<ClaimId>)
    requires SameCreated(s, c, token) && L.Dense(s) && e.data.HookCreated?
    ensures SameCreated(R.Commit(s, e, digest), Born(c, token, e.data, under), token)
  {
    var after, d := R.Commit(s, e, digest), Born(c, token, e.data, under);
    assert after.markers.hookEvents == s.markers.hookEvents[e.data.hook := s.sequence + 1];
    forall h | h in d.created ensures CreatedAs(after, h, token, d.created[h]) {
      if h != e.data.hook { CreationsStay(s, c, token, e, digest, h); }
    }
  }

  lemma BornLive(s: R.Store, c: Cell, token: string, e: R.Event, digest: Option<string>, under: Option<ClaimId>)
    requires SameLive(s, c, token) && e.data.HookCreated? && e.data.hook !in s.tables.hooks
    ensures SameLive(R.Commit(s, e, digest), Born(c, token, e.data, under), token)
  {
    var after := R.Commit(s, e, digest);
    assert after.tables.hooks == s.tables.hooks[e.data.hook := L.HookRow(e.data, e.at)];
    assert PhaseOf(after) == PhaseOf(s);
  }

  lemma CreationAgrees(s: R.Store, c: Cell, token: string, names: Names, e: R.Event, digest: Option<string>,
                       under: Option<ClaimId>)
    requires Represents(s, c, token, names) && L.Dense(s) && L.HooksTrue(s) && e.spec == R.SPEC_VERSION_CURRENT
    requires e.data.HookCreated? && e.data.hook !in s.markers.hookEvents
    ensures Represents(R.Commit(s, e, digest), Born(c, token, e.data, under), token, names)
  {
    var after := R.Commit(s, e, digest);
    assert e.data.hook !in s.tables.hooks && e.data.hook !in s.markers.forced && e.data.hook !in c.created;
    BornCreated(s, c, token, e, digest, under);
    BornLive(s, c, token, e, digest, under);
    assert after.markers.forced == s.markers.forced;
    FencesStay(s, c, Born(c, token, e.data, under), names, e, digest);
  }

  lemma GoneCreated(s: R.Store, c: Cell, token: string, e: R.Event, digest: Option<string>)
    requires SameCreated(s, c, token) && L.Dense(s) && e.data.HookDisposed?
    ensures SameCreated(R.Commit(s, e, digest), c, token)
  {
    assert R.Commit(s, e, digest).markers.hookEvents == s.markers.hookEvents;
    forall h | h in c.created ensures CreatedAs(R.Commit(s, e, digest), h, token, c.created[h]) {
      CreationsStay(s, c, token, e, digest, h);
    }
  }

  /** A disposal seen from one token: the run's own, or one forced by another run. */
  function Gone(c: Cell, h: HookId, forcedBy: Option<R.Owner>): Cell {
    match forcedBy
    case None => Dispose(c, h)
    case Some(o) => if h in c.live then ForceDispose(c, h, ToOwner(o)) else c
  }

  lemma GoneLive(s: R.Store, c: Cell, token: string, e: R.Event, digest: Option<string>)
    requires SameLive(s, c, token) && e.data.HookDisposed? && e.data.hook in s.tables.hooks && e.data.hook !in c.forced
    ensures SameLive(R.Commit(s, e, digest), Gone(c, e.data.hook, e.data.forcedBy), token)
    ensures Gone(c, e.data.hook, e.data.forcedBy).created == c.created &&
            Gone(c, e.data.hook, e.data.forcedBy).fenced == c.fenced
  {
    var after := R.Commit(s, e, digest);
    assert after.tables.hooks == s.tables.hooks - {e.data.hook} && PhaseOf(after) == PhaseOf(s);
  }

  lemma GoneForced(s: R.Store, c: Cell, token: string, e: R.Event, digest: Option<string>)
    requires SameLive(s, c, token) && SameCreated(s, c, token) && SameForced(s, c) && L.HooksTrue(s)
    requires e.data.HookDisposed? && e.data.hook in s.tables.hooks
    ensures SameForced(R.Commit(s, e, digest), Gone(c, e.data.hook, e.data.forcedBy))
  {
    var h := e.data.hook;
    assert R.Commit(s, e, digest).markers.forced.Keys ==
           if e.data.forcedBy.Some? then s.markers.forced.Keys + {h} else s.markers.forced.Keys;
    assert h in c.created && CreatedAs(s, h, token, c.created[h]);
    assert c.created[h].onToken <==> h in c.live;
  }

  lemma DisposalAgrees(s: R.Store, c: Cell, token: string, names: Names, e: R.Event, digest: Option<string>)
    requires Represents(s, c, token, names) && L.Dense(s) && L.HooksTrue(s) && e.spec == R.SPEC_VERSION_CURRENT
    requires e.data.HookDisposed? && e.data.hook in s.tables.hooks
    ensures Represents(R.Commit(s, e, digest), Gone(c, e.data.hook, e.data.forcedBy), token, names)
  {
    assert e.data.hook !in c.forced;
    GoneCreated(s, c, token, e, digest);
    GoneLive(s, c, token, e, digest);
    GoneForced(s, c, token, e, digest);
    FencesStay(s, c, Gone(c, e.data.hook, e.data.forcedBy), names, e, digest);
  }

  /** What a request is to the cell of one token. */
  function CellAfter(s: R.Store, c: Cell, token: string, names: Names, q: R.Request, cx: R.Context, key: Key): Cell {
    if cx.spec.Some? && cx.spec.value != R.SPEC_VERSION_CURRENT then c
    else match q
      case CreateHook(h, t, _, retain, force) =>
        if cx.holder.Some? && cx.holder.value != R.Owner(cx.run, h) then c
        else if t == token then
          Create(c, Owner(cx.run, h), key, if force then ToOwners(cx.claimedFrom) else None, retain).0
        else if KeyText(names, key) in s.markers.cancelled then c else CreateElsewhere(c, h)
      case DisposeHook(h) => Dispose(c, h)
      case _ => c.(phase := PhaseOf(R.Next(s, q, cx)))
  }

  /** The step a decision takes, as the cell sees it. */
  lemma CarriedOnce(s: R.Store, d: R.Decision, cx: R.Context)
    requires !d.Append? || d.second.None?
    ensures R.Carry(s, d, cx) == if d.Append? then R.Commit(s, R.EventAt(d.first, cx), cx.digest) else s
  {
  }

  lemma CreateDecided(s: R.Store, c: Cell, token: string, names: Names, q: R.Request, cx: R.Context, key: Key)
    requires q.CreateHook? && cx.claim == Some(KeyText(names, key)) && c.phase == PhaseOf(s) && Current(s)
    requires q.hook in c.created <==> q.hook in s.markers.hookEvents
    requires q.token == token ==> (key in c.fenced <==> KeyText(names, key) in s.markers.cancelled)
    ensures
      var d, after := R.Decide(s, q, cx), CellAfter(s, c, token, names, q, cx, key);
      if !d.Append? then after == c
      else
        && d.second.None? && !d.first.HookDisposed?
        && (if d.first.HookCreated? then
              d.first.hook == q.hook && q.hook !in c.created && after == Born(c, token, d.first, Under(key))
            else d.first.HookConflict? && after == c)
  {
    assert KeyText(names, key) != "";
  }

  lemma ConflictKeepsPhase(s: R.Store, e: R.Event, digest: Option<string>)
    requires e.data.HookConflict?
    ensures PhaseOf(R.Commit(s, e, digest)) == PhaseOf(s)
  {
  }

  lemma CreateAgrees(s: R.Store, c: Cell, token: string, names: Names, q: R.Request, cx: R.Context, key: Key)
    requires Naming(names) && L.Inv(s) && Represents(s, c, token, names)
    requires q.CreateHook? && cx.claim == Some(KeyText(names, key)) && (q.token == token ==> Ours(names, key))
    ensures Represents(R.Next(s, q, cx), CellAfter(s, c, token, names, q, cx, key), token, names)
  {
    var d := R.Decide(s, q, cx);
    CreateDecided(s, c, token, names, q, cx, key);
    CarriedOnce(s, d, cx);
    if d.Append? {
      var e := R.EventAt(d.first, cx);
      if d.first.HookCreated? { CreationAgrees(s, c, token, names, e, cx.digest, Under(key)); }
      else { ConflictKeepsPhase(s, e, cx.digest); OtherEventKeeps(s, c, token, names, e, cx.digest); }
    }
  }

  lemma DisposeDecided(s: R.Store, c: Cell, token: string, names: Names, q: R.Request, cx: R.Context, key: Key)
    requires q.DisposeHook? && SameLive(s, c, token) && Current(s) && L.HooksTrue(s)
    ensures
      var d, after := R.Decide(s, q, cx), CellAfter(s, c, token, names, q, cx, key);
      if !d.Append? then after == c
      else
        && d == R.Append(R.HookDisposed(q.hook, None), None)
        && q.hook in s.tables.hooks && after == Gone(c, q.hook, None)
  {
    assert q.hook in c.live <==> OnToken(s, q.hook, token);
  }

  lemma DisposeAgrees(s: R.Store, c: Cell, token: string, names: Names, q: R.Request, cx: R.Context, key: Key)
    requires L.Inv(s) && Represents(s, c, token, names) && q.DisposeHook?
    ensures Represents(R.Next(s, q, cx), CellAfter(s, c, token, names, q, cx, key), token, names)
  {
    var d := R.Decide(s, q, cx);
    DisposeDecided(s, c, token, names, q, cx, key);
    CarriedOnce(s, d, cx);
    if d.Append? { DisposalAgrees(s, c, token, names, R.EventAt(d.first, cx), cx.digest); }
  }

  lemma OtherDecided(s: R.Store, q: R.Request, cx: R.Context)
    requires !q.CreateHook? && !q.DisposeHook?
    ensures
      var d := R.Decide(s, q, cx);
      d.Append? ==>
        && !d.first.HookCreated? && !d.first.HookDisposed?
        && (d.second.Some? ==> !d.second.value.HookCreated? && !d.second.value.HookDisposed?)
  {
  }

  lemma SecondAgrees(s: R.Store, c: Cell, first: Cell, token: string, names: Names, e: R.Event, digest: Option<string>)
    requires Represents(s, first, token, names) && L.Dense(s) && e.spec == R.SPEC_VERSION_CURRENT
    requires !e.data.HookCreated? && !e.data.HookDisposed? && first == c.(phase := first.phase)
    ensures Represents(R.Commit(s, e, digest), c.(phase := PhaseOf(R.Commit(s, e, digest))), token, names)
  {
    OtherEventKeeps(s, first, token, names, e, digest);
    assert first.(phase := PhaseOf(R.Commit(s, e, digest))) == c.(phase := PhaseOf(R.Commit(s, e, digest)));
  }

  lemma DenseAfter(s: R.Store, e: R.Event, digest: Option<string>)
    requires L.Dense(s)
    ensures L.Dense(R.Commit(s, e, digest))
  {
  }

  lemma OtherAgrees(s: R.Store, c: Cell, token: string, names: Names, d: R.Decision, cx: R.Context)
    requires L.Dense(s) && Represents(s, c, token, names) && d.Append?
    requires !d.first.HookCreated? && !d.first.HookDisposed?
    requires d.second.Some? ==> !d.second.value.HookCreated? && !d.second.value.HookDisposed?
    ensures Represents(R.Carry(s, d, cx), c.(phase := PhaseOf(R.Carry(s, d, cx))), token, names)
  {
    var e := R.EventAt(d.first, cx);
    OtherEventKeeps(s, c, token, names, e, cx.digest);
    match d.second
    case None => CarriedOnce(s, d, cx);
    case Some(more) =>
      var once := R.Commit(s, e, cx.digest);
      DenseAfter(s, e, cx.digest);
      SecondAgrees(once, c, c.(phase := PhaseOf(once)), token, names, R.EventAt(more, cx), cx.digest);
  }

  /** A creation that was admitted to the token, or that names its own holder. */
  predicate Delivered(q: R.Request, cx: R.Context, token: string) {
    && q.CreateHook? && q.token == token
    && (cx.spec.None? || cx.spec.value == R.SPEC_VERSION_CURRENT)
    && (cx.holder.None? || cx.holder.value == R.Owner(cx.run, q.hook))
  }

  function CreationOf(c: Cell, q: R.Request, cx: R.Context, key: Key): CreateAnswer
    requires q.CreateHook?
  {
    Create(c, Owner(cx.run, q.hook), key, if q.force then ToOwners(cx.claimedFrom) else None, q.retainUntil).1
  }

  /** The store accepts a creation exactly when the cell commits it, with the same hook; only when the log holds
      the hook already and the request names it as the token's holder is it a conflict instead. */
  predicate SameCreation(q: R.Request, cx: R.Context, known: bool, row: Option<R.Hook>, reply: L.Reply,
                         answer: CreateAnswer)
    requires q.CreateHook?
  {
    && reply.Applied?
    && (reply.outcome.Answered? <==> answer.Committed? && (known ==> cx.holder.None?))
    && (answer.Committed? ==> SameHook(Owner(cx.run, q.hook), row, Some(answer.hook)))
  }

  lemma CreationAnswered(s: R.Store, c: Cell, token: string, names: Names, q: R.Request, cx: R.Context, key: Key)
    requires L.HooksTrue(s) && SameLive(s, c, token) && Current(s) && Delivered(q, cx, token)
    requires cx.claim == Some(KeyText(names, key))
    requires q.hook in c.created <==> q.hook in s.markers.hookEvents
    requires key in c.fenced <==> KeyText(names, key) in s.markers.cancelled
    ensures L.ReplyTo(s, L.Apply(q, cx)).Applied?
    ensures
      L.ReplyTo(s, L.Apply(q, cx)).outcome.Answered? <==>
      CreationOf(c, q, cx, key).Committed? && (q.hook in s.markers.hookEvents ==> cx.holder.None?)
  {
    assert KeyText(names, key) != "";
    assert q.hook in c.live <==> OnToken(s, q.hook, token);
  }

  /** Every request to the store is the cell's transaction of the hook protocol, and a creation on the token gets
      the protocol's answer. */
  lemma RequestsAgree(s: R.Store, c: Cell, token: string, names: Names, q: R.Request, cx: R.Context, key: Key)
    requires Naming(names) && L.Inv(s) && Represents(s, c, token, names)
    requires q.CreateHook? ==> cx.claim == Some(KeyText(names, key)) && (q.token == token ==> Ours(names, key))
    ensures Represents(R.Next(s, q, cx), CellAfter(s, c, token, names, q, cx, key), token, names)
    ensures Delivered(q, cx, token) ==>
              SameCreation(q, cx, q.hook in s.markers.hookEvents, R.HookOn(R.Next(s, q, cx), q.hook, token),
                           L.ReplyTo(s, L.Apply(q, cx)), CreationOf(c, q, cx, key))
  {
    if q.CreateHook? {
      CreateAgrees(s, c, token, names, q, cx, key);
      if Delivered(q, cx, token) {
        CreationAnswered(s, c, token, names, q, cx, key);
        CommittedRow(R.Next(s, q, cx), c, token, q, cx, key);
      }
    }
    else if q.DisposeHook? { DisposeAgrees(s, c, token, names, q, cx, key); }
    else { OtherRequestAgrees(s, c, token, names, q, cx, key); }
  }

  lemma CommittedRow(after: R.Store, c: Cell, token: string, q: R.Request, cx: R.Context, key: Key)
    requires q.CreateHook?
    requires
      var from := if q.force then ToOwners(cx.claimedFrom) else None;
      SameLive(after, Create(c, Owner(cx.run, q.hook), key, from, q.retainUntil).0, token)
    ensures
      CreationOf(c, q, cx, key).Committed? ==>
        SameHook(Owner(cx.run, q.hook), R.HookOn(after, q.hook, token), Some(CreationOf(c, q, cx, key).hook))
  {
    var d := Create(c, Owner(cx.run, q.hook), key, if q.force then ToOwners(cx.claimedFrom) else None, q.retainUntil).0;
    assert q.hook in d.live <==> OnToken(after, q.hook, token);
  }

  lemma OtherRequestAgrees(s: R.Store, c: Cell, token: string, names: Names, q: R.Request, cx: R.Context, key: Key)
    requires L.Inv(s) && Represents(s, c, token, names) && !q.CreateHook? && !q.DisposeHook?
    ensures Represents(R.Next(s, q, cx), CellAfter(s, c, token, names, q, cx, key), token, names)
  {
    var d := R.Decide(s, q, cx);
    assert c == c.(phase := PhaseOf(s));
    OtherDecided(s, q, cx);
    if d.Append? {
      OtherAgrees(s, c, token, names, d, cx);
    }
  }

  /** On a finished run a forced disposal leaves no event, only its fence. */
  lemma EndedDisposalRows(s: R.Store, h: HookId, token: string, claimer: R.Owner, now: nat)
    requires L.RunEnded(s) && OnToken(s, h, token) && h !in s.markers.forced
    ensures
      var after := R.ForceDispose(s, h, token, claimer, now);
      && after.tables.hooks == s.tables.hooks - {h} && after.tables.run == s.tables.run && after.log == s.log
      && after.markers.hookEvents == s.markers.hookEvents && after.markers.cancelled == s.markers.cancelled
      && after.markers.forced.Keys == s.markers.forced.Keys + {h}
  {
  }

  /** Rows other than the hook tables do not matter to what a cell says of creations and fences. */
  lemma SameRows(s: R.Store, after: R.Store, c: Cell, d: Cell, token: string, names: Names)
    requires SameCreated(s, c, token) && SameFences(s, c, names) && Current(s)
    requires after.log == s.log && after.markers.hookEvents == s.markers.hookEvents
    requires after.markers.cancelled == s.markers.cancelled && after.tables.run == s.tables.run
    requires d.created == c.created && d.fenced == c.fenced
    ensures SameCreated(after, d, token) && SameFences(after, d, names) && Current(after)
  {
    forall g | g in d.created ensures CreatedAs(after, g, token, d.created[g]) {
      assert CreatedAs(s, g, token, c.created[g]);
    }
  }

  lemma EndedDisposalAgrees(s: R.Store, c: Cell, token: string, names: Names, h: HookId, claimer: R.Owner, now: nat)
    requires L.HooksTrue(s) && Represents(s, c, token, names) && L.RunEnded(s) && OnToken(s, h, token) &&
             h !in s.markers.forced
    ensures Represents(R.ForceDispose(s, h, token, claimer, now), ForceDispose(c, h, ToOwner(claimer)), token, names)
  {
    var after, d := R.ForceDispose(s, h, token, claimer, now), ForceDispose(c, h, ToOwner(claimer));
    EndedDisposalRows(s, h, token, claimer, now);
    assert CreatedAs(s, h, token, c.created[h]) && h in c.live && h !in c.forced;
    SameRows(s, after, c, d, token, names);
    EndedDisposalLive(s, c, token, h, claimer, now);
    assert SameForced(after, d);
  }

  lemma EndedDisposalLive(s: R.Store, c: Cell, token: string, h: HookId, claimer: R.Owner, now: nat)
    requires SameLive(s, c, token) && L.RunEnded(s) && OnToken(s, h, token) && h !in s.markers.forced && h !in c.forced
    ensures SameLive(R.ForceDispose(s, h, token, claimer, now), ForceDispose(c, h, ToOwner(claimer)), token)
  {
    EndedDisposalRows(s, h, token, claimer, now);
  }

  /** A forced disposal journaled by another run's takeover. */
  lemma ForcedDisposalAgrees(s: R.Store, c: Cell, token: string, names: Names, h: HookId, claimer: R.Owner, now: nat)
    requires L.Inv(s) && Represents(s, c, token, names)
    ensures Represents(L.Step(s, L.ForceDisposal(h, token, claimer, now)), ForceDispose(c, h, ToOwner(claimer)), token,
                       names)
  {
    assert h in c.live <==> OnToken(s, h, token);
    if OnToken(s, h, token) && h !in s.markers.forced {
      if L.RunEnded(s) { EndedDisposalAgrees(s, c, token, names, h, claimer, now); }
      else {
        DisposalAgrees(s, c, token, names, R.Event(R.HookDisposed(h, Some(claimer)), now, s.tables.run.value.spec),
                       None);
      }
    }
  }

  /** A page of terminal cleanup. */
  lemma TerminalCleanupAgrees(s: R.Store, c: Cell, token: string, names: Names, h: HookId)
    requires Represents(s, c, token, names)
    ensures Represents(L.Step(s, L.CleanHook(h)), CleanTerminal(c, h), token, names)
  {
    SameRows(s, L.Step(s, L.CleanHook(h)), c, CleanTerminal(c, h), token, names);
  }
}
