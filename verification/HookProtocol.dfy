/** The token shard, the run cells and the clients as one transition system for one token.

    Every step is one storage transaction of one cell, or one client action. Replies
    and requests between cells are a growing set of messages: a message may be
    delivered late, repeatedly, out of order or never, which also covers a client
    that stops between any two calls. */
module HookProtocol {
  import opened Prelude
  import opened HookToken
  import opened HookCell
  import Shard = HookToken
  import Run = HookCell

  /** A reservation a client holds and may still turn into a creation. */
  datatype Grant = Grant(owner: Owner, id: ClaimId, claimedFrom: Option<Owner>)

  datatype Msg =
    // the shard asks a run cell
    | AskClaim(claim: Claim)
    | AskVictim(record: Hook)
    | AskForced(intent: Takeover)
    | AskConfirm(owner: Owner)
    // a run cell answers
    | Resolved(claim: Claim, hook: Option<Hook>)
    | StillCommitted(claim: Claim, record: Hook)
    | Victim(record: Hook, running: bool)
    | Decided(intent: Takeover, journaled: bool, hook: Option<Hook>)
    | VictimDone(intent: Takeover)
    | Gone(owner: Owner)
    | Status(run: RunId, active: bool)
    // between clients, run cells and the shard
    | Create(owner: Owner, key: Key, claimedFrom: Option<Owner>)
    | Reported(owner: Owner, key: Key, record: Hook)
    | Release(owner: Owner, id: ClaimId)
    | ReleaseBatch(owner: Owner, runEnded: bool)

  /** `ids` and `intents` are history: who proposed each claim id, and every takeover ever opened. */
  datatype Sys = Sys(
    now: nat, shard: TokenState, cells: map<RunId, Cell>,
    ids: map<ClaimId, Owner>, intents: map<ClaimId, Takeover>, held: set<Grant>, net: set<Msg>)

  const INIT := Sys(0, FREE, map[], map[], map[], {}, {})

  function CellAt(s: Sys, r: RunId): Cell { if r in s.cells then s.cells[r] else EMPTY }

  function Of(s: Sys, x: Owner): Cell { CellAt(s, x.run) }

  /** Transactions of the token shard, with what its callers learned beforehand. */
  datatype ShardAct =
    | Reserve(owner: Owner, id: ClaimId, expired: Option<Claim>, hook: Option<Hook>)
    | OpenTakeover(owner: Owner, id: ClaimId, indexed: Hook, running: bool, askedAt: nat)
    | Preempt(claim: Claim, hook: Option<Hook>)
    | RollForward(intent: Takeover, hook: Option<Hook>)
    | DropIntent(intent: Takeover)
    | Finalize(key: Key, record: Hook, active: bool)
    | ReleaseClaim(owner: Owner, id: ClaimId)
    | ReleaseHook(owner: Owner, runEnded: bool)
    | PublishClaim(claim: Claim, record: Hook)
    | Withdraw(owner: Owner)
    | CompactClaim(startedAt: nat, claim: Claim, hook: Option<Hook>)
    | CompactRetained

  /** Reads that start a call to a run cell, and what clients do with a reservation. */
  datatype ClientAct =
    | Tick(ms: nat)
    | Observe
    | JoinTakeover
    | SendCreate(grant: Grant)
    | SendReplay(owner: Owner, key: Key)
    | Abandon(owner: Owner, id: ClaimId)

  /** What happens to a run by itself. */
  datatype RunAct =
    | StartRun(run: RunId)
    | EndRun(run: RunId)
    | ExpireRun(run: RunId)
    | CreateElsewhere(run: RunId, hookId: HookId)
    | DisposeHook(run: RunId, hookId: HookId)
    | CleanTerminal(run: RunId, hookId: HookId)

  /** A run cell serving a request of a client or of the shard. */
  datatype ServeAct =
    | DeliverCreate(owner: Owner, key: Key, claimedFrom: Option<Owner>, retain: Option<nat>)
    | ResolveTokenClaim(owner: Owner, key: Key, claimedFrom: Option<Owner>)
    | ResolveExpired(claim: Claim)
    | ForceDispose(intent: Takeover, hook: Option<Hook>)
    | ResolveForced(intent: Takeover)
    // The hook-ID shard resolves its own expired claim, under the same claim id.
    | FenceById(owner: Owner, id: ClaimId)

  /** A run cell answering a question without changing. */
  datatype AnswerAct =
    | AnswerCommitted(claim: Claim)
    | AnswerConfirm(owner: Owner)
    | AnswerVictim(record: Hook)
    | AnswerStatus(run: RunId)
    | AnnounceRelease(owner: Owner, runEnded: bool)

  datatype Step = OfShard(shard: ShardAct) | OfClient(client: ClientAct) | OfRun(run: RunAct)
    | Serve(serve: ServeAct) | Answer(answer: AnswerAct)

  /** A settler may roll `intent` forward: its claimer's log says so, or its creator reports it. */
  predicate Decisive(s: Sys, intent: Takeover, hook: Option<Hook>) {
    && AskForced(intent) in s.net
    && (|| Decided(intent, true, hook) in s.net
        || (hook.Some? && Reported(intent.claimer, Exact(intent.id), hook.value) in s.net))
  }

  predicate ShardEnabled(s: Sys, act: ShardAct) {
    match act
    case Reserve(x, id, expired, hook) =>
      // Runs exist before they create hooks, and proposed claim ids are never reused.
      && !Of(s, x).phase.Missing?
      && id !in s.ids
      && (if expired.Some? then Resolved(expired.value, hook) in s.net else hook.None?)
    case OpenTakeover(x, id, indexed, running, askedAt) =>
      && !Of(s, x).phase.Missing?
      && id !in s.ids
      && indexed.owner != x
      && askedAt <= s.now
      && Victim(indexed, running) in s.net
    case Preempt(claim, hook) => Resolved(claim, hook) in s.net
    case RollForward(intent, hook) =>
      Decisive(s, intent, hook) && (intent.victimRunning ==> VictimDone(intent) in s.net)
    case DropIntent(intent) => Decided(intent, false, None) in s.net
    case Finalize(key, record, active) =>
      Reported(record.owner, key, record) in s.net && Status(record.owner.run, active) in s.net
    case ReleaseClaim(x, id) => Release(x, id) in s.net
    case ReleaseHook(x, runEnded) => ReleaseBatch(x, runEnded) in s.net
    case PublishClaim(claim, record) => StillCommitted(claim, record) in s.net
    case Withdraw(x) => Gone(x) in s.net
    case CompactClaim(startedAt, claim, hook) => startedAt <= s.now && Resolved(claim, hook) in s.net
    case CompactRetained => true
  }

  predicate ClientEnabled(s: Sys, act: ClientAct) {
    match act
    case Tick(_) => true
    case Observe => true
    case JoinTakeover => true
    case SendCreate(grant) => grant in s.held
    // The hook-ID shard answers a claim id other than the token claim's only for a hook that committed.
    case SendReplay(x, key) =>
      x.hook in Of(s, x).created && (key.token.Some? ==> key.token.value in s.ids && s.ids[key.token.value] == x)
    case Abandon(x, id) => exists g :: g in s.held && g.owner == x && g.id == id
  }

  predicate RunEnabled(s: Sys, act: RunAct) {
    match act
    case StartRun(r) => CellAt(s, r).phase.Missing?
    case EndRun(r) => CellAt(s, r).phase.Active?
    case ExpireRun(r) => !CellAt(s, r).phase.Missing?
    case CreateElsewhere(_, _) => true
    case DisposeHook(_, _) => true
    case CleanTerminal(_, _) => true
  }

  predicate ServeEnabled(s: Sys, act: ServeAct) {
    match act
    case DeliverCreate(x, key, from, _) => Create(x, key, from) in s.net
    case ResolveTokenClaim(x, key, from) => Create(x, key, from) in s.net
    case ResolveExpired(claim) => AskClaim(claim) in s.net
    case ForceDispose(intent, hook) => Decisive(s, intent, hook)
    case ResolveForced(intent) => AskForced(intent) in s.net
    case FenceById(x, id) => id in s.ids && s.ids[id] == x && !Of(s, x).phase.Missing?
  }

  predicate AnswerEnabled(s: Sys, act: AnswerAct) {
    match act
    case AnswerCommitted(claim) => AskClaim(claim) in s.net
    case AnswerConfirm(x) => AskConfirm(x) in s.net
    case AnswerVictim(record) => AskVictim(record) in s.net
    case AnswerStatus(r) => !CellAt(s, r).phase.Missing?
    case AnnounceRelease(x, runEnded) => if runEnded then Over(Of(s, x)) else Dead(Of(s, x), x.hook)
  }

  predicate Enabled(s: Sys, step: Step) {
    match step
    case OfShard(act) => ShardEnabled(s, act)
    case OfClient(act) => ClientEnabled(s, act)
    case OfRun(act) => RunEnabled(s, act)
    case Serve(act) => ServeEnabled(s, act)
    case Answer(act) => AnswerEnabled(s, act)
  }

  function Send(s: Sys, m: set<Msg>): Sys { s.(net := s.net + m) }

  function WithCell(s: Sys, r: RunId, c: Cell, m: set<Msg>): Sys { Send(s.(cells := s.cells[r := c]), m) }

  /** A client reacts to a refused creation, or to an uncommitted resolution, by releasing its token claim. */
  function ReleaseOf(x: Owner, key: Key): set<Msg> {
    if key.token.Some? then {Release(x, key.token.value)} else {}
  }

  // ---- the effect of each step --------------------------------------------

  function DoReserve(s: Sys, x: Owner, id: ClaimId, expired: Option<Claim>, committed: bool): Sys {
    var (shard, answer) := Shard.Reserve(s.shard, s.now, x, id, expired, committed);
    s.(shard := shard, ids := s.ids[id := x],
       held := if answer.Claimed? then s.held + {Grant(x, answer.id, None)} else s.held)
  }

  function Questions(s: Sys): set<Msg> {
    var claim := match s.shard.claim case None => {} case Some(cl) => {AskClaim(cl)};
    var record := match s.shard.record case None => {} case Some(hook) => {AskVictim(hook)};
    var intent := match s.shard.takeover case None => {} case Some(i) => {AskForced(i)};
    claim + record + intent
  }

  function DoObserve(s: Sys): Sys { Send(s, Questions(s)) }

  function DoJoinTakeover(s: Sys): Sys {
    match s.shard.takeover
    case None => s
    case Some(i) => s.(held := s.held + {Grant(i.claimer, i.id, Some(i.victim))})
  }

  function DoOpenTakeover(s: Sys, x: Owner, id: ClaimId, indexed: Hook, running: bool, askedAt: nat): Sys {
    var (shard, intent) :=
      Shard.OpenTakeover(s.shard, s.now, x, id, indexed, running, running || RetentionAhead(indexed, askedAt));
    if intent.None? then s.(shard := shard, ids := s.ids[id := x])
    else s.(shard := shard, ids := s.ids[id := x], intents := s.intents[id := intent.value],
            held := s.held + {Grant(x, id, Some(indexed.owner))})
  }

  /** A transaction that moved the shard, and confirms a record it republished for `x`. */
  function DoShard(s: Sys, shard: TokenState, published: bool, x: Owner): Sys {
    Send(s.(shard := shard), if published then {AskConfirm(x)} else {})
  }

  function DoPreempt(s: Sys, claim: Claim, hook: Option<Hook>): Sys {
    var (shard, published) := Shard.PreemptClaim(s.shard, claim, hook);
    DoShard(s, shard, published, claim.owner)
  }

  function DoRollForward(s: Sys, intent: Takeover, hook: Option<Hook>): Sys {
    DoShard(s, Shard.RollForward(s.shard, intent.id, hook), Pending(s.shard, intent.id) && hook.Some?, intent.claimer)
  }

  function DoPublishClaim(s: Sys, claim: Claim, record: Hook): Sys {
    var (shard, published) := Shard.PublishClaim(s.shard, claim, record);
    DoShard(s, shard, published, claim.owner)
  }

  function DoCompactClaim(s: Sys, startedAt: nat, claim: Claim, hook: Option<Hook>): Sys {
    var (shard, published) := Shard.CompactClaim(s.shard, startedAt, claim, hook);
    DoShard(s, shard, published, claim.owner)
  }

  /** reserveHook gives the token claim back when the hook-ID shard refuses or cannot be reached. A hook has at
      most one attempt in flight: no other attempt goes on under a claim that was given back. */
  function DoAbandon(s: Sys, x: Owner, id: ClaimId): Sys {
    s.(shard := Shard.ReleaseClaim(s.shard, x, id), held := set g | g in s.held && !(g.owner == x && g.id == id))
  }

  function DoDeliverCreate(s: Sys, x: Owner, key: Key, from: Option<Owner>, retain: Option<nat>): Sys {
    var (c, answer) := Run.Create(Of(s, x), x, key, from, retain);
    WithCell(s, x.run, c,
             match answer case Committed(hook) => {Reported(x, key, hook)} case Refused => ReleaseOf(x, key))
  }

  function DoResolveTokenClaim(s: Sys, x: Owner, key: Key): Sys {
    var (c, committed) := Run.ResolveTokenClaim(Of(s, x), x.hook, key);
    WithCell(s, x.run, c, if committed then {} else ReleaseOf(x, key))
  }

  function DoResolveExpired(s: Sys, claim: Claim): Sys {
    var (c, hook) := Run.ResolveExpiredClaim(Of(s, claim.owner), claim.owner, claim.id);
    WithCell(s, claim.owner.run, c, {Resolved(claim, hook)})
  }

  function DoFenceById(s: Sys, x: Owner, id: ClaimId): Sys {
    WithCell(s, x.run, Run.ResolveExpiredClaim(Of(s, x), x, id).0, {})
  }

  function DoAnswerCommitted(s: Sys, claim: Claim): Sys {
    match CommittedHook(Of(s, claim.owner), claim.owner)
    case None => s
    case Some(hook) => Send(s, {StillCommitted(claim, hook)})
  }

  function DoAnswerConfirm(s: Sys, x: Owner): Sys {
    if CommittedHook(Of(s, x), x).Some? then s else Send(s, {Gone(x)})
  }

  function DoForceDispose(s: Sys, intent: Takeover): Sys {
    if intent.victimRunning then
      WithCell(s, intent.victim.run,
               Run.ForceDispose(Of(s, intent.victim), intent.victim.hook, intent.claimer), {VictimDone(intent)})
    else s
  }

  function DoResolveForced(s: Sys, intent: Takeover): Sys {
    var (c, journaled, hook) := Run.ResolveForced(Of(s, intent.claimer), intent);
    WithCell(s, intent.claimer.run, c, {Decided(intent, journaled, hook)})
  }

  function DoShardAct(s: Sys, act: ShardAct): Sys {
    match act
    case Reserve(x, id, expired, hook) => DoReserve(s, x, id, expired, hook.Some?)
    case OpenTakeover(x, id, indexed, running, askedAt) => DoOpenTakeover(s, x, id, indexed, running, askedAt)
    case Preempt(claim, hook) => DoPreempt(s, claim, hook)
    case RollForward(intent, hook) => DoRollForward(s, intent, hook)
    case DropIntent(intent) => s.(shard := Shard.DropIntent(s.shard, intent.id))
    case Finalize(key, record, active) => s.(shard := Shard.Finalize(s.shard, s.now, record, key.token, active).0)
    case ReleaseClaim(x, id) => s.(shard := Shard.ReleaseClaim(s.shard, x, id))
    case ReleaseHook(x, runEnded) => s.(shard := Shard.ReleaseHook(s.shard, s.now, x, runEnded))
    case PublishClaim(claim, record) => DoPublishClaim(s, claim, record)
    case Withdraw(x) => s.(shard := Shard.Withdraw(s.shard, x))
    case CompactClaim(startedAt, claim, hook) => DoCompactClaim(s, startedAt, claim, hook)
    case CompactRetained => s.(shard := Shard.CompactRetained(s.shard, s.now))
  }

  function DoClientAct(s: Sys, act: ClientAct): Sys {
    match act
    case Tick(ms) => s.(now := s.now + ms)
    case Observe => DoObserve(s)
    case JoinTakeover => DoJoinTakeover(s)
    case SendCreate(g) => Send(s, {Create(g.owner, Exact(g.id), g.claimedFrom)})
    case SendReplay(x, key) => Send(s, {Create(x, key, None)})
    case Abandon(x, id) => DoAbandon(s, x, id)
  }

  function DoRunAct(s: Sys, act: RunAct): Sys {
    match act
    case StartRun(r) => WithCell(s, r, CellAt(s, r).(phase := Active), {})
    case EndRun(r) => WithCell(s, r, CellAt(s, r).(phase := Terminal), {})
    case ExpireRun(r) => WithCell(s, r, CellAt(s, r).(phase := Expired), {})
    case CreateElsewhere(r, h) => WithCell(s, r, Run.CreateElsewhere(CellAt(s, r), h), {})
    case DisposeHook(r, h) => WithCell(s, r, Run.Dispose(CellAt(s, r), h), {})
    case CleanTerminal(r, h) => WithCell(s, r, Run.CleanTerminal(CellAt(s, r), h), {})
  }

  function DoServeAct(s: Sys, act: ServeAct): Sys {
    match act
    case DeliverCreate(x, key, from, retain) => DoDeliverCreate(s, x, key, from, retain)
    case ResolveTokenClaim(x, key, from) => DoResolveTokenClaim(s, x, key)
    case ResolveExpired(claim) => DoResolveExpired(s, claim)
    case ForceDispose(intent, hook) => DoForceDispose(s, intent)
    case ResolveForced(intent) => DoResolveForced(s, intent)
    case FenceById(x, id) => DoFenceById(s, x, id)
  }

  function DoAnswerAct(s: Sys, act: AnswerAct): Sys {
    match act
    case AnswerCommitted(claim) => DoAnswerCommitted(s, claim)
    case AnswerConfirm(x) => DoAnswerConfirm(s, x)
    case AnswerVictim(record) => Send(s, {Victim(record, Of(s, record.owner).phase.Active?)})
    case AnswerStatus(r) => Send(s, {Status(r, CellAt(s, r).phase.Active?)})
    case AnnounceRelease(x, runEnded) => Send(s, {ReleaseBatch(x, runEnded)})
  }

  function Do(s: Sys, step: Step): Sys {
    match step
    case OfShard(act) => DoShardAct(s, act)
    case OfClient(act) => DoClientAct(s, act)
    case OfRun(act) => DoRunAct(s, act)
    case Serve(act) => DoServeAct(s, act)
    case Answer(act) => DoAnswerAct(s, act)
  }

  // ---- what the protocol is for -------------------------------------------

  /** `x` is an active run's committed, undisposed hook on the token. */
  predicate Holds(s: Sys, x: Owner) { Live(Of(s, x), x.hook) }

  predicate Covered(ts: TokenState, x: Owner) {
    || (ts.record.Some? && ts.record.value.owner == x)
    || (ts.claim.Some? && ts.claim.value.owner == x)
    || (ts.takeover.Some? && ts.takeover.value.claimer == x)
  }

  ghost predicate Coverage(s: Sys) {
    forall x :: Holds(s, x) ==> Covered(s.shard, x)
  }

  /** A creation under token claim `id` that would still commit is on its way. */
  ghost predicate InFlight(s: Sys, x: Owner, id: ClaimId) {
    exists m :: m in s.net && m.Create? && m.owner == x && m.key.token == Some(id) && Able(Of(s, x), x.hook, m.key)
  }

  /** When giving token claim `id` back is harmless: nothing committed, and nothing will. */
  ghost predicate Unused(s: Sys, x: Owner, id: ClaimId) {
    HasClaim(s.shard, x, id) ==> !Holds(s, x) && !InFlight(s, x, id)
  }
}
