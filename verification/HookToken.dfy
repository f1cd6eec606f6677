/** Ownership of one hook token, as the token shard's transactions change it
    (src/worker/durable-objects/HookTokenDO.ts and hook-index-shared.ts).

    Each function is one storage transaction restricted to one token: the state
    before, what the caller learned from other cells, and the state after. */
module HookToken {
  import opened Prelude

  type RunId = string
  type HookId = string
  type ClaimId = nat

  datatype Owner = Owner(run: RunId, hook: HookId)

  /** The serialized hook a record holds: who owns it and how long the token outlives the run. */
  datatype Hook = Hook(owner: Owner, retainUntil: Option<nat>)

  datatype Claim = Claim(owner: Owner, id: ClaimId, expiresAt: nat)

  datatype Retained = Retained(owner: Owner, until: nat)

  datatype Takeover = Takeover(claimer: Owner, id: ClaimId, victim: Owner, victimRunning: bool, expiresAt: nat)

  datatype TokenState = TokenState(
    record: Option<Hook>, claim: Option<Claim>, retained: Option<Retained>, takeover: Option<Takeover>)

  const MAX_FLEET_RPC_TIMEOUT_MS: nat := 5 * 60 * 1000
  const FLEET_IDEMPOTENT_ATTEMPTS: nat := 3
  const FLEET_RETRY_BACKOFF_MAX_MS: nat := 900
  const HOOK_CLAIM_LEASE_MS: nat :=
    (FLEET_IDEMPOTENT_ATTEMPTS * 2 + 1) * MAX_FLEET_RPC_TIMEOUT_MS + FLEET_RETRY_BACKOFF_MAX_MS * 2
  const HOOK_TAKEOVER_SETTLE_MS: nat := MAX_FLEET_RPC_TIMEOUT_MS
  const LIFECYCLE_COMPACTION_RETRY_MS: nat := 1000

  const FREE := TokenState(None, None, None, None)

  predicate RetentionAhead(hook: Hook, now: nat) {
    hook.retainUntil.Some? && hook.retainUntil.value > now
  }

  /** A finished run's record whose retention has passed; a pending takeover keeps it. */
  predicate FreesRetention(ts: TokenState, now: nat) {
    && ts.record.Some?
    && ts.retained.Some?
    && ts.retained.value.until <= now
    && ts.takeover.None?
    && ts.record.value.owner == ts.retained.value.owner
  }

  function CompactRetained(ts: TokenState, now: nat): TokenState {
    if FreesRetention(ts, now) then ts.(record := None, retained := None) else ts
  }

  datatype ReserveAnswer = Claimed(id: ClaimId) | Held(holder: Owner) | Settle | Again

  /** `expired` is the stale claim the caller resolved first, `committed` whether its hook exists. */
  function Reserve(ts: TokenState, now: nat, owner: Owner, proposed: ClaimId, expired: Option<Claim>, committed: bool)
    : (TokenState, ReserveAnswer)
  {
    if ts.record.Some? && !FreesRetention(ts, now) then
      (ts, Held(ts.record.value.owner))
    else
      var free := CompactRetained(ts, now);
      match free.takeover
      case Some(pending) =>
        (free, if pending.claimer != owner && pending.expiresAt > now then Held(pending.claimer) else Settle)
      case None => Admit(free, now, owner, proposed, expired, committed)
  }

  /** The part of a reservation that finds the token without record or takeover. */
  function Admit(free: TokenState, now: nat, owner: Owner, proposed: ClaimId, expired: Option<Claim>, committed: bool)
    : (TokenState, ReserveAnswer)
  {
    var granted := free.(claim := Some(Claim(owner, proposed, now + HOOK_CLAIM_LEASE_MS)));
    match free.claim
    case None => (granted, Claimed(proposed))
    case Some(existing) =>
      if existing.expiresAt <= now then
        if expired.None? || existing.id != expired.value.id || existing.expiresAt != expired.value.expiresAt then
          (free, Again)
        else if committed then
          (free.(claim := Some(existing.(expiresAt := now + HOOK_CLAIM_LEASE_MS))),
           if existing.owner == owner then Claimed(existing.id) else Held(existing.owner))
        else
          (granted, Claimed(proposed))
      else if existing.owner != owner then (free, Held(existing.owner))
      else (free, Claimed(existing.id))
  }

  /** The transaction of a forced reservation that found `indexed` in the record. */
  function OpenTakeover(ts: TokenState, now: nat, owner: Owner, proposed: ClaimId,
                        indexed: Hook, victimRunning: bool, takeOver: bool): (TokenState, Option<Takeover>)
  {
    if ts.record != Some(indexed) || ts.takeover.Some? then (ts, None)
    else if !takeOver then (ts.(record := None, retained := None), None)
    else
      var intent := Takeover(owner, proposed, indexed.owner, victimRunning, now + HOOK_TAKEOVER_SETTLE_MS);
      (ts.(takeover := Some(intent)), Some(intent))
  }

  predicate Pending(ts: TokenState, id: ClaimId) {
    ts.takeover.Some? && ts.takeover.value.id == id
  }

  function RollForward(ts: TokenState, id: ClaimId, hook: Option<Hook>): TokenState {
    if Pending(ts, id) then ts.(takeover := None, retained := None, record := hook) else ts
  }

  function DropIntent(ts: TokenState, id: ClaimId): TokenState {
    if Pending(ts, id) then ts.(takeover := None) else ts
  }

  datatype FinalizeAnswer = Stored | Released | OwnedByAnother | ReservationExpired | ReservedByAnother | NoReservation

  function Finalize(ts: TokenState, now: nat, hook: Hook, id: Option<ClaimId>, active: bool)
    : (TokenState, FinalizeAnswer)
  {
    if !active && !RetentionAhead(hook, now) then (ReleaseHook(ts, now, hook.owner, false), Released)
    else if ts.record.Some? && ts.record.value.owner != hook.owner then (ts, OwnedByAnother)
    else if ts.claim.Some? && ts.claim.value.expiresAt <= now then (ts, ReservationExpired)
    else if ts.claim.Some? && (ts.claim.value.owner != hook.owner || Some(ts.claim.value.id) != id) then
      (ts, ReservedByAnother)
    else if ts.record.None? && ts.claim.None? then (ts, NoReservation)
    else
      var stored := ts.(record := Some(hook), claim := None);
      (if !active && hook.retainUntil.Some?
       then stored.(retained := Some(Retained(hook.owner, hook.retainUntil.value))) else stored,
       Stored)
  }

  predicate HasClaim(ts: TokenState, owner: Owner, id: ClaimId) {
    ts.claim.Some? && ts.claim.value.owner == owner && ts.claim.value.id == id
  }

  function ReleaseClaim(ts: TokenState, owner: Owner, id: ClaimId): TokenState {
    if HasClaim(ts, owner, id) then ts.(claim := None) else ts
  }

  /** One entry of a release batch. */
  function ReleaseHook(ts: TokenState, now: nat, owner: Owner, runEnded: bool): TokenState {
    var released :=
      if ts.record.Some? && ts.record.value.owner == owner then
        if runEnded && RetentionAhead(ts.record.value, now) then
          if ts.retained.None?
          then ts.(retained := Some(Retained(owner, ts.record.value.retainUntil.value)))
          else ts
        else ts.(record := None, retained := None)
      else ts;
    if ts.claim.Some? && ts.claim.value.owner == owner then released.(claim := None) else released
  }

  /** Publish the hook behind `observed`, unless the claim or the record moved meanwhile. */
  function PublishClaim(ts: TokenState, observed: Claim, hook: Hook): (TokenState, bool) {
    if ts.record.None? && ts.claim.Some? && ts.claim.value.id == observed.id
    then (ts.(record := Some(hook), claim := None), true)
    else (ts, false)
  }

  /** Fence another hook's creation in flight, or publish it when it already committed. */
  function PreemptClaim(ts: TokenState, observed: Claim, hook: Option<Hook>): (TokenState, bool) {
    if ts.claim.Some? && ts.claim.value.id == observed.id
    then (ts.(record := if hook.Some? then hook else ts.record, claim := None), hook.Some?)
    else (ts, false)
  }

  /** One due row of an alarm pass that started at `now` and resolved `observed`. */
  function CompactClaim(ts: TokenState, now: nat, observed: Claim, hook: Option<Hook>): (TokenState, bool) {
    if && ts.claim.Some? && ts.claim.value.expiresAt <= now
       && ts.claim.value.id == observed.id && ts.claim.value.expiresAt == observed.expiresAt
    then (ts.(record := if hook.Some? then hook else ts.record, claim := None), hook.Some?)
    else (ts, false)
  }

  /** Withdraw a republished record whose owner no longer has the hook. */
  function Withdraw(ts: TokenState, owner: Owner): TokenState {
    if ts.record.Some? && ts.record.value.owner == owner then ts.(record := None) else ts
  }
}
