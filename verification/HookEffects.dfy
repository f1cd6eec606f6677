/** What the token shard's transactions bring about, and how a token passes from one holder to the
    next (src/worker/durable-objects/HookTokenDO.ts and hook-index-shared.ts). */
module HookEffects {
  import opened Prelude
  import opened HookToken

  // ---- settlements ----------------------------------------------------------------------------

  /** Rolling a pending takeover forward ends it: the record is the claimer's hook, or gone with it, and
      no retention is left. A settlement of any other takeover changes nothing. */
  lemma RollForwardSettles(ts: TokenState, id: ClaimId, hook: Option<Hook>)
    ensures
      RollForward(ts, id, hook) ==
      if ts.takeover.Some? && ts.takeover.value.id == id then TokenState(hook, ts.claim, None, None) else ts
  {
  }

  /** Opening a takeover changes nothing else, and dropping its intent undoes it. */
  lemma DropUndoesOpen(ts: TokenState, now: nat, x: Owner, id: ClaimId, indexed: Hook, running: bool)
    requires ts.record == Some(indexed) && ts.takeover.None?
    ensures
      var (pending, intent) := OpenTakeover(ts, now, x, id, indexed, running, true);
      && pending.takeover == intent == Some(Takeover(x, id, indexed.owner, running, now + HOOK_TAKEOVER_SETTLE_MS))
      && pending.record == ts.record && pending.claim == ts.claim && pending.retained == ts.retained
      && DropIntent(pending, id) == ts
      && (forall other :: other != id ==> DropIntent(pending, other) == pending)
  {
  }

  /** A record that may go at once goes without a takeover; a record that moved meanwhile is left alone. */
  lemma OpenWithoutTakeover(ts: TokenState, now: nat, x: Owner, id: ClaimId, indexed: Hook, running: bool)
    requires ts.takeover.None?
    ensures
      ts.record == Some(indexed) ==>
        OpenTakeover(ts, now, x, id, indexed, running, false) == (TokenState(None, ts.claim, None, None), None)
    ensures
      forall takeOver :: ts.record != Some(indexed) ==>
        OpenTakeover(ts, now, x, id, indexed, running, takeOver) == (ts, None)
  {
  }

  // ---- the life of a claim -----------------------------------------------------------------------

  /** The token claimed by one reservation, and nothing else. */
  function Reserved(x: Owner, id: ClaimId, at: nat): TokenState {
    FREE.(claim := Some(Claim(x, id, at + HOOK_CLAIM_LEASE_MS)))
  }

  function Recorded(hook: Hook): TokenState { FREE.(record := Some(hook)) }

  /** A free token goes to its first claimant. Within the lease the claimant's own retry gets the same claim
      back and everybody else is refused; giving the claim back frees the token. */
  lemma FirstClaimantWins(at: nat, now: nat, x: Owner, y: Owner, id: ClaimId, other: ClaimId)
    requires at <= now < at + HOOK_CLAIM_LEASE_MS && x != y && id != other
    ensures Reserve(FREE, at, x, id, None, false) == (Reserved(x, id, at), Claimed(id))
    ensures Reserve(Reserved(x, id, at), now, x, other, None, false) == (Reserved(x, id, at), Claimed(id))
    ensures Reserve(Reserved(x, id, at), now, y, other, None, false) == (Reserved(x, id, at), Held(x))
    ensures ReleaseClaim(Reserved(x, id, at), x, id) == FREE
    ensures ReleaseClaim(Reserved(x, id, at), x, other) == Reserved(x, id, at)
    ensures ReleaseClaim(Reserved(x, id, at), y, id) == Reserved(x, id, at)
  {
  }

  /** After the lease nobody gets the token before the claimant's run was asked. If it committed the hook, the
      record is its own or the claim is renewed; otherwise the token is free for the next claimant. */
  lemma LeaseEnds(at: nat, now: nat, x: Owner, y: Owner, id: ClaimId, other: ClaimId, hook: Hook, any: bool)
    requires at + HOOK_CLAIM_LEASE_MS <= now && x != y && id != other
    ensures
      var stale := Claim(x, id, at + HOOK_CLAIM_LEASE_MS);
      var s := Reserved(x, id, at);
      && Reserve(s, now, y, other, None, any) == (s, Again)
      && Reserve(s, now, y, other, Some(stale), false) == (Reserved(y, other, now), Claimed(other))
      && Reserve(s, now, y, other, Some(stale), true) == (Reserved(x, id, now), Held(x))
      && Reserve(s, now, x, other, Some(stale), true) == (Reserved(x, id, now), Claimed(id))
      && CompactClaim(s, now, stale, None) == (FREE, false)
      && CompactClaim(s, now, stale, Some(hook)) == (Recorded(hook), true)
  {
  }

  /** An alarm pass leaves a claim alone that is not due, or that was renewed or replaced since it was listed. */
  lemma OtherClaimsStay(ts: TokenState, now: nat, observed: Claim, hook: Option<Hook>)
    requires ts.claim.Some? && (ts.claim.value.expiresAt > now || ts.claim.value != observed)
    requires ts.claim.value.id == observed.id ==> ts.claim.value.owner == observed.owner
    ensures CompactClaim(ts, now, observed, hook) == (ts, false)
  {
  }

  /** Repair and preemption of a claim: a committed hook becomes the record, a fenced creation frees the token,
      and a claim that moved meanwhile stays. */
  lemma ClaimsResolve(at: nat, x: Owner, id: ClaimId, observed: Claim, hook: Hook)
    ensures
      var s := Reserved(x, id, at);
      if observed.id == id then
        && PublishClaim(s, observed, hook) == (Recorded(hook), true)
        && PreemptClaim(s, observed, Some(hook)) == (Recorded(hook), true)
        && PreemptClaim(s, observed, None) == (FREE, false)
      else
        && PublishClaim(s, observed, hook) == (s, false)
        && PreemptClaim(s, observed, Some(hook)) == (s, false) && PreemptClaim(s, observed, None) == (s, false)
    ensures PublishClaim(Recorded(hook), observed, hook) == (Recorded(hook), false)
  {
  }

  // ---- the life of a record -----------------------------------------------------------------------

  /** From hand to hand: an admitted hook is published under its claim, holds the token against others, and
      its disposal frees the token for the next claimant. */
  lemma TokenChangesHands(at: nat, published: nat, tried: nat, released: nat, next: nat, hook: Hook, y: Owner,
                          id: ClaimId, other: ClaimId)
    requires at <= published < at + HOOK_CLAIM_LEASE_MS && y != hook.owner && id != other
    ensures Finalize(Reserved(hook.owner, id, at), published, hook, Some(id), true) == (Recorded(hook), Stored)
    ensures Reserve(Recorded(hook), tried, y, other, None, false) == (Recorded(hook), Held(hook.owner))
    ensures ReleaseHook(Recorded(hook), released, y, false) == Recorded(hook)
    ensures ReleaseHook(Recorded(hook), released, hook.owner, false) == FREE
    ensures Reserve(FREE, next, y, other, None, false) == (Reserved(y, other, next), Claimed(other))
    ensures Withdraw(Recorded(hook), hook.owner) == FREE && Withdraw(Recorded(hook), y) == Recorded(hook)
  {
  }

  /** A publication needs the claim it was admitted under. */
  lemma PublicationNeedsItsClaim(at: nat, now: nat, hook: Hook, y: Owner, id: ClaimId, key: Option<ClaimId>)
    requires y != hook.owner
    ensures
      now < at + HOOK_CLAIM_LEASE_MS && key != Some(id) ==>
        Finalize(Reserved(hook.owner, id, at), now, hook, key, true) ==
        (Reserved(hook.owner, id, at), ReservedByAnother)
    ensures
      now < at + HOOK_CLAIM_LEASE_MS ==>
        Finalize(Reserved(y, id, at), now, hook, key, true) == (Reserved(y, id, at), ReservedByAnother)
    ensures
      at + HOOK_CLAIM_LEASE_MS <= now ==>
        Finalize(Reserved(y, id, at), now, hook, key, true) == (Reserved(y, id, at), ReservationExpired)
    ensures Finalize(FREE, now, hook, key, true) == (FREE, NoReservation)
    ensures Finalize(Recorded(Hook(y, None)), now, hook, key, true) == (Recorded(Hook(y, None)), OwnedByAnother)
    ensures Finalize(Recorded(hook), now, hook, key, true) == (Recorded(hook), Stored)
  {
  }

  /** The record of a finished run with `until` as the end of its retention. */
  function Kept(x: Owner, until: nat): TokenState {
    TokenState(Some(Hook(x, Some(until))), None, Some(Retained(x, until)), None)
  }

  /** A finished run's hook keeps its token exactly until its retention ends, however it came to be retained. */
  lemma RetentionEnds(at: nat, now: nat, x: Owner, y: Owner, id: ClaimId, other: ClaimId, until: nat, later: nat)
    requires at <= now < at + HOOK_CLAIM_LEASE_MS && now < until && x != y
    ensures Finalize(Reserved(x, id, at), now, Hook(x, Some(until)), Some(id), false) == (Kept(x, until), Stored)
    ensures ReleaseHook(Recorded(Hook(x, Some(until))), now, x, true) == Kept(x, until)
    ensures ReleaseHook(Kept(x, until), now, x, true) == Kept(x, until)
    ensures ReleaseHook(Kept(x, until), now, x, false) == FREE
    ensures CompactRetained(Kept(x, until), later) == if later < until then Kept(x, until) else FREE
    ensures
      Reserve(Kept(x, until), later, y, other, None, false) ==
      if later < until then (Kept(x, until), Held(x)) else (Reserved(y, other, later), Claimed(other))
  {
  }

  /** A hook of a finished run without retention ahead is not published: its claim and its record go. */
  lemma EndedHookIsReleased(at: nat, now: nat, hook: Hook, id: ClaimId, key: Option<ClaimId>)
    requires hook.retainUntil.Some? ==> hook.retainUntil.value <= now
    ensures Finalize(Reserved(hook.owner, id, at), now, hook, key, false) == (FREE, Released)
    ensures Finalize(Recorded(hook), now, hook, key, false) == (FREE, Released)
    ensures ReleaseHook(Recorded(hook), now, hook.owner, true) == FREE
  {
  }

  /** On any state: a released owner has no claim left, and a record only as a finished run's retained one; the
      rest, and everything of other owners, is as it was. */
  lemma ReleaseFrees(ts: TokenState, now: nat, x: Owner, runEnded: bool)
    ensures
      var after := ReleaseHook(ts, now, x, runEnded);
      && (after.claim.Some? ==> after.claim.value.owner != x)
      && (after.record.Some? && after.record.value.owner == x ==>
            runEnded && after.retained.Some? && after.record.value.retainUntil.Some?
            && after.record.value.retainUntil.value > now)
      && after.takeover == ts.takeover
      && (ts.claim.Some? && ts.claim.value.owner != x ==> after.claim == ts.claim)
      && (ts.record.Some? && ts.record.value.owner != x ==> after.record == ts.record && after.retained == ts.retained)
  {
  }
}
