/** The token shard as the durable object it is: per-token rows, deadline rows and one alarm
    (src/worker/durable-objects/HookTokenDO.ts).

    Each method is one storage transaction. What it does to its token is the function of
    module HookToken of the same name; `Valid` adds that no stored deadline is ever slept through,
    also while an alarm pass is waiting for other cells. */
module HookTokenShard {
  import opened Prelude
  import opened HookToken

  type Token = string

  /** The key of a deadline row; it sorts by time. */
  datatype Row = Row(at: nat, token: Token)

  /** One listing of a deadline prefix when a pass starts. */
  datatype Scan = Scan(due: set<Row>, more: bool, next: Option<nat>)

  datatype Stage = Claims | Retention | Takeovers

  /** An alarm pass in progress. `cleared`: the runtime reports a running alarm as unset. */
  datatype Pass = Pass(
    startedAt: nat, cleared: bool, stage: Stage, claims: Scan, retained: Scan, takeovers: Scan,
    claimIds: map<Row, ClaimId>, observed: map<Token, Claim>)
  {
    predicate More() { claims.more || retained.more || takeovers.more }
  }

  const LIFECYCLE_COMPACTION_BATCH: nat := 128

  function Get<V>(m: map<Token, V>, t: Token): Option<V> { if t in m then Some(m[t]) else None }

  /** What `list` answers at time `now` for a prefix holding `rows`. */
  ghost predicate Lists(rows: set<Row>, now: nat, scan: Scan) {
    && (forall r :: r in scan.due ==> r in rows && r.at <= now)
    && |scan.due| <= LIFECYCLE_COMPACTION_BATCH
    && (!scan.more ==> forall r :: r in rows && r.at <= now ==> r in scan.due)
    && (!scan.more ==> forall r :: r in rows && r.at > now ==> scan.next.Some? && scan.next.value <= r.at)
  }

  /** A pass in progress will still see to a row, or arm an alarm for it, when it ends. */
  predicate Attended(pass: Pass, scan: Scan, pending: bool, alarm: Option<nat>, row: Row) {
    || pass.More()
    || !pass.cleared
    || (pending && row in scan.due)
    || (scan.next.Some? && scan.next.value <= row.at)
    || (alarm.Some? && alarm.value <= row.at)
  }

  class Shard {
    var records: map<Token, Hook>
    var claims: map<Token, Claim>
    var retained: map<Token, Retained>
    var takeovers: map<Token, Takeover>
    var claimRows: map<Row, ClaimId>
    var retainedRows: set<Row>
    var takeoverRows: set<Row>
    var alarm: Option<nat>
    var pass: Option<Pass>
    /** The latest time any transaction saw, and how late the last pass may have left the alarm. */
    ghost var clock: nat
    ghost var slack: nat

    function View(t: Token): TokenState
      reads this
    {
      TokenState(Get(records, t), Get(claims, t), Get(retained, t), Get(takeovers, t))
    }

    /** Every stored claim and takeover has its own deadline row. */
    ghost predicate Rowed()
      reads this
    {
      && (forall t :: t in claims ==>
            Row(claims[t].expiresAt, t) in claimRows && claimRows[Row(claims[t].expiresAt, t)] == claims[t].id)
      && (forall t :: t in takeovers ==> Row(takeovers[t].expiresAt, t) in takeoverRows)
    }

    /** Between passes, an alarm is armed for every deadline row: not later than the row, or than the slack. */
    ghost predicate Armed()
      reads this
    {
      forall r :: r in claimRows.Keys + retainedRows + takeoverRows ==> alarm.Some? && alarm.value <= Max(r.at, slack)
    }

    ghost predicate Attending(p: Pass)
      reads this
    {
      && p.startedAt <= clock
      && (forall r :: r in p.retained.due ==> r.at <= p.startedAt)
      && (forall r :: r in claimRows ==> Attended(p, p.claims, p.stage.Claims?, alarm, r))
      && (forall r :: r in retainedRows ==>
            Attended(p, p.retained, p.stage.Claims? || p.stage.Retention?, alarm, r))
      && (forall r :: r in takeoverRows ==> Attended(p, p.takeovers, true, alarm, r))
      // Nothing due was stored since the pass looked at the claims it is resolving.
      && (p.stage.Claims? ==> forall t :: t in claims && claims[t].expiresAt <= p.startedAt ==>
            t in p.observed && p.observed[t] == claims[t])
      && (p.stage.Claims? ==> forall r :: r in p.claims.due ==> r in p.claimIds && r.at <= p.startedAt)
      && (p.stage.Claims? ==> forall r :: r in p.claims.due && r in claimRows ==> claimRows[r] == p.claimIds[r])
    }

    ghost predicate Valid()
      reads this
    {
      slack <= clock + LIFECYCLE_COMPACTION_RETRY_MS &&
      match pass
      case None => Rowed() && Armed()
      case Some(p) => Rowed() && Attending(p)
    }

    /** No lost wake-up: between passes a stored claim or takeover has its own row, and an alarm is armed no
        later than it falls due, or than one retry delay from now if it is overdue. */
    lemma NoLostWakeUp(t: Token)
      requires Valid() && pass.None?
      ensures t in claims ==> Row(claims[t].expiresAt, t) in claimRows
      ensures t in claims ==>
              alarm.Some? && alarm.value <= Max(claims[t].expiresAt, clock + LIFECYCLE_COMPACTION_RETRY_MS)
      ensures t in takeovers ==> Row(takeovers[t].expiresAt, t) in takeoverRows
      ensures t in takeovers ==>
              alarm.Some? && alarm.value <= Max(takeovers[t].expiresAt, clock + LIFECYCLE_COMPACTION_RETRY_MS)
    {
      if t in claims { assert Row(claims[t].expiresAt, t) in claimRows.Keys + retainedRows + takeoverRows; }
      if t in takeovers { assert Row(takeovers[t].expiresAt, t) in claimRows.Keys + retainedRows + takeoverRows; }
    }

    constructor ()
      ensures Valid() && forall t :: View(t) == FREE
    {
      records, claims, retained, takeovers := map[], map[], map[], map[];
      claimRows, retainedRows, takeoverRows := map[], {}, {};
      alarm, pass, clock, slack := None, None, 0, 0;
    }

    method ArmAtMost(at: nat)
      modifies this`alarm
      ensures alarm.Some? && alarm.value <= at
      ensures old(alarm).Some? ==> alarm.value == Min(old(alarm).value, at)
    {
      if alarm.None? || at < alarm.value { alarm := Some(at); }
    }

    /** Store a claim with its deadline row. */
    method PutClaim(token: Token, claim: Claim)
      requires Valid() && clock < claim.expiresAt && token !in claims
      modifies this`claims, this`claimRows, this`alarm
      ensures Valid() && View(token) == old(View(token)).(claim := Some(claim))
      ensures forall t :: t != token ==> View(t) == old(View(t))
    {
      claims := claims[token := claim];
      claimRows := claimRows[Row(claim.expiresAt, token) := claim.id];
      ArmAtMost(claim.expiresAt);
    }

    method DeleteClaim(token: Token)
      requires Valid() && token in claims
      modifies this`claims, this`claimRows
      ensures Valid() && View(token) == old(View(token)).(claim := None) && claimRows.Keys <= old(claimRows).Keys
      ensures claims == old(claims) - {token}
      ensures forall t :: t != token ==> View(t) == old(View(t))
    {
      claimRows := claimRows - {Row(claims[token].expiresAt, token)};
      claims := claims - {token};
    }

    /** Write the retained marker and its deadline. */
    method Retain(token: Token, marker: Retained)
      requires Valid()
      modifies this`retained, this`retainedRows, this`alarm
      ensures Valid() && View(token) == old(View(token)).(retained := Some(marker))
      ensures forall t :: t != token ==> View(t) == old(View(t))
    {
      retained := retained[token := marker];
      retainedRows := retainedRows + {Row(marker.until, token)};
      ArmAtMost(marker.until);
    }

    method DropRetained(token: Token)
      requires Valid()
      modifies this`retained, this`retainedRows
      ensures Valid() && View(token) == old(View(token)).(retained := None) && retainedRows <= old(retainedRows)
      ensures forall t :: t != token ==> View(t) == old(View(t))
    {
      if token in retained { retainedRows := retainedRows - {Row(retained[token].until, token)}; }
      retained := retained - {token};
    }

    method PutRecord(token: Token, hook: Hook)
      requires Valid()
      modifies this`records
      ensures Valid() && View(token) == old(View(token)).(record := Some(hook))
      ensures records == old(records)[token := hook]
      ensures forall t :: t != token ==> View(t) == old(View(t))
    {
      records := records[token := hook];
    }

    method DeleteRecord(token: Token)
      requires Valid()
      modifies this`records
      ensures Valid() && View(token) == old(View(token)).(record := None)
      ensures forall t :: t != token ==> View(t) == old(View(t))
    {
      records := records - {token};
    }

    method DeleteTakeover(token: Token)
      requires Valid() && token in takeovers
      modifies this`takeovers, this`takeoverRows
      ensures Valid() && View(token) == old(View(token)).(takeover := None)
      ensures forall t :: t != token ==> View(t) == old(View(t))
    {
      takeoverRows := takeoverRows - {Row(takeovers[token].expiresAt, token)};
      takeovers := takeovers - {token};
    }

    /** Drop a finished run's record once its retention passed. */
    method FreeExpiredRetention(token: Token, now: nat)
      requires Valid()
      modifies this`records, this`retained, this`retainedRows
      ensures Valid() && retainedRows <= old(retainedRows)
      ensures View(token) == HookToken.CompactRetained(old(View(token)), now)
      ensures forall t :: t != token ==> View(t) == old(View(t))
    {
      if FreesRetention(View(token), now) {
        DeleteRecord(token);
        DropRetained(token);
      }
    }

    method Reserve(token: Token, now: nat, owner: Owner, proposed: ClaimId, expired: Option<Claim>, committed: bool)
      returns (answer: ReserveAnswer)
      requires Valid() && clock <= now
      modifies this`records, this`claims, this`retained, this`claimRows, this`retainedRows, this`alarm, this`clock
      ensures Valid() && clock == now
      ensures (View(token), answer) == HookToken.Reserve(old(View(token)), now, owner, proposed, expired, committed)
      ensures forall t :: t != token ==> View(t) == old(View(t))
    {
      clock := now;
      if token in records && !FreesRetention(View(token), now) {
        return Held(records[token].owner);
      }
      FreeExpiredRetention(token, now);
      if token in takeovers {
        var pending := takeovers[token];
        if pending.claimer != owner && pending.expiresAt > now { return Held(pending.claimer); }
        return Settle;
      }
      answer := AdmitClaim(token, now, owner, proposed, expired, committed);
    }

    /** The part of a reservation that finds the token without record or takeover. */
    method AdmitClaim(token: Token, now: nat, owner: Owner, proposed: ClaimId, expired: Option<Claim>, committed: bool)
      returns (answer: ReserveAnswer)
      requires Valid() && clock <= now && token !in records && token !in takeovers
      modifies this`claims, this`claimRows, this`alarm
      ensures Valid()
      ensures (View(token), answer) == HookToken.Admit(old(View(token)), now, owner, proposed, expired, committed)
      ensures forall t :: t != token ==> View(t) == old(View(t))
    {
      if token in claims && claims[token].expiresAt <= now {
        var existing := claims[token];
        if expired.None? || existing.id != expired.value.id || existing.expiresAt != expired.value.expiresAt {
          return Again;
        }
        DeleteClaim(token);
        if committed {
          PutClaim(token, existing.(expiresAt := now + HOOK_CLAIM_LEASE_MS));
          return if existing.owner == owner then Claimed(existing.id) else Held(existing.owner);
        }
        PutClaim(token, Claim(owner, proposed, now + HOOK_CLAIM_LEASE_MS));
        return Claimed(proposed);
      }
      if token in claims {
        return if claims[token].owner == owner then Claimed(claims[token].id) else Held(claims[token].owner);
      }
      PutClaim(token, Claim(owner, proposed, now + HOOK_CLAIM_LEASE_MS));
      return Claimed(proposed);
    }

    method OpenTakeover(token: Token, now: nat, owner: Owner, proposed: ClaimId,
                        indexed: Hook, victimRunning: bool, takeOver: bool) returns (intent: Option<Takeover>)
      requires Valid() && clock <= now
      modifies this`records, this`retained, this`takeovers, this`retainedRows, this`takeoverRows, this`alarm, this`clock
      ensures Valid() && clock == now
      ensures (View(token), intent) ==
              HookToken.OpenTakeover(old(View(token)), now, owner, proposed, indexed, victimRunning, takeOver)
      ensures forall t :: t != token ==> View(t) == old(View(t))
    {
      clock := now;
      if token !in records || records[token] != indexed || token in takeovers { return None; }
      if !takeOver {
        DeleteRecord(token);
        DropRetained(token);
        return None;
      }
      var takeover := Takeover(owner, proposed, indexed.owner, victimRunning, now + HOOK_TAKEOVER_SETTLE_MS);
      PutTakeover(token, takeover);
      return Some(takeover);
    }

    method PutTakeover(token: Token, takeover: Takeover)
      requires Valid() && token !in takeovers
      modifies this`takeovers, this`takeoverRows, this`alarm
      ensures Valid() && View(token) == old(View(token)).(takeover := Some(takeover))
      ensures forall t :: t != token ==> View(t) == old(View(t))
    {
      takeovers := takeovers[token := takeover];
      takeoverRows := takeoverRows + {Row(takeover.expiresAt, token)};
      ArmAtMost(takeover.expiresAt);
    }

    method RollForward(token: Token, id: ClaimId, hook: Option<Hook>) returns (written: bool)
      requires Valid()
      modifies this`records, this`retained, this`takeovers, this`retainedRows, this`takeoverRows
      ensures Valid()
      ensures View(token) == HookToken.RollForward(old(View(token)), id, hook)
      ensures written == (Pending(old(View(token)), id) && hook.Some?)
      ensures forall t :: t != token ==> View(t) == old(View(t))
    {
      if token !in takeovers || takeovers[token].id != id { return false; }
      if hook.Some? { PutRecord(token, hook.value); } else { DeleteRecord(token); }
      DeleteTakeover(token);
      DropRetained(token);
      return hook.Some?;
    }

    /** Forget a fenced takeover; the victim keeps its retention, whose deadline is scheduled again. */
    method DropIntent(token: Token, id: ClaimId)
      requires Valid()
      modifies this`takeovers, this`retainedRows, this`takeoverRows, this`alarm
      ensures Valid()
      ensures View(token) == HookToken.DropIntent(old(View(token)), id)
      ensures token in old(takeovers) && old(takeovers[token].id) == id && token in retained ==>
                Row(retained[token].until, token) in retainedRows
      ensures forall t :: t != token ==> View(t) == old(View(t))
    {
      if token !in takeovers || takeovers[token].id != id { return; }
      DeleteTakeover(token);
      if token in retained {
        retainedRows := retainedRows + {Row(retained[token].until, token)};
        ArmAtMost(retained[token].until);
      }
    }

    method ReleaseOne(token: Token, now: nat, owner: Owner, runEnded: bool)
      requires Valid() && clock <= now
      modifies this`records, this`claims, this`retained, this`claimRows, this`retainedRows, this`alarm
      ensures Valid()
      ensures View(token) == HookToken.ReleaseHook(old(View(token)), now, owner, runEnded)
      ensures forall t :: t != token ==> View(t) == old(View(t))
    {
      if token in records && records[token].owner == owner {
        if runEnded && RetentionAhead(records[token], now) {
          if token !in retained { Retain(token, Retained(owner, records[token].retainUntil.value)); }
        } else {
          DeleteRecord(token);
          DropRetained(token);
        }
      }
      if token in claims && claims[token].owner == owner { DeleteClaim(token); }
    }

    /** releaseBatch, entry by entry. */
    method ReleaseBatch(hooks: seq<(Token, Owner)>, now: nat, runEnded: bool)
      requires Valid() && clock <= now
      modifies this`records, this`claims, this`retained, this`claimRows, this`retainedRows, this`alarm, this`clock
      ensures Valid() && clock == now
      ensures forall t :: View(t) == ReleaseAll(old(View(t)), t, hooks, now, runEnded)
    {
      var i := 0;
      while i < |hooks|
        invariant 0 <= i <= |hooks| && Valid() && clock == old(clock)
        invariant forall t :: View(t) == ReleaseAll(old(View(t)), t, hooks[..i], now, runEnded)
      {
        assert hooks[..i + 1] == hooks[..i] + [hooks[i]];
        forall t ensures ReleaseAll(old(View(t)), t, hooks[..i + 1], now, runEnded) ==
                         ReleaseFor(ReleaseAll(old(View(t)), t, hooks[..i], now, runEnded), t, hooks[i], now, runEnded)
        {
          ReleaseAllSnoc(old(View(t)), t, hooks[..i], hooks[i], now, runEnded);
        }
        ReleaseOne(hooks[i].0, now, hooks[i].1, runEnded);
        i := i + 1;
      }
      assert hooks[..i] == hooks;
      clock := now;
    }

    method Finalize(token: Token, now: nat, hook: Hook, id: Option<ClaimId>, active: bool)
      returns (answer: FinalizeAnswer)
      requires Valid() && clock <= now
      modifies this`records, this`claims, this`retained, this`claimRows, this`retainedRows, this`alarm, this`clock
      ensures Valid() && clock == now
      ensures (View(token), answer) == HookToken.Finalize(old(View(token)), now, hook, id, active)
      ensures forall t :: t != token ==> View(t) == old(View(t))
    {
      clock := now;
      if !active && !RetentionAhead(hook, now) {
        ReleaseOne(token, now, hook.owner, false);
        return Released;
      }
      var refused := RefuseFinalize(token, now, hook, id, active);
      if refused.Some? { return refused.value; }
      Store(token, hook, !active);
      return Stored;
    }

    /** Why the hook may not be stored, if it may not; it changes nothing. */
    method RefuseFinalize(token: Token, now: nat, hook: Hook, id: Option<ClaimId>, ghost active: bool)
      returns (refused: Option<FinalizeAnswer>)
      requires active || RetentionAhead(hook, now)
      ensures
        HookToken.Finalize(View(token), now, hook, id, active) ==
          match refused
          case Some(answer) => (View(token), answer)
          case None => (Stores(View(token), hook, !active), Stored)
    {
      if token in records && records[token].owner != hook.owner { return Some(OwnedByAnother); }
      if token in claims && claims[token].expiresAt <= now { return Some(ReservationExpired); }
      if token in claims && (claims[token].owner != hook.owner || Some(claims[token].id) != id) {
        return Some(ReservedByAnother);
      }
      if token !in records && token !in claims { return Some(NoReservation); }
      return None;
    }

    static function Stores(ts: TokenState, hook: Hook, runEnded: bool): TokenState {
      var stored := ts.(record := Some(hook), claim := None);
      if runEnded && hook.retainUntil.Some?
      then stored.(retained := Some(Retained(hook.owner, hook.retainUntil.value))) else stored
    }

    method Store(token: Token, hook: Hook, runEnded: bool)
      requires Valid()
      modifies this`records, this`claims, this`retained, this`claimRows, this`retainedRows, this`alarm
      ensures Valid()
      ensures View(token) == Stores(old(View(token)), hook, runEnded)
      ensures forall t :: t != token ==> View(t) == old(View(t))
    {
      if token in claims { DeleteClaim(token); }
      PutRecord(token, hook);
      if runEnded && hook.retainUntil.Some? { Retain(token, Retained(hook.owner, hook.retainUntil.value)); }
    }

    method ReleaseClaim(token: Token, owner: Owner, id: ClaimId)
      requires Valid()
      modifies this`claims, this`claimRows
      ensures Valid()
      ensures View(token) == HookToken.ReleaseClaim(old(View(token)), owner, id)
      ensures forall t :: t != token ==> View(t) == old(View(t))
    {
      if token in claims && claims[token].owner == owner && claims[token].id == id { DeleteClaim(token); }
    }

    method PublishClaim(token: Token, observed: Claim, hook: Hook) returns (written: bool)
      requires Valid()
      modifies this`records, this`claims, this`claimRows
      ensures Valid()
      ensures (View(token), written) == HookToken.PublishClaim(old(View(token)), observed, hook)
      ensures forall t :: t != token ==> View(t) == old(View(t))
    {
      if token in records || token !in claims || claims[token].id != observed.id { return false; }
      PutRecord(token, hook);
      DeleteClaim(token);
      return true;
    }

    method PreemptClaim(token: Token, observed: Claim, hook: Option<Hook>) returns (published: bool)
      requires Valid()
      modifies this`records, this`claims, this`claimRows
      ensures Valid()
      ensures (View(token), published) == HookToken.PreemptClaim(old(View(token)), observed, hook)
      ensures forall t :: t != token ==> View(t) == old(View(t))
    {
      if token !in claims || claims[token].id != observed.id { return false; }
      if hook.Some? { PutRecord(token, hook.value); }
      DeleteClaim(token);
      return hook.Some?;
    }

    method Withdraw(token: Token, owner: Owner)
      requires Valid()
      modifies this`records
      ensures Valid()
      ensures View(token) == HookToken.Withdraw(old(View(token)), owner)
      ensures forall t :: t != token ==> View(t) == old(View(t))
    {
      if token in records && records[token].owner == owner { DeleteRecord(token); }
    }

    // ---- the alarm pass: every method is one step between two awaits -----------

    /** The alarm fires: list what is due and remember when the rest falls due. */
    method BeginPass(now: nat, cleared: bool, claimScan: Scan, retainedScan: Scan, takeoverScan: Scan)
      requires Valid() && clock <= now && pass.None? && alarm.Some? && alarm.value <= now
      requires Lists(claimRows.Keys, now, claimScan)
      requires Lists(retainedRows, now, retainedScan)
      requires Lists(takeoverRows, now, takeoverScan)
      modifies this`pass, this`alarm, this`clock
      ensures Valid() && pass.Some? && clock == now
      ensures forall t :: View(t) == old(View(t))
    {
      var ids := map r | r in claimScan.due && r in claimRows :: claimRows[r];
      pass := Some(Pass(now, cleared, Claims, claimScan, retainedScan, takeoverScan, ids, claims));
      if cleared { alarm := None; }
      clock := now;
    }

    /** Whether the listed row `row` is the live deadline of a claim that is due. */
    predicate DueClaim(p: Pass, row: Row)
      requires row in p.claimIds
      reads this
    {
      row.token in claims && claims[row.token].id == p.claimIds[row] && claims[row.token].expiresAt <= p.startedAt
    }

    /** The listed rows with a live claim behind them: exactly these claims are resolved. */
    ghost function DueRows(p: Pass): set<Row>
      requires p.claims.due <= p.claimIds.Keys
      reads this
    {
      set row | row in p.claims.due && DueClaim(p, row)
    }

    /** One due row: publish the committed hook, drop the fenced claim, forget a stale row. */
    method CompactRow(row: Row, hook: Option<Hook>) returns (live: bool)
      requires Valid() && pass.Some? && pass.value.stage.Claims? && row in pass.value.claims.due
      modifies this`records, this`claims, this`claimRows
      ensures Valid() && row !in claimRows && claimRows.Keys <= old(claimRows).Keys
      ensures live == old(DueClaim(pass.value, row))
      ensures live ==> row.token in old(claims) && pass.value.observed[row.token] == old(claims[row.token])
      ensures claims == if live then old(claims) - {row.token} else old(claims)
      ensures records == if live && hook.Some? then old(records)[row.token := hook.value] else old(records)
    {
      var p := pass.value;
      live := row.token in claims && claims[row.token].id == p.claimIds[row] &&
          claims[row.token].expiresAt <= p.startedAt;
      if live {
        if hook.Some? { PutRecord(row.token, hook.value); }
        DeleteClaim(row.token);
      }
      ForgetClaimRow(row);
    }

    method ForgetClaimRow(row: Row)
      requires Valid()
      requires row.token in claims ==> row.at != claims[row.token].expiresAt
      modifies this`claimRows
      ensures Valid() && claimRows == old(claimRows) - {row}
    {
      claimRows := claimRows - {row};
    }

    method CompactPageRow(row: Row, committed: map<Token, Hook>, ghost page: Page, ghost live: set<Row>,
                          ghost todo: set<Row>)
      requires Valid() && pass.Some? && pass.value.stage.Claims? && row in pass.value.claims.due && row in todo
      requires page.observed == pass.value.observed && page.committed == committed
      requires row in live <==> row.token in page.held && page.held[row.token].id == pass.value.claimIds[row]
                                && page.held[row.token].expiresAt <= pass.value.startedAt
      requires ResolvedPage(page, Tokens(live - todo), claims, records)
      modifies this`records, this`claims, this`claimRows
      ensures Valid() && row !in claimRows && claimRows.Keys <= old(claimRows).Keys
      ensures ResolvedPage(page, Tokens(live - (todo - {row})), claims, records)
    {
      TokensWithout(live, todo, row);
      var resolved := CompactRow(row, Get(committed, row.token));
      ResolvedOneMore(page, Tokens(live - todo), old(claims), old(records), row.token, row in live, resolved, claims,
                      records);
    }

    /** Resolve the page of due claims, given what their run cells answered. */
    method CompactDueRows(committed: map<Token, Hook>)
      requires Valid() && pass.Some? && pass.value.stage.Claims?
      modifies this`records, this`claims, this`claimRows
      ensures Valid() && forall r :: r in pass.value.claims.due ==> r !in claimRows
      ensures claims == old(claims) - Tokens(old(DueRows(pass.value)))
      ensures forall t :: t in Tokens(old(DueRows(pass.value))) ==>
              t in old(claims) && pass.value.observed[t] == old(claims)[t]
      ensures forall t :: Get(records, t) ==
                if t in Tokens(old(DueRows(pass.value))) && t in committed then Some(committed[t])
                else old(Get(records, t))
    {
      ghost var p := pass.value;
      ghost var page, live := Page(claims, records, p.observed, committed), DueRows(p);
      var todo := pass.value.claims.due;
      while todo != {}
        invariant todo <= p.claims.due && Valid() && pass == Some(p)
        invariant forall r :: r in p.claims.due && r !in todo ==> r !in claimRows
        invariant ResolvedPage(page, Tokens(live - todo), claims, records)
        decreases todo
      {
        var row :| row in todo;
        CompactPageRow(row, committed, page, live, todo);
        todo := todo - {row};
      }
      assert live - todo == live;
    }

    /** The claims stage of a pass: every due live claim is resolved as HookToken.CompactClaim says, no other moves. */
    method CompactClaims(committed: map<Token, Hook>)
      requires Valid() && pass.Some? && pass.value.stage.Claims?
      modifies this`records, this`claims, this`claimRows, this`pass
      ensures Valid() && pass == Some(old(pass).value.(stage := Retention))
      ensures forall t :: t in Tokens(old(DueRows(pass.value))) ==>
        View(t) == HookToken.CompactClaim(old(View(t)), old(pass).value.startedAt,
                                          old(pass).value.observed[t], Get(committed, t)).0
      ensures forall t :: t !in Tokens(old(DueRows(pass.value))) ==> View(t) == old(View(t))
    {
      CompactDueRows(committed);
      EndStage(Retention);
    }

    method EndStage(next: Stage)
      requires Valid() && pass.Some?
      requires match next
               case Claims => false
               case Retention => pass.value.stage.Claims? && forall r :: r in pass.value.claims.due ==> r !in claimRows
               case Takeovers =>
                 pass.value.stage.Retention? && forall r :: r in pass.value.retained.due ==> r !in retainedRows
      modifies this`pass
      ensures Valid() && pass == Some(old(pass).value.(stage := next))
    {
      pass := Some(pass.value.(stage := next));
    }

    /** Whether the pass listed the live deadline of the token's retention. */
    predicate DueRetained(p: Pass, t: Token)
      reads this
    {
      t in retained && Row(retained[t].until, t) in p.retained.due
    }

    /** Free the retained tokens whose listed deadline is still theirs, and no other; every listed row is spent.
        A listed record that its owner still retains is freed unless a takeover is pending on it. */
    method CompactRetained(now: nat)
      requires Valid() && clock <= now && pass.Some? && pass.value.stage.Retention?
      modifies this`records, this`retained, this`retainedRows, this`pass, this`clock
      ensures Valid() && clock == now && pass == Some(old(pass).value.(stage := Takeovers))
      ensures forall t :: View(t) == if old(DueRetained(pass.value, t))
                                     then HookToken.CompactRetained(old(View(t)), old(pass).value.startedAt)
                                     else old(View(t))
      ensures forall t :: old(DueRetained(pass.value, t) && t !in takeovers && t in records
                              && records[t].owner == retained[t].owner) ==>
                View(t) == old(View(t)).(record := None, retained := None)
    {
      var p := pass.value;
      var todo := p.retained.due;
      while todo != {}
        invariant todo <= p.retained.due && Valid() && pass == Some(p)
        invariant forall r :: r in p.retained.due && r !in todo ==> r !in retainedRows
        invariant retainedRows <= old(retainedRows)
        invariant forall t :: View(t) == if old(DueRetained(p, t)) && Row(old(retained)[t].until, t) !in todo
                                         then HookToken.CompactRetained(old(View(t)), p.startedAt) else old(View(t))
        decreases todo
      {
        var row :| row in todo;
        CompactRetainedRow(row);
        todo := todo - {row};
      }
      EndStage(Takeovers);
      clock := now;
    }

    /** One listed retention row: it frees its token if it is still the token's deadline. */
    method CompactRetainedRow(row: Row)
      requires Valid() && pass.Some? && pass.value.stage.Retention? && row in pass.value.retained.due
      modifies this`records, this`retained, this`retainedRows
      ensures Valid() && row !in retainedRows && retainedRows <= old(retainedRows)
      ensures forall t ::
                View(t) ==
                if t == row.token && old(DueRetained(pass.value, t)) && old(retained[t].until) == row.at
                then HookToken.CompactRetained(old(View(t)), pass.value.startedAt) else old(View(t))
    {
      if row.token in retained && retained[row.token].until == row.at {
        FreeExpiredRetention(row.token, pass.value.startedAt);
      }
      retainedRows := retainedRows - {row};
    }

    /** Forget listed takeover rows that no stored takeover owns any more. */
    method DropStaleTakeovers()
      requires Valid() && pass.Some? && pass.value.stage.Takeovers?
      modifies this`takeoverRows
      ensures Valid()
      ensures forall r :: r in takeoverRows && r in pass.value.takeovers.due ==>
                r.token in takeovers && takeovers[r.token].expiresAt == r.at
      ensures forall t :: View(t) == old(View(t))
    {
      takeoverRows := set r | r in takeoverRows &&
          (r !in pass.value.takeovers.due || (r.token in takeovers && takeovers[r.token].expiresAt == r.at));
    }

    /** The pass ends: a settle that failed leaves its row, and the pass is retried soon;
        otherwise the alarm moves to the earliest deadline left. */
    method EndPass(now: nat)
      requires Valid() && clock <= now && pass.Some? && pass.value.stage.Takeovers?
      modifies this`pass, this`alarm, this`clock, this`slack
      ensures Valid() && pass.None? && clock == now
      ensures forall t :: View(t) == old(View(t))
    {
      if exists r :: r in pass.value.takeovers.due && r in takeoverRows {
        FailPass(now);
        return;
      }
      Rearm(now);
    }

    method FailPass(now: nat)
      requires Valid() && clock <= now && pass.Some?
      modifies this`pass, this`alarm, this`clock, this`slack
      ensures Valid() && pass.None? && clock == now && slack == now + LIFECYCLE_COMPACTION_RETRY_MS
      ensures alarm == Some(now + LIFECYCLE_COMPACTION_RETRY_MS)
    {
      alarm := Some(now + LIFECYCLE_COMPACTION_RETRY_MS);
      slack := now + LIFECYCLE_COMPACTION_RETRY_MS;
      pass := None;
      clock := now;
    }

    method Rearm(now: nat)
      requires Valid() && clock <= now && pass.Some? && pass.value.stage.Takeovers?
      requires forall r :: r in pass.value.takeovers.due ==> r !in takeoverRows
      modifies this`pass, this`alarm, this`clock, this`slack
      ensures Valid() && pass.None? && clock == now && slack == now + 1
    {
      var p := pass.value;
      if p.More() {
        alarm := Some(now + 1);
      } else {
        var next: Option<nat>;
        if p.cleared {
          next := Sooner(Sooner(p.claims.next, p.retained.next), Sooner(p.takeovers.next, alarm));
        } else {
          next := First(claimRows.Keys + retainedRows + takeoverRows);
        }
        alarm := if next.Some? then Some(Max(now + 1, next.value)) else None;
      }
      slack := now + 1;
      pass := None;
      clock := now;
    }
  }

  /** A page of due claims: the tables it started from, the claims it resolved and what their runs answered. */
  datatype Page = Page(
    held: map<Token, Claim>, owned: map<Token, Hook>, observed: map<Token, Claim>, committed: map<Token, Hook>)

  /** Part of a page is resolved: those claims are gone and their committed hooks recorded, nothing else moved. */
  ghost predicate ResolvedPage(page: Page, done: set<Token>, claims: map<Token, Claim>, records: map<Token, Hook>) {
    match page
    case Page(held, owned, observed, committed) =>
      && claims == held - done
      && (forall t :: t in done ==> t in held && t in observed && observed[t] == held[t])
      && (forall t :: Get(records, t) == if t in done && t in committed then Some(committed[t]) else Get(owned, t))
  }

  lemma ResolvedOneMore(page: Page, done: set<Token>, claims: map<Token, Claim>, records: map<Token, Hook>,
                        t: Token, due: bool, resolved: bool, claims': map<Token, Claim>, records': map<Token, Hook>)
    requires ResolvedPage(page, done, claims, records)
    requires resolved == (due && t in claims)
    requires due ==> t in page.held
    requires resolved ==> t in page.observed && page.observed[t] == claims[t]
    requires claims' == if resolved then claims - {t} else claims
    requires records' == if resolved && t in page.committed then records[t := page.committed[t]] else records
    ensures ResolvedPage(page, done + if due then {t} else {}, claims', records')
  {
  }

  function Tokens(rows: set<Row>): set<Token> { set r | r in rows :: r.token }

  /** One more row is done: its token joins the resolved ones if the row was live. */
  lemma TokensWithout(live: set<Row>, todo: set<Row>, row: Row)
    requires row in todo
    ensures Tokens(live - (todo - {row})) == Tokens(live - todo) + if row in live then {row.token} else {}
  {
    var after := live - (todo - {row});
    assert after == (live - todo) + if row in live then {row} else {};
    forall t | t in Tokens(live - todo) ensures t in Tokens(after) {
      var r :| r in live - todo && r.token == t;
      assert r in after;
    }
  }

  function Sooner(a: Option<nat>, b: Option<nat>): (r: Option<nat>)
    ensures a.Some? ==> r.Some? && r.value <= a.value
    ensures b.Some? ==> r.Some? && r.value <= b.value
  {
    if a.None? then b else if b.None? then a else Some(Min(a.value, b.value))
  }

  /** The earliest deadline of the three prefixes, listed again. */
  method First(rows: set<Row>) returns (r: Option<nat>)
    ensures forall row :: row in rows ==> r.Some? && r.value <= row.at
    ensures r.Some? ==> exists row :: row in rows && row.at == r.value
  {
    r := None;
    var todo := rows;
    while todo != {}
      invariant todo <= rows
      invariant forall row :: row in rows && row !in todo ==> r.Some? && r.value <= row.at
      invariant r.Some? ==> exists row :: row in rows && row.at == r.value
      decreases todo
    {
      var row :| row in todo;
      r := Sooner(r, Some(row.at));
      todo := todo - {row};
    }
  }

  function ReleaseFor(ts: TokenState, t: Token, hook: (Token, Owner), now: nat, runEnded: bool): TokenState {
    if hook.0 == t then HookToken.ReleaseHook(ts, now, hook.1, runEnded) else ts
  }

  function ReleaseAll(ts: TokenState, t: Token, hooks: seq<(Token, Owner)>, now: nat, runEnded: bool): TokenState
    decreases |hooks|
  {
    if hooks == [] then ts
    else ReleaseAll(ReleaseFor(ts, t, hooks[0], now, runEnded), t, hooks[1..], now, runEnded)
  }

  lemma {:induction false} ReleaseAllSnoc(ts: TokenState, t: Token, hooks: seq<(Token, Owner)>, hook: (Token, Owner),
                                          now: nat, runEnded: bool)
    ensures ReleaseAll(ts, t, hooks + [hook], now, runEnded) ==
            ReleaseFor(ReleaseAll(ts, t, hooks, now, runEnded), t, hook, now, runEnded)
    decreases |hooks|
  {
    if hooks != [] {
      assert (hooks + [hook])[1..] == hooks[1..] + [hook];
      ReleaseAllSnoc(ReleaseFor(ts, t, hooks[0], now, runEnded), t, hooks[1..], hook, now, runEnded);
    }
  }
}
