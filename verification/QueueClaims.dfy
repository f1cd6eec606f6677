/** Queue idempotency: one message reserved for publication, one delivery claim, per key
    (src/worker/durable-objects/WorkflowRunDO.ts). The specification that both stores refine. */
module QueueClaims {
  import opened Prelude

  const QUEUE_RESERVATION_GRACE_MS: nat := 5 * 24 * 60 * 60 * 1000

  type MessageId = string

  datatype Claim = Claim(message: MessageId, expiresAt: nat, retryAt: Option<nat>)

  datatype Reservation = Reservation(message: MessageId, expiresAt: nat, pending: bool)

  datatype State = State(reservation: Option<Reservation>, claim: Option<Claim>)

  const NONE := State(None, None)

  datatype Op =
    | Reserve(message: MessageId, expiresAt: nat, pending: bool)
    | Confirm(message: MessageId, expiresAt: nat)
    | Deliver(message: MessageId, stale: nat)
    | Hold(message: MessageId, retryAt: nat, expiresAt: nat, reservationExpiresAt: Option<nat>)
    | Release(only: Option<MessageId>)
    | Complete(message: MessageId)
    | Abandon(message: MessageId)

  datatype Answer =
    | Admitted | Refused(holder: MessageId, pending: bool)
    | Claimed | NotClaimed(retryAt: Option<nat>)
    | Held(held: bool)
    | Done

  datatype Outcome = Outcome(state: State, answer: Answer)

  predicate Mine(r: Option<Reservation>, message: MessageId) { r.Some? && r.value.message == message }

  predicate MyClaim(c: Option<Claim>, message: MessageId) { c.Some? && c.value.message == message }

  function DoReserve(s: State, now: nat, message: MessageId, expiresAt: nat, pending: bool): Outcome {
    match s.reservation
    case Some(r) =>
      if r.expiresAt > now && (r.message != message || pending) then Outcome(s, Refused(r.message, r.pending))
      else Outcome(s.(reservation := Some(Reservation(message, Max(r.expiresAt, expiresAt), pending))), Admitted)
    case None => Outcome(s.(reservation := Some(Reservation(message, expiresAt, pending))), Admitted)
  }

  function DoConfirm(s: State, message: MessageId, expiresAt: nat): State {
    if Mine(s.reservation, message)
    then s.(reservation := Some(Reservation(message, Max(s.reservation.value.expiresAt, expiresAt), false))) else s
  }

  /** A delivery proves that its message was published. */
  function Published(s: State, now: nat, message: MessageId): State {
    if Mine(s.reservation, message) && s.reservation.value.pending
    then DoConfirm(s, message, now + QUEUE_RESERVATION_GRACE_MS) else s
  }

  function DoDeliver(s: State, now: nat, message: MessageId, stale: nat): Outcome {
    var t := Published(s, now, message);
    var free := Outcome(t.(claim := Some(Claim(message, now + stale, None))), Claimed);
    match t.claim
    case None => free
    case Some(c) =>
      if c.expiresAt <= now then free
      else if c.message != message then Outcome(t, NotClaimed(None))
      else match c.retryAt
        case None => Outcome(t, NotClaimed(Some(c.expiresAt)))
        case Some(at) => if at > now then Outcome(t, NotClaimed(Some(at))) else free
  }

  function DoHold(s: State, message: MessageId, retryAt: nat, expiresAt: nat,
                  reservationExpiresAt: Option<nat>): Outcome {
    if !MyClaim(s.claim, message) then Outcome(s, Held(false))
    else
      var claim := Claim(message, Max(s.claim.value.expiresAt, expiresAt), Some(retryAt));
      var reservation :=
        if Mine(s.reservation, message) && reservationExpiresAt.Some? &&
            reservationExpiresAt.value > s.reservation.value.expiresAt
        then Some(s.reservation.value.(expiresAt := reservationExpiresAt.value)) else s.reservation;
      Outcome(State(reservation, Some(claim)), Held(true))
  }

  /** One operation at one moment. */
  function Do(s: State, now: nat, op: Op): Outcome {
    match op
    case Reserve(message, expiresAt, pending) => DoReserve(s, now, message, expiresAt, pending)
    case Confirm(message, expiresAt) => Outcome(DoConfirm(s, message, expiresAt), Done)
    case Deliver(message, stale) => DoDeliver(s, now, message, stale)
    case Hold(message, retryAt, expiresAt, reservationExpiresAt) =>
        DoHold(s, message, retryAt, expiresAt, reservationExpiresAt)
    case Release(only) =>
      Outcome(if s.claim.Some? && (only.None? || s.claim.value.message == only.value) then s.(claim := None) else s,
              Done)
    case Complete(message) =>
      Outcome(State(if Mine(s.reservation, message) then None else s.reservation,
                    if MyClaim(s.claim, message) then None else s.claim), Done)
    case Abandon(message) => Outcome(if Mine(s.reservation, message) then s.(reservation := None) else s, Done)
  }

  // ---- expired entries may go at any moment -----------------------------------------------------

  /** `t` is `s`, perhaps without entries that have expired. */
  predicate Lapsed(s: State, t: State, now: nat) {
    && (t.reservation == s.reservation || (t.reservation.None? && s.reservation.value.expiresAt <= now))
    && (t.claim == s.claim || (t.claim.None? && s.claim.value.expiresAt <= now))
  }

  function LiveReservation(s: State, now: nat): Option<Reservation> {
    if s.reservation.Some? && s.reservation.value.expiresAt > now then s.reservation else None
  }

  function LiveClaim(s: State, now: nat): Option<Claim> {
    if s.claim.Some? && s.claim.value.expiresAt > now then s.claim else None
  }

  function Live(s: State, now: nat): State { State(LiveReservation(s, now), LiveClaim(s, now)) }

  /** The operation renews an entry of its own message after it expired. */
  predicate Revives(s: State, now: nat, op: Op) {
    var late := s.reservation.Some? && s.reservation.value.expiresAt <= now;
    match op
    case Confirm(message, expiresAt) => late && Mine(s.reservation, message) && expiresAt > now
    case Deliver(message, _) => late && Mine(s.reservation, message) && s.reservation.value.pending
    case Hold(message, _, _, reservationExpiresAt) =>
      && MyClaim(s.claim, message)
      && (s.claim.value.expiresAt <= now
          || (late && Mine(s.reservation, message) && reservationExpiresAt.Some? && reservationExpiresAt.value > now))
    case _ => false
  }

  /** Whether expired entries are kept or dropped shows exactly when an operation revives one. */
  lemma LapseShowsExactly(s: State, now: nat, op: Op)
    ensures
      (Do(s, now, op).answer == Do(Live(s, now), now, op).answer
       && Live(Do(s, now, op).state, now) == Live(Do(Live(s, now), now, op).state, now))
      <==> !Revives(s, now, op)
  {
  }

  /** Two stores that agree on what is unexpired answer alike, and go on agreeing, unless one of
      them revives an entry that the other may have dropped. */
  lemma StoresAnswerAlike(s: State, t: State, now: nat, op: Op)
    requires Live(s, now) == Live(t, now) && !Revives(s, now, op) && !Revives(t, now, op)
    ensures Do(s, now, op).answer == Do(t, now, op).answer
    ensures Live(Do(s, now, op).state, now) == Live(Do(t, now, op).state, now)
  {
    LapseShowsExactly(s, now, op);
    LapseShowsExactly(t, now, op);
  }

  // ---- whole runs -----------------------------------------------------------------------------------

  /** Any number of expired entries go, then an operation runs. */
  datatype Step = Step(now: nat, dropped: State, op: Op)

  /** The states of a run of the specification, first to last. */
  predicate Behaviour(s: State, since: nat, steps: seq<Step>)
    decreases |steps|, 0
  {
    steps == [] ||
    var before, last := steps[..|steps| - 1], steps[|steps| - 1];
    Behaviour(s, since, before) && LastTime(since, before) <= last.now &&
        Lapsed(After(s, since, before), last.dropped, last.now)
  }

  function LastTime(since: nat, steps: seq<Step>): nat { if steps == [] then since else steps[|steps| - 1].now }

  function After(s: State, since: nat, steps: seq<Step>): State
    requires Behaviour(s, since, steps)
    decreases |steps|, 1
  {
    if steps == [] then s else var last := steps[|steps| - 1]; Do(last.dropped, last.now, last.op).state
  }

  // ---- two stores side by side ---------------------------------------------------------------------

  lemma LapsedKeepsLive(s: State, t: State, now: nat)
    requires Lapsed(s, t, now)
    ensures Live(t, now) == Live(s, now)
  {
  }

  lemma LiveLater(s: State, t: State, now: nat, later: nat)
    requires Live(s, now) == Live(t, now) && now <= later
    ensures Live(s, later) == Live(t, later)
  {
    assert Live(s, later) == Live(Live(s, now), later) && Live(t, later) == Live(Live(t, now), later);
  }

  function AnswerOf(step: Step): Answer { Do(step.dropped, step.now, step.op).answer }

  /** The same operation at the same moment; neither store revives an entry. */
  predicate Alike(a: Step, b: Step) {
    a.now == b.now && a.op == b.op && !Revives(a.dropped, a.now, a.op) && !Revives(b.dropped, b.now, b.op)
  }

  predicate SameAnswer(a: Step, b: Step) { AnswerOf(a) == AnswerOf(b) }

  /** One step further, each store having dropped what it likes. */
  lemma StepsAgree(s: State, t: State, since: nat, a: Step, b: Step)
    requires Live(s, since) == Live(t, since) && since <= a.now && Alike(a, b)
    requires Lapsed(s, a.dropped, a.now) && Lapsed(t, b.dropped, b.now)
    ensures SameAnswer(a, b)
    ensures Live(Do(a.dropped, a.now, a.op).state, a.now) == Live(Do(b.dropped, b.now, b.op).state, b.now)
  {
    LiveLater(s, t, since, a.now);
    LapsedKeepsLive(s, a.dropped, a.now);
    LapsedKeepsLive(t, b.dropped, b.now);
    StoresAnswerAlike(a.dropped, b.dropped, a.now, a.op);
  }

  /** Two stores that start with the same unexpired entries and take the same operations answer alike
      at every step, however differently they drop what expired, as long as no step revives an entry. */
  lemma {:induction false} StoresAgreeUntilRevival(s: State, t: State, since: nat, left: seq<Step>, right: seq<Step>)
    requires Live(s, since) == Live(t, since) && Behaviour(s, since, left) && Behaviour(t, since, right)
    requires |left| == |right| && forall i :: 0 <= i < |left| ==> Alike(left[i], right[i])
    ensures LastTime(since, left) == LastTime(since, right)
    ensures Live(After(s, since, left), LastTime(since, left)) == Live(After(t, since, right), LastTime(since, right))
    ensures forall i :: 0 <= i < |left| ==> SameAnswer(left[i], right[i])
    decreases |left|
  {
    if left != [] {
      var n := |left| - 1;
      forall i | 0 <= i < n ensures Alike(left[..n][i], right[..n][i]) { assert Alike(left[i], right[i]); }
      StoresAgreeUntilRevival(s, t, since, left[..n], right[..n]);
      StepsAgree(After(s, since, left[..n]), After(t, since, right[..n]), LastTime(since, left[..n]), left[n],
                 right[n]);
      forall i | 0 <= i < n ensures SameAnswer(left[i], right[i]) { assert SameAnswer(left[..n][i], right[..n][i]); }
    }
  }

  /** The same three operations against a store that keeps expired entries and one whose alarm ran:
      a delivery claims until 10, suspends itself at 20, and another message asks at 21. */
  function Suspended(message: MessageId, other: MessageId, ranAlarm: bool): seq<Step> {
    var held := State(None, Some(Claim(message, 10, None)));
    var dropped := if ranAlarm then NONE else held;
    [ Step(0, NONE, Deliver(message, 10)),
      Step(20, dropped, Hold(message, 30, 40, None)),
      Step(21, Do(dropped, 20, Hold(message, 30, 40, None)).state, Deliver(other, 10)) ]
  }

  /** A hold after its claim expired: one store revives the claim and refuses the other message, the
      other store has forgotten it and delivers the other message. */
  lemma KeptClaimIsRevived(message: MessageId, other: MessageId)
    requires message != other
    ensures
      var kept, gone := Suspended(message, other, false), Suspended(message, other, true);
      && Behaviour(NONE, 0, kept) && Behaviour(NONE, 0, gone)
      && AnswerOf(kept[0]) == AnswerOf(gone[0]) == Claimed
      && AnswerOf(kept[1]) == Held(true) && AnswerOf(gone[1]) == Held(false)
      && AnswerOf(kept[2]) == NotClaimed(None) && AnswerOf(gone[2]) == Claimed
      && Revives(kept[1].dropped, 20, kept[1].op) && !Revives(gone[1].dropped, 20, gone[1].op)
  {
    SuspendedRuns(message, other, false);
    SuspendedRuns(message, other, true);
  }

  lemma SuspendedRuns(message: MessageId, other: MessageId, ranAlarm: bool)
    ensures Behaviour(NONE, 0, Suspended(message, other, ranAlarm))
  {
    var steps := Suspended(message, other, ranAlarm);
    assert steps[..0] == [] && steps[..1][..0] == [] && steps[..2][..1] == steps[..1] && steps[..3] == steps &&
           steps[..3][..2] == steps[..2];
    assert Behaviour(NONE, 0, steps[..0]) && After(NONE, 0, steps[..0]) == NONE;
    assert Behaviour(NONE, 0, steps[..1]);
    assert Behaviour(NONE, 0, steps[..2]);
  }

  // ---- exclusivity ------------------------------------------------------------------------------------

  /** `message` holds the delivery claim at least until `until`. */
  predicate Holds(s: State, message: MessageId, until: nat) {
    MyClaim(s.claim, message) && s.claim.value.expiresAt >= until
  }

  /** The operations by which a message gives up or renews its own claim. */
  predicate Yields(op: Op, message: MessageId) {
    match op
    case Release(only) => only.None? || only.value == message
    case Complete(m) => m == message
    case Deliver(m, _) => m == message
    case _ => false
  }

  /** `message` is the one that may be published at least until `until`. */
  predicate Reserved(s: State, message: MessageId, until: nat) {
    Mine(s.reservation, message) && s.reservation.value.expiresAt >= until
  }

  predicate GivesUp(op: Op, message: MessageId) { (op.Complete? || op.Abandon?) && op.message == message }

  lemma StepKeepsHold(s: State, step: Step, message: MessageId, until: nat)
    requires Holds(s, message, until) && Lapsed(s, step.dropped, step.now) && step.now < until &&
             !Yields(step.op, message)
    ensures Holds(Do(step.dropped, step.now, step.op).state, message, until)
    ensures Do(step.dropped, step.now, step.op).answer != Claimed
  {
  }

  lemma StepKeepsReserved(s: State, step: Step, message: MessageId, until: nat)
    requires Reserved(s, message, until) && Lapsed(s, step.dropped, step.now) && step.now < until &&
             !GivesUp(step.op, message)
    ensures Reserved(Do(step.dropped, step.now, step.op).state, message, until)
    ensures step.op.Reserve? && step.op.message != message ==> Do(step.dropped, step.now, step.op).answer.Refused?
    ensures step.op.Reserve? && step.op.message != message ==>
            Do(step.dropped, step.now, step.op).answer.holder == message
  {
  }

  /** Until its claim expires, a delivered message keeps the key to itself: whatever other messages
      try, none is delivered before the holder yields. */
  lemma {:induction false} ClaimIsExclusive(s: State, since: nat, steps: seq<Step>, message: MessageId, until: nat)
    requires Holds(s, message, until) && Behaviour(s, since, steps)
    requires forall i :: 0 <= i < |steps| ==> steps[i].now < until && !Yields(steps[i].op, message)
    ensures Holds(After(s, since, steps), message, until)
    ensures forall i :: 0 <= i < |steps| ==> AnswerOf(steps[i]) != Claimed
  {
    if steps != [] {
      var before, last := steps[..|steps| - 1], steps[|steps| - 1];
      assert forall i :: 0 <= i < |before| ==> before[i] == steps[i];
      ClaimIsExclusive(s, since, before, message, until);
      StepKeepsHold(After(s, since, before), last, message, until);
    }
  }

  /** While an unexpired reservation stands, every other message is refused and told the holder. */
  lemma {:induction false} ReservationIsExclusive(s: State, since: nat, steps: seq<Step>, message: MessageId,
                                                  until: nat)
    requires Reserved(s, message, until) && Behaviour(s, since, steps)
    requires forall i :: 0 <= i < |steps| ==> steps[i].now < until && !GivesUp(steps[i].op, message)
    ensures Reserved(After(s, since, steps), message, until)
    ensures forall i :: 0 <= i < |steps| && steps[i].op.Reserve? && steps[i].op.message != message ==>
              AnswerOf(steps[i]).Refused? && AnswerOf(steps[i]).holder == message
  {
    if steps != [] {
      var before, last := steps[..|steps| - 1], steps[|steps| - 1];
      assert forall i :: 0 <= i < |before| ==> before[i] == steps[i];
      ReservationIsExclusive(s, since, before, message, until);
      StepKeepsReserved(After(s, since, before), last, message, until);
    }
  }

  /** A delivery that was claimed holds the key for its whole lease; an admitted reservation for its own. */
  lemma GrantsHold(s: State, now: nat, op: Op)
    ensures Do(s, now, op).answer == Claimed ==> op.Deliver? && Holds(Do(s, now, op).state, op.message, now + op.stale)
    ensures Do(s, now, op).answer == Admitted ==>
            op.Reserve? && Reserved(Do(s, now, op).state, op.message, op.expiresAt)
  {
  }

  // ---- from the answer on ----------------------------------------------------------------------------

  lemma {:induction false} LaterSteps(s: State, since: nat, first: Step, later: seq<Step>)
    requires Behaviour(s, since, [first] + later)
    ensures Behaviour(Do(first.dropped, first.now, first.op).state, first.now, later)
    ensures After(Do(first.dropped, first.now, first.op).state, first.now, later) == After(s, since, [first] + later)
    ensures LastTime(first.now, later) == LastTime(since, [first] + later)
    decreases |later|
  {
    var all := [first] + later;
    if later == [] {
      assert all == [first] && all[..0] == [];
    } else {
      assert all[..|all| - 1] == [first] + later[..|later| - 1];
      LaterSteps(s, since, first, later[..|later| - 1]);
    }
  }

  /** A message whose delivery was claimed has the key to itself for its whole lease: no later step
      within it is answered with a claim unless the holder yields. */
  lemma ClaimedIsExclusive(s: State, since: nat, first: Step, later: seq<Step>)
    requires Behaviour(s, since, [first] + later) && first.op.Deliver? && AnswerOf(first) == Claimed
    requires forall i :: 0 <= i < |later| ==>
               later[i].now < first.now + first.op.stale && !Yields(later[i].op, first.op.message)
    ensures forall i :: 0 <= i < |later| ==> AnswerOf(later[i]) != Claimed
  {
    var after := Do(first.dropped, first.now, first.op).state;
    GrantsHold(first.dropped, first.now, first.op);
    LaterSteps(s, since, first, later);
    ClaimIsExclusive(after, first.now, later, first.op.message, first.now + first.op.stale);
  }

  /** A message that was admitted is the only one until its reservation expires: every other message is
      refused and told of it unless it gives the reservation up. */
  lemma AdmittedIsExclusive(s: State, since: nat, first: Step, later: seq<Step>)
    requires Behaviour(s, since, [first] + later) && first.op.Reserve? && AnswerOf(first) == Admitted
    requires forall i :: 0 <= i < |later| ==>
               later[i].now < first.op.expiresAt && !GivesUp(later[i].op, first.op.message)
    ensures forall i :: 0 <= i < |later| && later[i].op.Reserve? && later[i].op.message != first.op.message ==>
              AnswerOf(later[i]).Refused? && AnswerOf(later[i]).holder == first.op.message
  {
    var after := Do(first.dropped, first.now, first.op).state;
    GrantsHold(first.dropped, first.now, first.op);
    LaterSteps(s, since, first, later);
    ReservationIsExclusive(after, first.now, later, first.op.message, first.op.expiresAt);
  }

  // ---- what each operation brings about ---------------------------------------------------------------

  /** A completed message has neither entry left; entries of other messages are as they were. */
  lemma CompleteLetsGo(s: State, now: nat, message: MessageId)
    ensures
      var t := Do(s, now, Complete(message)).state;
      && (t.reservation.Some? ==> t.reservation.value.message != message)
      && (t.claim.Some? ==> t.claim.value.message != message)
      && (s.reservation.Some? && s.reservation.value.message != message ==> t.reservation == s.reservation)
      && (s.claim.Some? && s.claim.value.message != message ==> t.claim == s.claim)
  {
  }

  /** A release leaves no claim of the released message, an abandoned reservation is gone, and neither touches
      any other entry. */
  lemma ReleaseAndAbandonLetGo(s: State, now: nat, message: MessageId)
    ensures
      var (one, all, gone) :=
        (Do(s, now, Release(Some(message))).state, Do(s, now, Release(None)).state, Do(s, now, Abandon(message)).state);
      && all.claim.None? && one.reservation == all.reservation == s.reservation && gone.claim == s.claim
      && (one.claim.Some? ==> one.claim == s.claim && one.claim.value.message != message)
      && (s.claim.Some? && s.claim.value.message != message ==> one.claim == s.claim)
      && (gone.reservation.Some? ==> gone.reservation == s.reservation && gone.reservation.value.message != message)
      && (s.reservation.Some? && s.reservation.value.message != message ==> gone.reservation == s.reservation)
  {
  }

  /** Whether the key is free for a message to be published: no other message's reservation stands. */
  predicate Vacant(s: State, now: nat, message: MessageId) {
    s.reservation.Some? && s.reservation.value.expiresAt > now ==> s.reservation.value.message == message
  }

  /** Whether the key is free for a delivery: no claim stands, or the message's own whose hold has passed. */
  predicate Deliverable(s: State, now: nat, message: MessageId) {
    s.claim.Some? && s.claim.value.expiresAt > now ==>
      s.claim.value.message == message && s.claim.value.retryAt.Some? && s.claim.value.retryAt.value <= now
  }

  /** A reservation is admitted exactly on a vacant key, and a pending one only if none stands at all. It then
      stands until its expiry, or longer if an earlier one did; the delivery claim does not move. */
  lemma AdmittedExactly(s: State, now: nat, message: MessageId, expiresAt: nat, pending: bool)
    ensures
      var (t, answer) := (Do(s, now, Reserve(message, expiresAt, pending)).state,
                          Do(s, now, Reserve(message, expiresAt, pending)).answer);
      if Vacant(s, now, message) && (pending ==> s.reservation.None? || s.reservation.value.expiresAt <= now) then
        && answer == Admitted && t.claim == s.claim && t.reservation.Some?
        && t.reservation.value.message == message && t.reservation.value.pending == pending
        && t.reservation.value.expiresAt >= expiresAt
        && (s.reservation.Some? ==> t.reservation.value.expiresAt >= s.reservation.value.expiresAt)
        && (t.reservation.value.expiresAt == expiresAt
            || (s.reservation.Some? && t.reservation.value.expiresAt == s.reservation.value.expiresAt))
      else t == s && s.reservation.Some? && answer == Refused(s.reservation.value.message, s.reservation.value.pending)
  {
  }

  /** A delivery is claimed exactly on a deliverable key, for its whole lease; otherwise it learns when its own
      hold or claim ends, or nothing of another message's. It confirms its own pending publication either way. */
  lemma ClaimedExactly(s: State, now: nat, message: MessageId, stale: nat)
    ensures
      var (t, answer) := (Do(s, now, Deliver(message, stale)).state, Do(s, now, Deliver(message, stale)).answer);
      && (if Deliverable(s, now, message) then answer == Claimed && t.claim == Some(Claim(message, now + stale, None))
          else
            && t.claim == s.claim
            && answer == NotClaimed(if s.claim.value.message != message then None
                                    else if s.claim.value.retryAt.Some? then s.claim.value.retryAt
                                    else Some(s.claim.value.expiresAt)))
      && (t.reservation == s.reservation
          || (&& t.reservation.Some? && s.reservation.Some?
              && s.reservation.value.message == t.reservation.value.message == message
              && s.reservation.value.pending && !t.reservation.value.pending
              && t.reservation.value.expiresAt >= s.reservation.value.expiresAt
              && t.reservation.value.expiresAt >= now + QUEUE_RESERVATION_GRACE_MS))
      && (t.reservation.Some? && t.reservation.value.message == message ==> !t.reservation.value.pending)
  {
  }

  /** A hold answers whether the claim is the message's. It then suspends it until `retryAt`, and neither entry
      expires earlier than before. */
  lemma HeldExactly(s: State, now: nat, message: MessageId, retryAt: nat, expiresAt: nat, keep: Option<nat>)
    ensures
      var (t, answer) := (Do(s, now, Hold(message, retryAt, expiresAt, keep)).state,
                          Do(s, now, Hold(message, retryAt, expiresAt, keep)).answer);
      if s.claim.Some? && s.claim.value.message == message then
        && answer == Held(true) && t.claim.Some?
        && t.claim.value.message == message && t.claim.value.retryAt == Some(retryAt)
        && t.claim.value.expiresAt == Max(s.claim.value.expiresAt, expiresAt)
        && (t.reservation.Some? <==> s.reservation.Some?)
        && (s.reservation.Some? ==>
              && t.reservation.value.message == s.reservation.value.message
              && t.reservation.value.pending == s.reservation.value.pending
              && t.reservation.value.expiresAt ==
                 if s.reservation.value.message == message && keep.Some?
                 then Max(s.reservation.value.expiresAt, keep.value) else s.reservation.value.expiresAt)
      else answer == Held(false) && t == s
  {
  }

  /** A confirmation takes the pending mark off the message's own reservation, and never shortens it. */
  lemma ConfirmedExactly(s: State, now: nat, message: MessageId, expiresAt: nat)
    ensures
      var t := Do(s, now, Confirm(message, expiresAt)).state;
      && t.claim == s.claim
      && (if s.reservation.Some? && s.reservation.value.message == message
          then t.reservation == Some(Reservation(message, Max(s.reservation.value.expiresAt, expiresAt), false))
          else t.reservation == s.reservation)
  {
  }

  // ---- from one message to the next ---------------------------------------------------------------------

  /** No third message holds an entry, and what the next message may have itself does not stand in its way. */
  predicate Between(s: State, now: nat, message: MessageId, next: MessageId, pending: bool) {
    && (s.reservation.Some? && s.reservation.value.expiresAt > now && s.reservation.value.message != message ==>
          s.reservation.value.message == next && !pending)
    && (s.claim.Some? && s.claim.value.expiresAt > now && s.claim.value.message != message ==>
          s.claim.value.message == next && s.claim.value.retryAt.Some? && s.claim.value.retryAt.value <= now)
  }

  /** The key passes on: once a message completed, the next one is admitted and its delivery claimed, whatever
      was dropped in between, provided no third message holds an entry. */
  lemma CompletionPassesOn(s: State, since: nat, done: Step, reserve: Step, deliver: Step)
    requires Behaviour(s, since, [done, reserve, deliver])
    requires done.op.Complete? && reserve.op.Reserve? && deliver.op.Deliver?
    requires done.op.message != reserve.op.message == deliver.op.message
    requires Between(s, done.now, done.op.message, reserve.op.message, reserve.op.pending)
    ensures AnswerOf(reserve) == Admitted && AnswerOf(deliver) == Claimed
  {
    var steps := [done, reserve, deliver];
    assert steps[..2] == [done, reserve] && [done, reserve][..1] == [done] && [done][..0] == [];
    assert Behaviour(s, since, [done, reserve]) && Behaviour(s, since, [done]);
    assert After(s, since, []) == s;
    CompleteLetsGo(done.dropped, done.now, done.op.message);
    assert After(s, since, [done]) == Do(done.dropped, done.now, done.op).state;
    AdmittedExactly(reserve.dropped, reserve.now, reserve.op.message, reserve.op.expiresAt, reserve.op.pending);
    assert After(s, since, [done, reserve]) == Do(reserve.dropped, reserve.now, reserve.op).state;
    ClaimedExactly(deliver.dropped, deliver.now, deliver.op.message, deliver.op.stale);
  }

  /** No entry outlasts its time: a claim or a reservation that has expired refuses nobody, kept or dropped. */
  lemma ExpiryPassesOn(s: State, now: nat, message: MessageId, expiresAt: nat, pending: bool, stale: nat)
    ensures
      s.reservation.Some? && s.reservation.value.expiresAt <= now ==>
        Do(s, now, Reserve(message, expiresAt, pending)).answer == Admitted
    ensures s.claim.Some? && s.claim.value.expiresAt <= now ==> Do(s, now, Deliver(message, stale)).answer == Claimed
  {
  }

  /** A suspended message comes back to itself: held, it is refused until `retryAt`, told that time, and claimed
      from then on. */
  lemma SuspensionEnds(s: State, now: nat, later: nat, message: MessageId, retryAt: nat, expiresAt: nat, stale: nat)
    requires MyClaim(s.claim, message) && later < Max(s.claim.value.expiresAt, expiresAt)
    ensures
      var held := Do(s, now, Hold(message, retryAt, expiresAt, None)).state;
      Do(held, later, Deliver(message, stale)).answer == if later < retryAt then NotClaimed(Some(retryAt)) else Claimed
  {
  }
}
