/** The two stores of queue claims: a cell of its own with an alarm, and entries in the run's cell
    with expiry checked on use (src/worker/durable-objects/WorkflowRunDO.ts). */
module QueueStores {
  import opened Prelude
  import opened QueueClaims

  /** When the first entry expires. */
  function Earliest(s: State): Option<nat> {
    match (s.reservation, s.claim)
    case (None, None) => None
    case (Some(r), None) => Some(r.expiresAt)
    case (None, Some(c)) => Some(c.expiresAt)
    case (Some(r), Some(c)) => Some(Min(c.expiresAt, r.expiresAt))
  }

  /** A claim cell: two rows and the alarm that drops them. */
  class ClaimCell {
    var claim: Option<Claim>
    var reservation: Option<Reservation>
    var alarm: Option<nat>

    constructor ()
      ensures Valid() && State() == NONE
    {
      claim, reservation, alarm := None, None, None;
    }

    function State(): State
      reads this
    {
      QueueClaims.State(reservation, claim)
    }

    /** Whatever is stored, an alarm is armed no later than its expiry. */
    predicate Valid()
      reads this
    {
      && (claim.Some? ==> alarm.Some? && alarm.value <= claim.value.expiresAt)
      && (reservation.Some? ==> alarm.Some? && alarm.value <= reservation.value.expiresAt)
    }

    /** Arm at the earliest expiry, or not at all. */
    method Arm()
      modifies this`alarm
      ensures Valid() && alarm == Earliest(State())
    {
      if claim.None? && reservation.None? {
        alarm := None;
      } else if claim.None? {
        alarm := Some(reservation.value.expiresAt);
      } else {
        var at := claim.value.expiresAt;
        alarm := Some(if reservation.Some? then Min(at, reservation.value.expiresAt) else at);
      }
    }

    method ReserveQueueMessage(message: MessageId, expiresAt: nat, pending: bool, now: nat) returns (answer: Answer)
      requires Valid()
      modifies this
      ensures Valid() && Outcome(State(), answer) == Do(old(State()), now, Reserve(message, expiresAt, pending))
    {
      if reservation.Some? && reservation.value.expiresAt > now && (reservation.value.message != message || pending) {
        Arm();
        return Refused(reservation.value.message, reservation.value.pending);
      }
      var known := if reservation.Some? then reservation.value.expiresAt else 0;
      reservation := Some(Reservation(message, Max(known, expiresAt), pending));
      Arm();
      answer := Admitted;
    }

    method ConfirmQueueMessagePublication(message: MessageId, expiresAt: nat, now: nat)
      requires Valid()
      modifies this
      ensures Valid() && Outcome(State(), Done) == Do(old(State()), now, Confirm(message, expiresAt))
    {
      if reservation.None? || reservation.value.message != message { return; }
      reservation := Some(Reservation(message, Max(reservation.value.expiresAt, expiresAt), false));
      Arm();
    }

    /** A refused delivery may still renew the reservation; the alarm then stays at the earlier date. */
    method ClaimInflight(message: MessageId, stale: nat, now: nat) returns (answer: Answer)
      requires Valid()
      modifies this
      ensures Valid() && Outcome(State(), answer) == Do(old(State()), now, Deliver(message, stale))
    {
      if reservation.Some? && reservation.value.pending && reservation.value.message == message {
        reservation :=
            Some(Reservation(message, Max(reservation.value.expiresAt, now + QUEUE_RESERVATION_GRACE_MS), false));
      }
      if claim.Some? && claim.value.expiresAt > now {
        if claim.value.message != message { return NotClaimed(None); }
        if claim.value.retryAt.None? || claim.value.retryAt.value > now {
          return NotClaimed(Some(if claim.value.retryAt.Some? then claim.value.retryAt.value
                                 else claim.value.expiresAt));
        }
      }
      claim := Some(Claim(message, now + stale, None));
      Arm();
      answer := Claimed;
    }

    method HoldInflight(message: MessageId, retryAt: nat, expiresAt: nat, reservationExpiresAt: Option<nat>, now: nat)
      returns (answer: Answer)
      requires Valid()
      modifies this
      ensures Valid() &&
              Outcome(State(), answer) == Do(old(State()), now, Hold(message, retryAt, expiresAt, reservationExpiresAt))
    {
      if claim.None? || claim.value.message != message { return Held(false); }
      claim := Some(claim.value.(retryAt := Some(retryAt), expiresAt := Max(claim.value.expiresAt, expiresAt)));
      if reservation.Some? && reservation.value.message == message
         && reservationExpiresAt.Some? && reservationExpiresAt.value > reservation.value.expiresAt {
        reservation := Some(reservation.value.(expiresAt := reservationExpiresAt.value));
      }
      Arm();
      answer := Held(true);
    }

    method ReleaseInflight(only: Option<MessageId>, now: nat)
      requires Valid()
      modifies this
      ensures Valid() && Outcome(State(), Done) == Do(old(State()), now, Release(only))
    {
      if claim.None? || (only.Some? && claim.value.message != only.value) { return; }
      claim := None;
      alarm := if reservation.Some? then Some(reservation.value.expiresAt) else None;
    }

    method CompleteQueueMessage(message: MessageId, now: nat)
      requires Valid()
      modifies this
      ensures Valid() && Outcome(State(), Done) == Do(old(State()), now, Complete(message))
    {
      if reservation.Some? && reservation.value.message == message { reservation := None; }
      if claim.Some? && claim.value.message == message { claim := None; }
      Arm();
    }

    method AbandonQueueMessageReservation(message: MessageId, now: nat)
      requires Valid()
      modifies this
      ensures Valid() && Outcome(State(), Done) == Do(old(State()), now, Abandon(message))
    {
      if reservation.None? || reservation.value.message != message { return; }
      reservation := None;
      alarm := if claim.Some? then Some(claim.value.expiresAt) else None;
    }

    /** The alarm drops exactly the expired rows and arms for the rest. */
    method Alarm(now: nat)
      modifies this
      ensures Valid() && State() == Live(old(State()), now) && Lapsed(old(State()), State(), now)
      ensures alarm.Some? ==> now < alarm.value
    {
      if claim.Some? && claim.value.expiresAt <= now { claim := None; }
      if reservation.Some? && reservation.value.expiresAt <= now { reservation := None; }
      Arm();
    }
  }

  /** What the run's cell answers to a reservation or a delivery. */
  datatype RunAnswer = RunExpired | OtherScope | Run(answer: Answer)

  /** The run's own entries, one per claim name; an empty one is not stored. */
  class RunClaims {
    var claims: map<string, State>
    /** Set once, when the run is created: its claims live here and not in claim cells. */
    const scoped: bool

    constructor (scoped: bool)
      ensures Valid() && this.scoped == scoped && claims == map[]
    {
      this.scoped, claims := scoped, map[];
    }

    predicate Valid()
      reads this
    {
      forall name :: name in claims ==> claims[name] != NONE
    }

    function StateOf(name: string): State
      reads this
    {
      if name in claims then claims[name] else NONE
    }

    /** Only this name's entry is now `s`. */
    twostate predicate Sets(name: string, s: State)
      reads this
    {
      StateOf(name) == s && claims - {name} == old(claims) - {name}
    }

    method Put(name: string, s: State)
      modifies this`claims
      ensures claims == if s == NONE then old(claims) - {name} else old(claims)[name := s]
    {
      claims := if s.reservation.None? && s.claim.None? then claims - {name} else claims[name := s];
    }

    method ReserveRunQueueMessage(name: string, message: MessageId, expiresAt: nat, pending: bool, expired: bool,
                                  now: nat)
      returns (answer: RunAnswer)
      requires Valid()
      modifies this`claims
      ensures Valid() &&
              (expired || !scoped ==> claims == old(claims) && answer == if expired then RunExpired else OtherScope)
      ensures
        var done := Do(old(StateOf(name)), now, Reserve(message, expiresAt, pending));
        !expired && scoped ==> answer == Run(done.answer) && Sets(name, done.state)
    {
      if expired { return RunExpired; }
      if !scoped { return OtherScope; }
      var s := StateOf(name);
      if s.reservation.Some? && s.reservation.value.expiresAt > now &&
          (s.reservation.value.message != message || pending) {
        return Run(Refused(s.reservation.value.message, s.reservation.value.pending));
      }
      var known := if s.reservation.Some? then s.reservation.value.expiresAt else 0;
      Put(name, s.(reservation := Some(Reservation(message, Max(known, expiresAt), pending))));
      answer := Run(Admitted);
    }

    method ConfirmRunQueueMessagePublication(name: string, message: MessageId, expiresAt: nat, now: nat)
      requires Valid()
      modifies this`claims
      ensures Valid() && Sets(name, Do(old(StateOf(name)), now, Confirm(message, expiresAt)).state)
      ensures claims.Keys <= old(claims).Keys
    {
      var s := StateOf(name);
      if s.reservation.None? || s.reservation.value.message != message { return; }
      Put(name, s.(reservation := Some(Reservation(message, Max(s.reservation.value.expiresAt, expiresAt), false))));
    }

    method ClaimRunQueueMessage(name: string, message: MessageId, stale: nat, expired: bool, now: nat)
      returns (answer: RunAnswer)
      requires Valid()
      modifies this`claims
      ensures Valid() && (expired ==> claims == old(claims) && answer == RunExpired)
      ensures
        var done := Do(old(StateOf(name)), now, Deliver(message, stale));
        !expired ==> answer == Run(done.answer) && Sets(name, done.state)
    {
      if expired { return RunExpired; }
      var s := StateOf(name);
      if s.reservation.Some? && s.reservation.value.pending && s.reservation.value.message == message {
        s := s.(reservation := Some(
                    Reservation(message, Max(s.reservation.value.expiresAt, now + QUEUE_RESERVATION_GRACE_MS), false)));
        Put(name, s);
      }
      if s.claim.Some? && s.claim.value.expiresAt > now {
        var c := s.claim.value;
        if c.message != message { return Run(NotClaimed(None)); }
        if c.retryAt.None? || c.retryAt.value > now {
          return Run(NotClaimed(Some(if c.retryAt.Some? then c.retryAt.value else c.expiresAt)));
        }
      }
      Put(name, s.(claim := Some(Claim(message, now + stale, None))));
      answer := Run(Claimed);
    }

    method HoldRunQueueMessage(name: string, message: MessageId, retryAt: nat, expiresAt: nat,
                               reservationExpiresAt: Option<nat>, now: nat)
      returns (answer: Answer)
      requires Valid()
      modifies this`claims
      ensures Valid() && claims.Keys <= old(claims).Keys
      ensures
        var done := Do(old(StateOf(name)), now, Hold(message, retryAt, expiresAt, reservationExpiresAt));
        answer == done.answer && Sets(name, done.state)
    {
      var s := StateOf(name);
      if s.claim.None? || s.claim.value.message != message { return Held(false); }
      var claim := s.claim.value;
      var next := s.(claim := Some(claim.(retryAt := Some(retryAt), expiresAt := Max(claim.expiresAt, expiresAt))));
      if s.reservation.Some? && s.reservation.value.message == message
         && reservationExpiresAt.Some? && reservationExpiresAt.value > s.reservation.value.expiresAt {
        next := next.(reservation := Some(s.reservation.value.(expiresAt := reservationExpiresAt.value)));
      }
      Put(name, next);
      answer := Held(true);
    }

    method ReleaseRunQueueMessage(name: string, message: MessageId, now: nat)
      requires Valid()
      modifies this`claims
      ensures Valid() && Sets(name, Do(old(StateOf(name)), now, Release(Some(message))).state)
      ensures claims.Keys <= old(claims).Keys
    {
      var s := StateOf(name);
      if s.claim.None? || s.claim.value.message != message { return; }
      Put(name, s.(claim := None));
    }

    method CompleteRunQueueMessage(name: string, message: MessageId, now: nat)
      requires Valid()
      modifies this`claims
      ensures Valid() && Sets(name, Do(old(StateOf(name)), now, Complete(message)).state)
      ensures claims.Keys <= old(claims).Keys
    {
      if name !in claims { return; }
      var s, next := claims[name], NONE;
      if s.reservation.Some? && s.reservation.value.message != message { next := next.(reservation := s.reservation); }
      if s.claim.Some? && s.claim.value.message != message { next := next.(claim := s.claim); }
      Put(name, next);
    }

    method AbandonRunQueueMessageReservation(name: string, message: MessageId, now: nat)
      requires Valid()
      modifies this`claims
      ensures Valid() && Sets(name, Do(old(StateOf(name)), now, Abandon(message)).state)
      ensures claims.Keys <= old(claims).Keys
    {
      var s := StateOf(name);
      if s.reservation.None? || s.reservation.value.message != message { return; }
      Put(name, s.(reservation := None));
    }
  }
}
