/** The event transaction of a run cell, statement by statement (src/apply-event.ts, applyEvent;
    src/worker/durable-objects/WorkflowRunDO.ts, applyEvent). Rows are written directly; that they
    are what replaying the appended events gives is the methods' contract. */
module RunCell {
  import opened Prelude
  import opened RunEvents

  class RunCell {
    var run: Option<Run>
    var steps: map<Id, Step>
    var hooks: map<Id, Hook>
    var waits: map<Id, Wait>
    var events: map<nat, Event>
    var eventSequence: nat
    var hookEvents: map<Id, nat>
    var attrEvents: map<Id, nat>
    var resumes: map<string, Resume>
    var released: map<Id, string>
    var forced: map<Id, ForceClaim>
    var cancelled: set<string>
    /** The last id nextEventId handed out in the running transaction. */
    var slot: nat

    function Working(): Store
      reads this
    {
      Store(Tables(run, steps, hooks, waits),
            Markers(hookEvents, attrEvents, resumes, released, forced, cancelled), events, slot)
    }

    function Stored(): Store
      reads this
    {
      Working().(sequence := eventSequence)
    }

    constructor ()
      ensures Stored() == EMPTY
    {
      run, steps, hooks, waits := None, map[], map[], map[];
      events, eventSequence, slot := map[], 0, 0;
      hookEvents, attrEvents, resumes, released, forced, cancelled := map[], map[], map[], map[], map[], {};
    }

    /** WorkflowRunDO.applyEvent: the sequence row follows the ids that were handed out. */
    method Transact(q: Request, c: Context) returns (o: Outcome)
      modifies this
      ensures Stored() == Next(old(Stored()), q, c)
      ensures o == Answer(old(Stored()), Decide(old(Stored()), q, c), c)
    {
      slot := eventSequence;
      o := ApplyEvent(q, c);
      if o.Refused? { return; }
      if slot != eventSequence { eventSequence := slot; }
    }

    method PutEvent(d: EventData, now: nat)
      modifies this`events, this`slot
      ensures slot == old(slot) + 1
      ensures events == old(events)[slot := RunEvents.Event(d, now, SPEC_VERSION_CURRENT)]
    {
      slot := slot + 1;
      events := events[slot := RunEvents.Event(d, now, SPEC_VERSION_CURRENT)];
    }

    method ApplyEvent(q: Request, c: Context) returns (o: Outcome)
      modifies this`run, this`steps, this`hooks, this`waits, this`events, this`slot
      modifies this`hookEvents, this`attrEvents, this`resumes, this`released
      ensures Working() == Next(old(Working()), q, c)
      ensures o == Answer(old(Working()), Decide(old(Working()), q, c), c)
    {
      if c.spec.Some? && c.spec.value != SPEC_VERSION_CURRENT { return Refused(RunNotSupported); }
      if q.StartRun? && q.resilient.Some? && run.None? {
        o := BootRun(q.resilient.value, c);
        return;
      }
      if !SkipsRun(q) && run.Some? && run.value.spec != SPEC_VERSION_CURRENT { return Refused(RunNotSupported); }
      o := ApplyGuarded(q, c);
    }

    method ApplyGuarded(q: Request, c: Context) returns (o: Outcome)
      modifies this`run, this`steps, this`hooks, this`waits, this`events, this`slot
      modifies this`hookEvents, this`attrEvents, this`resumes, this`released
      ensures Working() == Carry(old(Working()), Guarded(old(Working()), q, c), c)
      ensures o == Answer(old(Working()), Guarded(old(Working()), q, c), c)
    {
      var guard := CheckGuards(q, c);
      GuardAppends(q, c);
      match guard
      case None => o := Execute(q, c);
      case Some(Refuse(code)) => o := Refused(code);
      case Some(Known(event)) => o := Answered(event);
      case Some(Append(_, _)) =>
        PutEvent(RunCancelled, c.now);
        o := Answered(Some(slot));
    }

    /** Resilient start: create the run from the message, then start it. */
    method BootRun(boot: Boot, c: Context) returns (o: Outcome)
      requires run.None?
      modifies this`run, this`events, this`slot
      ensures
        var d := Append(RunCreated(boot.info, boot.input, boot.attributes), Some(RunStarted));
        Working() == Carry(old(Working()), d, c) && o == Answer(old(Working()), d, c)
    {
      CreateRunRow(boot, c);
      o := StartRun(c);
    }

    /** Store the run and the event that moved it. */
    method PutRun(after: Run, d: EventData, c: Context)
      requires d.RunStarted? || d.RunCompleted? || d.RunFailed? || d.RunCancelled?
      requires ReplayRun(run, EventAt(d, c)) == Some(after)
      modifies this`run, this`events, this`slot
      ensures Working() == Commit(old(Working()), EventAt(d, c), c.digest)
    {
      run := Some(after);
      PutEvent(d, c.now);
    }

    /** Store a step and the event that moved it. */
    method PutStep(id: Id, after: Step, d: EventData, c: Context)
      requires OfStep(d) && d.step == id && ReplayStep(Get(steps, id), EventAt(d, c)) == Some(after)
      modifies this`steps, this`events, this`slot
      ensures Working() == Commit(old(Working()), EventAt(d, c), c.digest)
    {
      steps := steps[id := after];
      PutEvent(d, c.now);
    }

    method CreateRunRow(boot: Boot, c: Context)
      requires run.None?
      modifies this`run, this`events, this`slot
      ensures Working() ==
              Commit(old(Working()), EventAt(RunCreated(boot.info, boot.input, boot.attributes), c), c.digest)
    {
      run := Some(Run(Pending, SPEC_VERSION_CURRENT, boot.info, boot.input, boot.attributes, None, None,
                      c.now, c.now, None, None, None));
      PutEvent(RunCreated(boot.info, boot.input, boot.attributes), c.now);
    }

    // ---- guards -----------------------------------------------------------------

    /** The checks before any write of the request itself. */
    method CheckGuards(q: Request, c: Context) returns (guard: Option<Decision>)
      ensures guard == Guard(Working(), q, c)
    {
      if !SkipsRun(q) && run.Some? && Ended(run.value.status) {
        guard := CheckEnded(run.value.status, q);
        if guard.Some? { return; }
      }
      guard := CheckOrder(q, c);
    }

    method CheckOrder(q: Request, c: Context) returns (guard: Option<Decision>)
      ensures guard == OrderGuard(Working(), q, c)
    {
      if OnStep(q) {
        guard := CheckStep(q);
        if guard.Some? { return; }
      }
      if q.ReceiveHook? && Given(c.resume) {
        guard := CheckResume(q.hook, c);
        if guard.Some? { return; }
      }
      if (q.DisposeHook? || q.ReceiveHook?) && q.hook != "" {
        guard := CheckHook(q);
        if guard.Some? { return; }
      }
      if !SkipsRun(q) && !q.StartRun? && run.None? { return Some(Refuse(RunNotFound)); }
      return None;
    }

    /** The only guard that writes: cancelling a run that is already cancelled. */
    lemma GuardAppends(q: Request, c: Context)
      ensures
        var guard := Guard(Working(), q, c);
        guard.Some? && guard.value.Append? ==>
          guard.value == Append(RunCancelled, None) && q.CancelRun? && run.Some? && run.value.status.Cancelled?
    {
    }

    method CheckEnded(status: RunStatus, q: Request) returns (guard: Option<Decision>)
      ensures guard == EndedGuard(status, q)
    {
      if q.CancelRun? && status.Cancelled? { return Some(Append(RunCancelled, None)); }
      if q.StartRun? { return Some(Refuse(RunExpired)); }
      if q.CompleteRun? || q.FailRun? || q.CancelRun? { return Some(Refuse(EntityConflict)); }
      if CreatesChild(q) { return Some(Refuse(EntityConflict)); }
      if q.SetAttributes? { return Some(Refuse(EntityConflict)); }
      return None;
    }

    method CheckStep(q: Request) returns (guard: Option<Decision>)
      requires OnStep(q)
      ensures guard == StepGuard(Working().tables, q)
    {
      var lazy := q.StartStep? && q.lazyInput.Some?;
      if q.step !in steps {
        if !lazy { return Some(Refuse(StepNotFound)); }
        return None;
      } else if lazy {
        return Some(Refuse(EntityConflict));
      }
      var step := steps[q.step];
      if StepEnded(step.status) { return Some(Refuse(EntityConflict)); }
      if !SkipsRun(q) && run.Some? && Ended(run.value.status) && !step.status.Active? {
        return Some(Refuse(RunExpired));
      }
      return None;
    }

    method CheckResume(hook: Id, c: Context) returns (guard: Option<Decision>)
      requires Given(c.resume)
      ensures guard == ResumeGuard(Working(), hook, c)
    {
      if c.resume.value !in resumes { return None; }
      var claim := resumes[c.resume.value];
      if claim.hook != hook { return Some(Refuse(EntityConflict)); }
      if Given(claim.digest) && Given(c.digest) && claim.digest != c.digest { return Some(Refuse(EntityConflict)); }
      if claim.slot !in events { return None; }
      var committed := events[claim.slot].data;
      if committed.HookReceived? && committed.hook == claim.hook && committed.resume == c.resume {
        return Some(Known(Some(claim.slot)));
      }
      return Some(Refuse(EntityConflict));
    }

    method CheckHook(q: Request) returns (guard: Option<Decision>)
      requires (q.DisposeHook? || q.ReceiveHook?) && q.hook != ""
      ensures guard == HookGuard(Working(), q)
    {
      if q.hook !in hooks {
        if q.DisposeHook? {
          if q.hook in released { return Some(Known(None)); }
        } else if q.hook in forced {
          return Some(Refuse(HookForceClaimed));
        }
        return Some(Refuse(HookNotFound));
      }
      if q.ReceiveHook? && run.Some? && Ended(run.value.status) { return Some(Refuse(HookNotFound)); }
      return None;
    }

    // ---- writes -------------------------------------------------------------------

    method Execute(q: Request, c: Context) returns (o: Outcome)
      requires Guard(Working(), q, c).None?
      modifies this`run, this`steps, this`hooks, this`waits, this`events, this`slot
      modifies this`hookEvents, this`attrEvents, this`resumes, this`released
      ensures Working() == Carry(old(Working()), RunEvents.Execute(old(Working()), q, c), c)
      ensures o == Answer(old(Working()), RunEvents.Execute(old(Working()), q, c), c)
    {
      match q
      case CreateRun(boot) =>
        if run.Some? { return Answered(None); }
        CreateRunRow(boot, c);
        o := Answered(Some(slot));
      case StartRun(_) => o := StartRun(c);
      case CompleteRun(_) => o := FinishRun(q, c);
      case FailRun(_) => o := FinishRun(q, c);
      case CancelRun => o := FinishRun(q, c);
      case SetAttributes(_, _, _) => o := SetAttributes(q, c);
      case CreateStep(_, _, _) => o := CreateStep(q, c);
      case StartStep(_, _, _) => o := StartStep(q, c);
      case CompleteStep(_, _) => o := MoveStep(q, c);
      case FailStep(_, _) => o := MoveStep(q, c);
      case RetryStep(_, _, _) => o := MoveStep(q, c);
      case CreateHook(_, _, _, _, _) => o := CreateHook(q, c);
      case DisposeHook(_) => o := DisposeHook(q, c);
      case ReceiveHook(_, _) => o := ReceiveHook(q, c);
      case ReportConflict(hook, token, holder) =>
        PutEvent(HookConflict(hook, token, holder), c.now);
        o := Answered(Some(slot));
      case CreateWait(_, _) => o := CreateWait(q, c);
      case CompleteWait(_, _) => o := CompleteWait(q, c);
    }

    method StartRun(c: Context) returns (o: Outcome)
      requires run.Some? ==> !Ended(run.value.status)
      modifies this`run, this`events, this`slot
      ensures
        var d := if old(run).None? then Refuse(RunNotFound)
                 else if old(run).value.status.Running? then Known(None) else Append(RunStarted, None);
        Working() == Carry(old(Working()), d, c) && o == Answer(old(Working()), d, c)
    {
      if run.None? { return Refused(RunNotFound); }
      if run.value.status.Running? { return Answered(None); }
      PutRun(run.value.(status := Running, output := None, error := None, completedAt := None,
                        startedAt := if run.value.startedAt.Some? then run.value.startedAt else Some(c.now),
                        updatedAt := c.now), RunStarted, c);
      o := Answered(Some(slot));
    }

    method FinishRun(q: Request, c: Context) returns (o: Outcome)
      requires (q.CompleteRun? || q.FailRun? || q.CancelRun?) && Guard(Working(), q, c).None?
      modifies this`run, this`events, this`slot
      ensures Working() == Carry(old(Working()), RunEvents.Execute(old(Working()), q, c), c)
      ensures o == Answer(old(Working()), RunEvents.Execute(old(Working()), q, c), c)
    {
      var ended := run.value.(completedAt := Some(c.now), updatedAt := c.now);
      if q.CompleteRun? {
        PutRun(ended.(status := Completed, output := q.output, error := None), RunCompleted(q.output), c);
      } else if q.FailRun? {
        PutRun(ended.(status := Failed, output := None, error := Some(q.error)), RunFailed(q.error), c);
      } else {
        PutRun(ended.(status := Cancelled, output := None, error := None), RunCancelled, c);
      }
      o := Answered(Some(slot));
    }

    method SetAttributes(q: Request, c: Context) returns (o: Outcome)
      requires q.SetAttributes? && Guard(Working(), q, c).None?
      modifies this`run, this`attrEvents, this`events, this`slot
      ensures Working() == Carry(old(Working()), RunEvents.Execute(old(Working()), q, c), c)
      ensures o == Answer(old(Working()), RunEvents.Execute(old(Working()), q, c), c)
    {
      var marked := Given(q.correlation) && q.byWorkflow;
      if marked && q.correlation.value in attrEvents { return Refused(EntityConflict); }
      run := Some(run.value.(attributes := ApplyChanges(run.value.attributes, q.changes), updatedAt := c.now));
      PutEvent(AttrSet(q.correlation, q.byWorkflow, q.changes), c.now);
      if marked { attrEvents := attrEvents[q.correlation.value := slot]; }
      o := Answered(Some(slot));
    }

    method CreateStep(q: Request, c: Context) returns (o: Outcome)
      requires q.CreateStep?
      modifies this`steps, this`events, this`slot
      ensures Working() == Carry(old(Working()), RunEvents.Execute(old(Working()), q, c), c)
      ensures o == Answer(old(Working()), RunEvents.Execute(old(Working()), q, c), c)
    {
      if q.step in steps { return Refused(EntityConflict); }
      PutStep(q.step, NewStep(q.name, q.input, c.now), StepCreated(q.step, q.name, q.input), c);
      o := Answered(Some(slot));
    }

    method StartStep(q: Request, c: Context) returns (o: Outcome)
      requires q.StartStep?
      modifies this`steps, this`events, this`slot
      ensures Working() == Carry(old(Working()), RunEvents.Execute(old(Working()), q, c), c)
      ensures o == Answer(old(Working()), RunEvents.Execute(old(Working()), q, c), c)
    {
      if q.step !in steps {
        if q.lazyInput.None? || q.name == "" { return Refused(StepNotFound); }
        PutStep(q.step, NewStep(q.name, q.lazyInput.value, c.now), StepCreated(q.step, q.name, q.lazyInput.value), c);
      } else if steps[q.step].retryAfter.Some? && steps[q.step].retryAfter.value > c.now {
        return Refused(TooEarly);
      }
      var step := steps[q.step];
      PutStep(q.step, step.(status := Active, attempt := step.attempt + 1, retryAfter := None, updatedAt := c.now,
                            startedAt := if step.startedAt.Some? then step.startedAt else Some(c.now)),
              StepStarted(q.step), c);
      o := Answered(Some(slot));
    }

    method MoveStep(q: Request, c: Context) returns (o: Outcome)
      requires (q.CompleteStep? || q.FailStep? || q.RetryStep?) && q.step in steps
      modifies this`steps, this`events, this`slot
      ensures Working() == Carry(old(Working()), RunEvents.Execute(old(Working()), q, c), c)
      ensures o == Answer(old(Working()), RunEvents.Execute(old(Working()), q, c), c)
    {
      var step := steps[q.step];
      if q.CompleteStep? {
        PutStep(q.step, step.(status := Succeeded, output := q.result, completedAt := Some(c.now), updatedAt := c.now),
                StepCompleted(q.step, q.result), c);
      } else if q.FailStep? {
        PutStep(q.step, step.(status := Broken, error := Some(q.error), completedAt := Some(c.now), updatedAt := c.now),
                StepFailed(q.step, q.error), c);
      } else {
        PutStep(q.step,
                step.(status := Waiting, error := Some(q.error), retryAfter := q.retryAfter, updatedAt := c.now),
                StepRetrying(q.step, q.error, q.retryAfter), c);
      }
      o := Answered(Some(slot));
    }

    method CreateHook(q: Request, c: Context) returns (o: Outcome)
      requires q.CreateHook?
      modifies this`hooks, this`hookEvents, this`events, this`slot
      ensures Working() == Carry(old(Working()), CreateHookDecision(old(Working()), q, c), c)
      ensures o == Answer(old(Working()), CreateHookDecision(old(Working()), q, c), c)
    {
      if Given(c.claim) && c.claim.value in cancelled { return Refused(HookClaimCancelled); }
      if c.holder.Some? && (c.holder.value.run != c.run || c.holder.value.hook != q.hook) {
        PutEvent(HookConflict(q.hook, q.token, c.holder.value.run), c.now);
        return Answered(Some(slot));
      }
      if q.hook in hookEvents {
        if q.hook in hooks && c.holder.None? && hooks[q.hook].token == q.token { return Answered(None); }
        return Refused(EntityConflict);
      }
      PutHook(q.hook, Hook(q.token, q.info, q.retainUntil, if q.force then c.claimedFrom else None, c.now), c);
      o := Answered(Some(slot));
    }

    /** Store a hook, its creation and the marker that outlives it. */
    method PutHook(id: Id, hook: Hook, c: Context)
      requires hook.createdAt == c.now
      modifies this`hooks, this`hookEvents, this`events, this`slot
      ensures Working() ==
              Commit(old(Working()),
                     EventAt(HookCreated(id, hook.token, hook.info, hook.retainUntil, hook.claimedFrom), c), c.digest)
    {
      hooks := hooks[id := hook];
      PutEvent(HookCreated(id, hook.token, hook.info, hook.retainUntil, hook.claimedFrom), c.now);
      hookEvents := hookEvents[id := slot];
    }

    method DisposeHook(q: Request, c: Context) returns (o: Outcome)
      requires q.DisposeHook?
      modifies this`hooks, this`released, this`events, this`slot
      ensures Working() == Carry(old(Working()), RunEvents.Execute(old(Working()), q, c), c)
      ensures o == Answer(old(Working()), RunEvents.Execute(old(Working()), q, c), c)
    {
      if q.hook !in hooks { return Refused(HookNotFound); }
      released := released[q.hook := hooks[q.hook].token];
      hooks := hooks - {q.hook};
      PutEvent(HookDisposed(q.hook, None), c.now);
      o := Answered(Some(slot));
    }

    method ReceiveHook(q: Request, c: Context) returns (o: Outcome)
      requires q.ReceiveHook?
      modifies this`resumes, this`events, this`slot
      ensures Working() == Carry(old(Working()), RunEvents.Execute(old(Working()), q, c), c)
      ensures o == Answer(old(Working()), RunEvents.Execute(old(Working()), q, c), c)
    {
      PutEvent(HookReceived(q.hook, q.payload, c.resume), c.now);
      if Given(c.resume) { resumes := resumes[c.resume.value := Resume(q.hook, slot, c.digest)]; }
      o := Answered(Some(slot));
    }

    method CreateWait(q: Request, c: Context) returns (o: Outcome)
      requires q.CreateWait?
      modifies this`waits, this`events, this`slot
      ensures Working() == Carry(old(Working()), RunEvents.Execute(old(Working()), q, c), c)
      ensures o == Answer(old(Working()), RunEvents.Execute(old(Working()), q, c), c)
    {
      if q.wait in waits { return Refused(EntityConflict); }
      PutWait(q.wait, Wait(false, q.resumeAt, c.now, c.now, None), WaitCreated(q.wait, q.resumeAt), c);
      o := Answered(Some(slot));
    }

    method PutWait(id: Id, wait: Wait, d: EventData, c: Context)
      requires ReplayWaits(waits, EventAt(d, c)) == waits[id := wait] && (d.WaitCreated? || d.WaitCompleted?)
      modifies this`waits, this`events, this`slot
      ensures Working() == Commit(old(Working()), EventAt(d, c), c.digest)
    {
      waits := waits[id := wait];
      PutEvent(d, c.now);
    }

    method CompleteWait(q: Request, c: Context) returns (o: Outcome)
      requires q.CompleteWait?
      modifies this`waits, this`events, this`slot
      ensures Working() == Carry(old(Working()), RunEvents.Execute(old(Working()), q, c), c)
      ensures o == Answer(old(Working()), RunEvents.Execute(old(Working()), q, c), c)
    {
      if q.wait !in waits { return Refused(WaitNotFound); }
      var wait := waits[q.wait];
      if wait.completed { return Refused(EntityConflict); }
      PutWait(q.wait, wait.(completed := true, completedAt := Some(c.now), updatedAt := c.now,
                            resumeAt := if q.resumeAt.Some? then q.resumeAt else wait.resumeAt),
              WaitCompleted(q.wait, q.resumeAt), c);
      o := Answered(Some(slot));
    }

    // ---- the other transactions -------------------------------------------------------

    /** forceDisposeHook: hook, release marker, delivery fence and row in one transaction. */
    method ForceDispose(hook: Id, token: string, claimer: Owner, now: nat) returns (journaled: bool)
      modifies this
      ensures Stored() == RunEvents.ForceDispose(old(Stored()), hook, token, claimer, now)
      ensures journaled == (eventSequence != old(eventSequence))
    {
      if hook in forced || hook !in hooks || hooks[hook].token != token { return false; }
      FenceDelivery(hook, token, claimer);
      if run.None? || Ended(run.value.status) { return false; }
      eventSequence := eventSequence + 1;
      events := events[eventSequence := RunEvents.Event(HookDisposed(hook, Some(claimer)), now, run.value.spec)];
      return true;
    }

    /** The hook leaves and its delivery fence appears, together. */
    method FenceDelivery(hook: Id, token: string, claimer: Owner)
      requires hook in hooks && hooks[hook].token == token
      modifies this`hooks, this`released, this`forced
      ensures hooks == old(hooks) - {hook}
      ensures Stored().markers == Mark(old(Stored()).markers, old(hooks), HookDisposed(hook, Some(claimer)), 0, None)
    {
      released := released[hook := token];
      hooks := hooks - {hook};
      forced := forced[hook := ForceClaim(token, claimer)];
    }

    /** resolveForcedHookClaim: the claimer's own log decides. */
    method ResolveForcedHookClaim(hook: Id, token: string, claim: string, victim: Owner)
      returns (journaled: bool, live: Option<Hook>)
      modifies this`cancelled
      ensures Stored() == ResolveForced(old(Stored()), hook, token, claim, victim)
      ensures journaled == Journaled(old(Stored()), hook, token, victim)
      ensures live == if journaled then LiveHookOn(old(Stored()), hook, token) else None
    {
      if hook in hookEvents && hookEvents[hook] in events {
        var created := events[hookEvents[hook]].data;
        if created.HookCreated? && created.token == token && created.claimedFrom == Some(victim) {
          var alive := run.Some? && !Ended(run.value.status) && hook in hooks && hooks[hook].token == token;
          return true, if alive then Some(hooks[hook]) else None;
        }
      }
      cancelled := cancelled + {claim + ":" + claim, "-:" + claim};
      return false, None;
    }
  }

  function NewStep(name: string, input: Data, now: nat): Step {
    Step(name, Waiting, input, None, None, 0, now, now, None, None, None)
  }
}
