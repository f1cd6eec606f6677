/** What each request to a run's event store brings about: when it is accepted, which event stands in the
    log for it, and what the addressed row is then (src/apply-event.ts). */
module RunEffects {
  import opened Prelude
  import opened RunEvents
  import L = RunLog

  // ---- the four ways a request ends -----------------------------------------------------------------

  function Reply(s: Store, q: Request, c: Context): Outcome { L.ReplyTo(s, L.Apply(q, c)).outcome }

  /** Refused: nothing is written. */
  predicate Refuses(s: Store, q: Request, c: Context, code: ErrorCode) {
    Next(s, q, c) == s && Reply(s, q, c) == Refused(code)
  }

  /** Answered without an event. */
  predicate Repeats(s: Store, q: Request, c: Context) { Next(s, q, c) == s && Reply(s, q, c) == Answered(None) }

  function At(s: Store, n: nat, d: EventData, c: Context): map<nat, Event> {
    s.log[s.sequence + n := Event(d, c.now, SPEC_VERSION_CURRENT)]
  }

  /** Accepted with one event at the next slot, which the answer names. */
  predicate Records(s: Store, q: Request, c: Context, d: EventData) {
    && Next(s, q, c).sequence == s.sequence + 1 && Next(s, q, c).log == At(s, 1, d, c)
    && Reply(s, q, c) == Answered(Some(s.sequence + 1))
  }

  /** Accepted with two events at the next slots; the answer names the second. */
  predicate RecordsTwo(s: Store, q: Request, c: Context, d: EventData, e: EventData) {
    && Next(s, q, c).sequence == s.sequence + 2
    && Next(s, q, c).log == At(s, 1, d, c)[s.sequence + 2 := Event(e, c.now, SPEC_VERSION_CURRENT)]
    && Reply(s, q, c) == Answered(Some(s.sequence + 2))
  }

  /** A request that is decided by one event records it, and the rows follow. */
  lemma Lands(s: Store, q: Request, c: Context, d: EventData)
    requires Decide(s, q, c) == Append(d, None)
    ensures Records(s, q, c, d)
    ensures Next(s, q, c).tables == Replay(s.tables, EventAt(d, c))
    ensures Next(s, q, c).markers == Mark(s.markers, s.tables.hooks, d, s.sequence + 1, c.digest)
  {
  }

  // ---- what is written beside the events ---------------------------------------------------------------

  /** Exactly the run row changes. */
  predicate RunBecomes(s: Store, q: Request, c: Context, run: Run) {
    && Next(s, q, c).tables == Tables(Some(run), s.tables.steps, s.tables.hooks, s.tables.waits)
    && Next(s, q, c).markers == s.markers
  }

  /** Exactly this step's row changes. */
  predicate StepBecomes(s: Store, q: Request, c: Context, id: Id, step: Step) {
    && Next(s, q, c).tables == Tables(s.tables.run, s.tables.steps[id := step], s.tables.hooks, s.tables.waits)
    && Next(s, q, c).markers == s.markers
  }

  /** Exactly this wait's row changes. */
  predicate WaitBecomes(s: Store, q: Request, c: Context, id: Id, wait: Wait) {
    && Next(s, q, c).tables == Tables(s.tables.run, s.tables.steps, s.tables.hooks, s.tables.waits[id := wait])
    && Next(s, q, c).markers == s.markers
  }

  predicate HooksBecome(s: Store, q: Request, c: Context, hooks: map<Id, Hook>, markers: Markers) {
    && Next(s, q, c).tables == Tables(s.tables.run, s.tables.steps, hooks, s.tables.waits)
    && Next(s, q, c).markers == markers
  }

  /** No row changes. */
  predicate OnlyLogged(s: Store, q: Request, c: Context) {
    Next(s, q, c).tables == s.tables && Next(s, q, c).markers == s.markers
  }

  // ---- versions --------------------------------------------------------------------------------------------

  predicate Declared(c: Context) { c.spec.None? || c.spec.value == SPEC_VERSION_CURRENT }

  /** The request and the stored run are of the current version. */
  predicate Served(s: Store, c: Context) {
    Declared(c) && (s.tables.run.Some? ==> s.tables.run.value.spec == SPEC_VERSION_CURRENT)
  }

  predicate IsOver(status: RunStatus) { status == Completed || status == Failed || status == Cancelled }

  predicate HasEnded(s: Store) { s.tables.run.Some? && IsOver(s.tables.run.value.status) }

  predicate IsDone(step: Step) { step.status == Succeeded || step.status == Broken }

  /** Requests of another version are refused, and so is every request that reads a run of another version. */
  lemma OtherVersionsRefused(s: Store, q: Request, c: Context)
    ensures !Declared(c) ==> Refuses(s, q, c, RunNotSupported)
    ensures
      Declared(c) && !Served(s, c) && !q.CreateRun? && !q.CompleteStep? && !q.RetryStep? ==>
        Refuses(s, q, c, RunNotSupported)
  {
  }

  // ---- runs ---------------------------------------------------------------------------------------------------

  function NewRun(boot: Boot, c: Context): Run {
    Run(Pending, SPEC_VERSION_CURRENT, boot.info, boot.input, boot.attributes, None, None, c.now, c.now,
        None, None, None)
  }

  /** A created run is pending with what it was given; creating it again only answers. */
  lemma CreateRunEffect(s: Store, boot: Boot, c: Context)
    requires Declared(c)
    ensures
      var q := CreateRun(boot);
      if s.tables.run.Some? then Repeats(s, q, c)
      else Records(s, q, c, RunCreated(boot.info, boot.input, boot.attributes)) && RunBecomes(s, q, c, NewRun(boot, c))
  {
  }

  function StartedRun(r: Run, c: Context): Run {
    r.(status := Running, output := None, error := None, completedAt := None, updatedAt := c.now,
       startedAt := if r.startedAt.Some? then r.startedAt else Some(c.now))
  }

  /** A pending run starts once, keeping its first start; a running one only answers, an ended one is refused. */
  lemma StartRunEffect(s: Store, resilient: Option<Boot>, c: Context)
    requires Served(s, c) && (s.tables.run.None? ==> resilient.None?)
    ensures
      var q := StartRun(resilient);
      if s.tables.run.None? then Refuses(s, q, c, RunNotFound)
      else if IsOver(s.tables.run.value.status) then Refuses(s, q, c, RunExpired)
      else if s.tables.run.value.status.Running? then Repeats(s, q, c)
      else Records(s, q, c, RunStarted) && RunBecomes(s, q, c, StartedRun(s.tables.run.value, c))
  {
  }

  /** A start that carries the run's input creates and starts a missing run. */
  lemma ResilientStartEffect(s: Store, boot: Boot, c: Context)
    requires Declared(c) && s.tables.run.None?
    ensures
      var q := StartRun(Some(boot));
      && RecordsTwo(s, q, c, RunCreated(boot.info, boot.input, boot.attributes), RunStarted)
      && RunBecomes(s, q, c, StartedRun(NewRun(boot, c), c))
  {
  }

  /** The three ways a run ends: completed with its output, failed with its error, or cancelled with neither. */
  function EndedRun(r: Run, q: Request, c: Context): Run
    requires q.CompleteRun? || q.FailRun? || q.CancelRun?
  {
    match q
    case CompleteRun(output) =>
      r.(status := Completed, output := output, error := None, completedAt := Some(c.now), updatedAt := c.now)
    case FailRun(error) =>
      r.(status := Failed, output := None, error := Some(error), completedAt := Some(c.now), updatedAt := c.now)
    case CancelRun =>
      r.(status := Cancelled, output := None, error := None, completedAt := Some(c.now), updatedAt := c.now)
  }

  function EndEvent(q: Request): EventData
    requires q.CompleteRun? || q.FailRun? || q.CancelRun?
  {
    match q
    case CompleteRun(output) => RunCompleted(output)
    case FailRun(error) => RunFailed(error)
    case CancelRun => RunCancelled
  }

  /** A run that has not ended ends as asked. An ended one refuses, but for a cancellation of a cancelled run, which
      is recorded and changes nothing. */
  lemma EndRunEffect(s: Store, q: Request, c: Context)
    requires Served(s, c) && (q.CompleteRun? || q.FailRun? || q.CancelRun?)
    ensures
      if s.tables.run.None? then Refuses(s, q, c, RunNotFound)
      else if !IsOver(s.tables.run.value.status) then
        Records(s, q, c, EndEvent(q)) && RunBecomes(s, q, c, EndedRun(s.tables.run.value, q, c))
      else if q.CancelRun? && s.tables.run.value.status.Cancelled? then
        Records(s, q, c, RunCancelled) && OnlyLogged(s, q, c)
      else Refuses(s, q, c, EntityConflict)
  {
    if s.tables.run.Some? {
      if !HasEnded(s) { EndsAsAsked(s, q, c); }
      else if q.CancelRun? && s.tables.run.value.status.Cancelled? { CancelsAgain(s, c); }
    }
  }

  lemma EndsAsAsked(s: Store, q: Request, c: Context)
    requires Served(s, c) && (q.CompleteRun? || q.FailRun? || q.CancelRun?) && s.tables.run.Some? && !HasEnded(s)
    ensures Records(s, q, c, EndEvent(q)) && RunBecomes(s, q, c, EndedRun(s.tables.run.value, q, c))
  {
  }

  lemma CancelsAgain(s: Store, c: Context)
    requires Served(s, c) && s.tables.run.Some? && s.tables.run.value.status.Cancelled?
    ensures Records(s, CancelRun, c, RunCancelled) && OnlyLogged(s, CancelRun, c)
  {
  }

  /** A workflow's change counts once per correlation that is given. */
  predicate Counted(correlation: Option<Id>, byWorkflow: bool) {
    byWorkflow && correlation.Some? && correlation.value != ""
  }

  /** Attributes of a run that has not ended change as listed; nothing else of the run does but its update time. */
  lemma SetAttributesEffect(s: Store, correlation: Option<Id>, byWorkflow: bool, changes: seq<Change>, c: Context)
    requires Served(s, c) && s.tables.run.Some? && !HasEnded(s)
    requires Counted(correlation, byWorkflow) ==> correlation.value !in s.markers.attrEvents
    ensures
      var q, r := SetAttributes(correlation, byWorkflow, changes), s.tables.run.value;
      && Records(s, q, c, AttrSet(correlation, byWorkflow, changes))
      && Next(s, q, c).tables ==
         s.tables.(run := Some(r.(attributes := ApplyChanges(r.attributes, changes), updatedAt := c.now)))
      && Next(s, q, c).markers ==
         if Counted(correlation, byWorkflow)
         then s.markers.(attrEvents := s.markers.attrEvents[correlation.value := s.sequence + 1]) else s.markers
  {
    AttributesDecided(s, correlation, byWorkflow, changes, c);
    Lands(s, SetAttributes(correlation, byWorkflow, changes), c, AttrSet(correlation, byWorkflow, changes));
  }

  lemma AttributesDecided(s: Store, correlation: Option<Id>, byWorkflow: bool, changes: seq<Change>, c: Context)
    requires Served(s, c) && s.tables.run.Some? && !HasEnded(s)
    requires Counted(correlation, byWorkflow) ==> correlation.value !in s.markers.attrEvents
    ensures
      Decide(s, SetAttributes(correlation, byWorkflow, changes), c) ==
      Append(AttrSet(correlation, byWorkflow, changes), None)
  {
  }

  /** A missing run, an ended one and a correlation that was recorded refuse. */
  lemma SetAttributesRefused(s: Store, correlation: Option<Id>, byWorkflow: bool, changes: seq<Change>, c: Context)
    requires Served(s, c)
    ensures
      var q := SetAttributes(correlation, byWorkflow, changes);
      && (s.tables.run.None? ==> Refuses(s, q, c, RunNotFound))
      && (s.tables.run.Some? && (HasEnded(s) || (Counted(correlation, byWorkflow)
                                                 && correlation.value in s.markers.attrEvents)) ==>
            Refuses(s, q, c, EntityConflict))
  {
  }

  /** Of the changes to one attribute the last counts: it sets the value, or removes the attribute. */
  lemma {:induction false} LastChangeCounts(attributes: Attributes, changes: seq<Change>, k: nat)
    requires k < |changes| && forall j :: k < j < |changes| ==> changes[j].key != changes[k].key
    ensures Get(ApplyChanges(attributes, changes), changes[k].key) == changes[k].value
    decreases |changes|
  {
    var first := changes[0];
    var once := if first.value.Some? then attributes[first.key := first.value.value] else attributes - {first.key};
    var rest := changes[1..];
    if k > 0 {
      assert rest[k - 1] == changes[k] && forall j :: k - 1 < j < |rest| ==> rest[j] == changes[j + 1];
      LastChangeCounts(once, rest, k - 1);
    } else {
      assert forall j :: 0 <= j < |rest| ==> rest[j] == changes[j + 1];
      OthersUnchanged(once, rest, first.key);
    }
  }

  /** An attribute that no change names keeps its value. */
  lemma {:induction false} OthersUnchanged(attributes: Attributes, changes: seq<Change>, key: string)
    requires forall j :: 0 <= j < |changes| ==> changes[j].key != key
    ensures Get(ApplyChanges(attributes, changes), key) == Get(attributes, key)
    decreases |changes|
  {
    if changes != [] {
      var first := changes[0];
      var once := if first.value.Some? then attributes[first.key := first.value.value] else attributes - {first.key};
      OthersUnchanged(once, changes[1..], key);
    }
  }

  // ---- steps --------------------------------------------------------------------------------------------------

  function NewStep(name: string, input: Data, c: Context): Step {
    Step(name, Waiting, input, None, None, 0, c.now, c.now, None, None, None)
  }

  /** A created step waits with its input, not yet attempted. */
  lemma CreateStepEffect(s: Store, id: Id, name: string, input: Data, c: Context)
    requires Served(s, c)
    ensures
      var q := CreateStep(id, name, input);
      if s.tables.run.None? then Refuses(s, q, c, RunNotFound)
      else if HasEnded(s) || id in s.tables.steps then Refuses(s, q, c, EntityConflict)
      else Records(s, q, c, StepCreated(id, name, input)) && StepBecomes(s, q, c, id, NewStep(name, input, c))
  {
  }

  function StartedStep(step: Step, c: Context): Step {
    step.(status := Active, attempt := step.attempt + 1, retryAfter := None, updatedAt := c.now,
          startedAt := if step.startedAt.Some? then step.startedAt else Some(c.now))
  }

  /** A stored step starts: one attempt more, no wait left, its first start kept. It is refused before its retry
      time, once it has ended, and when its run has ended while it was not under way. */
  lemma StartStepEffect(s: Store, id: Id, name: string, c: Context)
    requires Served(s, c)
    ensures
      var q := StartStep(id, name, None);
      if id !in s.tables.steps then Refuses(s, q, c, StepNotFound)
      else
        var step := s.tables.steps[id];
        if IsDone(step) then Refuses(s, q, c, EntityConflict)
        else if HasEnded(s) && step.status != Active then Refuses(s, q, c, RunExpired)
        else if s.tables.run.None? then Refuses(s, q, c, RunNotFound)
        else if step.retryAfter.Some? && step.retryAfter.value > c.now then Refuses(s, q, c, TooEarly)
        else Records(s, q, c, StepStarted(id)) && StepBecomes(s, q, c, id, StartedStep(step, c))
  {
  }

  /** A start that carries the step's input creates a missing step and starts it; a step that is there conflicts. */
  lemma LazyStartEffect(s: Store, id: Id, name: string, input: Data, c: Context)
    requires Served(s, c)
    ensures
      var q := StartStep(id, name, Some(input));
      if HasEnded(s) || id in s.tables.steps then Refuses(s, q, c, EntityConflict)
      else if s.tables.run.None? then Refuses(s, q, c, RunNotFound)
      else if name == "" then Refuses(s, q, c, StepNotFound)
      else
        && RecordsTwo(s, q, c, StepCreated(id, name, input), StepStarted(id))
        && StepBecomes(s, q, c, id, StartedStep(NewStep(name, input, c), c))
  {
  }

  /** A step completes with its result or is put off with its error, whatever its run did meanwhile, unless it has
      ended. */
  lemma CompleteStepEffect(s: Store, id: Id, result: Option<Data>, c: Context)
    requires Declared(c)
    ensures
      var q := CompleteStep(id, result);
      if id !in s.tables.steps then Refuses(s, q, c, StepNotFound)
      else
        var step := s.tables.steps[id];
        if IsDone(step) then Refuses(s, q, c, EntityConflict)
        else
          && Records(s, q, c, StepCompleted(id, result))
          && StepBecomes(s, q, c, id,
                         step.(status := Succeeded, output := result, completedAt := Some(c.now), updatedAt := c.now))
  {
  }

  lemma RetryStepEffect(s: Store, id: Id, error: Data, retryAfter: Option<nat>, c: Context)
    requires Declared(c)
    ensures
      var q := RetryStep(id, error, retryAfter);
      if id !in s.tables.steps then Refuses(s, q, c, StepNotFound)
      else
        var step := s.tables.steps[id];
        if IsDone(step) then Refuses(s, q, c, EntityConflict)
        else
          && Records(s, q, c, StepRetrying(id, error, retryAfter))
          && StepBecomes(s, q, c, id,
                         step.(status := Waiting, error := Some(error), retryAfter := retryAfter, updatedAt := c.now))
  {
  }

  /** A step fails for good with its error, but not on behalf of an ended run unless it was under way. */
  lemma FailStepEffect(s: Store, id: Id, error: Data, c: Context)
    requires Served(s, c)
    ensures
      var q := FailStep(id, error);
      if id !in s.tables.steps then Refuses(s, q, c, StepNotFound)
      else
        var step := s.tables.steps[id];
        if IsDone(step) then Refuses(s, q, c, EntityConflict)
        else if HasEnded(s) && step.status != Active then Refuses(s, q, c, RunExpired)
        else if s.tables.run.None? then Refuses(s, q, c, RunNotFound)
        else
          && Records(s, q, c, StepFailed(id, error))
          && StepBecomes(s, q, c, id,
                         step.(status := Broken, error := Some(error), completedAt := Some(c.now), updatedAt := c.now))
  {
  }

  /** A retry counts: a step put off until `retryAfter` is refused before, and from then on starts with one attempt
      more and its error still on record. */
  lemma RetryComesBack(s: Store, id: Id, name: string, error: Data, retryAfter: nat, c: Context, d: Context)
    requires Served(s, c) && Served(s, d) && s.tables.run.Some? && !HasEnded(s)
    requires id in s.tables.steps && !IsDone(s.tables.steps[id])
    ensures
      var off, q := Next(s, RetryStep(id, error, Some(retryAfter)), c), StartStep(id, name, None);
      if d.now < retryAfter then Refuses(off, q, d, TooEarly)
      else
        var step := Next(off, q, d).tables.steps[id];
        && step.status == Active && step.attempt == s.tables.steps[id].attempt + 1
        && step.error == Some(error) && step.retryAfter.None? && step.input == s.tables.steps[id].input
  {
    RetryStepEffect(s, id, error, Some(retryAfter), c);
    StartStepEffect(Next(s, RetryStep(id, error, Some(retryAfter)), c), id, name, d);
  }

  // ---- hooks -----------------------------------------------------------------------------------------------------

  predicate ClaimCancelled(s: Store, c: Context) {
    c.claim.Some? && c.claim.value != "" && c.claim.value in s.markers.cancelled
  }

  predicate ForeignHolder(id: Id, c: Context) { c.holder.Some? && c.holder.value != Owner(c.run, id) }

  /** A hook that the log does not know is created as asked, with the hook it was forced from. */
  lemma CreateHookEffect(s: Store, id: Id, token: string, info: Data, retain: Option<nat>, force: bool, c: Context)
    requires Served(s, c) && s.tables.run.Some? && !HasEnded(s) && !ClaimCancelled(s, c)
    requires !ForeignHolder(id, c) && id !in s.markers.hookEvents
    ensures
      var q, from := CreateHook(id, token, info, retain, force), if force then c.claimedFrom else None;
      && Records(s, q, c, HookCreated(id, token, info, retain, from))
      && HooksBecome(s, q, c, s.tables.hooks[id := Hook(token, info, retain, from, c.now)],
                     s.markers.(hookEvents := s.markers.hookEvents[id := s.sequence + 1]))
  {
    HookDecided(s, id, token, info, retain, force, c);
    var from := if force then c.claimedFrom else None;
    Lands(s, CreateHook(id, token, info, retain, force), c, HookCreated(id, token, info, retain, from));
    CreationReplayed(s, id, Hook(token, info, retain, from, c.now), c);
  }

  lemma CreationReplayed(s: Store, id: Id, hook: Hook, c: Context)
    requires hook.createdAt == c.now
    ensures
      var d := HookCreated(id, hook.token, hook.info, hook.retainUntil, hook.claimedFrom);
      && Replay(s.tables, EventAt(d, c)) ==
         Tables(s.tables.run, s.tables.steps, s.tables.hooks[id := hook], s.tables.waits)
      && Mark(s.markers, s.tables.hooks, d, s.sequence + 1, c.digest) ==
         s.markers.(hookEvents := s.markers.hookEvents[id := s.sequence + 1])
  {
  }

  lemma HookDecided(s: Store, id: Id, token: string, info: Data, retain: Option<nat>, force: bool, c: Context)
    requires Served(s, c) && s.tables.run.Some? && !HasEnded(s) && !ClaimCancelled(s, c)
    requires !ForeignHolder(id, c) && id !in s.markers.hookEvents
    ensures
      Decide(s, CreateHook(id, token, info, retain, force), c) ==
      Append(HookCreated(id, token, info, retain, if force then c.claimedFrom else None), None)
  {
  }

  /** A cancelled reservation and an ended run refuse a creation; a token held by another hook leaves only a conflict
      in the log; a hook the log knows answers if it stands on the token as admitted, and conflicts otherwise. */
  lemma CreateHookOtherwise(s: Store, id: Id, token: string, info: Data, retain: Option<nat>, force: bool, c: Context)
    requires Served(s, c)
    ensures
      var q := CreateHook(id, token, info, retain, force);
      if s.tables.run.None? then Refuses(s, q, c, RunNotFound)
      else if HasEnded(s) then Refuses(s, q, c, EntityConflict)
      else if ClaimCancelled(s, c) then Refuses(s, q, c, HookClaimCancelled)
      else if ForeignHolder(id, c) then
        Records(s, q, c, HookConflict(id, token, c.holder.value.run)) && OnlyLogged(s, q, c)
      else id in s.markers.hookEvents ==>
        if id in s.tables.hooks && s.tables.hooks[id].token == token && c.holder.None? then Repeats(s, q, c)
        else Refuses(s, q, c, EntityConflict)
  {
    if s.tables.run.Some? && !HasEnded(s) && !ClaimCancelled(s, c) && ForeignHolder(id, c) {
      ConflictDecided(s, id, token, info, retain, force, c);
      Lands(s, CreateHook(id, token, info, retain, force), c, HookConflict(id, token, c.holder.value.run));
    }
  }

  lemma ConflictDecided(s: Store, id: Id, token: string, info: Data, retain: Option<nat>, force: bool, c: Context)
    requires Served(s, c) && s.tables.run.Some? && !HasEnded(s) && !ClaimCancelled(s, c) && ForeignHolder(id, c)
    ensures
      Decide(s, CreateHook(id, token, info, retain, force), c) ==
      Append(HookConflict(id, token, c.holder.value.run), None)
  {
  }

  /** A disposed hook's row is gone and its token is on record as released; disposing it again only answers. */
  lemma DisposeHookEffect(s: Store, id: Id, c: Context)
    requires Served(s, c)
    ensures
      var q := DisposeHook(id);
      if id !in s.tables.hooks then
        if id != "" && id in s.markers.released then Repeats(s, q, c)
        else Refuses(s, q, c, if id == "" && s.tables.run.None? then RunNotFound else HookNotFound)
      else if s.tables.run.None? then Refuses(s, q, c, RunNotFound)
      else
        && Records(s, q, c, HookDisposed(id, None))
        && HooksBecome(s, q, c, s.tables.hooks - {id},
                       s.markers.(released := s.markers.released[id := s.tables.hooks[id].token]))
  {
  }

  /** A first delivery to a live hook of a run that has not ended is recorded, and its resume id with it. */
  lemma ReceiveHookEffect(s: Store, id: Id, payload: Data, c: Context)
    requires Served(s, c) && id in s.tables.hooks && s.tables.run.Some? && !HasEnded(s)
    requires c.resume.Some? ==> c.resume.value !in s.markers.resumes
    ensures
      var q := ReceiveHook(id, payload);
      && Records(s, q, c, HookReceived(id, payload, c.resume))
      && HooksBecome(s, q, c, s.tables.hooks,
                     if c.resume.Some? && c.resume.value != ""
                     then s.markers.(resumes :=
                                       s.markers.resumes[c.resume.value := Resume(id, s.sequence + 1, c.digest)])
                     else s.markers)
  {
  }

  /** A hook that is not stored, or whose run has ended, accepts no first delivery; one that was taken over by force
      says so. */
  lemma ReceiveHookRefused(s: Store, id: Id, payload: Data, c: Context)
    requires Served(s, c) && id != "" && (c.resume.Some? ==> c.resume.value !in s.markers.resumes)
    ensures
      var q := ReceiveHook(id, payload);
      if id !in s.tables.hooks then Refuses(s, q, c, if id in s.markers.forced then HookForceClaimed else HookNotFound)
      else
        && (HasEnded(s) ==> Refuses(s, q, c, HookNotFound))
        && (s.tables.run.None? ==> Refuses(s, q, c, RunNotFound))
  {
  }

  /** A reported conflict is only logged. */
  lemma ReportConflictEffect(s: Store, id: Id, token: string, holder: string, c: Context)
    requires Served(s, c)
    ensures
      var q := ReportConflict(id, token, holder);
      if s.tables.run.None? then Refuses(s, q, c, RunNotFound)
      else Records(s, q, c, HookConflict(id, token, holder)) && OnlyLogged(s, q, c)
  {
  }

  /** A disposal forced by another run's takeover: the hook is gone, released and fenced against deliveries; on a run
      that has not ended it is logged with the claimer. */
  lemma ForcedDisposalEffect(s: Store, id: Id, token: string, claimer: Owner, now: nat)
    ensures
      var after := L.Step(s, L.ForceDisposal(id, token, claimer, now));
      if id in s.markers.forced || id !in s.tables.hooks || s.tables.hooks[id].token != token then after == s
      else
        && after.tables == s.tables.(hooks := s.tables.hooks - {id})
        && after.markers == s.markers.(released := s.markers.released[id := token],
                                       forced := s.markers.forced[id := ForceClaim(token, claimer)])
        && (if s.tables.run.None? || HasEnded(s) then after.log == s.log && after.sequence == s.sequence
            else
              && after.sequence == s.sequence + 1
              && after.log ==
                 s.log[s.sequence + 1 := Event(HookDisposed(id, Some(claimer)), now, s.tables.run.value.spec)])
  {
  }

  /** The same rows, with these reservations fenced. */
  predicate OnlyFences(s: Store, after: Store, claims: set<string>) {
    && after.tables == s.tables && after.log == s.log && after.sequence == s.sequence
    && after.markers == s.markers.(cancelled := s.markers.cancelled + claims)
  }

  predicate StandsOn(s: Store, id: Id, token: string) { id in s.tables.hooks && s.tables.hooks[id].token == token }

  /** Asked about a reservation, a cell finds its hook on the token, or fences exactly this reservation. */
  lemma TokenResolutionEffect(s: Store, id: Id, token: string, claim: string)
    ensures
      var tx := L.ResolveTokenClaim(id, token, claim);
      if StandsOn(s, id, token) then L.Step(s, tx) == s && L.ReplyTo(s, tx) == L.Committed(true)
      else OnlyFences(s, L.Step(s, tx), {claim}) && L.ReplyTo(s, tx) == L.Committed(false)
  {
  }

  /** Asked about an expired claim, it answers the hook that stands, on that token if one is named, or fences both
      forms of the reservation; an ended run does neither. */
  lemma ExpiredResolutionEffect(s: Store, id: Id, onToken: Option<string>, claim: string)
    ensures
      var tx := L.ResolveExpiredClaim(id, onToken, claim);
      if HasEnded(s) then L.Step(s, tx) == s && L.ReplyTo(s, tx) == L.Found(None)
      else if id in s.tables.hooks && (onToken.None? || s.tables.hooks[id].token == onToken.value) then
        L.Step(s, tx) == s && L.ReplyTo(s, tx) == L.Found(Some(s.tables.hooks[id]))
      else
        && OnlyFences(s, L.Step(s, tx), {claim + ":" + claim, "-:" + claim})
        && L.ReplyTo(s, tx) == L.Found(None)
  {
  }

  /** The event is a forced creation of this hook on this token, against this victim. */
  predicate ForcedCreation(d: EventData, id: Id, token: string, victim: Owner) {
    d.HookCreated? && d.hook == id && d.token == token && d.claimedFrom == Some(victim)
  }

  ghost predicate LogHolds(s: Store, id: Id, token: string, victim: Owner) {
    exists k :: k in s.log && ForcedCreation(s.log[k].data, id, token, victim)
  }

  lemma JournaledExactly(s: Store, id: Id, token: string, victim: Owner)
    requires L.Inv(s)
    ensures Journaled(s, id, token, victim) <==> LogHolds(s, id, token, victim)
  {
    if LogHolds(s, id, token, victim) {
      var k :| k in s.log && ForcedCreation(s.log[k].data, id, token, victim);
      OnlyCreation(s, id, k);
    }
  }

  lemma OnlyCreation(s: Store, id: Id, k: nat)
    requires L.Inv(s) && k in s.log && s.log[k].data.HookCreated? && s.log[k].data.hook == id
    ensures id in s.markers.hookEvents && s.markers.hookEvents[id] == k
  {
    assert L.KeyOf(s.log[k].data) == Some(L.HookBirth(id)) && L.KeysTaken(s) && L.KeysDistinct(s) && L.MarkersTrue(s);
    assert L.Taken(s, L.HookBirth(id));
    var j := s.markers.hookEvents[id];
    assert j in s.log && L.KeyOf(s.log[j].data) == Some(L.HookBirth(id));
  }

  /** The settler's question: answered from the log, with the hook if it still stands on a run that has not ended;
      if the log holds no such creation, both forms of the reservation are fenced. */
  lemma ForcedResolutionEffect(s: Store, id: Id, token: string, claim: string, victim: Owner)
    requires L.Inv(s)
    ensures
      var tx := L.ResolveForcedClaim(id, token, claim, victim);
      if LogHolds(s, id, token, victim) then
        && L.Step(s, tx) == s
        && L.ReplyTo(s, tx) ==
           L.ForceResolved(true, if s.tables.run.Some? && !HasEnded(s) && StandsOn(s, id, token)
                                 then Some(s.tables.hooks[id]) else None)
      else
        && OnlyFences(s, L.Step(s, tx), {claim + ":" + claim, "-:" + claim})
        && L.ReplyTo(s, tx) == L.ForceResolved(false, None)
  {
    JournaledExactly(s, id, token, victim);
  }

  /** A fenced reservation refuses later creations. */
  lemma FencedCreationRefused(s: Store, id: Id, token: string, claim: string, q: Request, c: Context)
    requires Served(s, c) && s.tables.run.Some? && !HasEnded(s) && claim != ""
    requires q.CreateHook? && q.hook == id && q.token == token && c.claim == Some(claim) && !StandsOn(s, id, token)
    ensures Refuses(L.Step(s, L.ResolveTokenClaim(id, token, claim)), q, c, HookClaimCancelled)
  {
  }

  /** Cleanup takes rows of ended runs alone, one by one, and the due date is stamped on an ended run's row. */
  lemma CleanupEffect(s: Store, id: Id, dueAt: nat)
    ensures
      if HasEnded(s) then
        && L.Step(s, L.CleanHook(id)) == s.(tables := s.tables.(hooks := s.tables.hooks - {id}))
        && L.Step(s, L.CleanWait(id)) == s.(tables := s.tables.(waits := s.tables.waits - {id}))
        && L.Step(s, L.Stamp(dueAt)) ==
           s.(tables := s.tables.(run := Some(s.tables.run.value.(expiredAt := Some(dueAt)))))
      else L.Step(s, L.CleanHook(id)) == L.Step(s, L.CleanWait(id)) == L.Step(s, L.Stamp(dueAt)) == s
  {
  }

  // ---- waits -----------------------------------------------------------------------------------------------------

  /** A created wait is open until its time. */
  lemma CreateWaitEffect(s: Store, id: Id, resumeAt: Option<nat>, c: Context)
    requires Served(s, c)
    ensures
      var q := CreateWait(id, resumeAt);
      if s.tables.run.None? then Refuses(s, q, c, RunNotFound)
      else if HasEnded(s) || id in s.tables.waits then Refuses(s, q, c, EntityConflict)
      else
        && Records(s, q, c, WaitCreated(id, resumeAt))
        && WaitBecomes(s, q, c, id, Wait(false, resumeAt, c.now, c.now, None))
  {
  }

  /** An open wait completes once, under the time given or its own. */
  lemma CompleteWaitEffect(s: Store, id: Id, resumeAt: Option<nat>, c: Context)
    requires Served(s, c)
    ensures
      var q := CompleteWait(id, resumeAt);
      if s.tables.run.None? then Refuses(s, q, c, RunNotFound)
      else if id !in s.tables.waits then Refuses(s, q, c, WaitNotFound)
      else if s.tables.waits[id].completed then Refuses(s, q, c, EntityConflict)
      else
        var wait := s.tables.waits[id];
        && Records(s, q, c, WaitCompleted(id, resumeAt))
        && WaitBecomes(s, q, c, id,
                       Wait(true, if resumeAt.Some? then resumeAt else wait.resumeAt,
                            wait.createdAt, c.now, Some(c.now)))
  {
  }
}
