/** The events of one run, what they do to its tables, and which requests are accepted
    (src/apply-event.ts). */
module RunEvents {
  import opened Prelude

  type Id = string
  /** Serialized values the store never looks into. */
  type Data = string
  type Attributes = map<string, Data>

  datatype Owner = Owner(run: string, hook: Id)

  datatype RunStatus = Pending | Running | Completed | Failed | Cancelled

  datatype Run = Run(
    status: RunStatus, spec: nat, info: Data, input: Data, attributes: Attributes,
    output: Option<Data>, error: Option<Data>, createdAt: nat, updatedAt: nat,
    startedAt: Option<nat>, completedAt: Option<nat>, expiredAt: Option<nat>)

  datatype StepStatus = Waiting | Active | Succeeded | Broken

  datatype Step = Step(
    name: string, status: StepStatus, input: Data, output: Option<Data>, error: Option<Data>, attempt: nat,
    createdAt: nat, updatedAt: nat, startedAt: Option<nat>, completedAt: Option<nat>, retryAfter: Option<nat>)

  datatype Hook = Hook(
    token: string, info: Data, retainUntil: Option<nat>, claimedFrom: Option<Owner>, createdAt: nat)

  datatype Wait = Wait(
    completed: bool, resumeAt: Option<nat>, createdAt: nat, updatedAt: nat, completedAt: Option<nat>)

  datatype Change = Change(key: string, value: Option<Data>)

  const SPEC_VERSION_CURRENT: nat := 3

  predicate Ended(status: RunStatus) { status.Completed? || status.Failed? || status.Cancelled? }

  predicate StepEnded(status: StepStatus) { status.Succeeded? || status.Broken? }

  // ---- events and the tables they build -------------------------------------

  datatype EventData =
    | RunCreated(info: Data, input: Data, attributes: Attributes)
    | RunStarted
    | RunCompleted(output: Option<Data>)
    | RunFailed(error: Data)
    | RunCancelled
    | AttrSet(correlation: Option<Id>, byWorkflow: bool, changes: seq<Change>)
    | StepCreated(step: Id, name: string, input: Data)
    | StepStarted(step: Id)
    | StepCompleted(step: Id, result: Option<Data>)
    | StepFailed(step: Id, error: Data)
    | StepRetrying(step: Id, error: Data, retryAfter: Option<nat>)
    | HookCreated(hook: Id, token: string, info: Data, retainUntil: Option<nat>, claimedFrom: Option<Owner>)
    | HookDisposed(hook: Id, forcedBy: Option<Owner>)
    | HookReceived(hook: Id, payload: Data, resume: Option<string>)
    | HookConflict(hook: Id, token: string, holder: string)
    | WaitCreated(wait: Id, resumeAt: Option<nat>)
    | WaitCompleted(wait: Id, resumeAt: Option<nat>)

  datatype Event = Event(data: EventData, at: nat, spec: nat)

  datatype Tables = Tables(run: Option<Run>, steps: map<Id, Step>, hooks: map<Id, Hook>, waits: map<Id, Wait>)

  const NO_TABLES := Tables(None, map[], map[], map[])

  function ApplyChanges(attributes: Attributes, changes: seq<Change>): Attributes
    decreases |changes|
  {
    if changes == [] then attributes
    else
      var c := changes[0];
      ApplyChanges(if c.value.Some? then attributes[c.key := c.value.value] else attributes - {c.key}, changes[1..])
  }

  /** A run only moves while it has not ended. */
  function ReplayRun(run: Option<Run>, e: Event): Option<Run> {
    match run
    case None =>
      (match e.data
       case RunCreated(info, input, attributes) =>
         Some(Run(Pending, e.spec, info, input, attributes, None, None, e.at, e.at, None, None, None))
       case _ => None)
    case Some(r) =>
      if Ended(r.status) then run
      else match e.data
        case RunStarted =>
          Some(r.(status := Running, output := None, error := None, completedAt := None, updatedAt := e.at,
                  startedAt := if r.startedAt.Some? then r.startedAt else Some(e.at)))
        case RunCompleted(output) =>
          Some(r.(status := Completed, output := output, error := None, completedAt := Some(e.at), updatedAt := e.at))
        case RunFailed(error) =>
          Some(r.(status := Failed, output := None, error := Some(error), completedAt := Some(e.at), updatedAt := e.at))
        case RunCancelled =>
          Some(r.(status := Cancelled, output := None, error := None, completedAt := Some(e.at), updatedAt := e.at))
        case AttrSet(_, _, changes) =>
          Some(r.(attributes := ApplyChanges(r.attributes, changes), updatedAt := e.at))
        case _ => run
  }

  /** What an event makes of its step. */
  function ReplayStep(prior: Option<Step>, e: Event): Option<Step> {
    match e.data
    case StepCreated(_, name, input) =>
      Some(Step(name, Waiting, input, None, None, 0, e.at, e.at, None, None, None))
    case StepStarted(_) => if prior.None? then None else
      Some(prior.value.(status := Active, attempt := prior.value.attempt + 1, retryAfter := None, updatedAt := e.at,
                startedAt := if prior.value.startedAt.Some? then prior.value.startedAt else Some(e.at)))
    case StepCompleted(_, result) => if prior.None? then None else
      Some(prior.value.(status := Succeeded, output := result, completedAt := Some(e.at), updatedAt := e.at))
    case StepFailed(_, error) => if prior.None? then None else
      Some(prior.value.(status := Broken, error := Some(error), completedAt := Some(e.at), updatedAt := e.at))
    case StepRetrying(_, error, retryAfter) => if prior.None? then None else
      Some(prior.value.(status := Waiting, error := Some(error), retryAfter := retryAfter, updatedAt := e.at))
    case _ => prior
  }

  function Get<V>(m: map<Id, V>, k: Id): Option<V> { if k in m then Some(m[k]) else None }

  function Set<V>(m: map<Id, V>, k: Id, v: Option<V>): map<Id, V> { if v.Some? then m[k := v.value] else m }

  predicate OfStep(d: EventData) {
    d.StepCreated? || d.StepStarted? || d.StepCompleted? || d.StepFailed? || d.StepRetrying?
  }

  function ReplaySteps(steps: map<Id, Step>, e: Event): map<Id, Step> {
    if OfStep(e.data) then Set(steps, e.data.step, ReplayStep(Get(steps, e.data.step), e)) else steps
  }

  function ReplayHooks(hooks: map<Id, Hook>, e: Event): map<Id, Hook> {
    match e.data
    case HookCreated(h, token, info, retainUntil, claimedFrom) =>
      hooks[h := Hook(token, info, retainUntil, claimedFrom, e.at)]
    case HookDisposed(h, _) => hooks - {h}
    case _ => hooks
  }

  function ReplayWaits(waits: map<Id, Wait>, e: Event): map<Id, Wait> {
    match e.data
    case WaitCreated(w, resumeAt) => waits[w := Wait(false, resumeAt, e.at, e.at, None)]
    case WaitCompleted(w, resumeAt) =>
      if w in waits then
        waits[w := waits[w].(completed := true, completedAt := Some(e.at), updatedAt := e.at,
                             resumeAt := if resumeAt.Some? then resumeAt else waits[w].resumeAt)]
      else waits
    case _ => waits
  }

  /** The meaning of one event. */
  function Replay(t: Tables, e: Event): Tables {
    Tables(ReplayRun(t.run, e), ReplaySteps(t.steps, e), ReplayHooks(t.hooks, e), ReplayWaits(t.waits, e))
  }

  /** The fold of a log. */
  function Fold(log: seq<Event>): Tables {
    if log == [] then NO_TABLES else Replay(Fold(log[..|log| - 1]), log[|log| - 1])
  }

  // ---- the store ---------------------------------------------------------------

  datatype Resume = Resume(hook: Id, slot: nat, digest: Option<string>)
  datatype ForceClaim = ForceClaim(token: string, claimer: Owner)

  /** The marker rows beside the tables. `cancelled` holds the fenced event claims. */
  datatype Markers = Markers(
    hookEvents: map<Id, nat>, attrEvents: map<Id, nat>, resumes: map<string, Resume>,
    released: map<Id, string>, forced: map<Id, ForceClaim>, cancelled: set<string>)

  const NO_MARKERS := Markers(map[], map[], map[], map[], map[], {})

  datatype Store = Store(tables: Tables, markers: Markers, log: map<nat, Event>, sequence: nat)

  const EMPTY := Store(NO_TABLES, NO_MARKERS, map[], 0)

  /** An id that the source treats as given: `undefined` and the empty string are not. */
  predicate Given(id: Option<string>) { id.Some? && id.value != "" }

  function Mark(m: Markers, hooks: map<Id, Hook>, d: EventData, slot: nat, digest: Option<string>): Markers {
    match d
    case HookCreated(h, _, _, _, _) => m.(hookEvents := m.hookEvents[h := slot])
    case AttrSet(correlation, byWorkflow, _) =>
      if byWorkflow && Given(correlation) then m.(attrEvents := m.attrEvents[correlation.value := slot]) else m
    case HookReceived(h, _, resume) =>
      if Given(resume) then m.(resumes := m.resumes[resume.value := Resume(h, slot, digest)]) else m
    case HookDisposed(h, forcedBy) =>
      if h !in hooks then m
      else
        var released := m.(released := m.released[h := hooks[h].token]);
        if forcedBy.Some? then released.(forced := released.forced[h := ForceClaim(hooks[h].token, forcedBy.value)])
        else released
    case _ => m
  }

  /** Append one event: the next slot, its meaning, its markers. */
  function Commit(s: Store, e: Event, digest: Option<string>): Store {
    var slot := s.sequence + 1;
    Store(Replay(s.tables, e), Mark(s.markers, s.tables.hooks, e.data, slot, digest), s.log[slot := e], slot)
  }

  // ---- requests ------------------------------------------------------------------

  /** The run input carried by a queue message, when it names a deployment, a workflow and an input. */
  datatype Boot = Boot(info: Data, input: Data, attributes: Attributes)

  datatype Request =
    | CreateRun(boot: Boot)
    | StartRun(resilient: Option<Boot>)
    | CompleteRun(output: Option<Data>)
    | FailRun(error: Data)
    | CancelRun
    | SetAttributes(correlation: Option<Id>, byWorkflow: bool, changes: seq<Change>)
    | CreateStep(step: Id, name: string, input: Data)
    | StartStep(step: Id, name: string, lazyInput: Option<Data>)
    | CompleteStep(step: Id, result: Option<Data>)
    | FailStep(step: Id, error: Data)
    | RetryStep(step: Id, error: Data, retryAfter: Option<nat>)
    | CreateHook(hook: Id, token: string, info: Data, retainUntil: Option<nat>, force: bool)
    | DisposeHook(hook: Id)
    | ReceiveHook(hook: Id, payload: Data)
    | ReportConflict(hook: Id, token: string, holder: string)
    | CreateWait(wait: Id, resumeAt: Option<nat>)
    | CompleteWait(wait: Id, resumeAt: Option<nat>)

  /** What comes with a request: the time, the declared version, and the outcome of token admission. */
  datatype Context = Context(
    run: string, now: nat, spec: Option<nat>, holder: Option<Owner>, claim: Option<string>,
    claimedFrom: Option<Owner>, resume: Option<string>, digest: Option<string>)

  datatype ErrorCode =
    | RunNotFound | StepNotFound | HookNotFound | HookForceClaimed | WaitNotFound | EntityConflict
    | HookClaimCancelled | RunExpired | TooEarly | RunNotSupported

  /** Refused, answered without a new event (naming the event answered, if any), or events appended. */
  datatype Decision =
    Refuse(code: ErrorCode) | Known(slot: Option<nat>) | Append(first: EventData, second: Option<EventData>)

  /** @workflow/world's isChildEntityCreationEvent. */
  predicate CreatesChild(q: Request) {
    q.CreateStep? || q.CreateHook? || q.CreateWait? || (q.StartStep? && q.lazyInput.Some?)
  }

  /** Requests that are judged without reading the run. */
  predicate SkipsRun(q: Request) { q.CreateRun? || q.CompleteStep? || q.RetryStep? }

  predicate OnStep(q: Request) { q.StartStep? || q.CompleteStep? || q.FailStep? || q.RetryStep? }

  function EndedGuard(status: RunStatus, q: Request): Option<Decision> {
    if q.CancelRun? && status.Cancelled? then Some(Append(RunCancelled, None))
    else if q.StartRun? then Some(Refuse(RunExpired))
    else if q.CompleteRun? || q.FailRun? || q.CancelRun? || CreatesChild(q) || q.SetAttributes? then
      Some(Refuse(EntityConflict))
    else None
  }

  function StepGuard(t: Tables, q: Request): Option<Decision>
    requires OnStep(q)
  {
    var lazy := q.StartStep? && q.lazyInput.Some?;
    match Get(t.steps, q.step)
    case None => if lazy then None else Some(Refuse(StepNotFound))
    case Some(step) =>
      if lazy || StepEnded(step.status) then Some(Refuse(EntityConflict))
      else if !SkipsRun(q) && t.run.Some? && Ended(t.run.value.status) && !step.status.Active? then
        Some(Refuse(RunExpired))
      else None
  }

  /** A resume id that was recorded before answers its event, or conflicts. */
  function ResumeGuard(s: Store, hook: Id, c: Context): Option<Decision> {
    if !Given(c.resume) || c.resume.value !in s.markers.resumes then None
    else
      var known := s.markers.resumes[c.resume.value];
      if known.hook != hook then Some(Refuse(EntityConflict))
      else if Given(known.digest) && Given(c.digest) && known.digest != c.digest then Some(Refuse(EntityConflict))
      else if known.slot !in s.log then None
      else
        var d := s.log[known.slot].data;
        Some(if d.HookReceived? && d.hook == known.hook && d.resume == c.resume
             then Known(Some(known.slot)) else Refuse(EntityConflict))
  }

  function HookGuard(s: Store, q: Request): Option<Decision>
    requires q.DisposeHook? || q.ReceiveHook?
  {
    var t := s.tables;
    if q.hook == "" then None
    else if q.hook !in t.hooks then
      Some(if q.DisposeHook? && q.hook in s.markers.released then Known(None)
           else if q.ReceiveHook? && q.hook in s.markers.forced then Refuse(HookForceClaimed)
           else Refuse(HookNotFound))
    else if q.ReceiveHook? && t.run.Some? && Ended(t.run.value.status) then Some(Refuse(HookNotFound))
    else None
  }

  function CreateHookDecision(s: Store, q: Request, c: Context): Decision
    requires q.CreateHook?
  {
    if Given(c.claim) && c.claim.value in s.markers.cancelled then Refuse(HookClaimCancelled)
    else if c.holder.Some? && c.holder.value != Owner(c.run, q.hook) then
      Append(HookConflict(q.hook, q.token, c.holder.value.run), None)
    else if q.hook in s.markers.hookEvents then
      if q.hook in s.tables.hooks && c.holder.None? && s.tables.hooks[q.hook].token == q.token then Known(None)
      else Refuse(EntityConflict)
    else Append(HookCreated(q.hook, q.token, q.info, q.retainUntil, if q.force then c.claimedFrom else None), None)
  }

  function StartStepDecision(t: Tables, q: Request, now: nat): Decision
    requires q.StartStep?
  {
    match Get(t.steps, q.step)
    case None =>
      if q.lazyInput.Some? && q.name != ""
      then Append(StepCreated(q.step, q.name, q.lazyInput.value), Some(StepStarted(q.step)))
      else Refuse(StepNotFound)
    case Some(step) =>
      if step.retryAfter.Some? && step.retryAfter.value > now then Refuse(TooEarly)
      else Append(StepStarted(q.step), None)
  }

  /** A request that passed every guard. */
  function Execute(s: Store, q: Request, c: Context): Decision {
    var t := s.tables;
    match q
    case CreateRun(boot) =>
      if t.run.Some? then Known(None) else Append(RunCreated(boot.info, boot.input, boot.attributes), None)
    case StartRun(_) =>
      if t.run.None? then Refuse(RunNotFound)
      else if t.run.value.status.Running? then Known(None) else Append(RunStarted, None)
    case CompleteRun(output) => Append(RunCompleted(output), None)
    case FailRun(error) => Append(RunFailed(error), None)
    case CancelRun => Append(RunCancelled, None)
    case SetAttributes(correlation, byWorkflow, changes) =>
      if byWorkflow && Given(correlation) && correlation.value in s.markers.attrEvents then Refuse(EntityConflict)
      else Append(AttrSet(correlation, byWorkflow, changes), None)
    case CreateStep(step, name, input) =>
      if step in t.steps then Refuse(EntityConflict) else Append(StepCreated(step, name, input), None)
    case StartStep(_, _, _) => StartStepDecision(t, q, c.now)
    case CompleteStep(step, result) => Append(StepCompleted(step, result), None)
    case FailStep(step, error) => Append(StepFailed(step, error), None)
    case RetryStep(step, error, retryAfter) => Append(StepRetrying(step, error, retryAfter), None)
    case CreateHook(_, _, _, _, _) => CreateHookDecision(s, q, c)
    case DisposeHook(hook) => if hook in t.hooks then Append(HookDisposed(hook, None), None) else Refuse(HookNotFound)
    case ReceiveHook(hook, payload) => Append(HookReceived(hook, payload, c.resume), None)
    case ReportConflict(hook, token, holder) => Append(HookConflict(hook, token, holder), None)
    case CreateWait(wait, resumeAt) =>
      if wait in t.waits then Refuse(EntityConflict) else Append(WaitCreated(wait, resumeAt), None)
    case CompleteWait(wait, resumeAt) =>
      if wait !in t.waits then Refuse(WaitNotFound)
      else if t.waits[wait].completed then Refuse(EntityConflict)
      else Append(WaitCompleted(wait, resumeAt), None)
  }

  /** The guards on steps, hooks and a missing run, in order. */
  function OrderGuard(s: Store, q: Request, c: Context): Option<Decision> {
    if OnStep(q) && StepGuard(s.tables, q).Some? then StepGuard(s.tables, q)
    else if q.ReceiveHook? && ResumeGuard(s, q.hook, c).Some? then ResumeGuard(s, q.hook, c)
    else if (q.DisposeHook? || q.ReceiveHook?) && HookGuard(s, q).Some? then HookGuard(s, q)
    else if !SkipsRun(q) && !q.StartRun? && s.tables.run.None? then Some(Refuse(RunNotFound))
    else None
  }

  /** The guards in the order the source checks them: first that of an ended run. */
  function Guard(s: Store, q: Request, c: Context): Option<Decision> {
    var run := s.tables.run;
    if !SkipsRun(q) && run.Some? && Ended(run.value.status) && EndedGuard(run.value.status, q).Some? then
      EndedGuard(run.value.status, q)
    else OrderGuard(s, q, c)
  }

  function Guarded(s: Store, q: Request, c: Context): Decision {
    var guard := Guard(s, q, c);
    if guard.Some? then guard.value else Execute(s, q, c)
  }

  function Decide(s: Store, q: Request, c: Context): Decision {
    if c.spec.Some? && c.spec.value != SPEC_VERSION_CURRENT then Refuse(RunNotSupported)
    else if q.StartRun? && q.resilient.Some? && s.tables.run.None? then
      var boot := q.resilient.value;
      Append(RunCreated(boot.info, boot.input, boot.attributes), Some(RunStarted))
    else if !SkipsRun(q) && s.tables.run.Some? && s.tables.run.value.spec != SPEC_VERSION_CURRENT then
      Refuse(RunNotSupported)
    else Guarded(s, q, c)
  }

  function EventAt(d: EventData, c: Context): Event { Event(d, c.now, SPEC_VERSION_CURRENT) }

  /** One request against the store. */
  function Next(s: Store, q: Request, c: Context): Store {
    Carry(s, Decide(s, q, c), c)
  }

  /** Only an appending decision changes the store. */
  function Carry(s: Store, d: Decision, c: Context): Store {
    match d
    case Append(first, second) =>
      var once := Commit(s, EventAt(first, c), c.digest);
      if second.None? then once else Commit(once, EventAt(second.value, c), c.digest)
    case _ => s
  }

  datatype Outcome = Refused(code: ErrorCode) | Answered(event: Option<nat>)

  /** The answer names the event that stands for the request: the last one appended, or the known one. */
  function Answer(s: Store, d: Decision, c: Context): Outcome {
    match d
    case Refuse(code) => Refused(code)
    case Known(slot) => Answered(slot)
    case Append(_, _) => Answered(Some(Carry(s, d, c).sequence))
  }

  // ---- the other transactions of a run cell ------------------------------------------

  /** applyForcedHookDisposal: the hook leaves, its delivery fence appears; a finished run gets no row. */
  function ForceDispose(s: Store, hook: Id, token: string, claimer: Owner, now: nat): Store {
    if hook in s.markers.forced || hook !in s.tables.hooks || s.tables.hooks[hook].token != token then s
    else if s.tables.run.None? || Ended(s.tables.run.value.status) then
      s.(tables := s.tables.(hooks := s.tables.hooks - {hook}),
         markers := Mark(s.markers, s.tables.hooks, HookDisposed(hook, Some(claimer)), 0, None))
    else Commit(s, Event(HookDisposed(hook, Some(claimer)), now, s.tables.run.value.spec), None)
  }

  /** The claimer's log holds a forced creation of this hook against exactly this victim. */
  predicate Journaled(s: Store, hook: Id, token: string, victim: Owner) {
    && hook in s.markers.hookEvents
    && s.markers.hookEvents[hook] in s.log
    && var d := s.log[s.markers.hookEvents[hook]].data;
       d.HookCreated? && d.token == token && d.claimedFrom == Some(victim)
  }

  function HookOn(s: Store, hook: Id, token: string): Option<Hook> {
    if hook in s.tables.hooks && s.tables.hooks[hook].token == token then Some(s.tables.hooks[hook]) else None
  }

  /** The hook of a run that has not ended. */
  function LiveHookOn(s: Store, hook: Id, token: string): Option<Hook> {
    if s.tables.run.Some? && !Ended(s.tables.run.value.status) then HookOn(s, hook, token) else None
  }

  /** resolveForcedHookClaim: answer from the log, or fence both forms of the reservation. */
  function ResolveForced(s: Store, hook: Id, token: string, claim: string, victim: Owner): Store {
    if Journaled(s, hook, token, victim) then s else Fence(s, {claim + ":" + claim, "-:" + claim})
  }

  function Fence(s: Store, claims: set<string>): Store {
    s.(markers := s.markers.(cancelled := s.markers.cancelled + claims))
  }

  /** Paged cleanup of a finished run drops its hooks and waits. */
  function DropHook(s: Store, hook: Id): Store {
    if s.tables.run.Some? && Ended(s.tables.run.value.status)
    then s.(tables := s.tables.(hooks := s.tables.hooks - {hook})) else s
  }

  function DropWait(s: Store, wait: Id): Store {
    if s.tables.run.Some? && Ended(s.tables.run.value.status)
    then s.(tables := s.tables.(waits := s.tables.waits - {wait})) else s
  }

  /** Retention stamps a finished run with its due date. */
  function StampExpiry(s: Store, dueAt: nat): Store {
    if s.tables.run.Some? && Ended(s.tables.run.value.status)
    then s.(tables := s.tables.(run := Some(s.tables.run.value.(expiredAt := Some(dueAt))))) else s
  }
}
