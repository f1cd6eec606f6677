/** What every history of a run cell keeps: a dense append-only log, tables that are its fold,
    and no two events under one identity (src/apply-event.ts, src/worker/durable-objects/WorkflowRunDO.ts). */
module RunLog {
  import opened Prelude
  import opened RunEvents

  /** Every transaction that touches the log, the tables or the markers. */
  datatype Transaction =
    | Apply(q: Request, c: Context)
    | ForceDisposal(hook: Id, token: string, claimer: Owner, now: nat)
    | ResolveForcedClaim(hook: Id, token: string, claim: string, victim: Owner)
    | ResolveTokenClaim(hook: Id, token: string, claim: string)
    | ResolveExpiredClaim(hook: Id, onToken: Option<string>, claim: string)
    | CleanHook(hook: Id)
    | CleanWait(wait: Id)
    | Stamp(dueAt: nat)

  predicate RunEnded(s: Store) { s.tables.run.Some? && Ended(s.tables.run.value.status) }

  function Step(s: Store, tx: Transaction): Store {
    match tx
    case Apply(q, c) => Next(s, q, c)
    case ForceDisposal(hook, token, claimer, now) => ForceDispose(s, hook, token, claimer, now)
    case ResolveForcedClaim(hook, token, claim, victim) => ResolveForced(s, hook, token, claim, victim)
    case ResolveTokenClaim(hook, token, claim) =>
      if hook in s.tables.hooks && s.tables.hooks[hook].token == token then s else Fence(s, {claim})
    case ResolveExpiredClaim(hook, onToken, claim) =>
      if RunEnded(s) ||
          (hook in s.tables.hooks && (onToken.None? || s.tables.hooks[hook].token == onToken.value)) then s
      else Fence(s, {claim + ":" + claim, "-:" + claim})
    case CleanHook(hook) => DropHook(s, hook)
    case CleanWait(wait) => DropWait(s, wait)
    case Stamp(dueAt) => StampExpiry(s, dueAt)
  }

  /** What a transaction answers its caller. */
  datatype Reply =
    | Applied(outcome: Outcome)
    | Committed(committed: bool)
    | Found(hook: Option<Hook>)
    | ForceResolved(journaled: bool, hook: Option<Hook>)
    | Nothing

  function ReplyTo(s: Store, tx: Transaction): Reply {
    match tx
    case Apply(q, c) => Applied(Answer(s, Decide(s, q, c), c))
    case ResolveTokenClaim(hook, token, _) => Committed(HookOn(s, hook, token).Some?)
    case ResolveExpiredClaim(hook, onToken, _) =>
      Found(if RunEnded(s) then None
            else match onToken case Some(token) => HookOn(s, hook, token) case None => Get(s.tables.hooks, hook))
    case ResolveForcedClaim(hook, token, _, victim) =>
      var journaled := Journaled(s, hook, token, victim);
      ForceResolved(journaled, if journaled then LiveHookOn(s, hook, token) else None)
    case _ => Nothing
  }

  /** The store after a history. */
  function After(history: seq<Transaction>): Store {
    if history == [] then EMPTY else Step(After(history[..|history| - 1]), history[|history| - 1])
  }

  // ---- the log ---------------------------------------------------------------

  ghost predicate Dense(s: Store) { forall k: nat :: k in s.log <==> 1 <= k <= s.sequence }

  /** The events in commit order. */
  function Journal(s: Store): (log: seq<Event>)
    requires Dense(s)
    ensures |log| == s.sequence && forall i :: 0 <= i < |log| ==> log[i] == s.log[i + 1]
  {
    seq(s.sequence, i requires 0 <= i < s.sequence => s.log[i + 1])
  }

  /** Equal up to the retention stamp, and up to what paged cleanup drops once the run ended. */
  ghost predicate Agrees(t: Tables, u: Tables) {
    && (t.run.Some? <==> u.run.Some?)
    && (t.run.Some? ==> t.run.value.(expiredAt := None) == u.run.value.(expiredAt := None))
    && t.steps == u.steps
    && (!(t.run.Some? && Ended(t.run.value.status)) ==> t.hooks == u.hooks && t.waits == u.waits)
  }

  // ---- identities ----------------------------------------------------------------

  /** Under these an event occurs at most once. */
  datatype Key =
    | TheCreation | TheStart | TheEnd
    | StepBirth(step: Id) | StepEnd(step: Id)
    | HookBirth(hook: Id) | HookEnd(hook: Id)
    | ResumeOf(resume: string) | AttributesOf(correlation: Id)
    | WaitBirth(wait: Id) | WaitEnd(wait: Id)

  function KeyOf(d: EventData): Option<Key> {
    match d
    case RunCreated(_, _, _) => Some(TheCreation)
    case RunStarted => Some(TheStart)
    case RunCompleted(_) => Some(TheEnd)
    case RunFailed(_) => Some(TheEnd)
    case StepCreated(step, _, _) => Some(StepBirth(step))
    case StepCompleted(step, _) => Some(StepEnd(step))
    case StepFailed(step, _) => Some(StepEnd(step))
    case HookCreated(hook, _, _, _, _) => Some(HookBirth(hook))
    case HookDisposed(hook, _) => Some(HookEnd(hook))
    case HookReceived(_, _, resume) => if Given(resume) then Some(ResumeOf(resume.value)) else None
    case AttrSet(correlation, byWorkflow, _) =>
      if byWorkflow && Given(correlation) then Some(AttributesOf(correlation.value)) else None
    case WaitCreated(wait, _) => Some(WaitBirth(wait))
    case WaitCompleted(wait, _) => Some(WaitEnd(wait))
    case _ => None
  }

  predicate EndsRun(d: EventData) { d.RunCompleted? || d.RunFailed? || d.RunCancelled? }

  function EndOf(d: EventData): RunStatus
    requires EndsRun(d)
  {
    if d.RunCompleted? then Completed else if d.RunFailed? then Failed else Cancelled
  }

  /** The rows that show an identity was used. */
  predicate Taken(s: Store, key: Key) {
    var t := s.tables;
    match key
    case TheCreation => t.run.Some?
    case TheStart => t.run.Some? && !t.run.value.status.Pending?
    case TheEnd => RunEnded(s)
    case StepBirth(step) => step in t.steps
    case StepEnd(step) => step in t.steps && StepEnded(t.steps[step].status)
    case HookBirth(hook) => hook in s.markers.hookEvents
    case HookEnd(hook) => hook in s.markers.hookEvents && hook !in t.hooks
    case ResumeOf(resume) => resume in s.markers.resumes
    case AttributesOf(correlation) => correlation in s.markers.attrEvents
    case WaitBirth(wait) => wait in t.waits || RunEnded(s)
    case WaitEnd(wait) => if wait in t.waits then t.waits[wait].completed else RunEnded(s)
  }

  /** The entity an accepted event continues is there, and its identity is new. */
  predicate Fits(s: Store, d: EventData) {
    var t := s.tables;
    && (KeyOf(d).Some? ==> !Taken(s, KeyOf(d).value))
    && (d.RunStarted? || EndsRun(d) ==> t.run.Some?)
    && (d.RunCancelled? && RunEnded(s) ==> t.run.value.status.Cancelled?)
    && (OfStep(d) && !d.StepCreated? ==> d.step in t.steps && !StepEnded(t.steps[d.step].status))
    && (d.HookCreated? ==> t.run.Some?)
    && (d.HookDisposed? ==> d.hook in t.hooks)
    && (d.WaitCompleted? ==> d.wait in t.waits)
  }

  // ---- the invariant ----------------------------------------------------------------

  function HookRow(d: EventData, at: nat): Hook
    requires d.HookCreated?
  {
    Hook(d.token, d.info, d.retainUntil, d.claimedFrom, at)
  }

  /** Every marker points at the event it stands for. */
  ghost predicate BirthsTrue(m: Markers, log: map<nat, Event>) {
    match m case Markers(births, _, _, _, _, _) =>
      forall h :: h in births ==> births[h] in log && log[births[h]].data.HookCreated? && log[births[h]].data.hook == h
  }

  ghost predicate ResumesTrue(m: Markers, log: map<nat, Event>) {
    match m case Markers(_, _, resumes, _, _, _) =>
      forall r :: r in resumes ==>
        && resumes[r].slot in log
        && log[resumes[r].slot].data.HookReceived?
        && log[resumes[r].slot].data.hook == resumes[r].hook
        && log[resumes[r].slot].data.resume == Some(r)
  }

  ghost predicate MarkersTrue(s: Store) {
    match s case Store(_, m, log, _) => BirthsTrue(m, log) && ResumesTrue(m, log)
  }

  /** Every stored hook is the row of its creation; a force-claimed hook was created and is gone. */
  ghost predicate HooksTrue(s: Store) {
    match s case Store(t, m, log, _) =>
      && (forall h :: h in t.hooks ==>
            && h in m.hookEvents && m.hookEvents[h] in log && log[m.hookEvents[h]].data.HookCreated?
            && t.hooks[h] == HookRow(log[m.hookEvents[h]].data, log[m.hookEvents[h]].at))
      && (forall h :: h in m.forced ==> h in m.hookEvents && h !in t.hooks)
      && (t.run.None? ==> t.hooks == map[])
  }

  ghost predicate KeysTaken(s: Store) {
    forall k :: k in s.log && KeyOf(s.log[k].data).Some? ==> Taken(s, KeyOf(s.log[k].data).value)
  }

  ghost predicate KeysDistinct(s: Store) {
    forall j, k :: j in s.log && k in s.log && j < k && KeyOf(s.log[j].data).Some? ==>
      KeyOf(s.log[j].data) != KeyOf(s.log[k].data)
  }

  ghost predicate Inv(s: Store) {
    match s case Store(_, _, _, _) =>
    && Dense(s)
    && Agrees(s.tables, Fold(Journal(s)))
    && MarkersTrue(s)
    && HooksTrue(s)
    && KeysTaken(s)
    && KeysDistinct(s)
  }

  // ---- one appended event ---------------------------------------------------------------

  lemma ReplayKeepsAgreement(t: Tables, u: Tables, e: Event)
    requires Agrees(t, u)
    ensures Agrees(Replay(t, e), Replay(u, e))
  {
  }

  lemma CommitFoldsOn(s: Store, e: Event, digest: Option<string>)
    requires Dense(s) && Agrees(s.tables, Fold(Journal(s)))
    ensures Dense(Commit(s, e, digest))
    ensures Journal(Commit(s, e, digest)) == Journal(s) + [e]
    ensures Agrees(Commit(s, e, digest).tables, Fold(Journal(Commit(s, e, digest))))
  {
    var after := Commit(s, e, digest);
    assert Journal(after) == Journal(s) + [e];
    assert (Journal(s) + [e])[..|Journal(s)|] == Journal(s);
    ReplayKeepsAgreement(s.tables, Fold(Journal(s)), e);
  }

  lemma CommitKeepsTaken(s: Store, e: Event, digest: Option<string>, key: Key)
    requires Fits(s, e.data) && Taken(s, key)
    ensures Taken(Commit(s, e, digest), key)
  {
  }

  lemma CommitTakes(s: Store, e: Event, digest: Option<string>)
    requires Fits(s, e.data) && KeyOf(e.data).Some? && HooksTrue(s)
    ensures Taken(Commit(s, e, digest), KeyOf(e.data).value)
  {
  }

  lemma CommitKeepsKeys(s: Store, e: Event, digest: Option<string>)
    requires Dense(s) && HooksTrue(s) && KeysTaken(s) && KeysDistinct(s) && Fits(s, e.data)
    ensures KeysTaken(Commit(s, e, digest)) && KeysDistinct(Commit(s, e, digest))
  {
    var after := Commit(s, e, digest);
    forall k | k in after.log && KeyOf(after.log[k].data).Some? ensures Taken(after, KeyOf(after.log[k].data).value) {
      if k == after.sequence { CommitTakes(s, e, digest); }
      else { CommitKeepsTaken(s, e, digest, KeyOf(s.log[k].data).value); }
    }
  }

  lemma CommitKeepsBirths(s: Store, e: Event, digest: Option<string>)
    requires Dense(s) && BirthsTrue(s.markers, s.log)
    ensures BirthsTrue(Commit(s, e, digest).markers, Commit(s, e, digest).log)
  {
    var slot, after := s.sequence + 1, Commit(s, e, digest);
    assert slot !in s.log && after.log == s.log[slot := e];
    assert after.markers.hookEvents == if e.data.HookCreated? then s.markers.hookEvents[e.data.hook := slot]
           else s.markers.hookEvents;
    BirthsStayTrue(s.markers, s.log, after.markers, e, slot);
  }

  lemma BirthsStayTrue(m: Markers, log: map<nat, Event>, after: Markers, e: Event, slot: nat)
    requires BirthsTrue(m, log) && slot !in log
    requires after.hookEvents == if e.data.HookCreated? then m.hookEvents[e.data.hook := slot] else m.hookEvents
    ensures BirthsTrue(after, log[slot := e])
  {
  }

  lemma CommitKeepsResumes(s: Store, e: Event, digest: Option<string>)
    requires Dense(s) && ResumesTrue(s.markers, s.log)
    ensures ResumesTrue(Commit(s, e, digest).markers, Commit(s, e, digest).log)
  {
    var slot, after := s.sequence + 1, Commit(s, e, digest);
    assert slot !in s.log && after.log == s.log[slot := e];
    assert after.markers.resumes == if e.data.HookReceived? && Given(e.data.resume)
                                    then s.markers.resumes[e.data.resume.value := Resume(e.data.hook, slot, digest)]
                                        else s.markers.resumes;
    ResumesStayTrue(s.markers, s.log, after.markers, e, slot, digest);
  }

  lemma ResumesStayTrue(m: Markers, log: map<nat, Event>, after: Markers, e: Event, slot: nat, digest: Option<string>)
    requires ResumesTrue(m, log) && slot !in log
    requires after.resumes == if e.data.HookReceived? && Given(e.data.resume)
                              then m.resumes[e.data.resume.value := Resume(e.data.hook, slot, digest)] else m.resumes
    ensures ResumesTrue(after, log[slot := e])
  {
  }

  lemma CommitKeepsMarkers(s: Store, e: Event, digest: Option<string>)
    requires Dense(s) && MarkersTrue(s)
    ensures MarkersTrue(Commit(s, e, digest))
  {
    CommitKeepsBirths(s, e, digest);
    CommitKeepsResumes(s, e, digest);
  }

  /** The part of `Fits` that is about hooks. */
  predicate FitsHooks(s: Store, d: EventData) {
    && (d.HookCreated? ==> d.hook !in s.markers.hookEvents && s.tables.run.Some?)
    && (d.HookDisposed? ==> d.hook in s.tables.hooks)
  }

  lemma HookEventKeepsHooks(s: Store, e: Event, digest: Option<string>)
    requires Dense(s) && HooksTrue(s) && FitsHooks(s, e.data) && (e.data.HookCreated? || e.data.HookDisposed?)
    ensures HooksTrue(Commit(s, e, digest))
  {
    assert s.sequence + 1 !in s.log;
  }

  lemma OtherEventKeepsHooks(s: Store, e: Event, digest: Option<string>)
    requires Dense(s) && HooksTrue(s) && !e.data.HookCreated? && !e.data.HookDisposed?
    ensures HooksTrue(Commit(s, e, digest))
  {
    assert s.sequence + 1 !in s.log;
    var m := Commit(s, e, digest).markers;
    assert m.hookEvents == s.markers.hookEvents && m.forced == s.markers.forced;
  }

  lemma CommitKeepsHooks(s: Store, e: Event, digest: Option<string>)
    requires Dense(s) && HooksTrue(s) && FitsHooks(s, e.data)
    ensures HooksTrue(Commit(s, e, digest))
  {
    if e.data.HookCreated? || e.data.HookDisposed? { HookEventKeepsHooks(s, e, digest); }
    else { OtherEventKeepsHooks(s, e, digest); }
  }

  lemma FitsItsHooks(s: Store, d: EventData)
    requires Fits(s, d)
    ensures FitsHooks(s, d)
  {
  }

  lemma CommitKeepsInv(s: Store, e: Event, digest: Option<string>)
    requires Inv(s) && Fits(s, e.data)
    ensures Inv(Commit(s, e, digest))
  {
    CommitFoldsOn(s, e, digest);
    CommitKeepsKeys(s, e, digest);
    CommitKeepsMarkers(s, e, digest);
    FitsItsHooks(s, e.data);
    CommitKeepsHooks(s, e, digest);
  }

  // ---- accepted requests ------------------------------------------------------------------

  lemma LifecycleFits(s: Store, q: Request, c: Context)
    requires !OnStep(q) && !q.ReceiveHook? && !q.DisposeHook? && !q.CreateHook? && !(q.StartRun? && s.tables.run.None?)
    requires Guarded(s, q, c).Append?
    ensures Guarded(s, q, c).second.None? && Fits(s, Guarded(s, q, c).first)
  {
  }

  lemma StepFits(s: Store, q: Request, c: Context)
    requires OnStep(q) && Guarded(s, q, c).Append?
    ensures Fits(s, Guarded(s, q, c).first)
    ensures Guarded(s, q, c).second.Some? ==>
              Guarded(s, q, c).first.StepCreated? &&
                  Guarded(s, q, c).second.value == StepStarted(Guarded(s, q, c).first.step)
  {
  }

  lemma HookFits(s: Store, q: Request, c: Context)
    requires MarkersTrue(s) && HooksTrue(s)
    requires (q.ReceiveHook? || q.DisposeHook? || q.CreateHook?) && Guarded(s, q, c).Append?
    ensures Guarded(s, q, c).second.None? && Fits(s, Guarded(s, q, c).first)
  {
  }

  /** Accepted requests append one event, or a creation and the start of what it created. */
  lemma AcceptedFits(s: Store, q: Request, c: Context)
    requires MarkersTrue(s) && HooksTrue(s)
    requires Decide(s, q, c).Append?
    ensures var d := Decide(s, q, c);
            && Fits(s, d.first)
            && (d.second.Some? ==> Fits(Commit(s, EventAt(d.first, c), c.digest), d.second.value))
  {
    if q.StartRun? && q.resilient.Some? && s.tables.run.None? {
    } else if OnStep(q) {
      StepFits(s, q, c);
    } else if q.ReceiveHook? || q.DisposeHook? || q.CreateHook? {
      HookFits(s, q, c);
    } else if !(q.StartRun? && s.tables.run.None?) {
      LifecycleFits(s, q, c);
    }
  }

  // ---- the other transactions ------------------------------------------------------------------

  /** A transaction that appends nothing: rows may leave, never change, and no identity is given back. */
  ghost predicate Silent(s: Store, after: Store) {
    match s case Store(t, m, log, sequence) =>
    && after.log == log && after.sequence == sequence
    && Agrees(after.tables, t) && (RunEnded(s) <==> RunEnded(after))
    && (forall h :: h in after.tables.hooks ==> h in t.hooks && after.tables.hooks[h] == t.hooks[h])
    && (forall w :: w in after.tables.waits ==> w in t.waits && after.tables.waits[w] == t.waits[w])
    && after.markers.hookEvents == m.hookEvents && after.markers.resumes == m.resumes
    && after.markers.attrEvents == m.attrEvents
    && m.forced.Keys <= after.markers.forced.Keys
    && (forall h :: h in after.markers.forced ==> h in m.forced || (h in t.hooks && h !in after.tables.hooks))
  }

  lemma SilentKeepsTaken(s: Store, after: Store, key: Key)
    requires Silent(s, after) && Taken(s, key)
    ensures Taken(after, key)
  {
  }

  lemma SilentKeepsHooks(s: Store, after: Store)
    requires Silent(s, after) && HooksTrue(s)
    ensures HooksTrue(after)
  {
  }

  lemma SilentKeepsInv(s: Store, after: Store)
    requires Inv(s) && Silent(s, after)
    ensures Inv(after)
  {
    assert Journal(after) == Journal(s);
    SilentKeepsHooks(s, after);
    forall k | k in after.log && KeyOf(after.log[k].data).Some? ensures Taken(after, KeyOf(after.log[k].data).value) {
      SilentKeepsTaken(s, after, KeyOf(s.log[k].data).value);
    }
  }

  lemma RestIsSilent(s: Store, tx: Transaction)
    requires !tx.Apply? && !tx.ForceDisposal?
    ensures Silent(s, Step(s, tx))
  {
  }

  lemma EndedForceDisposeIsSilent(s: Store, hook: Id, token: string, claimer: Owner, now: nat)
    requires RunEnded(s)
    ensures Silent(s, ForceDispose(s, hook, token, claimer, now))
  {
  }

  // ---- every transaction ------------------------------------------------------------------

  /** The events a transaction appends. */
  function Appended(s: Store, tx: Transaction): seq<Event> {
    match tx
    case Apply(q, c) =>
      var d := Decide(s, q, c);
      if !d.Append? then []
      else if d.second.None? then [EventAt(d.first, c)]
      else [EventAt(d.first, c), EventAt(d.second.value, c)]
    case ForceDisposal(hook, token, claimer, now) =>
      if hook in s.markers.forced || hook !in s.tables.hooks || s.tables.hooks[hook].token != token
         || s.tables.run.None? || RunEnded(s) then []
      else [RunEvents.Event(HookDisposed(hook, Some(claimer)), now, s.tables.run.value.spec)]
    case _ => []
  }

  function DigestOf(tx: Transaction): Option<string> { if tx.Apply? then tx.c.digest else None }

  /** A transaction is silent, or its one or two fitting events are its whole effect. */
  ghost predicate IsCommits(s: Store, events: seq<Event>, digest: Option<string>, after: Store) {
    match s case Store(_, _, _, _) =>
      if events == [] then Silent(s, after)
      else if |events| == 1 then Fits(s, events[0].data) && after == Commit(s, events[0], digest)
      else
        && |events| == 2 && Fits(s, events[0].data) && Fits(Commit(s, events[0], digest), events[1].data)
        && after == Commit(Commit(s, events[0], digest), events[1], digest)
  }

  lemma ForceDisposalCommits(s: Store, tx: Transaction)
    requires tx.ForceDisposal? && HooksTrue(s)
    ensures IsCommits(s, Appended(s, tx), DigestOf(tx), Step(s, tx))
  {
    if RunEnded(s) { EndedForceDisposeIsSilent(s, tx.hook, tx.token, tx.claimer, tx.now); }
  }

  lemma ApplyCommits(s: Store, tx: Transaction)
    requires tx.Apply? && MarkersTrue(s) && HooksTrue(s)
    ensures IsCommits(s, Appended(s, tx), DigestOf(tx), Step(s, tx))
  {
    if Decide(s, tx.q, tx.c).Append? { AcceptedFits(s, tx.q, tx.c); }
  }

  lemma StepCommits(s: Store, tx: Transaction)
    requires Inv(s)
    ensures IsCommits(s, Appended(s, tx), DigestOf(tx), Step(s, tx))
  {
    match tx
    case Apply(_, _) => ApplyCommits(s, tx);
    case ForceDisposal(_, _, _, _) => ForceDisposalCommits(s, tx);
    case _ => RestIsSilent(s, tx);
  }

  lemma StepKeepsInv(s: Store, tx: Transaction)
    requires Inv(s)
    ensures Inv(Step(s, tx))
  {
    StepCommits(s, tx);
    var events, digest := Appended(s, tx), DigestOf(tx);
    if events == [] {
      SilentKeepsInv(s, Step(s, tx));
    } else {
      CommitKeepsInv(s, events[0], digest);
      if |events| == 2 { CommitKeepsInv(Commit(s, events[0], digest), events[1], digest); }
    }
  }

  // ---- theorems ------------------------------------------------------------------------------

  lemma {:induction false} HistoryKeepsInv(history: seq<Transaction>)
    ensures Inv(After(history))
  {
    if history != [] {
      HistoryKeepsInv(history[..|history| - 1]);
      StepKeepsInv(After(history[..|history| - 1]), history[|history| - 1]);
    }
  }

  /** The stored tables are the fold of the log; the slots are exactly 1..sequence. */
  lemma TablesAreFoldOfLog(history: seq<Transaction>)
    ensures
      var s := After(history);
      && Dense(s)
      && s.tables.steps == Fold(Journal(s)).steps
      && (s.tables.run.Some? <==> Fold(Journal(s)).run.Some?)
      && (s.tables.run.Some? ==>
            s.tables.run.value.(expiredAt := None) == Fold(Journal(s)).run.value.(expiredAt := None))
      && (!RunEnded(s) ==> s.tables.hooks == Fold(Journal(s)).hooks && s.tables.waits == Fold(Journal(s)).waits)
  {
    HistoryKeepsInv(history);
  }

  /** The status of a run is the end that its log records. */
  ghost predicate EndsTrue(s: Store) {
    match s case Store(t, _, log, _) =>
      forall k :: k in log && EndsRun(log[k].data) ==> t.run.Some? && t.run.value.status == EndOf(log[k].data)
  }

  lemma CommitKeepsEnds(s: Store, e: Event, digest: Option<string>)
    requires Dense(s) && EndsTrue(s) && Fits(s, e.data)
    ensures EndsTrue(Commit(s, e, digest))
  {
    var run := Commit(s, e, digest).tables.run;
    assert EndsRun(e.data) ==> run.Some? && run.value.status == EndOf(e.data);
    assert RunEnded(s) ==> run == s.tables.run;
  }

  lemma SilentKeepsEnds(s: Store, after: Store)
    requires EndsTrue(s) && Silent(s, after)
    ensures EndsTrue(after)
  {
    assert s.tables.run.Some? ==> after.tables.run.Some? && after.tables.run.value.status == s.tables.run.value.status;
  }

  lemma {:induction false} HistoryKeepsEnds(history: seq<Transaction>)
    ensures EndsTrue(After(history))
  {
    if history != [] {
      var s, tx := After(history[..|history| - 1]), history[|history| - 1];
      HistoryKeepsEnds(history[..|history| - 1]);
      HistoryKeepsInv(history[..|history| - 1]);
      StepCommits(s, tx);
      var events, digest := Appended(s, tx), DigestOf(tx);
      if events == [] {
        SilentKeepsEnds(s, Step(s, tx));
      } else {
        CommitKeepsEnds(s, events[0], digest);
        if |events| == 2 {
          CommitFoldsOn(s, events[0], digest);
          CommitKeepsEnds(Commit(s, events[0], digest), events[1], digest);
        }
      }
    }
  }

  /** No two events of a history carry the same identity, and only a cancellation is recorded again
      after the run has ended: two events that end a run are two cancellations. */
  lemma NoEventTwice(history: seq<Transaction>, j: nat, k: nat)
    requires j in After(history).log && k in After(history).log && j < k
    ensures
      var first, second := After(history).log[j].data, After(history).log[k].data;
      && (KeyOf(first).Some? ==> KeyOf(first) != KeyOf(second))
      && (EndsRun(first) && EndsRun(second) ==> first.RunCancelled? && second.RunCancelled?)
  {
    HistoryKeepsInv(history);
    HistoryKeepsEnds(history);
  }

  lemma KnownResume(s: Store, hook: Id, c: Context)
    requires ResumesTrue(s.markers, s.log) && Given(c.resume) && c.resume.value in s.markers.resumes
    ensures
      var known := s.markers.resumes[c.resume.value];
      var agrees := known.hook == hook && !(Given(known.digest) && Given(c.digest) && known.digest != c.digest);
      && ResumeGuard(s, hook, c) == Some(if agrees then Known(Some(known.slot)) else Refuse(EntityConflict))
      && known.slot in s.log && s.log[known.slot].data.HookReceived?
      && s.log[known.slot].data.hook == known.hook && s.log[known.slot].data.resume == c.resume
  {
  }

  lemma ResumeDecides(s: Store, hook: Id, payload: Data, c: Context)
    requires ResumeGuard(s, hook, c).Some?
    requires c.spec.None? || c.spec.value == SPEC_VERSION_CURRENT
    requires s.tables.run.Some? ==> s.tables.run.value.spec == SPEC_VERSION_CURRENT
    ensures Decide(s, ReceiveHook(hook, payload), c) == ResumeGuard(s, hook, c).value
  {
  }

  /** A resume id that was recorded answers the event it recorded; it conflicts only with
      another hook or another payload. Nothing is appended either way. */
  lemma ResumeIsIdempotent(s: Store, hook: Id, payload: Data, c: Context)
    requires Inv(s) && Given(c.resume) && c.resume.value in s.markers.resumes
    requires c.spec.None? || c.spec.value == SPEC_VERSION_CURRENT
    requires s.tables.run.Some? ==> s.tables.run.value.spec == SPEC_VERSION_CURRENT
    ensures
      var known := s.markers.resumes[c.resume.value];
      var agrees := known.hook == hook && !(Given(known.digest) && Given(c.digest) && known.digest != c.digest);
      && Decide(s, ReceiveHook(hook, payload), c) ==
          (if agrees then Known(Some(known.slot)) else Refuse(EntityConflict))
      && (agrees ==> known.slot in s.log && s.log[known.slot].data.HookReceived?
                     && s.log[known.slot].data.hook == hook && s.log[known.slot].data.resume == c.resume)
  {
    KnownResume(s, hook, c);
    ResumeDecides(s, hook, payload, c);
  }

  lemma EmptyResumeIsAccepted(s: Store, hook: Id, payload: Data, c: Context)
    requires hook in s.tables.hooks && !RunEnded(s) && s.tables.run.Some?
    requires s.tables.run.value.spec == SPEC_VERSION_CURRENT && c.spec.None? && c.resume == Some("")
    ensures Next(s, ReceiveHook(hook, payload), c) ==
            Commit(s, EventAt(HookReceived(hook, payload, c.resume), c), c.digest)
  {
  }

  lemma DeliveryKeepsTables(s: Store, hook: Id, payload: Data, c: Context)
    ensures Commit(s, EventAt(HookReceived(hook, payload, c.resume), c), c.digest).tables == s.tables
  {
  }

  /** The identity of a delivery is its resume id only when that id is given: an empty one records every time. */
  lemma EmptyResumeRecordsAgain(s: Store, hook: Id, payload: Data, c: Context)
    requires hook in s.tables.hooks && !RunEnded(s) && s.tables.run.Some?
    requires s.tables.run.value.spec == SPEC_VERSION_CURRENT && c.spec.None? && c.resume == Some("")
    ensures
      var q, e := ReceiveHook(hook, payload), EventAt(HookReceived(hook, payload, Some("")), c);
      var once := Next(s, q, c);
      && once == Commit(s, e, c.digest)
      && Next(once, q, c) == Commit(once, e, c.digest)
  {
    EmptyResumeIsAccepted(s, hook, payload, c);
    DeliveryKeepsTables(s, hook, payload, c);
    EmptyResumeIsAccepted(Next(s, ReceiveHook(hook, payload), c), hook, payload, c);
  }

  // ---- whatever happens later --------------------------------------------------------------

  function AfterFrom(s: Store, later: seq<Transaction>): Store {
    if later == [] then s else Step(AfterFrom(s, later[..|later| - 1]), later[|later| - 1])
  }

  /** A run's status moves from pending to running to one of the ends, and stays there. */
  predicate Reaches(from: RunStatus, to: RunStatus) { from == to || from.Pending? || (from.Running? && Ended(to)) }

  /** The log keeps its events, the run its place and a forced hook its fence; an ended run keeps
      everything but the retention stamp. */
  ghost predicate Succeeds(s: Store, t: Store) {
    match s case Store(_, _, _, _) =>
    && s.sequence <= t.sequence
    && (forall k :: k in s.log ==> k in t.log && t.log[k] == s.log[k])
    && s.markers.forced.Keys <= t.markers.forced.Keys
    && (s.tables.run.Some? ==>
          && t.tables.run.Some? && Reaches(s.tables.run.value.status, t.tables.run.value.status)
          && (RunEnded(s) ==> t.tables.run.value.(expiredAt := None) == s.tables.run.value.(expiredAt := None)))
  }

  lemma SucceedsTransitive(s: Store, t: Store, u: Store)
    requires Succeeds(s, t) && Succeeds(t, u)
    ensures Succeeds(s, u)
  {
  }

  lemma CommitSucceeds(s: Store, e: Event, digest: Option<string>)
    requires Dense(s)
    ensures Succeeds(s, Commit(s, e, digest))
  {
  }

  lemma StepSucceeds(s: Store, tx: Transaction)
    requires Inv(s)
    ensures Succeeds(s, Step(s, tx))
  {
    StepCommits(s, tx);
    var events, digest := Appended(s, tx), DigestOf(tx);
    if events != [] {
      CommitSucceeds(s, events[0], digest);
      if |events| == 2 {
        CommitKeepsInv(s, events[0], digest);
        CommitSucceeds(Commit(s, events[0], digest), events[1], digest);
        SucceedsTransitive(s, Commit(s, events[0], digest), Step(s, tx));
      }
    }
  }

  /** Nothing is ever taken back: the log only grows at its end, the status only advances, and a
      run that ended keeps its status and its outcome for good. */
  lemma {:induction false} HistoryOnlyAdvances(s: Store, later: seq<Transaction>)
    requires Inv(s)
    ensures Inv(AfterFrom(s, later)) && Succeeds(s, AfterFrom(s, later))
  {
    if later != [] {
      var t, tx := AfterFrom(s, later[..|later| - 1]), later[|later| - 1];
      HistoryOnlyAdvances(s, later[..|later| - 1]);
      StepKeepsInv(t, tx);
      StepSucceeds(t, tx);
      SucceedsTransitive(s, t, Step(t, tx));
    }
  }

  // ---- forced disposal is permanent -----------------------------------------------------------

  lemma ForcedHookIsGone(s: Store, hook: Id, payload: Data, c: Context)
    requires HooksTrue(s) && hook in s.markers.forced && hook != ""
    ensures !Decide(s, ReceiveHook(hook, payload), c).Append?
  {
  }

  /** A hook that was taken over by force accepts no new delivery, whatever happens later. */
  lemma ForcedHookRefusesDeliveries(s: Store, later: seq<Transaction>, hook: Id, payload: Data, c: Context)
    requires Inv(s) && hook in s.markers.forced && hook != ""
    ensures Next(AfterFrom(s, later), ReceiveHook(hook, payload), c) == AfterFrom(s, later)
  {
    HistoryOnlyAdvances(s, later);
    ForcedHookIsGone(AfterFrom(s, later), hook, payload, c);
  }
}
