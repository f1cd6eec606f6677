/** What the rows of a run say about its log: over every history a row's status, outcome and counts are those of
    the events that name it (src/apply-event.ts). */
module RunMeaning {
  import opened Prelude
  import opened RunEvents
  import L = RunLog

  // ---- the events that name a row --------------------------------------------------------------------

  /** What an event says of a row. */
  datatype Fact =
    | StepCreates(id: Id) | StepStarts(id: Id) | StepCompletes(id: Id) | StepFails(id: Id)
    | RunMoves(to: RunStatus)
    | HookCreates(id: Id) | HookDisposes(id: Id)
    | WaitCreates(id: Id) | WaitCompletes(id: Id)

  predicate Says(d: EventData, fact: Fact) {
    match d
    case StepCreated(step, _, _) => fact == StepCreates(step)
    case StepStarted(step) => fact == StepStarts(step)
    case StepCompleted(step, _) => fact == StepCompletes(step)
    case StepFailed(step, _) => fact == StepFails(step)
    case RunCreated(_, _, _) => fact == RunMoves(Pending)
    case RunStarted => fact == RunMoves(Running)
    case RunCompleted(_) => fact == RunMoves(Completed)
    case RunFailed(_) => fact == RunMoves(Failed)
    case RunCancelled => fact == RunMoves(Cancelled)
    case HookCreated(hook, _, _, _, _) => fact == HookCreates(hook)
    case HookDisposed(hook, _) => fact == HookDisposes(hook)
    case WaitCreated(wait, _) => fact == WaitCreates(wait)
    case WaitCompleted(wait, _) => fact == WaitCompletes(wait)
    case _ => false
  }

  ghost predicate Logged(s: Store, fact: Fact) { exists k :: k in s.log && Says(s.log[k].data, fact) }

  /** How often a step was started. */
  function Attempts(log: seq<Event>, id: Id): nat {
    if log == [] then 0
    else Attempts(log[..|log| - 1], id) + if Says(log[|log| - 1].data, StepStarts(id)) then 1 else 0
  }

  // ---- one more event -----------------------------------------------------------------------------------

  /** The store with one event appended, and its meaning. */
  ghost predicate Follows(s: Store, after: Store, e: Event) {
    match after case Store(tables, _, log, sequence) =>
      && L.Dense(s) && L.Dense(after) && sequence == s.sequence + 1 && log == s.log[s.sequence + 1 := e]
      && tables == Replay(s.tables, e)
  }

  lemma CommitFollows(s: Store, e: Event, digest: Option<string>)
    requires L.Dense(s)
    ensures Follows(s, Commit(s, e, digest), e)
  {
  }

  lemma LoggedAfter(s: Store, after: Store, e: Event, fact: Fact)
    requires Follows(s, after, e)
    ensures Logged(after, fact) <==> Logged(s, fact) || Says(e.data, fact)
  {
    assert after.log[after.sequence] == e && s.sequence + 1 !in s.log;
    if Logged(s, fact) {
      var k :| k in s.log && Says(s.log[k].data, fact);
      assert k in after.log && after.log[k] == s.log[k];
    }
  }

  lemma AttemptsAfter(s: Store, after: Store, e: Event, id: Id)
    requires Follows(s, after, e)
    ensures
      Attempts(L.Journal(after), id) ==
      Attempts(L.Journal(s), id) + if Says(e.data, StepStarts(id)) then 1 else 0
  {
    var log := L.Journal(after);
    assert log == L.Journal(s) + [e] && log[..|log| - 1] == L.Journal(s);
  }

  /** The row of a step after an event: it moves if the event names the step. */
  function RowAfter(row: Option<Step>, e: Event, id: Id): Option<Step> {
    if OfStep(e.data) && e.data.step == id then ReplayStep(row, e) else row
  }

  lemma StepRowAfter(s: Store, after: Store, e: Event, id: Id)
    requires Follows(s, after, e)
    ensures Get(after.tables.steps, id) == RowAfter(Get(s.tables.steps, id), e, id)
  {
  }

  /** What `Fits` says of the step an event names. */
  predicate FitsRow(row: Option<Step>, e: Event, id: Id) {
    OfStep(e.data) && e.data.step == id ==>
      if e.data.StepCreated? then row.None? else row.Some? && !StepEnded(row.value.status)
  }

  lemma EventFitsRow(s: Store, e: Event, id: Id)
    requires L.Fits(s, e.data)
    ensures FitsRow(Get(s.tables.steps, id), e, id)
  {
  }

  // ---- steps -----------------------------------------------------------------------------------------------

  /** Which of its events a step has. */
  datatype StepFacts = StepFacts(created: bool, started: bool, completed: bool, failed: bool)

  ghost function FactsOf(s: Store, id: Id): StepFacts {
    StepFacts(Logged(s, StepCreates(id)), Logged(s, StepStarts(id)),
              Logged(s, StepCompletes(id)), Logged(s, StepFails(id)))
  }

  function FactsWith(facts: StepFacts, d: EventData, id: Id): StepFacts {
    StepFacts(facts.created || Says(d, StepCreates(id)), facts.started || Says(d, StepStarts(id)),
              facts.completed || Says(d, StepCompletes(id)), facts.failed || Says(d, StepFails(id)))
  }

  /** A step's row is there if the step was created, succeeded if it completed, broken if it failed. */
  predicate StepSays(row: Option<Step>, facts: StepFacts) {
    match row
    case None => facts == StepFacts(false, false, false, false)
    case Some(step) =>
      && facts.created && (step.startedAt.Some? <==> facts.started)
      && (step.status == Succeeded <==> facts.completed) && (step.status == Broken <==> facts.failed)
  }

  /** It was attempted as often as it was started. */
  predicate AttemptsSay(row: Option<Step>, attempts: nat) {
    match row
    case None => attempts == 0
    case Some(step) => step.attempt == attempts
  }

  /** Its name and input are those it was created with, its outcome and date those it ended with. */
  predicate Agrees(e: Event, row: Option<Step>, id: Id) {
    match row
    case None => true
    case Some(step) =>
      && (Says(e.data, StepCreates(id)) ==>
            step.name == e.data.name && step.input == e.data.input && step.createdAt == e.at)
      && (Says(e.data, StepCompletes(id)) ==> step.output == e.data.result && step.completedAt == Some(e.at))
      && (Says(e.data, StepFails(id)) ==> step.error == Some(e.data.error) && step.completedAt == Some(e.at))
  }

  ghost predicate StepTold(s: Store, id: Id) {
    var row := Get(s.tables.steps, id);
    && L.Dense(s) && StepSays(row, FactsOf(s, id)) && AttemptsSay(row, Attempts(L.Journal(s), id))
    && forall k :: k in s.log ==> Agrees(s.log[k], row, id)
  }

  lemma FactsAfter(s: Store, after: Store, e: Event, id: Id)
    requires Follows(s, after, e)
    ensures FactsOf(after, id) == FactsWith(FactsOf(s, id), e.data, id)
  {
    LoggedAfter(s, after, e, StepCreates(id));
    LoggedAfter(s, after, e, StepStarts(id));
    LoggedAfter(s, after, e, StepCompletes(id));
    LoggedAfter(s, after, e, StepFails(id));
  }

  lemma RowKeepsSaying(row: Option<Step>, facts: StepFacts, e: Event, id: Id)
    requires StepSays(row, facts) && FitsRow(row, e, id)
    ensures StepSays(RowAfter(row, e, id), FactsWith(facts, e.data, id))
  {
  }

  lemma RowKeepsCount(row: Option<Step>, attempts: nat, e: Event, id: Id)
    requires AttemptsSay(row, attempts) && FitsRow(row, e, id)
    ensures AttemptsSay(RowAfter(row, e, id), attempts + if Says(e.data, StepStarts(id)) then 1 else 0)
  {
  }

  /** A new event leaves what earlier ones said of the step, and says its own. */
  lemma RowKeepsAgreeing(earlier: Event, row: Option<Step>, facts: StepFacts, e: Event, id: Id)
    requires StepSays(row, facts) && FitsRow(row, e, id) && Agrees(earlier, row, id)
    requires Says(earlier.data, StepCreates(id)) ==> facts.created
    requires Says(earlier.data, StepCompletes(id)) ==> facts.completed
    requires Says(earlier.data, StepFails(id)) ==> facts.failed
    ensures Agrees(earlier, RowAfter(row, e, id), id)
  {
  }

  lemma OwnEventAgrees(row: Option<Step>, e: Event, id: Id)
    requires FitsRow(row, e, id)
    ensures Agrees(e, RowAfter(row, e, id), id)
  {
  }

  lemma LoggedFacts(s: Store, id: Id, k: nat)
    requires k in s.log
    ensures Says(s.log[k].data, StepCreates(id)) ==> FactsOf(s, id).created
    ensures Says(s.log[k].data, StepCompletes(id)) ==> FactsOf(s, id).completed
    ensures Says(s.log[k].data, StepFails(id)) ==> FactsOf(s, id).failed
  {
  }

  lemma CommitTells(s: Store, after: Store, e: Event, id: Id)
    requires Follows(s, after, e) && L.Fits(s, e.data) && StepTold(s, id)
    ensures StepTold(after, id)
  {
    var row := Get(s.tables.steps, id);
    StepRowAfter(s, after, e, id);
    EventFitsRow(s, e, id);
    FactsAfter(s, after, e, id);
    RowKeepsSaying(row, FactsOf(s, id), e, id);
    AttemptsAfter(s, after, e, id);
    RowKeepsCount(row, Attempts(L.Journal(s), id), e, id);
    forall k | k in after.log ensures Agrees(after.log[k], RowAfter(row, e, id), id) {
      if k == s.sequence + 1 {
        OwnEventAgrees(row, e, id);
      } else {
        LoggedFacts(s, id, k);
        RowKeepsAgreeing(s.log[k], row, FactsOf(s, id), e, id);
      }
    }
  }

  // ---- the run -----------------------------------------------------------------------------------------------

  /** To which statuses a run was moved. */
  datatype RunFacts = RunFacts(created: bool, started: bool, completed: bool, failed: bool, cancelled: bool)

  ghost function RunFactsOf(s: Store): RunFacts {
    RunFacts(Logged(s, RunMoves(Pending)), Logged(s, RunMoves(Running)), Logged(s, RunMoves(Completed)),
             Logged(s, RunMoves(Failed)), Logged(s, RunMoves(Cancelled)))
  }

  function RunFactsWith(facts: RunFacts, d: EventData): RunFacts {
    RunFacts(facts.created || d.RunCreated?, facts.started || d.RunStarted?, facts.completed || d.RunCompleted?,
             facts.failed || d.RunFailed?, facts.cancelled || d.RunCancelled?)
  }

  /** The run's row is there if the run was created, in the status its events moved it to. */
  predicate RunSays(run: Option<Run>, facts: RunFacts) {
    match run
    case None => facts == RunFacts(false, false, false, false, false)
    case Some(r) =>
      && facts.created && (r.startedAt.Some? <==> facts.started)
      && (r.status == Completed <==> facts.completed) && (r.status == Failed <==> facts.failed)
      && (r.status == Cancelled <==> facts.cancelled)
      && (r.status == Running ==> facts.started) && (r.status == Pending ==> !facts.started)
  }

  /** Its input is what it was created with, its output or error what it ended with. */
  predicate RunAgrees(e: Event, run: Option<Run>) {
    match run
    case None => true
    case Some(r) =>
      match e.data
      case RunCreated(info, input, _) => r.info == info && r.input == input && r.createdAt == e.at
      case RunStarted => r.startedAt == Some(e.at)
      case RunCompleted(output) => r.output == output && r.error.None? && r.completedAt == Some(e.at)
      case RunFailed(error) => r.output.None? && r.error == Some(error) && r.completedAt == Some(e.at)
      case RunCancelled => r.output.None? && r.error.None?
      case _ => true
  }

  ghost predicate RunTold(s: Store) {
    RunSays(s.tables.run, RunFactsOf(s)) && forall k :: k in s.log ==> RunAgrees(s.log[k], s.tables.run)
  }

  /** What `Fits` says of the run. */
  predicate FitsRun(run: Option<Run>, e: Event) {
    match e.data
    case RunCreated(_, _, _) => run.None?
    case RunStarted => run.Some? && run.value.status == Pending
    case RunCompleted(_) => run.Some? && !Ended(run.value.status)
    case RunFailed(_) => run.Some? && !Ended(run.value.status)
    case RunCancelled => run.Some? && (Ended(run.value.status) ==> run.value.status == Cancelled)
    case _ => true
  }

  lemma EventFitsRun(s: Store, e: Event)
    requires L.Fits(s, e.data)
    ensures FitsRun(s.tables.run, e)
  {
  }

  lemma MovesSaid(d: EventData)
    ensures Says(d, RunMoves(Pending)) <==> d.RunCreated?
    ensures Says(d, RunMoves(Running)) <==> d.RunStarted?
    ensures Says(d, RunMoves(Completed)) <==> d.RunCompleted?
    ensures Says(d, RunMoves(Failed)) <==> d.RunFailed?
    ensures Says(d, RunMoves(Cancelled)) <==> d.RunCancelled?
  {
  }

  lemma RunFactsAfter(s: Store, after: Store, e: Event)
    requires Follows(s, after, e)
    ensures RunFactsOf(after) == RunFactsWith(RunFactsOf(s), e.data)
  {
    MovesSaid(e.data);
    LoggedAfter(s, after, e, RunMoves(Pending));
    LoggedAfter(s, after, e, RunMoves(Running));
    LoggedAfter(s, after, e, RunMoves(Completed));
    LoggedAfter(s, after, e, RunMoves(Failed));
    LoggedAfter(s, after, e, RunMoves(Cancelled));
  }

  lemma RunKeepsSaying(run: Option<Run>, facts: RunFacts, e: Event)
    requires RunSays(run, facts) && FitsRun(run, e)
    ensures RunSays(ReplayRun(run, e), RunFactsWith(facts, e.data))
  {
  }

  /** Whether the facts include what the event says of the run. */
  predicate Included(d: EventData, facts: RunFacts) {
    match d
    case RunCreated(_, _, _) => facts.created
    case RunStarted => facts.started
    case RunCompleted(_) => facts.completed
    case RunFailed(_) => facts.failed
    case RunCancelled => facts.cancelled
    case _ => true
  }

  lemma LoggedIncluded(s: Store, k: nat)
    requires k in s.log
    ensures Included(s.log[k].data, RunFactsOf(s))
  {
    MovesSaid(s.log[k].data);
  }

  lemma RunKeepsAgreeing(earlier: Event, run: Option<Run>, facts: RunFacts, e: Event)
    requires RunSays(run, facts) && FitsRun(run, e) && RunAgrees(earlier, run) && Included(earlier.data, facts)
    ensures RunAgrees(earlier, ReplayRun(run, e))
  {
  }

  lemma OwnRunEventAgrees(run: Option<Run>, facts: RunFacts, e: Event)
    requires RunSays(run, facts) && FitsRun(run, e)
    requires e.data.RunCancelled? && run.Some? && Ended(run.value.status) ==>
               run.value.output.None? && run.value.error.None?
    ensures RunAgrees(e, ReplayRun(run, e))
  {
  }

  /** A cancelled run has neither output nor error. */
  lemma CancelledIsEmpty(s: Store)
    requires RunTold(s) && s.tables.run.Some? && s.tables.run.value.status == Cancelled
    ensures s.tables.run.value.output.None? && s.tables.run.value.error.None?
  {
    var k :| k in s.log && Says(s.log[k].data, RunMoves(Cancelled));
    assert RunAgrees(s.log[k], s.tables.run);
  }

  lemma CommitTellsRun(s: Store, after: Store, e: Event)
    requires Follows(s, after, e) && L.Fits(s, e.data) && RunTold(s)
    ensures RunTold(after)
  {
    EventFitsRun(s, e);
    RunFactsAfter(s, after, e);
    RunKeepsSaying(s.tables.run, RunFactsOf(s), e);
    forall k | k in after.log ensures RunAgrees(after.log[k], ReplayRun(s.tables.run, e)) {
      if k == s.sequence + 1 {
        if s.tables.run.Some? && s.tables.run.value.status == Cancelled { CancelledIsEmpty(s); }
        OwnRunEventAgrees(s.tables.run, RunFactsOf(s), e);
      } else {
        LoggedIncluded(s, k);
        RunKeepsAgreeing(s.log[k], s.tables.run, RunFactsOf(s), e);
      }
    }
  }

  // ---- hooks and waits ----------------------------------------------------------------------------------------

  /** A stored hook was created and not disposed; until the run has ended, every such hook is stored. */
  predicate HookSays(stored: bool, over: bool, created: bool, disposed: bool) {
    (stored ==> created && !disposed) && (created && !disposed && !over ==> stored)
  }

  ghost predicate HookTold(s: Store, id: Id) {
    HookSays(id in s.tables.hooks, L.RunEnded(s), Logged(s, HookCreates(id)), Logged(s, HookDisposes(id)))
  }

  /** A stored wait was created, and is completed if its completion was recorded; until the run has ended, every
      wait that was created is stored. */
  predicate WaitSays(row: Option<Wait>, over: bool, created: bool, completed: bool) {
    match row
    case Some(wait) => created && (wait.completed <==> completed)
    case None => over || (!created && !completed)
  }

  ghost predicate WaitTold(s: Store, id: Id) {
    WaitSays(Get(s.tables.waits, id), L.RunEnded(s), Logged(s, WaitCreates(id)), Logged(s, WaitCompletes(id)))
  }

  lemma EndStays(s: Store, after: Store, e: Event)
    requires Follows(s, after, e) && L.RunEnded(s)
    ensures L.RunEnded(after)
  {
  }

  lemma HookRowAfter(s: Store, after: Store, e: Event, id: Id)
    requires Follows(s, after, e)
    ensures
      id in after.tables.hooks <==>
      (id in s.tables.hooks && !Says(e.data, HookDisposes(id))) || Says(e.data, HookCreates(id))
  {
  }

  /** Hooks are created once, and disposed while they are stored. */
  lemma EventFitsHook(s: Store, e: Event, id: Id)
    requires L.Fits(s, e.data) && L.KeysTaken(s) && L.HooksTrue(s)
    ensures Says(e.data, HookCreates(id)) ==> !Logged(s, HookDisposes(id))
    ensures Says(e.data, HookDisposes(id)) ==> id in s.tables.hooks
  {
    if Logged(s, HookDisposes(id)) { DisposedWasCreated(s, id); }
    L.FitsItsHooks(s, e.data);
  }

  lemma DisposedWasCreated(s: Store, id: Id)
    requires L.KeysTaken(s) && Logged(s, HookDisposes(id))
    ensures id in s.markers.hookEvents
  {
    var k :| k in s.log && Says(s.log[k].data, HookDisposes(id));
    assert L.KeyOf(s.log[k].data) == Some(L.HookEnd(id));
  }

  lemma CommitTellsHook(s: Store, after: Store, e: Event, id: Id)
    requires Follows(s, after, e) && L.Fits(s, e.data) && L.HooksTrue(s) && L.KeysTaken(s) && HookTold(s, id)
    ensures HookTold(after, id)
  {
    HookRowAfter(s, after, e, id);
    EventFitsHook(s, e, id);
    LoggedAfter(s, after, e, HookCreates(id));
    LoggedAfter(s, after, e, HookDisposes(id));
    if L.RunEnded(s) { EndStays(s, after, e); }
  }

  function WaitRowAfter(row: Option<Wait>, e: Event, id: Id): Option<Wait> {
    Get(ReplayWaits(Set(map[], id, row), e), id)
  }

  lemma WaitMoves(s: Store, after: Store, e: Event, id: Id)
    requires Follows(s, after, e)
    ensures Get(after.tables.waits, id) == WaitRowAfter(Get(s.tables.waits, id), e, id)
  {
  }

  lemma WaitKeepsSaying(row: Option<Wait>, over: bool, created: bool, completed: bool, e: Event, id: Id)
    requires WaitSays(row, over, created, completed)
    requires Says(e.data, WaitCreates(id)) ==> row.None? && !over
    requires Says(e.data, WaitCompletes(id)) ==> row.Some?
    ensures
      WaitSays(WaitRowAfter(row, e, id), over, created || Says(e.data, WaitCreates(id)),
               completed || Says(e.data, WaitCompletes(id)))
  {
  }

  lemma EventFitsWait(s: Store, e: Event, id: Id)
    requires L.Fits(s, e.data)
    ensures Says(e.data, WaitCreates(id)) ==> Get(s.tables.waits, id).None? && !L.RunEnded(s)
    ensures Says(e.data, WaitCompletes(id)) ==> Get(s.tables.waits, id).Some?
  {
  }

  lemma CommitTellsWait(s: Store, after: Store, e: Event, id: Id)
    requires Follows(s, after, e) && L.Fits(s, e.data) && WaitTold(s, id)
    ensures WaitTold(after, id)
  {
    WaitMoves(s, after, e, id);
    EventFitsWait(s, e, id);
    LoggedAfter(s, after, e, WaitCreates(id));
    LoggedAfter(s, after, e, WaitCompletes(id));
    var created, completed := Logged(s, WaitCreates(id)), Logged(s, WaitCompletes(id));
    WaitKeepsSaying(Get(s.tables.waits, id), L.RunEnded(s), created, completed, e, id);
    if L.RunEnded(s) { EndStays(s, after, e); }
  }

  // ---- every history --------------------------------------------------------------------------------------------

  /** All four kinds of rows, at one id. */
  ghost predicate Told(s: Store, id: Id) { StepTold(s, id) && RunTold(s) && HookTold(s, id) && WaitTold(s, id) }

  lemma CommitTellsAll(s: Store, e: Event, digest: Option<string>, id: Id)
    requires L.Inv(s) && L.Fits(s, e.data) && Told(s, id)
    ensures Told(Commit(s, e, digest), id)
  {
    var after := Commit(s, e, digest);
    CommitFollows(s, e, digest);
    CommitTells(s, after, e, id);
    CommitTellsRun(s, after, e);
    CommitTellsHook(s, after, e, id);
    CommitTellsWait(s, after, e, id);
  }

  lemma SameLogged(s: Store, after: Store, fact: Fact)
    requires after.log == s.log
    ensures Logged(after, fact) <==> Logged(s, fact)
  {
  }

  lemma SilentTellsStep(s: Store, after: Store, id: Id)
    requires StepTold(s, id) && after.log == s.log && after.sequence == s.sequence
    requires after.tables.steps == s.tables.steps
    ensures StepTold(after, id)
  {
    assert L.Dense(after) && L.Journal(after) == L.Journal(s) && FactsOf(after, id) == FactsOf(s, id);
  }

  lemma SilentTellsRun(s: Store, after: Store)
    requires RunTold(s) && after.log == s.log && L.Agrees(after.tables, s.tables)
    ensures RunTold(after)
  {
    assert RunFactsOf(after) == RunFactsOf(s);
    forall k | k in after.log ensures RunAgrees(after.log[k], after.tables.run) {
      assert RunAgrees(s.log[k], s.tables.run);
    }
  }

  lemma SilentTellsRows(s: Store, after: Store, id: Id)
    requires HookTold(s, id) && WaitTold(s, id) && L.Silent(s, after)
    ensures HookTold(after, id) && WaitTold(after, id)
  {
    SameLogged(s, after, HookCreates(id));
    SameLogged(s, after, HookDisposes(id));
    SameLogged(s, after, WaitCreates(id));
    SameLogged(s, after, WaitCompletes(id));
  }

  /** Rows that leave after the run's end, and the retention stamp, tell nothing new. */
  lemma SilentTells(s: Store, after: Store, id: Id)
    requires Told(s, id) && L.Silent(s, after)
    ensures Told(after, id)
  {
    SilentTellsStep(s, after, id);
    SilentTellsRun(s, after);
    SilentTellsRows(s, after, id);
  }

  lemma StepTells(s: Store, tx: L.Transaction, id: Id)
    requires L.Inv(s) && Told(s, id)
    ensures Told(L.Step(s, tx), id)
  {
    L.StepCommits(s, tx);
    var events, digest := L.Appended(s, tx), L.DigestOf(tx);
    if events == [] {
      SilentTells(s, L.Step(s, tx), id);
    } else {
      CommitTellsAll(s, events[0], digest, id);
      if |events| == 2 {
        L.CommitKeepsInv(s, events[0], digest);
        CommitTellsAll(Commit(s, events[0], digest), events[1], digest, id);
      }
    }
  }

  lemma NothingTold(id: Id)
    ensures Told(EMPTY, id)
  {
  }

  /** After any history every row says what its events say: a step is there, done or broken exactly as logged, with
      its outcome and its count of attempts; the run is in the status its events moved it to, with its outcome; hooks
      and waits stand exactly as logged until the run has ended. */
  lemma {:induction false} RowsTellTheLog(history: seq<L.Transaction>, id: Id)
    ensures Told(L.After(history), id)
  {
    if history == [] {
      NothingTold(id);
    } else {
      L.HistoryKeepsInv(history[..|history| - 1]);
      RowsTellTheLog(history[..|history| - 1], id);
      StepTells(L.After(history[..|history| - 1]), history[|history| - 1], id);
    }
  }
}
