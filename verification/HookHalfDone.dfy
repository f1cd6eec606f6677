/** A forced takeover that ends half done: the claimer's run expires between its journaled creation
    and the settlement (src/worker/durable-objects/WorkflowRunDO.ts, resolveForcedHookClaim). */
module HookHalfDone {
  import opened Prelude
  import opened HookToken
  import opened HookCell
  import opened HookProtocol
  import opened HookInvariant
  import opened HookAttempts
  import opened HookTheorems
  import Shard = HookToken
  import Run = HookCell

  function Victim(a: Owner): Hook { Hook(a, None) }

  function Intent(a: Owner, b: Owner): Takeover { Takeover(b, 2, a, true, HOOK_TAKEOVER_SETTLE_MS) }

  // ---- runs ---------------------------------------------------------------------------------

  /** The steps lead from one state to another, each of them enabled and careful. */
  ghost predicate Leads(s: Sys, steps: seq<Step>, t: Sys)
    decreases |steps|
  {
    if steps == [] then s == t
    else Enabled(s, steps[0]) && Careful(s, steps[0]) && Leads(Do(s, steps[0]), steps[1..], t)
  }

  lemma LeadsTwo(s: Sys, x: Step, y: Step)
    requires Enabled(s, x) && Careful(s, x) && Enabled(Do(s, x), y) && Careful(Do(s, x), y)
    ensures Leads(s, [x, y], Do(Do(s, x), y))
  {
    assert [x, y][1..] == [y] && [y][1..] == [];
    assert Leads(Do(s, x), [y], Do(Do(s, x), y));
  }

  lemma LeadsThree(s: Sys, x: Step, y: Step, z: Step)
    requires Enabled(s, x) && Careful(s, x) && Enabled(Do(s, x), y) && Careful(Do(s, x), y)
    requires Enabled(Do(Do(s, x), y), z) && Careful(Do(Do(s, x), y), z)
    ensures Leads(s, [x, y, z], Do(Do(Do(s, x), y), z))
  {
    LeadsTwo(Do(s, x), y, z);
    assert [x, y, z][1..] == [y, z];
  }

  lemma {:induction false} LeadsOn(s: Sys, first: seq<Step>, t: Sys, later: seq<Step>, u: Sys)
    requires Leads(s, first, t) && Leads(t, later, u)
    ensures Leads(s, first + later, u)
    decreases |first|
  {
    if first == [] {
      assert first + later == later;
    } else {
      LeadsOn(Do(s, first[0]), first[1..], t, later, u);
      assert (first + later)[1..] == first[1..] + later;
    }
  }

  /** Leading from the start is being a behaviour. */
  lemma {:induction false} LeadsIsBehaviour(s: Sys, steps: seq<Step>, t: Sys) returns (states: seq<Sys>)
    requires Leads(s, steps, t)
    ensures |states| == |steps| + 1 && states[0] == s && states[|steps|] == t
    ensures forall k :: 0 <= k < |steps| ==> StepAt(states, steps, k)
    decreases |steps|
  {
    if steps == [] {
      states := [s];
    } else {
      var rest := LeadsIsBehaviour(Do(s, steps[0]), steps[1..], t);
      states := [s] + rest;
      forall k | 0 <= k < |steps| ensures StepAt(states, steps, k) {
        if k > 0 { assert StepAt(rest, steps[1..], k - 1); }
      }
    }
  }

  // ---- the run ---------------------------------------------------------------------------------

  function CreateSteps(a: Owner): seq<Step> {
    [OfClient(SendCreate(Grant(a, 1, None))), Serve(DeliverCreate(a, Exact(1), None, None))]
  }

  function PublishSteps(a: Owner): seq<Step> {
    [Answer(AnswerStatus(a.run)), OfShard(Finalize(Exact(1), Victim(a), true))]
  }

  function ObserveSteps(a: Owner, b: Owner): seq<Step> {
    [OfRun(StartRun(b.run)), OfClient(Observe), Answer(AnswerVictim(Victim(a)))]
  }

  function TakeSteps(a: Owner, b: Owner): seq<Step> {
    [OfShard(OpenTakeover(b, 2, Victim(a), true, 0)), OfClient(SendCreate(Grant(b, 2, Some(a)))),
     Serve(DeliverCreate(b, Exact(2), Some(a), None))]
  }

  function DisposeSteps(a: Owner, b: Owner): seq<Step> {
    [OfClient(Observe), Serve(ForceDispose(Intent(a, b), Some(Hook(b, None))))]
  }

  function DropSteps(a: Owner, b: Owner): seq<Step> {
    [Serve(ResolveForced(Intent(a, b))), OfShard(DropIntent(Intent(a, b)))]
  }

  /** `a` owns the token; `b` takes it over by force, journals its creation, and a settler disposes
      `a`'s hook. Then `b` ends and expires, and the next settler asks an expired run. */
  function HalfDoneSteps(a: Owner, b: Owner): seq<Step> {
    [OfRun(StartRun(a.run)), OfShard(Reserve(a, 1, None, None))] + CreateSteps(a) + PublishSteps(a)
    + ObserveSteps(a, b) + TakeSteps(a, b) + DisposeSteps(a, b)
    + [OfRun(EndRun(b.run)), OfRun(ExpireRun(b.run))] + DropSteps(a, b)
  }

  const ACTIVE_CELL := EMPTY.(phase := Active)

  function Holder(h: HookId, id: ClaimId, from: Option<Owner>): Cell {
    ACTIVE_CELL.(live := map[h := None], created := map[h := Run.Created(true, from, Some(id))])
  }

  /** `a`'s record is published and nothing else is pending. */
  ghost predicate Indexed(s: Sys, a: Owner) {
    s.now == 0 && s.shard == FREE.(record := Some(Victim(a))) && s.cells == map[a.run := Holder(a.hook, 1, None)]
    && s.ids == map[1 := a] && s.intents == map[]
  }

  /** `b`'s takeover is pending and its forced creation is journaled. */
  ghost predicate Opened(s: Sys, a: Owner, b: Owner) {
    && s.shard == FREE.(record := Some(Victim(a)), takeover := Some(Intent(a, b)))
    && s.cells == map[a.run := Holder(a.hook, 1, None), b.run := Holder(b.hook, 2, Some(a))]
    && Reported(b, Exact(2), Hook(b, None)) in s.net
  }

  /** `a`'s creation is journaled under its claim. */
  ghost predicate Created(s: Sys, a: Owner) {
    && s.now == 0 && s.shard == FREE.(claim := Some(Claim(a, 1, HOOK_CLAIM_LEASE_MS)))
    && s.cells == map[a.run := Holder(a.hook, 1, None)] && s.ids == map[1 := a] && s.intents == map[]
    && Reported(a, Exact(1), Victim(a)) in s.net
  }

  lemma AReserves(a: Owner) returns (t: Sys)
    ensures Leads(INIT, [OfRun(StartRun(a.run)), OfShard(Reserve(a, 1, None, None))], t)
    ensures t == Sys(0, FREE.(claim := Some(Claim(a, 1, HOOK_CLAIM_LEASE_MS))), map[a.run := ACTIVE_CELL],
                     map[1 := a], map[], {Grant(a, 1, None)}, {})
  {
    var start, reserve := OfRun(StartRun(a.run)), OfShard(Reserve(a, 1, None, None));
    assert Do(INIT, start) == Sys(0, FREE, map[a.run := ACTIVE_CELL], map[], map[], {}, {});
    t := Do(Do(INIT, start), reserve);
    LeadsTwo(INIT, start, reserve);
  }

  lemma ACreates(s: Sys, a: Owner) returns (t: Sys)
    requires s == Sys(0, FREE.(claim := Some(Claim(a, 1, HOOK_CLAIM_LEASE_MS))), map[a.run := ACTIVE_CELL],
                      map[1 := a], map[], {Grant(a, 1, None)}, {})
    ensures Leads(s, CreateSteps(a), t) && Created(t, a)
  {
    var send, deliver := OfClient(SendCreate(Grant(a, 1, None))), Serve(DeliverCreate(a, Exact(1), None, None));
    assert Of(s, a) == ACTIVE_CELL;
    t := Do(Do(s, send), deliver);
    LeadsTwo(s, send, deliver);
  }

  lemma APublishes(s: Sys, a: Owner) returns (t: Sys)
    requires Created(s, a)
    ensures Leads(s, PublishSteps(a), t) && Indexed(t, a)
  {
    var answer, finalize := Answer(AnswerStatus(a.run)), OfShard(Finalize(Exact(1), Victim(a), true));
    assert Do(s, answer) == s.(net := s.net + {Status(a.run, true)});
    t := Do(Do(s, answer), finalize);
    LeadsTwo(s, answer, finalize);
  }

  lemma BObserves(s: Sys, a: Owner, b: Owner) returns (t: Sys)
    requires a.run != b.run && Indexed(s, a)
    ensures Leads(s, ObserveSteps(a, b), t)
    ensures t.now == 0 && t.shard == s.shard && t.ids == s.ids
    ensures t.cells == map[a.run := Holder(a.hook, 1, None), b.run := ACTIVE_CELL] &&
            Msg.Victim(Victim(a), true) in t.net
  {
    var start, observe, answer := OfRun(StartRun(b.run)), OfClient(Observe), Answer(AnswerVictim(Victim(a)));
    var s1 := Do(s, start);
    assert s1.cells == map[a.run := Holder(a.hook, 1, None), b.run := ACTIVE_CELL];
    var s2 := Do(s1, observe);
    assert s2.net == s1.net + {AskVictim(Victim(a))};
    assert Of(s2, a) == Holder(a.hook, 1, None);
    t := Do(s2, answer);
    LeadsThree(s, start, observe, answer);
  }

  lemma BTakesOver(s: Sys, a: Owner, b: Owner) returns (t: Sys)
    requires a.run != b.run && s.now == 0 && s.shard == FREE.(record := Some(Victim(a))) && s.ids == map[1 := a]
    requires s.cells == map[a.run := Holder(a.hook, 1, None), b.run := ACTIVE_CELL] &&
             Msg.Victim(Victim(a), true) in s.net
    ensures Leads(s, TakeSteps(a, b), t) && Opened(t, a, b)
  {
    var open, send, deliver :=
        OfShard(OpenTakeover(b, 2, Victim(a), true, 0)),
        OfClient(SendCreate(Grant(b, 2, Some(a)))),
        Serve(DeliverCreate(b, Exact(2), Some(a), None));
    assert Of(s, b) == ACTIVE_CELL;
    var s1 := Do(s, open);
    assert s1.shard == FREE.(record := Some(Victim(a)), takeover := Some(Intent(a, b))) && s1.cells == s.cells;
    assert Of(s1, b) == ACTIVE_CELL && Grant(b, 2, Some(a)) in s1.held;
    t := Do(Do(s1, send), deliver);
    LeadsThree(s, open, send, deliver);
  }

  /** The settler disposed the victim's hook; the claimer's log is as it was. */
  ghost predicate Disposed(s: Sys, a: Owner, b: Owner) {
    && s.shard == FREE.(record := Some(Victim(a)), takeover := Some(Intent(a, b)))
    && Of(s, a) == Holder(a.hook, 1, None).(live := map[], forced := map[a.hook := b])
    && Of(s, b) == Holder(b.hook, 2, Some(a)) && AskForced(Intent(a, b)) in s.net
  }

  lemma SettlerDisposes(s: Sys, a: Owner, b: Owner) returns (t: Sys)
    requires a.run != b.run && Opened(s, a, b)
    ensures Leads(s, DisposeSteps(a, b), t) && Disposed(t, a, b)
  {
    var observe, dispose := OfClient(Observe), Serve(ForceDispose(Intent(a, b), Some(Hook(b, None))));
    var s1 := Do(s, observe);
    assert AskForced(Intent(a, b)) in s1.net && s1.cells == s.cells && s1.shard == s.shard;
    assert Of(s1, a) == Holder(a.hook, 1, None) && Of(s1, b) == Holder(b.hook, 2, Some(a));
    assert Holder(a.hook, 1, None).live - {a.hook} == map[];
    t := Do(s1, dispose);
    LeadsTwo(s, observe, dispose);
  }

  lemma BExpires(s: Sys, a: Owner, b: Owner) returns (t: Sys)
    requires a.run != b.run && Disposed(s, a, b)
    ensures Leads(s, [OfRun(EndRun(b.run)), OfRun(ExpireRun(b.run))], t)
    ensures t.shard == s.shard && t.net == s.net && Of(t, a) == Of(s, a) && Of(t, b) == Of(s, b).(phase := Expired)
  {
    t := Do(Do(s, OfRun(EndRun(b.run))), OfRun(ExpireRun(b.run)));
    LeadsTwo(s, OfRun(EndRun(b.run)), OfRun(ExpireRun(b.run)));
  }

  lemma SettlerDrops(s: Sys, a: Owner, b: Owner) returns (t: Sys)
    requires a.run != b.run && s.shard.takeover == Some(Intent(a, b)) && AskForced(Intent(a, b)) in s.net
    requires Of(s, b).phase.Expired?
    ensures Leads(s, DropSteps(a, b), t)
    ensures t.shard == s.shard.(takeover := None) && Of(t, a) == Of(s, a) && Of(t, b) == Of(s, b)
  {
    var resolve, drop := Serve(ResolveForced(Intent(a, b))), OfShard(DropIntent(Intent(a, b)));
    t := Do(Do(s, resolve), drop);
    LeadsTwo(s, resolve, drop);
  }

  lemma FirstHalf(a: Owner, b: Owner) returns (s: Sys)
    requires a.run != b.run
    ensures
      Leads(INIT,
            [OfRun(StartRun(a.run)), OfShard(Reserve(a, 1, None, None))] + CreateSteps(a) + PublishSteps(a) +
            ObserveSteps(a, b), s)
    ensures s.now == 0 && s.shard == FREE.(record := Some(Victim(a))) && s.ids == map[1 := a]
    ensures s.cells == map[a.run := Holder(a.hook, 1, None), b.run := ACTIVE_CELL] &&
            Msg.Victim(Victim(a), true) in s.net
  {
    var start := [OfRun(StartRun(a.run)), OfShard(Reserve(a, 1, None, None))];
    var reserved := AReserves(a);
    var created := ACreates(reserved, a);
    var indexed := APublishes(created, a);
    s := BObserves(indexed, a, b);
    LeadsOn(INIT, start, reserved, CreateSteps(a), created);
    LeadsOn(INIT, start + CreateSteps(a), created, PublishSteps(a), indexed);
    LeadsOn(INIT, start + CreateSteps(a) + PublishSteps(a), indexed, ObserveSteps(a, b), s);
  }

  lemma SecondHalf(s: Sys, a: Owner, b: Owner) returns (t: Sys)
    requires a.run != b.run && s.now == 0 && s.shard == FREE.(record := Some(Victim(a))) && s.ids == map[1 := a]
    requires s.cells == map[a.run := Holder(a.hook, 1, None), b.run := ACTIVE_CELL] &&
             Msg.Victim(Victim(a), true) in s.net
    ensures Leads(s,
                  TakeSteps(a, b) + DisposeSteps(a, b) + [OfRun(EndRun(b.run)), OfRun(ExpireRun(b.run))] +
                  DropSteps(a, b), t)
    ensures t.shard == FREE.(record := Some(Victim(a)))
    ensures Of(t, a) == Holder(a.hook, 1, None).(live := map[], forced := map[a.hook := b])
    ensures Of(t, b) == Holder(b.hook, 2, Some(a)).(phase := Expired)
  {
    var over := [OfRun(EndRun(b.run)), OfRun(ExpireRun(b.run))];
    var taken := BTakesOver(s, a, b);
    var disposed := SettlerDisposes(taken, a, b);
    var expired := BExpires(disposed, a, b);
    t := SettlerDrops(expired, a, b);
    LeadsOn(s, TakeSteps(a, b), taken, DisposeSteps(a, b), disposed);
    LeadsOn(s, TakeSteps(a, b) + DisposeSteps(a, b), disposed, over, expired);
    LeadsOn(s, TakeSteps(a, b) + DisposeSteps(a, b) + over, expired, DropSteps(a, b), t);
  }

  /** Not all or nothing: the victim's hook is disposed and fenced, the claimer's log holds the forced
      creation against it, and the token never moved. Every step is one the code takes. */
  lemma TakeoverEndsHalfDone(a: Owner, b: Owner) returns (states: seq<Sys>)
    requires a.run != b.run
    ensures Behaviour(states, HalfDoneSteps(a, b))
    ensures
      var end := states[|HalfDoneSteps(a, b)|];
      && end.shard == FREE.(record := Some(Victim(a)))
      && Of(end, a).phase.Active? && a.hook in Of(end, a).forced && !Holds(end, a)
      && Journaled(Of(end, b), Intent(a, b)) && Forgotten(end, b, 2) && !Foreclosed(end, b, 2)
  {
    var s := FirstHalf(a, b);
    var t := SecondHalf(s, a, b);
    var first := [OfRun(StartRun(a.run)), OfShard(Reserve(a, 1, None, None))] + CreateSteps(a) + PublishSteps(a) +
        ObserveSteps(a, b);
    var second :=
        TakeSteps(a, b) + DisposeSteps(a, b) + [OfRun(EndRun(b.run)), OfRun(ExpireRun(b.run))] + DropSteps(a, b);
    LeadsOn(INIT, first, s, second, t);
    assert first + second == HalfDoneSteps(a, b);
    states := LeadsIsBehaviour(INIT, HalfDoneSteps(a, b), t);
  }
}
