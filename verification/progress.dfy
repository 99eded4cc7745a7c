/** What a goroutine has done at each point (cordon bracket, polling), that the upgrade never
    deadlocks, and a bound on its steps. */
module Progress {
  import opened Upgrade
  import Agent
  import Drain

  predicate Untouched(w: Worker) {
    !w.ok && w.actions == [] && !w.cordoned && w.uncordons == 0 && w.polls == 0
  }

  /** Inside the bracket, before the deferred Uncordon. */
  predicate Open(w: Worker) {
    w.cordoned && w.uncordons == 0 && w.actions != [] && w.actions[0] == "cordoned"
  }

  predicate Clock(deadline: int, base: int, ticks: nat, now: int) {
    deadline <= base + TIMEOUT && base + ticks * PERIOD <= now
  }

  /** What success means: the last status call reported both clients synced. */
  predicate Earned(w: Worker) {
    w.ok ==> w.cordoned && w.synced && w.actions != [] && w.actions[|w.actions| - 1] == "sync recovered"
  }

  /** The goroutine's history agrees with its phase. */
  predicate Faithful(w: Worker, now: int) {
    match w.phase
    case Idle | Missing | Preflight | Cordoning => Untouched(w)
    case Reconciling | EnterWait => Open(w) && !w.ok && w.polls == 0
    case FirstCheck(d) => Open(w) && !w.ok && w.polls == 0 && d <= now + TIMEOUT
    case StartTicker(d) => Open(w) && !w.ok && w.polls == 1 && d <= now + TIMEOUT
    case LoopTop(d, b, k) => Open(w) && !w.ok && w.polls == k + 1 <= MAX_POLLS && Clock(d, b, k, now)
    case Selecting(d, b, k) => Open(w) && !w.ok && w.polls == k + 1 < MAX_POLLS && Clock(d, b, k, now)
    case TickCheck(d, b, k) => Open(w) && !w.ok && w.polls == k < MAX_POLLS && Clock(d, b, k, now)
    case Uncordoning => Open(w) && w.polls <= MAX_POLLS && Earned(w)
    case Recording | Releasing | Finished =>
      && w.uncordons == (if w.cordoned then 1 else 0) && w.polls <= MAX_POLLS && Earned(w)
      && (w.cordoned <==> w.actions != []) && (w.cordoned ==> w.actions[0] == "cordoned")
  }

  predicate Polling(w: Worker) {
    w.phase.FirstCheck? || w.phase.StartTicker? || w.phase.LoopTop? || w.phase.Selecting? || w.phase.TickCheck?
  }

  lemma FaithfulPoll(w: Worker, e: Event, now: int, cancelled: bool, a: Agent.State)
    requires Polling(w) && Faithful(w, now) && WorkerStep(w, e, now, cancelled, a).Some?
    ensures Faithful(WorkerStep(w, e, now, cancelled, a).value, now)
  {
  }

  lemma FaithfulRest(w: Worker, e: Event, now: int, cancelled: bool, a: Agent.State)
    requires !Polling(w) && Faithful(w, now) && WorkerStep(w, e, now, cancelled, a).Some?
    ensures Faithful(WorkerStep(w, e, now, cancelled, a).value, now)
  {
  }

  lemma FaithfulStep(w: Worker, e: Event, now: int, cancelled: bool, a: Agent.State)
    requires Faithful(w, now) && WorkerStep(w, e, now, cancelled, a).Some?
    ensures Faithful(WorkerStep(w, e, now, cancelled, a).value, now)
  {
    if Polling(w) {
      FaithfulPoll(w, e, now, cancelled, a);
    } else {
      FaithfulRest(w, e, now, cancelled, a);
    }
  }

  lemma FaithfulLater(w: Worker, now: int, later: int)
    requires Faithful(w, now) && now <= later
    ensures Faithful(w, later)
  {
  }

  /** Every result is that of a recorded entry, or of a name without a client. */
  ghost predicate Sourced(c: Config, s: State)
    requires |s.slots| == |c.nodes|
  {
    forall r :: r in s.results ==> exists i :: 0 <= i < |s.slots| && Source(c, s, i, r)
  }

  predicate Source(c: Config, s: State, i: nat, r: NodeResult)
    requires i < |s.slots| == |c.nodes|
  {
    Recorded(s.slots[i]) && r == NodeResult(c.nodes[i], s.slots[i].ok, s.slots[i].actions)
  }

  ghost predicate Inv(c: Config, s: State) {
    && Drain.Inv(c, s)
    && (forall i :: 0 <= i < |s.slots| ==> Faithful(s.slots[i], s.now))
    && Sourced(c, s)
  }

  lemma WorkKeeps(c: Config, s: State, i: nat, e: Event)
    requires Inv(c, s) && WorkStep(c, s, i, e).Some?
    ensures var s' := WorkStep(c, s, i, e).value;
            |s'.slots| == |c.nodes| && s'.now == s.now && Sourced(c, s')
            && (forall j :: 0 <= j < |s'.slots| ==> Faithful(s'.slots[j], s'.now))
  {
    var w, a := s.slots[i], s.agents[c.nodes[i]];
    WorkSlots(c, s, i, e);
    FaithfulStep(w, e, s.now, s.cancelled, a);
    WorkSourced(c, s, i, e);
  }

  /** A goroutine's step changes its own slot only. */
  lemma WorkSlots(c: Config, s: State, i: nat, e: Event)
    requires WorkStep(c, s, i, e).Some?
    ensures var w', s' := WorkerStep(s.slots[i], e, s.now, s.cancelled, s.agents[c.nodes[i]]), WorkStep(c, s, i, e);
            w'.Some? && s'.value.slots == s.slots[i := w'.value] && s'.value.now == s.now
  {
  }

  /** The spawner changes only slots that are still idle. */
  lemma SpawnSlots(c: Config, s: State, i: nat)
    requires Drain.Shape(c, s) && i < |s.slots| && SpawnStep(c, s).Some?
    ensures |SpawnStep(c, s).value.slots| == |s.slots|
    ensures s.slots[i].phase != Idle ==> SpawnStep(c, s).value.slots[i] == s.slots[i]
  {
    if s.slots[i].phase != Idle {
      assert i < Reached(c, s.pc);
    }
  }

  lemma WorkSourced(c: Config, s: State, i: nat, e: Event)
    requires Inv(c, s) && WorkStep(c, s, i, e).Some?
    ensures |WorkStep(c, s, i, e).value.slots| == |c.nodes| && Sourced(c, WorkStep(c, s, i, e).value)
  {
    var w, a := s.slots[i], s.agents[c.nodes[i]];
    WorkSlots(c, s, i, e);
    Drain.WorkerFacts(w, e, s.now, s.cancelled, a);
    Drain.WorkStepFacts(c, s, i, e);
    SourcedKept(c, s, WorkStep(c, s, i, e).value, i);
  }

  lemma SourcedKept(c: Config, s: State, s': State, i: nat)
    requires i < |s.slots| == |s'.slots| == |c.nodes|
    requires forall j :: 0 <= j < |s.slots| && j != i ==> s'.slots[j] == s.slots[j]
    requires Recorded(s.slots[i]) ==>
               Recorded(s'.slots[i]) && s'.slots[i].ok == s.slots[i].ok && s'.slots[i].actions == s.slots[i].actions
    requires s'.results != s.results ==>
               && s'.results == s.results + [NodeResult(c.nodes[i], s'.slots[i].ok, s'.slots[i].actions)]
               && Recorded(s'.slots[i])
    requires Sourced(c, s)
    ensures Sourced(c, s')
  {
    forall r | r in s'.results
      ensures exists j :: 0 <= j < |s'.slots| && Source(c, s', j, r)
    {
      if r in s.results {
        var j :| 0 <= j < |s.slots| && Source(c, s, j, r);
        assert Source(c, s', j, r);
      } else {
        assert Source(c, s', i, r);
      }
    }
  }

  lemma SpawnKeeps(c: Config, s: State)
    requires Inv(c, s) && SpawnStep(c, s).Some?
    ensures var s' := SpawnStep(c, s).value;
            |s'.slots| == |c.nodes| && s'.now == s.now && Sourced(c, s')
            && (forall j :: 0 <= j < |s'.slots| ==> Faithful(s'.slots[j], s'.now))
  {
    var s' := SpawnStep(c, s).value;
    if s.pc.Lookup? || s.pc.Spawning? {
      SourcedKept(c, s, s', s.pc.i);
    } else {
      assert forall r, i :: 0 <= i < |s.slots| && Source(c, s, i, r) ==> Source(c, s', i, r);
    }
  }

  lemma StepKeeps(c: Config, s: State, l: Label)
    requires Inv(c, s) && Step(c, s, l).Some?
    ensures Inv(c, Step(c, s, l).value)
  {
    var t := s.(now := l.at);
    Drain.StepKeeps(c, s, l);
    LaterKeeps(c, s, l.at);
    match l.act
    case Spawn => SpawnKeeps(c, t);
    case Work(i, e) => WorkKeeps(c, t, i, e);
    case _ => QuietKeeps(c, t, Step(c, s, l).value);
  }

  lemma LaterKeeps(c: Config, s: State, later: int)
    requires Inv(c, s) && s.now <= later
    ensures Inv(c, s.(now := later))
  {
    var t := s.(now := later);
    forall i | 0 <= i < |t.slots| ensures Faithful(t.slots[i], t.now) {
      FaithfulLater(s.slots[i], s.now, t.now);
    }
    QuietKeeps(c, s, t);
  }

  lemma QuietKeeps(c: Config, s: State, s': State)
    requires |s.slots| == |c.nodes| && s'.slots == s.slots && s'.results == s.results && Sourced(c, s)
    ensures Sourced(c, s')
  {
    assert forall r, i :: 0 <= i < |s.slots| && Source(c, s, i, r) ==> Source(c, s', i, r);
  }

  lemma {:induction false} RunKeeps(c: Config, s: State, ls: seq<Label>)
    requires Inv(c, s) && Run(c, s, ls).Some?
    ensures Inv(c, Run(c, s, ls).value)
    decreases |ls|
  {
    if ls != [] {
      StepKeeps(c, s, ls[0]);
      RunKeeps(c, Step(c, s, ls[0]).value, ls[1..]);
    }
  }

  lemma Reachable(c: Config, s: State, ls: seq<Label>)
    requires Init(c, s) && Run(c, s, ls).Some?
    ensures Inv(c, Run(c, s, ls).value)
  {
    Drain.InitInv(c, s);
    RunKeeps(c, s, ls);
  }

  lemma FaithfulExit(w: Worker, now: int)
    requires Faithful(w, now)
    ensures w.phase == Finished ==> w.uncordons == if w.cordoned then 1 else 0
    ensures w.polls <= 42 && (w.ok ==> w.cordoned && w.synced)
  {
  }

  /** On every exit path: a goroutine that has ended made one Uncordon call if its Cordon
      returned nil and none otherwise; waitForSync made at most 42 status calls, and the
      upgrade counts as a success only if the last of them reported both clients synced. */
  lemma ExitPaths(c: Config, s: State, ls: seq<Label>, i: nat)
    requires Init(c, s) && Run(c, s, ls).Some? && i < |Run(c, s, ls).value.slots|
    ensures var w := Run(c, s, ls).value.slots[i];
            && (w.phase == Finished ==> w.uncordons == if w.cordoned then 1 else 0)
            && w.polls <= 42
            && (w.ok ==> w.cordoned && w.synced)
  {
    Reachable(c, s, ls);
    var end := Run(c, s, ls).value;
    FaithfulExit(end.slots[i], end.now);
  }

  /** The whole run is over: the call has returned and every goroutine it started has ended. */
  ghost predicate Final(s: State) {
    s.pc.Returned? && Drain.NoneLive(s)
  }

  /** A move of a live goroutine that is always possible: the call it waits for returns, the
      next tick arrives, the lock or the channel is free. */
  function LiveMove(w: Worker, i: nat, now: int): Label {
    match w.phase
    case Preflight | FirstCheck(_) | TickCheck(_, _, _) => Label(now, Work(i, Status(true, false, false)))
    case Cordoning => Label(now, Work(i, CordonReturns(false, true)))
    case Reconciling => Label(now, Work(i, ReconcileReturns(false, [], false)))
    case EnterWait | StartTicker(_) | LoopTop(_, _, _) => Label(now, Work(i, ReadClock))
    case Selecting(_, b, k) =>
      var next := b + (k + 1) * PERIOD;
      Label(if next > now then next else now, Work(i, Tick))
    case Uncordoning => Label(now, Work(i, UncordonReturns(false, true)))
    case Recording => Label(now, Work(i, Append))
    case _ => Label(now, Work(i, Release))
  }

  lemma LiveWorkerMoves(w: Worker, i: nat, now: int, cancelled: bool, a: Agent.State)
    requires Holding(w) == 1
    ensures var l := LiveMove(w, i, now);
            && l.at >= now && l.act.Work? && l.act.i == i
            && (l.act.ev.Release? ==> w.phase == Releasing)
            && WorkerStep(w, l.act.ev, l.at, cancelled, a).Some?
  {
  }

  lemma LiveCanMove(c: Config, s: State, i: nat)
    requires Inv(c, s) && i < |s.slots| && Holding(s.slots[i]) == 1
    ensures Step(c, s, LiveMove(s.slots[i], i, s.now)).Some?
  {
    SumAtLeast(s.slots, i, Holding);
    assert Known(c, i) && s.tokens > 0;
    LiveWorkerMoves(s.slots[i], i, s.now, s.cancelled, s.agents[c.nodes[i]]);
  }

  /** The spawner's move, once its pause is over. */
  function SpawnerMove(s: State): Label {
    Label(if s.pc.Pausing? && s.pc.until > s.now then s.pc.until else s.now, Spawn)
  }

  lemma SpawnerCanMove(c: Config, s: State)
    requires Drain.Inv(c, s) && Drain.NoneLive(s) && !s.pc.Returned?
    ensures Step(c, s, SpawnerMove(s)).Some?
  {
    SumZero(s.slots, Holding);
  }

  /** No deadlock: short of the end, the spawner or a goroutine can move, whatever agents,
      callers and the context do. A blocked acquire or drain has a live goroutine to wait for. */
  lemma NoDeadlock(c: Config, s: State, ls: seq<Label>)
    requires Init(c, s) && Run(c, s, ls).Some? && !Final(Run(c, s, ls).value)
    ensures exists l :: Orchestrated(l) && Step(c, Run(c, s, ls).value, l).Some?
  {
    Reachable(c, s, ls);
    var t := Run(c, s, ls).value;
    if i :| 0 <= i < |t.slots| && Holding(t.slots[i]) == 1 {
      LiveCanMove(c, t, i);
      assert Orchestrated(LiveMove(t.slots[i], i, t.now));
    } else {
      SpawnerCanMove(c, t);
      assert Orchestrated(SpawnerMove(t));
    }
  }

  predicate Orchestrated(l: Label) {
    l.act.Spawn? || l.act.GiveUp? || l.act.Work?
  }

  function TicksLeft(k: nat): nat {
    if k + 1 < MAX_POLLS then MAX_POLLS - 1 - k else 0
  }

  /** A bound on the steps the goroutine still makes. */
  function Effort(w: Worker): nat {
    match w.phase
    case Idle | Missing | Finished => 0
    case Releasing => 1
    case Recording => 2
    case Uncordoning => 3
    case LoopTop(_, _, k) => 5 + 3 * TicksLeft(k)
    case Selecting(_, _, k) => 4 + 3 * TicksLeft(k)
    case TickCheck(_, _, k) => 6 + 3 * TicksLeft(k)
    case StartTicker(_) => 6 + 3 * TicksLeft(0)
    case FirstCheck(_) => 7 + 3 * TicksLeft(0)
    case EnterWait => 8 + 3 * TicksLeft(0)
    case Reconciling => 9 + 3 * TicksLeft(0)
    case Cordoning => 10 + 3 * TicksLeft(0)
    case Preflight => 11 + 3 * TicksLeft(0)
  }

  // A goroutine makes at most 134 steps, and the spawner five more for an entry.
  const ENTRY_STEPS := 139

  function SpawnerEffort(c: Config, pc: Spawner): int {
    var drain := c.Capacity() + 2;
    match pc
    case AtEntry(i) => (|c.nodes| - i) * ENTRY_STEPS + drain
    case Pausing(i, _) => (|c.nodes| - i) * ENTRY_STEPS + drain - 1
    case Lookup(i) => (|c.nodes| - i) * ENTRY_STEPS + drain - 2
    case Acquiring(i) => (|c.nodes| - i) * ENTRY_STEPS + drain - 3
    case Spawning(i) => (|c.nodes| - i) * ENTRY_STEPS + drain - 4
    case Draining(k) => drain - 1 - k
    case Returned(_, _, _) => 0
  }

  function Measure(c: Config, s: State): int {
    SpawnerEffort(c, s.pc) + Sum(s.slots, Effort)
  }

  lemma EffortOfPoll(w: Worker, e: Event, now: int, cancelled: bool, a: Agent.State)
    requires Polling(w) && Faithful(w, now) && WorkerStep(w, e, now, cancelled, a).Some?
    ensures Effort(WorkerStep(w, e, now, cancelled, a).value) < Effort(w)
  {
  }

  lemma EffortOfRest(w: Worker, e: Event, now: int, cancelled: bool, a: Agent.State)
    requires !Polling(w) && WorkerStep(w, e, now, cancelled, a).Some?
    ensures Effort(WorkerStep(w, e, now, cancelled, a).value) < Effort(w)
  {
  }

  lemma EffortDrops(w: Worker, e: Event, now: int, cancelled: bool, a: Agent.State)
    requires Faithful(w, now) && WorkerStep(w, e, now, cancelled, a).Some?
    ensures Effort(WorkerStep(w, e, now, cancelled, a).value) < Effort(w)
  {
    if Polling(w) {
      EffortOfPoll(w, e, now, cancelled, a);
    } else {
      EffortOfRest(w, e, now, cancelled, a);
    }
  }

  lemma SpawnDrops(c: Config, s: State)
    requires Inv(c, s) && SpawnStep(c, s).Some?
    ensures Measure(c, SpawnStep(c, s).value) < Measure(c, s)
  {
    PcDrops(c, s);
    SpawnAdds(c, s);
  }

  /** A spawner step adds work only where it starts a goroutine. */
  lemma SpawnAdds(c: Config, s: State)
    requires Inv(c, s) && SpawnStep(c, s).Some?
    ensures Sum(SpawnStep(c, s).value.slots, Effort) <= Sum(s.slots, Effort) + if s.pc.Spawning? then 134 else 0
  {
    if s.pc.Spawning? || (s.pc.Lookup? && !Known(c, s.pc.i)) {
      var i := s.pc.i;
      SlotStarts(c, s, i);
      SumUpdate(s.slots, i, SpawnStep(c, s).value.slots[i], Effort);
    } else {
      SlotsStay(c, s);
    }
  }

  lemma SlotStarts(c: Config, s: State, i: nat)
    requires SpawnStep(c, s).Some?
    requires (s.pc.Spawning? && s.pc.i == i) || (s.pc.Lookup? && s.pc.i == i && i < |c.nodes| && !Known(c, i))
    ensures var s' := SpawnStep(c, s).value;
            && i < |s.slots| == |s'.slots| && s'.slots == s.slots[i := s'.slots[i]]
            && Effort(s'.slots[i]) <= if s.pc.Spawning? then 134 else 0
  {
  }

  lemma SlotsStay(c: Config, s: State)
    requires SpawnStep(c, s).Some? && !s.pc.Spawning? && (s.pc.Lookup? ==> s.pc.i < |c.nodes| && Known(c, s.pc.i))
    ensures SpawnStep(c, s).value.slots == s.slots
  {
  }

  lemma PcDrops(c: Config, s: State)
    requires SpawnStep(c, s).Some? && Reached(c, s.pc) <= |c.nodes| && (s.pc.Draining? ==> s.pc.sent <= c.Capacity())
    ensures var s' := SpawnStep(c, s).value;
            SpawnerEffort(c, s'.pc) < SpawnerEffort(c, s.pc) - if s.pc.Spawning? then 134 else 0
  {
  }

  lemma WorkDrops(c: Config, s: State, i: nat, e: Event)
    requires Inv(c, s) && WorkStep(c, s, i, e).Some?
    ensures Measure(c, WorkStep(c, s, i, e).value) < Measure(c, s)
  {
    EffortDrops(s.slots[i], e, s.now, s.cancelled, s.agents[c.nodes[i]]);
    SumUpdate(s.slots, i, WorkStep(c, s, i, e).value.slots[i], Effort);
  }

  lemma QuietDrops(c: Config, s: State, l: Label)
    requires Step(c, s, l).Some? && !l.act.Spawn? && !l.act.Work?
    requires Drain.PcFits(c, s.pc)
    ensures Measure(c, Step(c, s, l).value) <= Measure(c, s) - if Orchestrated(l) then 1 else 0
  {
  }

  lemma MeasureNatural(c: Config, s: State)
    requires Drain.Inv(c, s)
    ensures 0 <= Measure(c, s)
  {
  }

  lemma MeasureDrops(c: Config, s: State, l: Label)
    requires Inv(c, s) && Step(c, s, l).Some?
    ensures 0 <= Measure(c, Step(c, s, l).value)
    ensures Measure(c, Step(c, s, l).value) <= Measure(c, s) - if Orchestrated(l) then 1 else 0
  {
    var t := s.(now := l.at);
    LaterKeeps(c, s, l.at);
    StepKeeps(c, s, l);
    MeasureNatural(c, Step(c, s, l).value);
    match l.act
    case Spawn => SpawnDrops(c, t);
    case Work(i, e) => WorkDrops(c, t, i, e);
    case _ => QuietDrops(c, s, l);
  }

  function StepsOf(ls: seq<Label>): nat {
    if ls == [] then 0 else (if Orchestrated(ls[0]) then 1 else 0) + StepsOf(ls[1..])
  }

  lemma {:induction false} RunSpends(c: Config, s: State, ls: seq<Label>)
    requires Inv(c, s) && Run(c, s, ls).Some? && 0 <= Measure(c, s)
    ensures StepsOf(ls) + Measure(c, Run(c, s, ls).value) <= Measure(c, s)
    ensures 0 <= Measure(c, Run(c, s, ls).value)
    decreases |ls|
  {
    if ls != [] {
      MeasureDrops(c, s, ls[0]);
      StepKeeps(c, s, ls[0]);
      RunSpends(c, Step(c, s, ls[0]).value, ls[1..]);
    }
  }

  /** Termination: however the run is interleaved with agents and callers, the spawner and the
      goroutines together make at most 139 steps an entry and max(MaxUnavailable, 1) + 2 more. */
  lemma BoundedRun(c: Config, s: State, ls: seq<Label>)
    requires Init(c, s) && Run(c, s, ls).Some?
    ensures StepsOf(ls) <= |c.nodes| * 139 + (if c.maxUnavailable >= 1 then c.maxUnavailable else 1) + 2
  {
    Drain.InitInv(c, s);
    SumZero(s.slots, Effort);
    RunSpends(c, s, ls);
  }
}
