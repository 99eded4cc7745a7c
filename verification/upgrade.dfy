/** The rolling upgrade as a step relation (internal/upgrade/orchestrator.go): one spawner,
    one worker per reached entry of the request, a channel used as a semaphore, a shared
    result list and the agents of the nodes. Every channel operation, locked section,
    client call and clock reading is one atomic step, and a label resolves what the step
    leaves open: how a client call ends, which select branch fires, how much time passed. */
module Upgrade {
  import opened Wrappers
  import Agent

  // Durations in nanoseconds.
  const SECOND := 1_000_000_000
  const TIMEOUT := 600 * SECOND
  const PERIOD := 15 * SECOND
  // Status calls one waitForSync can make: the immediate one and one a tick.
  const MAX_POLLS: nat := TIMEOUT / PERIOD + 2

  /** The arguments of RollingUpgrade; `clients` are the keys of the client map. */
  datatype Config = Config(
    nodes: seq<string>, clients: set<string>, maxUnavailable: int, skipPreflight: bool, pause: int)
  {
    function Capacity(): nat {
      if maxUnavailable > 1 then maxUnavailable else 1
    }
  }

  /** The goroutine of one entry, named by what it does next. `Missing` is an entry whose
      name has no client: the spawner records it itself. */
  datatype Phase =
    | Idle
    | Missing
    | Preflight
    | Cordoning
    | Reconciling
    | EnterWait
    | FirstCheck(deadline: int)
    | StartTicker(deadline: int)
    | LoopTop(deadline: int, base: int, ticks: nat)
    | Selecting(deadline: int, base: int, ticks: nat)
    | TickCheck(deadline: int, base: int, ticks: nat)
    | Uncordoning
    | Recording
    | Releasing
    | Finished

  /** `ok` is result.Err == nil and `actions` is result.Actions. The rest is history:
      whether Cordon returned nil, how many Uncordon calls ended, how many status calls
      waitForSync made and whether the last one reported both clients synced, how many
      background passes the node had let through and whether one was running when Cordon
      took effect. */
  datatype Worker = Worker(
    phase: Phase, ok: bool, actions: seq<string>,
    cordoned: bool, uncordons: nat, polls: nat, synced: bool, seen: nat, stale: bool)

  const ASLEEP := Worker(Idle, false, [], false, 0, 0, false, 0, false)

  datatype Spawner =
    | AtEntry(i: nat)
    | Pausing(i: nat, until: int)
    | Lookup(i: nat)
    | Acquiring(i: nat)
    | Spawning(i: nat)
    | Draining(sent: nat)
    | Returned(cancelled: bool, reached: nat, answer: seq<NodeResult>)

  datatype NodeResult = NodeResult(name: string, ok: bool, actions: seq<string>)

  /** `stuck` lists the nodes whose Uncordon call failed, `ghosted` those where a Cordon call
      took effect and yet returned an error. */
  datatype State = State(
    pc: Spawner, tokens: nat, slots: seq<Worker>, results: seq<NodeResult>,
    agents: map<string, Agent.State>, cancelled: bool, now: int,
    stuck: seq<string>, ghosted: seq<string>)

  datatype Event =
    | Status(err: bool, el: bool, cl: bool)
    | CordonReturns(err: bool, effect: bool)
    | ReconcileReturns(err: bool, actions: seq<string>, errors: bool)
    | ReadClock
    | Tick
    | ContextDone
    | UncordonReturns(err: bool, effect: bool)
    | Append
    | Release

  datatype Action =
    | Spawn              // the spawner's next step
    | GiveUp             // the spawner sees the cancelled context while it pauses
    | Work(i: nat, ev: Event)
    | Cancel             // the caller cancels the context
    | Background(node: string, bg: Agent.Event)
    | Outside(node: string, value: bool)  // somebody else calls /cordon

  /** `at` is the clock when the step happens. */
  datatype Label = Label(at: int, act: Action)

  function Known(c: Config, i: nat): bool
    requires i < |c.nodes|
  {
    c.nodes[i] in c.clients
  }

  function Leave(w: Worker, ok: bool): Worker {
    w.(phase := Uncordoning, ok := ok)
  }

  /** What a goroutine does to itself; None when the event does not fit its phase. */
  function WorkerStep(w: Worker, e: Event, now: int, cancelled: bool, a: Agent.State): Option<Worker> {
    match (w.phase, e)
    case (Preflight, Status(err, el, cl)) =>
      Some(if err || !el || !cl then w.(phase := Recording) else w.(phase := Cordoning))
    case (Cordoning, CordonReturns(err, _)) =>
      Some(if err then w.(phase := Recording)
           else w.(phase := Reconciling, cordoned := true, actions := w.actions + ["cordoned"],
                   seen := a.passes, stale := a.pass != Agent.NoPass))
    case (Reconciling, ReconcileReturns(err, actions, errors)) =>
      Some(if err then Leave(w, false)
           else if errors then Leave(w.(actions := w.actions + actions), false)
           else w.(phase := EnterWait, actions := w.actions + actions))
    case (EnterWait, ReadClock) => Some(w.(phase := FirstCheck(now + TIMEOUT)))
    case (FirstCheck(d), Status(err, el, cl)) =>
      var w' := w.(polls := w.polls + 1, synced := !err && el && cl);
      Some(if w'.synced then Leave(w'.(actions := w'.actions + ["sync recovered"]), true)
           else w'.(phase := StartTicker(d)))
    case (StartTicker(d), ReadClock) => Some(w.(phase := LoopTop(d, now, 0)))
    case (LoopTop(d, b, k), ReadClock) =>
      Some(if now > d then Leave(w, false) else w.(phase := Selecting(d, b, k)))
    case (Selecting(d, b, k), Tick) =>
      if now >= b + (k + 1) * PERIOD then Some(w.(phase := TickCheck(d, b, k + 1))) else None
    case (Selecting(_, _, _), ContextDone) => if cancelled then Some(Leave(w, false)) else None
    case (TickCheck(d, b, k), Status(err, el, cl)) =>
      var w' := w.(polls := w.polls + 1, synced := !err && el && cl);
      Some(if w'.synced then Leave(w'.(actions := w'.actions + ["sync recovered"]), true)
           else w'.(phase := LoopTop(d, b, k)))
    case (Uncordoning, UncordonReturns(_, _)) => Some(w.(phase := Recording, uncordons := w.uncordons + 1))
    case (Recording, Append) => Some(w.(phase := Releasing))
    case (Releasing, Release) => Some(w.(phase := Finished))
    case _ => None
  }

  /** What the event does outside the goroutine. A call that returns nil took effect; one
      that returns an error may or may not have. */
  function Effect(s: State, name: string, w: Worker, e: Event): Option<State>
    requires name in s.agents
  {
    match e
    case CordonReturns(err, effect) =>
      if !err || effect then
        Some(s.(agents := s.agents[name := Agent.SetCordon(s.agents[name], true)],
                ghosted := if err then s.ghosted + [name] else s.ghosted))
      else Some(s)
    case UncordonReturns(err, effect) =>
      Some(s.(agents := if !err || effect then s.agents[name := Agent.SetCordon(s.agents[name], false)] else s.agents,
              stuck := if err then s.stuck + [name] else s.stuck))
    case Append => Some(s.(results := s.results + [NodeResult(name, w.ok, w.actions)]))
    case Release => if s.tokens > 0 then Some(s.(tokens := s.tokens - 1)) else None
    case _ => Some(s)
  }

  function WorkStep(c: Config, s: State, i: nat, e: Event): Option<State> {
    if i < |s.slots| && i < |c.nodes| && c.nodes[i] in s.agents then
      var name := c.nodes[i];
      match WorkerStep(s.slots[i], e, s.now, s.cancelled, s.agents[name])
      case None => None
      case Some(w) => Effect(s.(slots := s.slots[i := w]), name, w, e)
    else None
  }

  function SpawnStep(c: Config, s: State): Option<State> {
    match s.pc
    case AtEntry(i) =>
      Some(s.(pc := if i >= |c.nodes| then Draining(0)
                    else if i > 0 && c.pause > 0 then Pausing(i, s.now + c.pause)
                    else Lookup(i)))
    case Pausing(i, until) => if s.now >= until then Some(s.(pc := Lookup(i))) else None
    case Lookup(i) =>
      if i >= |c.nodes| || i >= |s.slots| then None
      else if Known(c, i) then Some(s.(pc := Acquiring(i)))
      else Some(s.(pc := AtEntry(i + 1), results := s.results + [NodeResult(c.nodes[i], false, [])],
                   slots := s.slots[i := s.slots[i].(phase := Missing)]))
    case Acquiring(i) =>
      if s.tokens < c.Capacity() then Some(s.(pc := Spawning(i), tokens := s.tokens + 1)) else None
    case Spawning(i) =>
      if i >= |s.slots| then None
      else Some(s.(pc := AtEntry(i + 1),
                   slots := s.slots[i := s.slots[i].(phase := if c.skipPreflight then Cordoning else Preflight)]))
    case Draining(k) =>
      if k >= c.Capacity() then Some(s.(pc := Returned(false, |c.nodes|, s.results)))
      else if s.tokens < c.Capacity() then Some(s.(pc := Draining(k + 1), tokens := s.tokens + 1))
      else None
    case Returned(_, _, _) => None
  }

  function ActionStep(c: Config, s: State, a: Action): Option<State> {
    match a
    case Spawn => SpawnStep(c, s)
    case GiveUp =>
      if s.pc.Pausing? && s.cancelled then Some(s.(pc := Returned(true, s.pc.i, s.results))) else None
    case Work(i, e) => WorkStep(c, s, i, e)
    case Cancel => Some(s.(cancelled := true))
    case Background(name, bg) =>
      if name !in s.agents then None
      else (
        match Agent.Background(s.agents[name], bg)
        case None => None
        case Some(a') => Some(s.(agents := s.agents[name := a'])))
    case Outside(name, value) =>
      if name !in s.agents then None
      else Some(s.(agents := s.agents[name := Agent.SetCordon(s.agents[name], value)]))
  }

  function Step(c: Config, s: State, l: Label): Option<State> {
    if l.at < s.now then None else ActionStep(c, s.(now := l.at), l.act)
  }

  /** A run: the state after the labels, None when one of them is not enabled. */
  function Run(c: Config, s: State, ls: seq<Label>): Option<State>
    decreases |ls|
  {
    if ls == [] then Some(s)
    else
      match Step(c, s, ls[0])
      case None => None
      case Some(s') => Run(c, s', ls[1..])
  }

  /** The call begins: no token taken, nothing spawned. The agents and the context may be in
      any state. */
  ghost predicate Init(c: Config, s: State) {
    && s.pc == AtEntry(0) && s.tokens == 0 && s.results == [] && s.stuck == [] && s.ghosted == []
    && |s.slots| == |c.nodes| && (forall i :: 0 <= i < |s.slots| ==> s.slots[i] == ASLEEP)
    && s.agents.Keys == c.clients
  }

  /** The goroutine holds a token. */
  function Holding(w: Worker): nat {
    if w.phase in {Idle, Missing, Finished} then 0 else 1
  }

  /** Between a Cordon that returned nil and the end of the Uncordon call. */
  predicate InBracket(w: Worker) {
    match w.phase
    case Idle | Missing | Preflight | Cordoning | Recording | Releasing | Finished => false
    case _ => true
  }

  /** The entry's result is in the shared list. */
  predicate Recorded(w: Worker) {
    w.phase in {Missing, Releasing, Finished}
  }

  /** Entries the spawner is done with. */
  function Reached(c: Config, pc: Spawner): nat {
    match pc
    case AtEntry(i) => i
    case Pausing(i, _) => i
    case Lookup(i) => i
    case Acquiring(i) => i
    case Spawning(i) => i
    case Draining(_) => |c.nodes|
    case Returned(_, n, _) => n
  }

  function Sum(ws: seq<Worker>, f: Worker -> nat): nat {
    if ws == [] then 0 else f(ws[0]) + Sum(ws[1..], f)
  }

  lemma {:induction false} SumUpdate(ws: seq<Worker>, i: nat, w: Worker, f: Worker -> nat)
    requires i < |ws|
    ensures Sum(ws[i := w], f) + f(ws[i]) == Sum(ws, f) + f(w)
  {
    var us := ws[i := w];
    if i == 0 {
      assert us[1..] == ws[1..];
    } else {
      assert us[1..] == ws[1..][i - 1 := w];
      SumUpdate(ws[1..], i - 1, w, f);
    }
  }

  lemma {:induction false} SumAtLeast(ws: seq<Worker>, i: nat, f: Worker -> nat)
    requires i < |ws|
    ensures Sum(ws, f) >= f(ws[i])
  {
    if i > 0 {
      SumAtLeast(ws[1..], i - 1, f);
    }
  }

  lemma {:induction false} SumZero(ws: seq<Worker>, f: Worker -> nat)
    requires forall i :: 0 <= i < |ws| ==> f(ws[i]) == 0
    ensures Sum(ws, f) == 0
  {
    if ws != [] {
      assert f(ws[0]) == 0;
      assert forall i :: 0 <= i < |ws[1..]| ==> ws[1..][i] == ws[i + 1];
      SumZero(ws[1..], f);
    }
  }

  lemma {:induction false} SumTwo(ws: seq<Worker>, i: nat, j: nat, f: Worker -> nat)
    requires i < j < |ws|
    ensures Sum(ws, f) >= f(ws[i]) + f(ws[j])
  {
    if i == 0 {
      SumAtLeast(ws[1..], j - 1, f);
    } else {
      SumTwo(ws[1..], i - 1, j - 1, f);
    }
  }

  lemma {:induction false} RunConcat(c: Config, s: State, xs: seq<Label>, ys: seq<Label>)
    ensures Run(c, s, xs).Some? ==> Run(c, s, xs + ys) == Run(c, Run(c, s, xs).value, ys)
    decreases |xs|
  {
    if xs == [] {
      assert xs + ys == ys;
    } else {
      assert (xs + ys)[0] == xs[0] && (xs + ys)[1..] == xs[1..] + ys;
      var next := Step(c, s, xs[0]);
      if next.Some? {
        RunConcat(c, next.value, xs[1..], ys);
      }
    }
  }
}
