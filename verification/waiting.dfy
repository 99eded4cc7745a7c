/** waitForSync in the step relation: the polling phases of a goroutine in module Upgrade are the
    loop of module Polling cut into atomic steps. */
module Waiting {
  import opened Wrappers
  import opened Polling
  import opened Upgrade
  import Agent
  import Drain
  import Progress

  /** One step of a goroutine: the event, and the clock, the context and the node's agent then. */
  datatype Moment = Moment(ev: Event, now: int, cancelled: bool, agent: Agent.State)

  function Next(w: Worker, m: Moment): Option<Worker> {
    WorkerStep(w, m.ev, m.now, m.cancelled, m.agent)
  }

  /** The goroutine after its next steps; other goroutines may step in between. */
  function Follow(w: Worker, ms: seq<Moment>): Option<Worker>
    decreases |ms|
  {
    if ms == [] then Some(w)
    else
      match Next(w, ms[0])
      case None => None
      case Some(w') => Follow(w', ms[1..])
  }

  predicate Ordered(now: int, ms: seq<Moment>)
    decreases |ms|
  {
    ms != [] ==> now <= ms[0].now && Ordered(ms[0].now, ms[1..])
  }

  /** What has been read so far: when the deadline was set, when the ticker was made, the
      answers of the status calls, and the clock at each top of the loop. */
  datatype Log = Log(entered: int, started: int, replies: seq<Reply>, tops: seq<int>)
  {
    ghost predicate Unsynced() {
      forall k :: 0 <= k < |replies| ==> replies[k].err || !replies[k].el || !replies[k].cl
    }

    ghost predicate Timely() {
      forall k :: 0 <= k < |tops| ==> started + k * PERIOD <= tops[k] <= entered + TIMEOUT
    }
  }

  /** The phase of the goroutine and what it has read belong together. */
  ghost predicate Agrees(w: Worker, now: int, g: Log) {
    && w.polls == |g.replies| && !w.ok && g.Unsynced() && g.Timely() && g.entered <= g.started <= now
    && match w.phase
       case EnterWait => g.replies == [] && g.tops == []
       case FirstCheck(d) => d == g.entered + TIMEOUT && g.replies == [] && g.tops == []
       case StartTicker(d) => d == g.entered + TIMEOUT && |g.replies| == 1 && g.tops == []
       case LoopTop(d, b, k) =>
         d == g.entered + TIMEOUT && b == g.started && |g.replies| == k + 1 && |g.tops| == k && b + k * PERIOD <= now
       case Selecting(d, b, k) => d == g.entered + TIMEOUT && b == g.started && |g.replies| == k + 1 == |g.tops|
       case TickCheck(d, b, k) =>
         d == g.entered + TIMEOUT && b == g.started && |g.replies| == k == |g.tops| && b + k * PERIOD <= now
       case _ => false
  }

  /** The loop ends on the script as the goroutine did, and in no other way. */
  ghost predicate Yields(s: Script, w: Worker) {
    && s.Regular() && Outcome(s, TIMEOUT, !w.ok, w.polls)
    && forall err, calls :: Outcome(s, TIMEOUT, err, calls) ==> err == !w.ok && calls == w.polls
  }

  lemma OnlyOutcome(s: Script, w: Worker)
    requires s.Regular() && Outcome(s, TIMEOUT, !w.ok, w.polls)
    ensures Yields(s, w)
  {
    forall err, calls | Outcome(s, TIMEOUT, err, calls) ensures err == !w.ok && calls == w.polls {
      OutcomeUnique(s, TIMEOUT, !w.ok, w.polls, err, calls);
    }
  }

  /** The script that gives what was read, then `last` at the top of the loop, where `gone` says
      how the select ends. */
  function ScriptOf(g: Log, last: int, gone: bool): Script {
    Script(g.entered, g.started,
           (k: nat) => if k < |g.replies| then g.replies[k] else Reply(true, false, false),
           (k: nat) =>
             if k < |g.tops| then g.tops[k]
             else if k == |g.tops| && last >= g.started + k * PERIOD then last
             else g.started + k * PERIOD,
           (k: nat) => gone && k == |g.replies| - 1)
  }

  /** The log after a step that goes on polling. */
  function Note(w: Worker, m: Moment, g: Log): Log {
    match (w.phase, m.ev)
    case (EnterWait, _) => g.(entered := m.now, started := m.now)
    case (FirstCheck(_), Status(err, el, cl)) => g.(replies := [Reply(err, el, cl)], started := m.now)
    case (StartTicker(_), _) => g.(started := m.now)
    case (LoopTop(_, _, _), _) => g.(tops := g.tops + [m.now])
    case (TickCheck(_, _, _), Status(err, el, cl)) => g.(replies := g.replies + [Reply(err, el, cl)])
    case _ => g
  }

  lemma GoesOnFirst(w: Worker, now: int, g: Log, m: Moment)
    requires Agrees(w, now, g) && now <= m.now && !w.phase.LoopTop? && !w.phase.TickCheck?
    requires Next(w, m).Some? && !Next(w, m).value.phase.Uncordoning?
    ensures Agrees(Next(w, m).value, m.now, Note(w, m, g))
  {
  }

  lemma GoesOnTop(w: Worker, now: int, g: Log, m: Moment)
    requires Agrees(w, now, g) && now <= m.now && w.phase.LoopTop?
    requires Next(w, m).Some? && !Next(w, m).value.phase.Uncordoning?
    ensures Agrees(Next(w, m).value, m.now, Note(w, m, g))
  {
  }

  lemma GoesOnTick(w: Worker, now: int, g: Log, m: Moment)
    requires Agrees(w, now, g) && now <= m.now && w.phase.TickCheck?
    requires Next(w, m).Some? && !Next(w, m).value.phase.Uncordoning?
    ensures Agrees(Next(w, m).value, m.now, Note(w, m, g))
  {
  }

  lemma GoesOn(w: Worker, now: int, g: Log, m: Moment)
    requires Agrees(w, now, g) && now <= m.now
    requires Next(w, m).Some? && !Next(w, m).value.phase.Uncordoning?
    ensures Agrees(Next(w, m).value, m.now, Note(w, m, g))
  {
    if w.phase.LoopTop? {
      GoesOnTop(w, now, g, m);
    } else if w.phase.TickCheck? {
      GoesOnTick(w, now, g, m);
    } else {
      GoesOnFirst(w, now, g, m);
    }
  }

  lemma EndsSynced(w: Worker, now: int, g: Log, m: Moment) returns (s: Script)
    requires Agrees(w, now, g) && now <= m.now && m.ev.Status?
    requires Next(w, m).Some? && Next(w, m).value.phase.Uncordoning?
    ensures Yields(s, Next(w, m).value)
  {
    s := ScriptOf(Note(w, m, g), m.now, false);
    OnlyOutcome(s, Next(w, m).value);
  }

  lemma EndsFailed(w: Worker, now: int, g: Log, m: Moment) returns (s: Script)
    requires Agrees(w, now, g) && now <= m.now && !m.ev.Status?
    requires Next(w, m).Some? && Next(w, m).value.phase.Uncordoning?
    ensures Yields(s, Next(w, m).value)
  {
    s := ScriptOf(g, m.now, m.ev.ContextDone?);
    OnlyOutcome(s, Next(w, m).value);
  }

  lemma Ends(w: Worker, now: int, g: Log, m: Moment) returns (s: Script)
    requires Agrees(w, now, g) && now <= m.now
    requires Next(w, m).Some? && Next(w, m).value.phase.Uncordoning?
    ensures Yields(s, Next(w, m).value)
  {
    if m.ev.Status? {
      s := EndsSynced(w, now, g, m);
    } else {
      s := EndsFailed(w, now, g, m);
    }
  }

  lemma {:induction false} NeverBack(w: Worker, ms: seq<Moment>)
    requires (w.phase.Recording? || w.phase.Releasing? || w.phase.Finished?) && Follow(w, ms).Some?
    ensures !Follow(w, ms).value.phase.Uncordoning?
    decreases |ms|
  {
    if ms != [] {
      NeverBack(Next(w, ms[0]).value, ms[1..]);
    }
  }

  lemma LeavesOnce(w: Worker, ms: seq<Moment>)
    requires w.phase.Uncordoning? && Follow(w, ms).Some? && Follow(w, ms).value.phase.Uncordoning?
    ensures ms == []
  {
    if ms != [] {
      NeverBack(Next(w, ms[0]).value, ms[1..]);
    }
  }

  lemma {:induction false} StepsFrom(w: Worker, now: int, g: Log, ms: seq<Moment>) returns (s: Script)
    requires Agrees(w, now, g) && Ordered(now, ms)
    requires Follow(w, ms).Some? && Follow(w, ms).value.phase.Uncordoning?
    ensures Yields(s, Follow(w, ms).value)
    decreases |ms|
  {
    var w' := Next(w, ms[0]).value;
    if w'.phase.Uncordoning? {
      s := Ends(w, now, g, ms[0]);
      LeavesOnce(w', ms[1..]);
    } else {
      GoesOn(w, now, g, ms[0]);
      s := StepsFrom(w', ms[0].now, Note(w, ms[0], g), ms[1..]);
    }
  }

  function MomentOf(c: Config, s: State, l: Label): Moment
    requires l.act.Work? && l.act.i < |c.nodes| && c.nodes[l.act.i] in s.agents
  {
    Moment(l.act.ev, l.at, s.cancelled, s.agents[c.nodes[l.act.i]])
  }

  /** The steps of goroutine i in a run. */
  function Moments(c: Config, s: State, ls: seq<Label>, i: nat): seq<Moment>
    requires i < |c.nodes|
    decreases |ls|
  {
    if ls == [] then []
    else
      match Step(c, s, ls[0])
      case None => []
      case Some(s') =>
        (if ls[0].act.Work? && ls[0].act.i == i && c.nodes[i] in s.agents
         then [MomentOf(c, s, ls[0])] else [])
        + Moments(c, s', ls[1..], i)
  }

  lemma OrderedLater(now: int, later: int, ms: seq<Moment>)
    requires now <= later && Ordered(later, ms)
    ensures Ordered(now, ms)
  {
  }

  /** A step changes a goroutine that has been started only if it is that goroutine's own. */
  lemma StepFollows(c: Config, s: State, l: Label, i: nat)
    requires Drain.Inv(c, s) && i < |s.slots| && s.slots[i].phase != Idle && Step(c, s, l).Some?
    ensures |Step(c, s, l).value.slots| == |s.slots|
    ensures var w' := Step(c, s, l).value.slots[i];
            if l.act.Work? && l.act.i == i
            then c.nodes[i] in s.agents && Next(s.slots[i], MomentOf(c, s, l)) == Some(w')
            else w' == s.slots[i]
  {
    var t := s.(now := l.at);
    match l.act
    case Spawn => Progress.SpawnSlots(c, t, i);
    case Work(j, e) => Progress.WorkSlots(c, t, j, e);
    case _ =>
  }

  /** The steps of a goroutine in a run are in order, and following them gives its state at the end. */
  lemma {:induction false} RunFollows(c: Config, s: State, ls: seq<Label>, i: nat)
    requires Drain.Inv(c, s) && Run(c, s, ls).Some? && i < |s.slots| && s.slots[i].phase != Idle
    ensures i < |Run(c, s, ls).value.slots| && Ordered(s.now, Moments(c, s, ls, i))
    ensures Follow(s.slots[i], Moments(c, s, ls, i)) == Some(Run(c, s, ls).value.slots[i])
    decreases |ls|
  {
    if ls != [] {
      var l, s' := ls[0], Step(c, s, ls[0]).value;
      Drain.StepKeeps(c, s, l);
      StepFollows(c, s, l, i);
      NeverIdle(c, s, l, i);
      ClockMoves(c, s, l);
      RunFollows(c, s', ls[1..], i);
      var rest := Moments(c, s', ls[1..], i);
      OrderedLater(s.now, s'.now, rest);
      if l.act.Work? && l.act.i == i {
        var m := MomentOf(c, s, l);
        assert Moments(c, s, ls, i) == [m] + rest && ([m] + rest)[1..] == rest;
      } else {
        assert Moments(c, s, ls, i) == rest;
      }
    }
  }

  lemma NeverIdle(c: Config, s: State, l: Label, i: nat)
    requires Drain.Inv(c, s) && i < |s.slots| && s.slots[i].phase != Idle && Step(c, s, l).Some?
    ensures i < |Step(c, s, l).value.slots| && Step(c, s, l).value.slots[i].phase != Idle
  {
    StepFollows(c, s, l, i);
    if l.act.Work? && l.act.i == i {
      Drain.WorkerFacts(s.slots[i], l.act.ev, l.at, s.cancelled, s.agents[c.nodes[i]]);
    }
  }

  lemma ClockMoves(c: Config, s: State, l: Label)
    requires Step(c, s, l).Some?
    ensures Step(c, s, l).value.now == l.at >= s.now
  {
  }

  /** In any run, however its steps interleave with everything else, a goroutine that has entered
      the wait leaves it as the loop does on some script: with that error and after that many
      calls, and the loop can end in no other way on that script. */
  lemma RunPolls(c: Config, s0: State, xs: seq<Label>, ys: seq<Label>, i: nat) returns (s: Script)
    requires Init(c, s0) && Run(c, s0, xs).Some? && Run(c, Run(c, s0, xs).value, ys).Some?
    requires i < |Run(c, s0, xs).value.slots| && Run(c, s0, xs).value.slots[i].phase.EnterWait?
    requires i < |Run(c, Run(c, s0, xs).value, ys).value.slots|
    requires Run(c, Run(c, s0, xs).value, ys).value.slots[i].phase.Uncordoning?
    ensures Yields(s, Run(c, Run(c, s0, xs).value, ys).value.slots[i])
  {
    Progress.Reachable(c, s0, xs);
    var mid := Run(c, s0, xs).value;
    assert Progress.Faithful(mid.slots[i], mid.now);
    RunFollows(c, mid, ys, i);
    s := StepsFrom(mid.slots[i], mid.now, Log(mid.now, mid.now, [], []), Moments(c, mid, ys, i));
    var w := Run(c, mid, ys).value.slots[i];
    assert Yields(s, w);
  }
}
