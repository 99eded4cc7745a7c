/** The cordon flag over whole runs of the upgrade: how many nodes can be cordoned, and when a
    goroutine can rely on its node staying cordoned. */
module Cordon {
  import opened Wrappers
  import opened Upgrade
  import Agent
  import Drain

  /** Nobody but the orchestrator calls /cordon. */
  ghost predicate Undisturbed(ls: seq<Label>) {
    forall k :: 0 <= k < |ls| ==> !ls[k].act.Outside?
  }

  function CordonedNodes(s: State): set<string> {
    set n | n in s.agents && s.agents[n].cordoned
  }

  function FailedUncordons(ls: seq<Label>): nat {
    if ls == [] then 0
    else (match ls[0].act case Work(_, UncordonReturns(true, _)) => 1 case _ => 0) + FailedUncordons(ls[1..])
  }

  /** Cordon calls that returned an error although they took effect. */
  function GhostCordons(ls: seq<Label>): nat {
    if ls == [] then 0
    else (match ls[0].act case Work(_, CordonReturns(true, true)) => 1 case _ => 0) + GhostCordons(ls[1..])
  }

  ghost predicate HeldBy(c: Config, s: State, n: string)
    requires |s.slots| == |c.nodes|
  {
    exists i :: 0 <= i < |s.slots| && Holds(c, s, i, n)
  }

  predicate Holds(c: Config, s: State, i: nat, n: string)
    requires i < |s.slots| == |c.nodes|
  {
    InBracket(s.slots[i]) && c.nodes[i] == n
  }

  /** Every cordoned node was cordoned at the start, is held by a live goroutine, or was left
      behind by a failed call. */
  ghost predicate Covered(c: Config, s: State, pre: set<string>)
    requires |s.slots| == |c.nodes|
  {
    forall n :: n in CordonedNodes(s) ==> n in pre || n in s.stuck || n in s.ghosted || HeldBy(c, s, n)
  }

  lemma CoveredWork(c: Config, s: State, i: nat, e: Event, pre: set<string>)
    requires |s.slots| == |c.nodes| && Covered(c, s, pre) && WorkStep(c, s, i, e).Some?
    ensures |WorkStep(c, s, i, e).value.slots| == |c.nodes| && Covered(c, WorkStep(c, s, i, e).value, pre)
  {
    var s' := WorkStep(c, s, i, e).value;
    forall n | n in CordonedNodes(s')
      ensures n in pre || n in s'.stuck || n in s'.ghosted || HeldBy(c, s', n)
    {
      if n == c.nodes[i] {
        CoveredTarget(c, s, i, e, pre);
      } else {
        assert n in CordonedNodes(s);
        if HeldBy(c, s, n) {
          var j :| 0 <= j < |s.slots| && Holds(c, s, j, n);
          assert Holds(c, s', j, n);
        }
      }
    }
  }

  /** The node the event is about. */
  lemma CoveredTarget(c: Config, s: State, i: nat, e: Event, pre: set<string>)
    requires |s.slots| == |c.nodes| && Covered(c, s, pre) && WorkStep(c, s, i, e).Some?
    requires c.nodes[i] in CordonedNodes(WorkStep(c, s, i, e).value)
    ensures var s' := WorkStep(c, s, i, e).value; var n := c.nodes[i];
            n in pre || n in s'.stuck || n in s'.ghosted || HeldBy(c, s', n)
  {
    var s' := WorkStep(c, s, i, e).value;
    var n := c.nodes[i];
    BracketMoves(s.slots[i], e, s.now, s.cancelled, s.agents[n]);
    if InBracket(s'.slots[i]) {
      assert Holds(c, s', i, n);
    } else if s'.stuck != s.stuck {
      assert n == s'.stuck[|s.stuck|];
    } else if s'.ghosted != s.ghosted {
      assert n == s'.ghosted[|s.ghosted|];
    } else if !e.UncordonReturns? {
      assert n in CordonedNodes(s);
      if HeldBy(c, s, n) {
        var j :| 0 <= j < |s.slots| && Holds(c, s, j, n);
        assert j != i;
        assert Holds(c, s', j, n);
      }
    }
  }

  /** A goroutine enters its bracket when Cordon returns nil and leaves it when Uncordon ends. */
  lemma BracketMoves(w: Worker, e: Event, now: int, cancelled: bool, a: Agent.State)
    requires WorkerStep(w, e, now, cancelled, a).Some?
    ensures var w' := WorkerStep(w, e, now, cancelled, a).value;
            && (InBracket(w) && !InBracket(w') <==> e.UncordonReturns?)
            && (!InBracket(w) && InBracket(w') <==> e.CordonReturns? && !e.err)
            && (e.CordonReturns? ==> !InBracket(w))
            && (InBracket(w) && InBracket(w') ==> w'.seen == w.seen && w'.stale == w.stale)
            && (InBracket(w) ==> Holding(w) == 1)
            && (!InBracket(w) && InBracket(w') ==> w'.seen == a.passes && w'.stale == (a.pass != Agent.NoPass))
  {
  }

  lemma CoveredSpawn(c: Config, s: State, pre: set<string>)
    requires Drain.Inv(c, s) && Covered(c, s, pre) && SpawnStep(c, s).Some?
    ensures |SpawnStep(c, s).value.slots| == |c.nodes| && Covered(c, SpawnStep(c, s).value, pre)
  {
    var s' := SpawnStep(c, s).value;
    assert forall j, n :: 0 <= j < |s.slots| && Holds(c, s, j, n) ==> Holds(c, s', j, n);
    assert CordonedNodes(s') == CordonedNodes(s);
  }

  lemma CoveredStep(c: Config, s: State, l: Label, pre: set<string>)
    requires Drain.Inv(c, s) && Covered(c, s, pre) && Step(c, s, l).Some? && !l.act.Outside?
    ensures |Step(c, s, l).value.slots| == |c.nodes| && Covered(c, Step(c, s, l).value, pre)
  {
    var t := s.(now := l.at);
    var s' := Step(c, s, l).value;
    CoveredQuiet(c, s, t, pre);
    match l.act
    case Spawn => CoveredSpawn(c, t, pre);
    case Work(i, e) => CoveredWork(c, t, i, e, pre);
    case _ => CoveredQuiet(c, t, s', pre);
  }

  lemma CoveredQuiet(c: Config, s: State, s': State, pre: set<string>)
    requires |s.slots| == |c.nodes| && s'.slots == s.slots && s'.stuck == s.stuck && s'.ghosted == s.ghosted
    requires Covered(c, s, pre) && CordonedNodes(s') <= CordonedNodes(s)
    ensures Covered(c, s', pre)
  {
    assert forall j, n :: 0 <= j < |s.slots| && Holds(c, s, j, n) ==> Holds(c, s', j, n);
  }

  lemma {:induction false} CoveredRun(c: Config, s: State, ls: seq<Label>, pre: set<string>)
    requires Drain.Inv(c, s) && Covered(c, s, pre) && Run(c, s, ls).Some? && Undisturbed(ls)
    ensures var end := Run(c, s, ls).value;
            && Drain.Inv(c, end) && Covered(c, end, pre)
            && |end.stuck| == |s.stuck| + FailedUncordons(ls)
            && |end.ghosted| == |s.ghosted| + GhostCordons(ls)
    decreases |ls|
  {
    if ls != [] {
      CoveredStep(c, s, ls[0], pre);
      Drain.StepKeeps(c, s, ls[0]);
      FailuresCounted(c, s, ls[0]);
      assert forall k :: 0 <= k < |ls[1..]| ==> ls[1..][k] == ls[k + 1];
      CoveredRun(c, Step(c, s, ls[0]).value, ls[1..], pre);
    }
  }

  lemma FailuresCounted(c: Config, s: State, l: Label)
    requires Step(c, s, l).Some?
    ensures var s' := Step(c, s, l).value;
            && |s'.stuck| == |s.stuck| + (match l.act case Work(_, UncordonReturns(true, _)) => 1 case _ => 0)
            && |s'.ghosted| == |s.ghosted| + (match l.act case Work(_, CordonReturns(true, true)) => 1 case _ => 0)
  {
  }

  function Bracketed(nodes: seq<string>, ws: seq<Worker>): set<string>
    requires |nodes| == |ws|
  {
    if ws == [] then {}
    else (if InBracket(ws[0]) then {nodes[0]} else {}) + Bracketed(nodes[1..], ws[1..])
  }

  lemma {:induction false} BracketedSize(nodes: seq<string>, ws: seq<Worker>)
    requires |nodes| == |ws|
    ensures |Bracketed(nodes, ws)| <= Sum(ws, Holding)
    ensures forall i :: 0 <= i < |ws| && InBracket(ws[i]) ==> nodes[i] in Bracketed(nodes, ws)
  {
    if ws != [] {
      BracketedSize(nodes[1..], ws[1..]);
      forall i | 0 <= i < |ws| && InBracket(ws[i])
        ensures nodes[i] in Bracketed(nodes, ws)
      {
        if i > 0 {
          assert ws[1..][i - 1] == ws[i] && nodes[1..][i - 1] == nodes[i];
        }
      }
      var head: set<string> := if InBracket(ws[0]) then {nodes[0]} else {};
      assert |head + Bracketed(nodes[1..], ws[1..])| <= |head| + |Bracketed(nodes[1..], ws[1..])|;
    }
  }

  function Elements(xs: seq<string>): set<string> {
    set x | x in xs
  }

  lemma {:induction false} ElementsSize(xs: seq<string>)
    ensures |Elements(xs)| <= |xs|
  {
    if xs != [] {
      ElementsSize(xs[1..]);
      assert xs == [xs[0]] + xs[1..];
      assert Elements(xs) == {xs[0]} + Elements(xs[1..]);
    }
  }

  lemma SubsetSize<T>(a: set<T>, b: set<T>)
    requires a <= b
    ensures |a| <= |b|
  {
    assert b == a + (b - a);
  }

  /** In every state of every run without other callers, cancelled runs included: the nodes
      cordoned besides those that were at the start are at most max(MaxUnavailable, 1), plus
      one for each failed Uncordon call and each Cordon call that took effect and reported an
      error. When every goroutine has ended only those leftovers remain. */
  lemma CordonedBound(c: Config, s: State, ls: seq<Label>)
    requires Init(c, s) && Run(c, s, ls).Some? && Undisturbed(ls)
    ensures var end, atOnce := Run(c, s, ls).value, if c.maxUnavailable >= 1 then c.maxUnavailable else 1;
            && |CordonedNodes(end) - CordonedNodes(s)| <= atOnce + FailedUncordons(ls) + GhostCordons(ls)
            && (Drain.NoneLive(end) ==>
                  |CordonedNodes(end) - CordonedNodes(s)| <= FailedUncordons(ls) + GhostCordons(ls))
  {
    var pre := CordonedNodes(s);
    Drain.InitInv(c, s);
    CoveredRun(c, s, ls, pre);
    var end := Run(c, s, ls).value;
    var held := Bracketed(c.nodes, end.slots);
    var left := Elements(end.stuck) + Elements(end.ghosted);
    BracketedSize(c.nodes, end.slots);
    ElementsSize(end.stuck);
    ElementsSize(end.ghosted);
    forall n | n in CordonedNodes(end) - pre
      ensures n in held + left
    {
      if HeldBy(c, end, n) {
        var i :| 0 <= i < |end.slots| && Holds(c, end, i, n);
      }
    }
    SubsetSize(CordonedNodes(end) - pre, held + left);
    if Drain.NoneLive(end) {
      SumZero(end.slots, Holding);
    }
  }

  /** No two goroutines of the request can be live on one node: only one is ever live, or each
      known name is listed once. */
  ghost predicate Exclusive(c: Config) {
    c.maxUnavailable <= 1 || forall i, j :: 0 <= i < j < |c.nodes| && c.nodes[i] == c.nodes[j] ==> !Known(c, i)
  }

  /** The goroutine's node is cordoned, no background pass got past the check since its Cordon
      returned, and one that is still running was running then. */
  predicate Guarded(a: Agent.State, w: Worker) {
    InBracket(w) ==> a.cordoned && a.passes == w.seen && (a.pass != Agent.NoPass ==> w.stale)
  }

  ghost predicate AllGuarded(c: Config, s: State)
    requires |s.slots| == |c.nodes|
  {
    forall i :: 0 <= i < |s.slots| && c.nodes[i] in s.agents ==> Guarded(s.agents[c.nodes[i]], s.slots[i])
  }

  lemma LiveAlone(c: Config, s: State, i: nat, j: nat)
    requires Drain.Inv(c, s) && Exclusive(c) && i < |c.nodes| && j < |c.nodes| && i != j && c.nodes[i] == c.nodes[j]
    ensures Holding(s.slots[i]) == 0 || Holding(s.slots[j]) == 0
  {
    var lo, hi := if i < j then i else j, if i < j then j else i;
    if c.maxUnavailable <= 1 {
      SumTwo(s.slots, lo, hi, Holding);
    } else {
      assert !Known(c, lo);
    }
  }

  lemma GuardedWork(c: Config, s: State, i: nat, e: Event)
    requires Drain.Inv(c, s) && Exclusive(c) && AllGuarded(c, s) && WorkStep(c, s, i, e).Some?
    ensures |WorkStep(c, s, i, e).value.slots| == |c.nodes| && AllGuarded(c, WorkStep(c, s, i, e).value)
  {
    var s' := WorkStep(c, s, i, e).value;
    BracketMoves(s.slots[i], e, s.now, s.cancelled, s.agents[c.nodes[i]]);
    Drain.WorkerFacts(s.slots[i], e, s.now, s.cancelled, s.agents[c.nodes[i]]);
    forall j | 0 <= j < |s'.slots| && c.nodes[j] in s'.agents
      ensures Guarded(s'.agents[c.nodes[j]], s'.slots[j])
    {
      if j != i && c.nodes[j] == c.nodes[i] {
        LiveAlone(c, s, i, j);
      }
      assert Guarded(s.agents[c.nodes[j]], s.slots[j]);
    }
  }

  /** Slots inside their bracket, and all agents, stay as they are. */
  lemma GuardedSlots(c: Config, s: State, s': State)
    requires |s.slots| == |s'.slots| == |c.nodes| && AllGuarded(c, s) && s'.agents == s.agents
    requires forall j :: 0 <= j < |s.slots| && InBracket(s'.slots[j]) ==> s'.slots[j] == s.slots[j]
    ensures AllGuarded(c, s')
  {
    forall j | 0 <= j < |s'.slots| && c.nodes[j] in s'.agents ensures Guarded(s'.agents[c.nodes[j]], s'.slots[j]) {
      assert Guarded(s.agents[c.nodes[j]], s.slots[j]);
    }
  }

  lemma GuardedSpawn(c: Config, s: State)
    requires |s.slots| == |c.nodes| && AllGuarded(c, s) && SpawnStep(c, s).Some?
    ensures |SpawnStep(c, s).value.slots| == |c.nodes| && AllGuarded(c, SpawnStep(c, s).value)
  {
    SpawnSlots(c, s);
    GuardedSlots(c, s, SpawnStep(c, s).value);
  }

  lemma SpawnSlots(c: Config, s: State)
    requires SpawnStep(c, s).Some?
    ensures var s' := SpawnStep(c, s).value;
            && s'.agents == s.agents && |s'.slots| == |s.slots|
            && forall j :: 0 <= j < |s.slots| && InBracket(s'.slots[j]) ==> s'.slots[j] == s.slots[j]
  {
  }

  /** A background pass of one agent: none gets past the check of a cordoned node. */
  lemma GuardedPass(c: Config, s: State, n: string, bg: Agent.Event, a: Agent.State)
    requires |s.slots| == |c.nodes| && AllGuarded(c, s)
    requires n in s.agents && Agent.Background(s.agents[n], bg) == Some(a)
    ensures AllGuarded(c, s.(agents := s.agents[n := a]))
  {
    var s' := s.(agents := s.agents[n := a]);
    forall j | 0 <= j < |s'.slots| && c.nodes[j] in s'.agents
      ensures Guarded(s'.agents[c.nodes[j]], s'.slots[j])
    {
      assert Guarded(s.agents[c.nodes[j]], s.slots[j]);
    }
  }

  lemma GuardedStep(c: Config, s: State, l: Label)
    requires Drain.Inv(c, s) && Exclusive(c) && AllGuarded(c, s) && Step(c, s, l).Some? && !l.act.Outside?
    ensures |Step(c, s, l).value.slots| == |c.nodes| && AllGuarded(c, Step(c, s, l).value)
  {
    var t := s.(now := l.at);
    GuardedSlots(c, s, t);
    var s' := Step(c, s, l).value;
    match l.act
    case Spawn => GuardedSpawn(c, t);
    case Work(i, e) => GuardedWork(c, t, i, e);
    case Background(n, bg) => GuardedPass(c, t, n, bg, s'.agents[n]);
    case _ => GuardedSlots(c, t, s');
  }

  lemma {:induction false} GuardedRun(c: Config, s: State, ls: seq<Label>)
    requires Drain.Inv(c, s) && Exclusive(c) && AllGuarded(c, s) && Run(c, s, ls).Some? && Undisturbed(ls)
    ensures Drain.Inv(c, Run(c, s, ls).value) && AllGuarded(c, Run(c, s, ls).value)
    decreases |ls|
  {
    if ls != [] {
      GuardedStep(c, s, ls[0]);
      Drain.StepKeeps(c, s, ls[0]);
      assert forall k :: 0 <= k < |ls[1..]| ==> ls[1..][k] == ls[k + 1];
      GuardedRun(c, Step(c, s, ls[0]).value, ls[1..]);
    }
  }

  /** A node is cordoned in every state where its goroutine reconciles it or waits for it. */
  ghost predicate Shielded(c: Config, s: State) {
    && |s.slots| == |c.nodes|
    && forall i :: 0 <= i < |s.slots| && InBracket(s.slots[i]) ==>
         c.nodes[i] in s.agents && s.agents[c.nodes[i]].cordoned
  }

  /** Orchestrator and agent together: inside its bracket the node stays cordoned, the
      background loop has let no pass through since the Cordon returned, its next check skips,
      and the only pass that can overlap the upgrade is one that was running at that moment. */
  lemma BracketExcludesPasses(c: Config, s: State, ls: seq<Label>, i: nat)
    requires Init(c, s) && Exclusive(c) && Undisturbed(ls) && Run(c, s, ls).Some?
    requires i < |Run(c, s, ls).value.slots| && InBracket(Run(c, s, ls).value.slots[i])
    ensures var end := Run(c, s, ls).value;
            i < |c.nodes| && c.nodes[i] in end.agents && (
            var a, w := end.agents[c.nodes[i]], end.slots[i];
            && a.cordoned && a.passes == w.seen && (a.pass != Agent.NoPass ==> w.stale)
            && (a.pass == Agent.NoPass ==> Agent.Background(a, Agent.Check) == Some(a)))
  {
    Drain.InitInv(c, s);
    GuardedRun(c, s, ls);
    var end := Run(c, s, ls).value;
    assert Known(c, i);
    assert Guarded(end.agents[c.nodes[i]], end.slots[i]);
  }
}
