/** What a cancelled context does to the deferred Uncordon: it is called with the request's own
    context, and a client that sends with a cancelled context fails before it sends
    (internal/upgrade/orchestrator.go, cli/agentclient/client.go). */
module Cancelled {
  import opened Wrappers
  import opened Upgrade
  import opened Cordon
  import Agent
  import Drain
  import Exclusion
  import Progress

  /** A call of a node's agent, if the step is one, fails without effect. */
  predicate Unsent(l: Label) {
    match l.act
    case Work(_, Status(err, _, _)) => err
    case Work(_, CordonReturns(err, effect)) => err && !effect
    case Work(_, ReconcileReturns(err, _, _)) => err
    case Work(_, UncordonReturns(err, effect)) => err && !effect
    case _ => true
  }

  ghost predicate NoneSent(ls: seq<Label>) {
    forall k :: 0 <= k < |ls| ==> Unsent(ls[k])
  }

  lemma FlagsStay(c: Config, s: State, l: Label)
    requires Step(c, s, l).Some? && Unsent(l) && !l.act.Outside?
    ensures CordonedNodes(Step(c, s, l).value) == CordonedNodes(s)
  {
    var s' := Step(c, s, l).value;
    forall n ensures n in CordonedNodes(s') <==> n in CordonedNodes(s) {
      if n in s.agents {
        FlagStays(c, s, l, n);
      }
    }
  }

  lemma FlagStays(c: Config, s: State, l: Label, n: string)
    requires Step(c, s, l).Some? && Unsent(l) && !l.act.Outside? && n in s.agents
    ensures n in Step(c, s, l).value.agents && Step(c, s, l).value.agents[n].cordoned == s.agents[n].cordoned
  {
    match l.act
    case Work(i, e) =>
    case Background(name, bg) =>
    case _ =>
  }

  /** While no call is sent, no cordon flag changes. */
  lemma {:induction false} CancelFreezes(c: Config, s: State, ls: seq<Label>)
    requires Run(c, s, ls).Some? && NoneSent(ls) && Undisturbed(ls)
    ensures CordonedNodes(Run(c, s, ls).value) == CordonedNodes(s)
    decreases |ls|
  {
    if ls != [] {
      FlagsStay(c, s, ls[0]);
      assert forall k :: 0 <= k < |ls[1..]| ==> ls[1..][k] == ls[k + 1];
      CancelFreezes(c, Step(c, s, ls[0]).value, ls[1..]);
    }
  }

  /** A node whose goroutine is between its Cordon and its Uncordon when the context is cancelled
      stays cordoned for good: its deferred Uncordon is never sent. */
  lemma CancelStrands(c: Config, s0: State, xs: seq<Label>, ys: seq<Label>, i: nat)
    requires Init(c, s0) && Exclusive(c) && Undisturbed(xs) && Undisturbed(ys)
    requires Run(c, s0, xs).Some? && Run(c, Run(c, s0, xs).value, ys).Some? && NoneSent(ys)
    requires i < |Run(c, s0, xs).value.slots| && InBracket(Run(c, s0, xs).value.slots[i])
    ensures i < |c.nodes| && c.nodes[i] in CordonedNodes(Run(c, Run(c, s0, xs).value, ys).value)
  {
    var mid := Run(c, s0, xs).value;
    Exclusion.ExclusiveShields(c);
    assert Exclusion.AlwaysShielded(c) && Shielded(c, mid);
    CancelFreezes(c, mid, ys);
  }

  /** Clients one can depend on: calls of /cordon that go out succeed, and once the context is
      cancelled, which `gone` says, none goes out. */
  ghost predicate Dependable(gone: bool, ls: seq<Label>)
    decreases |ls|
  {
    ls != [] ==>
      && (if gone then Unsent(ls[0]) else Exclusion.Answered(ls[0].act))
      && Dependable(gone || ls[0].act.Cancel?, ls[1..])
  }

  lemma {:induction false} DependableGone(ls: seq<Label>)
    requires Dependable(true, ls)
    ensures NoneSent(ls)
    decreases |ls|
  {
    if ls != [] {
      DependableGone(ls[1..]);
      assert forall k :: 0 < k < |ls| ==> ls[k] == ls[1..][k - 1];
    }
  }

  lemma CancelKnown(c: Config, s: State, l: Label)
    requires Step(c, s, l).Some?
    ensures Step(c, s, l).value.cancelled == (s.cancelled || l.act.Cancel?)
  {
  }

  /** The state in which the context is cancelled, or the last one if it never is. */
  function Stop(c: Config, s: State, ls: seq<Label>): State
    decreases |ls|
  {
    if s.cancelled || ls == [] then s
    else
      match Step(c, s, ls[0])
      case None => s
      case Some(s') => Stop(c, s', ls[1..])
  }

  lemma {:induction false} StopAtEnd(c: Config, s: State, ls: seq<Label>)
    requires Run(c, s, ls).Some? && !Run(c, s, ls).value.cancelled
    ensures Stop(c, s, ls) == Run(c, s, ls).value
    decreases |ls|
  {
    if s.cancelled {
      StaysCancelled(c, s, ls);
    } else if ls != [] {
      StopAtEnd(c, Step(c, s, ls[0]).value, ls[1..]);
    }
  }

  lemma {:induction false} StaysCancelled(c: Config, s: State, ls: seq<Label>)
    requires Run(c, s, ls).Some? && s.cancelled
    ensures Run(c, s, ls).value.cancelled
    decreases |ls|
  {
    if ls != [] {
      CancelKnown(c, s, ls[0]);
      StaysCancelled(c, Step(c, s, ls[0]).value, ls[1..]);
    }
  }

  /** No Uncordon call for the node has ended. */
  ghost predicate Pristine(c: Config, s: State, n: string)
    requires |s.slots| == |c.nodes|
  {
    forall i :: 0 <= i < |s.slots| && c.nodes[i] == n ==> s.slots[i].uncordons == 0
  }

  /** The cordoned nodes are exactly those in a goroutine's bracket and those that were cordoned
      before and no goroutine has come to uncordon. */
  ghost predicate Exact(c: Config, s: State, pre: set<string>)
    requires |s.slots| == |c.nodes|
  {
    forall n :: n in CordonedNodes(s) <==> HeldBy(c, s, n) || (n in pre && Pristine(c, s, n))
  }

  /** Steps that move no flag, no bracket and no count. */
  lemma ExactSame(c: Config, s: State, s': State, pre: set<string>)
    requires |s.slots| == |s'.slots| == |c.nodes| && Exact(c, s, pre) && CordonedNodes(s') == CordonedNodes(s)
    requires forall j :: 0 <= j < |s.slots| ==>
               InBracket(s'.slots[j]) == InBracket(s.slots[j]) && s'.slots[j].uncordons == s.slots[j].uncordons
    ensures Exact(c, s', pre)
  {
    forall n ensures n in CordonedNodes(s') <==> HeldBy(c, s', n) || (n in pre && Pristine(c, s', n)) {
      assert forall j :: 0 <= j < |s.slots| ==> Holds(c, s', j, n) == Holds(c, s, j, n);
      assert HeldBy(c, s', n) == HeldBy(c, s, n) && Pristine(c, s', n) == Pristine(c, s, n);
    }
  }

  /** Only the two calls of /cordon move the bracket, the count or the flag. */
  lemma QuietWork(c: Config, s: State, i: nat, e: Event, pre: set<string>)
    requires |s.slots| == |c.nodes| && Exact(c, s, pre) && WorkStep(c, s, i, e).Some?
    requires !e.CordonReturns? && !e.UncordonReturns?
    ensures |WorkStep(c, s, i, e).value.slots| == |c.nodes| && Exact(c, WorkStep(c, s, i, e).value, pre)
  {
    var s' := WorkStep(c, s, i, e).value;
    Progress.WorkSlots(c, s, i, e);
    QuietWorker(s.slots[i], e, s.now, s.cancelled, s.agents[c.nodes[i]]);
    assert s'.agents == s.agents;
    ExactSame(c, s, s', pre);
  }

  lemma QuietWorker(w: Worker, e: Event, now: int, cancelled: bool, a: Agent.State)
    requires WorkerStep(w, e, now, cancelled, a).Some? && !e.CordonReturns? && !e.UncordonReturns?
    ensures var w' := WorkerStep(w, e, now, cancelled, a).value;
            InBracket(w') == InBracket(w) && w'.uncordons == w.uncordons
  {
  }

  /** Whatever happens to one entry leaves other nodes as they are. */
  lemma OtherNodes(c: Config, s: State, s': State, i: nat, n: string)
    requires |s.slots| == |s'.slots| == |c.nodes| && i < |c.nodes| && n != c.nodes[i]
    requires forall j :: 0 <= j < |s.slots| && j != i ==> s'.slots[j] == s.slots[j]
    ensures HeldBy(c, s', n) == HeldBy(c, s, n) && Pristine(c, s', n) == Pristine(c, s, n)
  {
    assert forall j :: 0 <= j < |s.slots| ==> Holds(c, s', j, n) == Holds(c, s, j, n);
  }

  /** A Cordon that returns nil. */
  lemma ExactCordon(c: Config, s: State, i: nat, effect: bool, pre: set<string>)
    requires |s.slots| == |c.nodes| && Exact(c, s, pre) && WorkStep(c, s, i, CordonReturns(false, effect)).Some?
    ensures var s' := WorkStep(c, s, i, CordonReturns(false, effect)).value;
            |s'.slots| == |c.nodes| && Exact(c, s', pre)
  {
    var s' := WorkStep(c, s, i, CordonReturns(false, effect)).value;
    forall n ensures n in CordonedNodes(s') <==> HeldBy(c, s', n) || (n in pre && Pristine(c, s', n)) {
      if n == c.nodes[i] {
        assert Holds(c, s', i, n) && n in CordonedNodes(s');
      } else {
        OtherNodes(c, s, s', i, n);
        assert n in CordonedNodes(s') <==> n in CordonedNodes(s);
      }
    }
  }

  /** The node of a goroutine that has just left its bracket is in no other one's. */
  lemma NotHeld(c: Config, s: State, s': State, i: nat)
    requires Drain.Inv(c, s) && Exclusive(c) && i < |c.nodes| && Holding(s.slots[i]) == 1
    requires |s'.slots| == |s.slots| && !InBracket(s'.slots[i])
    requires forall j :: 0 <= j < |s.slots| && j != i ==> s'.slots[j] == s.slots[j]
    ensures !HeldBy(c, s', c.nodes[i])
  {
    forall j | 0 <= j < |s.slots| ensures !Holds(c, s', j, c.nodes[i]) {
      if j != i && c.nodes[j] == c.nodes[i] {
        LiveAlone(c, s, i, j);
      }
    }
  }

  /** An Uncordon that returns nil; no other goroutine holds the node. */
  lemma ExactUncordon(c: Config, s: State, i: nat, effect: bool, pre: set<string>)
    requires Drain.Inv(c, s) && Exclusive(c) && Exact(c, s, pre)
    requires WorkStep(c, s, i, UncordonReturns(false, effect)).Some?
    ensures var s' := WorkStep(c, s, i, UncordonReturns(false, effect)).value;
            |s'.slots| == |c.nodes| && Exact(c, s', pre)
  {
    var s' := WorkStep(c, s, i, UncordonReturns(false, effect)).value;
    forall n ensures n in CordonedNodes(s') <==> HeldBy(c, s', n) || (n in pre && Pristine(c, s', n)) {
      if n == c.nodes[i] {
        assert n !in CordonedNodes(s') && s'.slots[i].uncordons > 0;
        NotHeld(c, s, s', i);
      } else {
        OtherNodes(c, s, s', i, n);
        assert n in CordonedNodes(s') <==> n in CordonedNodes(s);
      }
    }
  }

  lemma ExactWork(c: Config, s: State, i: nat, e: Event, pre: set<string>)
    requires Drain.Inv(c, s) && Exclusive(c) && Exact(c, s, pre) && WorkStep(c, s, i, e).Some?
    requires Exclusion.Answered(Work(i, e))
    ensures |WorkStep(c, s, i, e).value.slots| == |c.nodes| && Exact(c, WorkStep(c, s, i, e).value, pre)
  {
    match e
    case CordonReturns(err, effect) => ExactCordon(c, s, i, effect, pre);
    case UncordonReturns(err, effect) => ExactUncordon(c, s, i, effect, pre);
    case _ => QuietWork(c, s, i, e, pre);
  }

  lemma ExactSpawn(c: Config, s: State, pre: set<string>)
    requires Drain.Inv(c, s) && Exact(c, s, pre) && SpawnStep(c, s).Some?
    ensures |SpawnStep(c, s).value.slots| == |c.nodes| && Exact(c, SpawnStep(c, s).value, pre)
  {
    SpawnQuiet(c, s);
    ExactSame(c, s, SpawnStep(c, s).value, pre);
  }

  lemma SpawnQuiet(c: Config, s: State)
    requires Drain.Shape(c, s) && SpawnStep(c, s).Some?
    ensures var s' := SpawnStep(c, s).value;
            && |s'.slots| == |s.slots| && s'.agents == s.agents
            && forall j :: 0 <= j < |s.slots| ==>
                 InBracket(s'.slots[j]) == InBracket(s.slots[j]) && s'.slots[j].uncordons == s.slots[j].uncordons
  {
  }

  lemma ExactStep(c: Config, s: State, l: Label, pre: set<string>)
    requires Drain.Inv(c, s) && Exclusive(c) && Exact(c, s, pre)
    requires Step(c, s, l).Some? && !l.act.Outside? && Exclusion.Answered(l.act)
    ensures |Step(c, s, l).value.slots| == |c.nodes| && Exact(c, Step(c, s, l).value, pre)
  {
    var t, s' := s.(now := l.at), Step(c, s, l).value;
    ExactSame(c, s, t, pre);
    match l.act
    case Spawn => ExactSpawn(c, t, pre);
    case Work(i, e) => ExactWork(c, t, i, e, pre);
    case _ =>
      FlagsStay(c, s, l);
      ExactSame(c, s, s', pre);
  }

  /** Up to the cancellation the account is exact, and from then on no flag changes. */
  lemma {:induction false} ExactRun(c: Config, s: State, ls: seq<Label>, pre: set<string>)
    requires Drain.Inv(c, s) && Exclusive(c) && Exact(c, s, pre)
    requires Run(c, s, ls).Some? && Undisturbed(ls) && Dependable(s.cancelled, ls)
    ensures |Stop(c, s, ls).slots| == |c.nodes| && Exact(c, Stop(c, s, ls), pre)
    ensures CordonedNodes(Run(c, s, ls).value) == CordonedNodes(Stop(c, s, ls))
    decreases |ls|
  {
    if s.cancelled {
      DependableGone(ls);
      CancelFreezes(c, s, ls);
    } else if ls != [] {
      ExactStep(c, s, ls[0], pre);
      Drain.StepKeeps(c, s, ls[0]);
      CancelKnown(c, s, ls[0]);
      assert forall k :: 0 <= k < |ls[1..]| ==> ls[1..][k] == ls[k + 1];
      ExactRun(c, Step(c, s, ls[0]).value, ls[1..], pre);
    }
  }

  lemma InitExact(c: Config, s: State)
    requires Init(c, s)
    ensures Exact(c, s, CordonedNodes(s))
  {
    forall n ensures !HeldBy(c, s, n) && Pristine(c, s, n) {
      assert forall i :: 0 <= i < |s.slots| ==> s.slots[i] == ASLEEP;
    }
  }

  lemma NoneHeld(c: Config, s: State, n: string)
    requires |s.slots| == |c.nodes| && Drain.NoneLive(s)
    ensures !HeldBy(c, s, n)
  {
    forall i | 0 <= i < |s.slots| ensures !Holds(c, s, i, n) {
      assert Holding(s.slots[i]) == 0;
    }
  }

  /** What a run leaves cordoned, cancelled or not: exactly the nodes that were in a goroutine's
      bracket when the context was cancelled, and those that were cordoned at the start and that
      no goroutine had come to uncordon by then. Where the context is never cancelled and every
      goroutine has ended, the run has cordoned no node that it did not uncordon. */
  lemma CancelStrandsExactly(c: Config, s0: State, ls: seq<Label>)
    requires Init(c, s0) && Exclusive(c) && Undisturbed(ls) && Run(c, s0, ls).Some? && Dependable(s0.cancelled, ls)
    ensures var end, at := Run(c, s0, ls).value, Stop(c, s0, ls);
            && |at.slots| == |c.nodes|
            && (forall n :: n in CordonedNodes(end)
                  <==> HeldBy(c, at, n) || (n in CordonedNodes(s0) && Pristine(c, at, n)))
            && (!end.cancelled && Drain.NoneLive(end) ==> CordonedNodes(end) <= CordonedNodes(s0))
  {
    var end, at := Run(c, s0, ls).value, Stop(c, s0, ls);
    Drain.InitInv(c, s0);
    InitExact(c, s0);
    ExactRun(c, s0, ls, CordonedNodes(s0));
    if !end.cancelled && Drain.NoneLive(end) {
      StopAtEnd(c, s0, ls);
      forall n | n in CordonedNodes(end) ensures n in CordonedNodes(s0) {
        NoneHeld(c, end, n);
      }
    }
  }

  /** Every node whose Cordon returned nil is uncordoned again. */
  ghost predicate Uncordoned(c: Config, s: State)
    requires |s.slots| == |c.nodes|
  {
    forall i :: 0 <= i < |s.slots| && s.slots[i].cordoned ==> c.nodes[i] !in CordonedNodes(s)
  }

  ghost predicate NoBracket(s: State) {
    forall i :: 0 <= i < |s.slots| ==> !InBracket(s.slots[i])
  }

  /** Whether a Cordon returned nil is settled once no call goes out. */
  lemma CordonsStay(c: Config, s: State, l: Label)
    requires Drain.Inv(c, s) && Step(c, s, l).Some? && Unsent(l)
    ensures var s' := Step(c, s, l).value;
            |s'.slots| == |s.slots| && forall i :: 0 <= i < |s.slots| ==> s'.slots[i].cordoned == s.slots[i].cordoned
  {
    var t := s.(now := l.at);
    match l.act
    case Spawn =>
    case Work(i, e) => CordonStays(t.slots[i], e, t.now, t.cancelled, t.agents[c.nodes[i]]);
      Progress.WorkSlots(c, t, i, e);
    case _ =>
  }

  lemma CordonStays(w: Worker, e: Event, now: int, cancelled: bool, a: Agent.State)
    requires WorkerStep(w, e, now, cancelled, a).Some? && (e.CordonReturns? ==> e.err)
    ensures WorkerStep(w, e, now, cancelled, a).value.cordoned == w.cordoned
  {
  }

  lemma {:induction false} CordonsSettled(c: Config, s: State, ls: seq<Label>)
    requires Drain.Inv(c, s) && Run(c, s, ls).Some? && NoneSent(ls)
    ensures var end := Run(c, s, ls).value;
            |end.slots| == |s.slots| && forall i :: 0 <= i < |s.slots| ==> end.slots[i].cordoned == s.slots[i].cordoned
    decreases |ls|
  {
    if ls != [] {
      CordonsStay(c, s, ls[0]);
      Drain.StepKeeps(c, s, ls[0]);
      assert forall k :: 0 <= k < |ls[1..]| ==> ls[1..][k] == ls[k + 1];
      CordonsSettled(c, Step(c, s, ls[0]).value, ls[1..]);
    }
  }

  /** The invariants at the cancellation, and what is settled by then. */
  lemma {:induction false} StopFacts(c: Config, s: State, ls: seq<Label>)
    requires Progress.Inv(c, s) && Run(c, s, ls).Some? && Dependable(s.cancelled, ls)
    ensures var end, at := Run(c, s, ls).value, Stop(c, s, ls);
            && Progress.Inv(c, at) && |end.slots| == |at.slots|
            && forall i :: 0 <= i < |at.slots| ==> end.slots[i].cordoned == at.slots[i].cordoned
    decreases |ls|
  {
    if s.cancelled {
      DependableGone(ls);
      CordonsSettled(c, s, ls);
    } else if ls != [] {
      Progress.StepKeeps(c, s, ls[0]);
      CancelKnown(c, s, ls[0]);
      StopFacts(c, Step(c, s, ls[0]).value, ls[1..]);
    }
  }

  /** A goroutine that cordoned its node is in its bracket or has made its Uncordon call. */
  lemma Done(w: Worker, now: int)
    requires Progress.Faithful(w, now)
    ensures InBracket(w) ==> w.cordoned
    ensures w.cordoned && !InBracket(w) ==> w.uncordons == 1
  {
  }

  /** "Always uncordon when done", run by run: every node the request cordoned is uncordoned at
      the end exactly when no goroutine was in its bracket at the cancellation (or, if there was
      none, at the end). */
  lemma UncordonsExactly(c: Config, s0: State, ls: seq<Label>)
    requires Init(c, s0) && Exclusive(c) && Undisturbed(ls) && Run(c, s0, ls).Some? && Dependable(s0.cancelled, ls)
    ensures |Run(c, s0, ls).value.slots| == |c.nodes|
    ensures Uncordoned(c, Run(c, s0, ls).value) <==> NoBracket(Stop(c, s0, ls))
  {
    var end, at := Run(c, s0, ls).value, Stop(c, s0, ls);
    Progress.Reachable(c, s0, []);
    StopFacts(c, s0, ls);
    CancelStrandsExactly(c, s0, ls);
    if NoBracket(at) {
      forall i | 0 <= i < |end.slots| && end.slots[i].cordoned ensures c.nodes[i] !in CordonedNodes(end) {
        Done(at.slots[i], at.now);
        assert !HeldBy(c, at, c.nodes[i]) && !Pristine(c, at, c.nodes[i]);
      }
    } else {
      var i :| 0 <= i < |at.slots| && InBracket(at.slots[i]);
      Done(at.slots[i], at.now);
      assert Holds(c, at, i, c.nodes[i]) && HeldBy(c, at, c.nodes[i]);
      assert end.slots[i].cordoned && c.nodes[i] in CordonedNodes(end);
    }
  }

  /** Whenever all goroutines have ended, every node the request cordoned is uncordoned. */
  ghost predicate AlwaysUncordons(c: Config) {
    forall s, ls :: Init(c, s) && Undisturbed(ls) && Dependable(s.cancelled, ls) && Run(c, s, ls).Some? ==>
      var end := Run(c, s, ls).value; Drain.NoneLive(end) ==> |end.slots| == |c.nodes| && Uncordoned(c, end)
  }

  lemma {:induction false} SmoothDependable(xs: seq<Label>, ys: seq<Label>)
    requires Exclusion.Smooth(xs) && Dependable(false, ys)
    ensures Dependable(false, xs + ys)
  {
    if xs == [] {
      assert xs + ys == ys;
    } else {
      assert (xs + ys)[0] == xs[0] && (xs + ys)[1..] == xs[1..] + ys;
      assert forall k :: 0 <= k < |xs[1..]| ==> xs[1..][k] == xs[k + 1];
      SmoothDependable(xs[1..], ys);
    }
  }

  lemma {:induction false} SmoothGoesOn(c: Config, s: State, ls: seq<Label>)
    requires Run(c, s, ls).Some? && Exclusion.Smooth(ls)
    ensures Run(c, s, ls).value.cancelled == s.cancelled
    decreases |ls|
  {
    if ls != [] {
      CancelKnown(c, s, ls[0]);
      assert forall k :: 0 <= k < |ls[1..]| ==> ls[1..][k] == ls[k + 1];
      SmoothGoesOn(c, Step(c, s, ls[0]).value, ls[1..]);
    }
  }

  /** One step before a run whose calls are not sent. */
  lemma Before(c: Config, s: State, a: Action, s': State, ls: seq<Label>) returns (all: seq<Label>)
    requires ActionStep(c, s, a) == Some(s') && !a.Outside? && Unsent(Label(s.now, a)) && (a.Cancel? || s.cancelled)
    requires Run(c, s', ls).Some? && Undisturbed(ls) && Dependable(true, ls)
    ensures Run(c, s, all) == Run(c, s', ls) && Undisturbed(all) && Dependable(s.cancelled, all)
  {
    all := [Label(s.now, a)] + ls;
    assert s.(now := s.now) == s && all[1..] == ls;
  }

  /** The last two steps of a goroutine after the cancellation. */
  lemma Retires(c: Config, s: State, k: nat) returns (ls: seq<Label>)
    requires |s.slots| == |c.nodes| && k < |c.nodes| && c.nodes[k] in s.agents && s.tokens > 0 && s.cancelled
    requires s.slots[k].phase == Recording && s.slots[k].cordoned
    ensures Run(c, s, ls).Some? && Undisturbed(ls) && Dependable(true, ls)
    ensures var end := Run(c, s, ls).value;
            && Exclusion.SameBut(s, end, k) && end.slots[k].phase == Finished && end.slots[k].cordoned
  {
    Exclusion.Reports(c, s, k);
    Progress.WorkSlots(c, s, k, Append);
    var t := ActionStep(c, s, Work(k, Append)).value;
    assert t.cancelled;
    Exclusion.Ends(c, t, k);
    Progress.WorkSlots(c, t, k, Release);
    var end := ActionStep(c, t, Work(k, Release)).value;
    ls := Before(c, t, Work(k, Release), end, []);
    ls := Before(c, s, Work(k, Append), t, ls);
  }

  /** The reconcile call fails with the context. */
  lemma FailReconcile(c: Config, s: State, k: nat)
    requires |s.slots| == |c.nodes| && k < |c.nodes| && c.nodes[k] in s.agents && s.slots[k].phase == Reconciling
    ensures WorkStep(c, s, k, ReconcileReturns(true, [], false))
         == Some(s.(slots := s.slots[k := Leave(s.slots[k], false)]))
  {
  }

  /** And so does the deferred Uncordon. */
  lemma FailUncordon(c: Config, s: State, k: nat)
    requires |s.slots| == |c.nodes| && k < |c.nodes| && c.nodes[k] in s.agents && s.slots[k].phase == Uncordoning
    ensures WorkStep(c, s, k, UncordonReturns(true, false))
         == Some(s.(stuck := s.stuck + [c.nodes[k]],
                    slots := s.slots[k := s.slots[k].(phase := Recording, uncordons := s.slots[k].uncordons + 1)]))
  {
  }

  /** From the middle of its bracket: the context is cancelled, and both calls fail unsent. */
  lemma Strand(c: Config, s: State, k: nat) returns (ls: seq<Label>)
    requires |s.slots| == |c.nodes| && k < |c.nodes| && c.nodes[k] in s.agents && s.tokens > 0 && !s.cancelled
    requires s.slots[k].phase == Reconciling && s.slots[k].cordoned
    ensures Run(c, s, ls).Some? && Undisturbed(ls) && Dependable(false, ls)
    ensures var end := Run(c, s, ls).value;
            && Exclusion.SameBut(s, end, k) && end.slots[k].phase == Finished && end.slots[k].cordoned
  {
    var s1 := s.(cancelled := true);
    FailReconcile(c, s1, k);
    var s2 := WorkStep(c, s1, k, ReconcileReturns(true, [], false)).value;
    FailUncordon(c, s2, k);
    var s3 := WorkStep(c, s2, k, UncordonReturns(true, false)).value;
    ls := Retires(c, s3, k);
    ls := Before(c, s2, Work(k, UncordonReturns(true, false)), s3, ls);
    ls := Before(c, s1, Work(k, ReconcileReturns(true, [], false)), s2, ls);
    ls := Before(c, s, Cancel, s1, ls);
  }

  /** A run that ends as the first known entry starts to reconcile. */
  lemma Underway(c: Config, i: nat) returns (xs: seq<Label>, t: State)
    requires i < |c.nodes| && Known(c, i) && Exclusion.Unknown(c, 0, i)
    ensures Exclusion.LeadsBy(c, Exclusion.Fresh(c), xs, t, true) && |t.slots| == |c.nodes|
    ensures t.slots[i].phase == Reconciling && t.slots[i].cordoned && t.tokens > 0
    ensures c.nodes[i] in t.agents && t.agents[c.nodes[i]].cordoned
    ensures forall x :: i < x < |c.nodes| ==> t.slots[x] == ASLEEP
  {
    var s := Exclusion.Fresh(c);
    var t1 := Exclusion.SkimTo(c, s, 0, i);
    var t2 := Exclusion.Launch(c, t1, i);
    Exclusion.Then(c, s, t1, t2, true, true);
    t := Exclusion.Begin(c, t2, i);
    Exclusion.Then(c, s, t2, t, true, true);
    xs :| Exclusion.LeadsBy(c, s, xs, t, true);
  }

  /** Nobody else is live then. */
  lemma Alone(c: Config, t: State, i: nat)
    requires Drain.Inv(c, t) && i < |c.nodes| && Exclusion.Unknown(c, 0, i)
    requires forall x :: i < x < |c.nodes| ==> t.slots[x] == ASLEEP
    ensures forall x :: 0 <= x < |t.slots| && x != i ==> Holding(t.slots[x]) == 0
  {
    forall x | 0 <= x < |t.slots| && x != i ensures Holding(t.slots[x]) == 0 {
      assert x < i ==> !Known(c, x);
    }
  }

  /** The first known node of a request can be left cordoned, by clients that fail only because
      the context is cancelled. */
  lemma Stranded(c: Config, i: nat)
    requires i < |c.nodes| && Known(c, i) && Exclusion.Unknown(c, 0, i)
    ensures !AlwaysUncordons(c)
  {
    var s := Exclusion.Fresh(c);
    var xs, t := Underway(c, i);
    SmoothGoesOn(c, s, xs);
    var ys := Strand(c, t, i);
    var end := Run(c, t, ys).value;
    RunConcat(c, s, xs, ys);
    SmoothDependable(xs, ys);
    Drain.InitInv(c, s);
    Drain.RunKeeps(c, s, xs);
    Alone(c, t, i);
    Kept(c, t, end, i);
    Breaks(c, s, xs + ys, end);
  }

  lemma Kept(c: Config, t: State, end: State, i: nat)
    requires |t.slots| == |c.nodes| && i < |c.nodes| && c.nodes[i] in t.agents && t.agents[c.nodes[i]].cordoned
    requires forall x :: 0 <= x < |t.slots| && x != i ==> Holding(t.slots[x]) == 0
    requires Exclusion.SameBut(t, end, i) && end.slots[i].phase == Finished && end.slots[i].cordoned
    ensures Drain.NoneLive(end) && !Uncordoned(c, end)
  {
    assert c.nodes[i] in CordonedNodes(end);
  }

  lemma Breaks(c: Config, s: State, ls: seq<Label>, end: State)
    requires Init(c, s) && Undisturbed(ls) && Dependable(s.cancelled, ls) && Run(c, s, ls) == Some(end)
    requires Drain.NoneLive(end) && |end.slots| == |c.nodes| && !Uncordoned(c, end)
    ensures !AlwaysUncordons(c)
  {
  }

  lemma NoneCordoned(c: Config, s: State, ls: seq<Label>)
    requires Exclusion.Unknown(c, 0, |c.nodes|) && Init(c, s) && Run(c, s, ls).Some?
    ensures var end := Run(c, s, ls).value; |end.slots| == |c.nodes| && Uncordoned(c, end)
  {
    Progress.Reachable(c, s, ls);
    var end := Run(c, s, ls).value;
    forall i | 0 <= i < |end.slots| ensures !end.slots[i].cordoned {
      assert !Known(c, i) && Progress.Faithful(end.slots[i], end.now);
    }
  }

  /** As a promise about all runs it is kept by exactly the requests that name no known node. */
  lemma AlwaysUncordonsExactly(c: Config)
    ensures AlwaysUncordons(c) <==> forall i :: 0 <= i < |c.nodes| ==> !Known(c, i)
  {
    if i :| 0 <= i < |c.nodes| && Known(c, i) {
      var first := FirstKnown(c, i);
      Stranded(c, first);
    } else {
      forall s, ls | Init(c, s) && Undisturbed(ls) && Dependable(s.cancelled, ls) && Run(c, s, ls).Some?
        ensures var end := Run(c, s, ls).value; |end.slots| == |c.nodes| && Uncordoned(c, end)
      {
        NoneCordoned(c, s, ls);
      }
    }
  }

  lemma {:induction false} FirstKnown(c: Config, i: nat) returns (first: nat)
    requires i < |c.nodes| && Known(c, i)
    ensures first <= i && Known(c, first) && Exclusion.Unknown(c, 0, first)
    decreases i
  {
    if j: nat :| j < i && Known(c, j) {
      first := FirstKnown(c, j);
    } else {
      first := i;
    }
  }
}
