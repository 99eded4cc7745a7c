/** The background pass that can overlap an upgrade: the reconcile loop reads the cordon flag
    before it loads the spec, so a pass that read it before the Cordon goes on inside the bracket
    (internal/agent/server.go). */
module Overlap {
  import opened Upgrade
  import opened Cordon
  import Agent
  import Drain
  import Exclusion
  import Progress

  /** A background pass runs on the node of entry i, whose goroutine is in its bracket. */
  predicate Overlaps(c: Config, s: State, i: nat) {
    && i < |s.slots| && i < |c.nodes| && c.nodes[i] in s.agents
    && InBracket(s.slots[i]) && s.agents[c.nodes[i]].pass != Agent.NoPass
  }

  /** Entry i is in its bracket and a pass was running when its Cordon returned. */
  predicate Stale(s: State, i: nat) {
    i < |s.slots| && InBracket(s.slots[i]) && s.slots[i].stale
  }

  /** The state after the first k steps. */
  ghost predicate OverlapsAt(c: Config, s: State, ls: seq<Label>, i: nat, k: nat) {
    k <= |ls| && Run(c, s, ls[..k]).Some? && Overlaps(c, Run(c, s, ls[..k]).value, i)
  }

  /** A bracket is entered by a Cordon that returns nil. It leaves the pass as it is and records
      whether one was running. */
  lemma Enters(c: Config, s: State, i: nat, e: Event)
    requires WorkStep(c, s, i, e).Some? && !InBracket(s.slots[i])
    requires i < |WorkStep(c, s, i, e).value.slots| && InBracket(WorkStep(c, s, i, e).value.slots[i])
    ensures var s', n := WorkStep(c, s, i, e).value, c.nodes[i];
            && n in s'.agents && s'.agents[n].pass == s.agents[n].pass
            && s'.slots[i].stale == (s.agents[n].pass != Agent.NoPass)
  {
    BracketMoves(s.slots[i], e, s.now, s.cancelled, s.agents[c.nodes[i]]);
  }

  /** One step: inside the bracket the record stays, and it becomes true only with a pass running. */
  lemma StaleStep(c: Config, s: State, l: Label, i: nat)
    requires Drain.Inv(c, s) && i < |s.slots| && Step(c, s, l).Some?
    ensures var s' := Step(c, s, l).value;
            && |s'.slots| == |s.slots|
            && (InBracket(s.slots[i]) && InBracket(s'.slots[i]) ==> s'.slots[i].stale == s.slots[i].stale)
            && (!InBracket(s.slots[i]) && Stale(s', i) ==> Overlaps(c, s', i))
  {
    var t := s.(now := l.at);
    match l.act
    case Spawn => SpawnStale(c, t, i);
    case Work(j, e) =>
      Progress.WorkSlots(c, t, j, e);
      if j == i {
        BracketMoves(t.slots[i], e, t.now, t.cancelled, t.agents[c.nodes[i]]);
        if !InBracket(t.slots[i]) && InBracket(WorkStep(c, t, j, e).value.slots[i]) {
          Enters(c, t, i, e);
        }
      }
    case _ =>
  }

  lemma SpawnStale(c: Config, s: State, i: nat)
    requires Drain.Shape(c, s) && i < |s.slots| && SpawnStep(c, s).Some?
    ensures var s' := SpawnStep(c, s).value;
            && |s'.slots| == |s.slots|
            && InBracket(s'.slots[i]) == InBracket(s.slots[i]) && s'.slots[i].stale == s.slots[i].stale
  {
  }

  lemma RunPrefix(c: Config, s: State, ls: seq<Label>, k: nat)
    requires Run(c, s, ls).Some? && k < |ls|
    ensures var s' := Step(c, s, ls[0]).value; Run(c, s, ls[..k + 1]) == Run(c, s', ls[1..][..k])
  {
    assert ls[..k + 1][0] == ls[0] && ls[..k + 1][1..] == ls[1..][..k];
  }

  /** If the record is true in the end, some state of the bracket has a pass running. */
  lemma {:induction false} StaleOverlaps(c: Config, s: State, ls: seq<Label>, i: nat) returns (k: nat)
    requires Drain.Inv(c, s) && i < |s.slots| && Run(c, s, ls).Some?
    requires (Stale(s, i) ==> Overlaps(c, s, i)) && Stale(Run(c, s, ls).value, i)
    ensures OverlapsAt(c, s, ls, i, k)
    decreases |ls|
  {
    if Stale(s, i) {
      k := 0;
    } else {
      var s' := Step(c, s, ls[0]).value;
      StaleStep(c, s, ls[0], i);
      Drain.StepKeeps(c, s, ls[0]);
      var m := StaleOverlaps(c, s', ls[1..], i);
      RunPrefix(c, s, ls, m);
      k := m + 1;
    }
  }

  predicate Past(w: Worker) {
    w.phase.Recording? || w.phase.Releasing? || w.phase.Finished?
  }

  /** A goroutine is in a bracket once. */
  lemma LeavesForGood(c: Config, s: State, l: Label, i: nat)
    requires Drain.Inv(c, s) && i < |s.slots| && Step(c, s, l).Some?
    ensures var s' := Step(c, s, l).value;
            && |s'.slots| == |s.slots|
            && (Past(s.slots[i]) ==> Past(s'.slots[i]))
            && (InBracket(s.slots[i]) ==> InBracket(s'.slots[i]) || Past(s'.slots[i]))
  {
    var t := s.(now := l.at);
    match l.act
    case Spawn => Progress.SpawnSlots(c, t, i);
    case Work(j, e) =>
      Progress.WorkSlots(c, t, j, e);
      PastMoves(t.slots[j], e, t.now, t.cancelled, t.agents[c.nodes[j]]);
    case _ =>
  }

  lemma PastMoves(w: Worker, e: Event, now: int, cancelled: bool, a: Agent.State)
    requires WorkerStep(w, e, now, cancelled, a).Some?
    ensures var w' := WorkerStep(w, e, now, cancelled, a).value;
            (Past(w) ==> Past(w')) && (InBracket(w) ==> InBracket(w') || Past(w'))
  {
  }

  lemma {:induction false} PastStays(c: Config, s: State, ls: seq<Label>, i: nat)
    requires Drain.Inv(c, s) && i < |s.slots| && Past(s.slots[i]) && Run(c, s, ls).Some?
    ensures i < |Run(c, s, ls).value.slots| && Past(Run(c, s, ls).value.slots[i])
    decreases |ls|
  {
    if ls != [] {
      LeavesForGood(c, s, ls[0], i);
      Drain.StepKeeps(c, s, ls[0]);
      PastStays(c, Step(c, s, ls[0]).value, ls[1..], i);
    }
  }

  /** The record is the same in all states of a bracket. */
  lemma {:induction false} StaleStays(c: Config, s: State, ls: seq<Label>, i: nat)
    requires Drain.Inv(c, s) && i < |s.slots| && InBracket(s.slots[i]) && Run(c, s, ls).Some?
    requires i < |Run(c, s, ls).value.slots| && InBracket(Run(c, s, ls).value.slots[i])
    ensures Run(c, s, ls).value.slots[i].stale == s.slots[i].stale
    decreases |ls|
  {
    if ls != [] {
      var s' := Step(c, s, ls[0]).value;
      Drain.StepKeeps(c, s, ls[0]);
      LeavesForGood(c, s, ls[0], i);
      StaleStep(c, s, ls[0], i);
      if Past(s'.slots[i]) {
        PastStays(c, s', ls[1..], i);
      } else {
        StaleStays(c, s', ls[1..], i);
      }
    }
  }

  /** In any run, of any entry in its bracket: some state of the bracket up to here had a
      background pass running exactly when one was running when the Cordon returned. */
  lemma OverlapExactly(c: Config, s0: State, ls: seq<Label>, i: nat)
    requires Init(c, s0) && Exclusive(c) && Undisturbed(ls) && Run(c, s0, ls).Some?
    requires i < |Run(c, s0, ls).value.slots| && InBracket(Run(c, s0, ls).value.slots[i])
    ensures Run(c, s0, ls).value.slots[i].stale <==> exists k :: OverlapsAt(c, s0, ls, i, k)
  {
    Drain.InitInv(c, s0);
    Drain.RunKeeps(c, s0, ls);
    if Run(c, s0, ls).value.slots[i].stale {
      var k := StaleOverlaps(c, s0, ls, i);
    }
    if k: nat :| OverlapsAt(c, s0, ls, i, k) {
      var xs, ys := ls[..k], ls[k..];
      var mid := Run(c, s0, xs).value;
      assert xs + ys == ls;
      RunConcat(c, s0, xs, ys);
      Drain.RunKeeps(c, s0, xs);
      BracketExcludesPasses(c, s0, xs, i);
      StaleStays(c, mid, ys, i);
    }
  }

  /** No background pass ever runs inside a bracket. */
  ghost predicate NeverOverlaps(c: Config) {
    forall s, ls, i :: Init(c, s) && Undisturbed(ls) && Run(c, s, ls).Some? ==> !Overlaps(c, Run(c, s, ls).value, i)
  }

  /** A pass that has read the flag before entry i cordons its node. */
  lemma Happens(c: Config, i: nat)
    requires i < |c.nodes| && Known(c, i)
    ensures !NeverOverlaps(c)
  {
    var s, n := Exclusion.Fresh(c), c.nodes[i];
    Exclusion.Nowhere(c, s, false);
    var t0 := Exclusion.Extend(c, s, s, Background(n, Agent.Check), false);
    var t1 := Exclusion.SkimTo(c, t0, 0, i);
    Exclusion.Then(c, s, t0, t1, false, Exclusion.Unknown(c, 0, i));
    var t2 := Exclusion.Launch(c, t1, i);
    Exclusion.Then(c, s, t1, t2, false, true);
    var t := Exclusion.Begin(c, t2, i);
    Exclusion.Then(c, s, t2, t, false, true);
    var ls :| Exclusion.LeadsBy(c, s, ls, t, false);
    assert Overlaps(c, t, i);
  }

  /** So it can happen to every request that names a known node, and to no other. */
  lemma NeverOverlapsExactly(c: Config)
    ensures NeverOverlaps(c) <==> forall i :: 0 <= i < |c.nodes| ==> !Known(c, i)
  {
    if i :| 0 <= i < |c.nodes| && Known(c, i) {
      Happens(c, i);
    } else {
      forall s, ls, i | Init(c, s) && Undisturbed(ls) && Run(c, s, ls).Some?
        ensures !Overlaps(c, Run(c, s, ls).value, i)
      {
        Drain.InitInv(c, s);
        Drain.RunKeeps(c, s, ls);
      }
    }
  }
}
