/** The pause between two entries: how early each goroutine can start. */
module Pacing {
  import opened Upgrade
  import opened Exclusion
  import Drain

  function Pause(c: Config): nat {
    if c.pause > 0 then c.pause else 0
  }

  /** When n pauses are over. */
  function Due(c: Config, start: int, n: nat): int {
    start + n * Pause(c)
  }

  lemma DueNext(c: Config, start: int, n: nat)
    ensures Due(c, start, n + 1) == Due(c, start, n) + Pause(c) && Due(c, start, 0) == start
  {
  }

  /** Entry k was not started before `start`, and there is a pause before each one after it. */
  ghost predicate Paced(c: Config, s: State, k: nat, start: int) {
    var r := Reached(c, s.pc);
    && s.now >= start
    && (r > k ==>
          match s.pc
          case Pausing(_, until) => until >= Due(c, start, r - k) && s.now >= Due(c, start, r - k - 1)
          case Lookup(_) | Acquiring(_) | Spawning(_) => s.now >= Due(c, start, r - k)
          case _ => s.now >= Due(c, start, r - k - 1))
  }

  lemma PacedSpawn(c: Config, s: State, k: nat, start: int)
    requires Drain.PcFits(c, s.pc) && Paced(c, s, k, start) && SpawnStep(c, s).Some?
    ensures Paced(c, SpawnStep(c, s).value, k, start)
  {
    var r := Reached(c, s.pc);
    if r > k {
      DueNext(c, start, r - k);
      DueNext(c, start, r - k - 1);
    } else {
      DueNext(c, start, 0);
    }
  }

  lemma PacedWork(c: Config, s: State, i: nat, e: Event)
    requires WorkStep(c, s, i, e).Some?
    ensures WorkStep(c, s, i, e).value.pc == s.pc && WorkStep(c, s, i, e).value.now == s.now
  {
  }

  lemma PacedStep(c: Config, s: State, l: Label, k: nat, start: int)
    requires Drain.PcFits(c, s.pc) && Paced(c, s, k, start) && Step(c, s, l).Some?
    ensures Paced(c, Step(c, s, l).value, k, start)
  {
    var t := s.(now := l.at);
    match l.act
    case Spawn => PacedSpawn(c, t, k, start);
    case Work(i, e) => PacedWork(c, t, i, e);
    case _ =>
  }

  lemma {:induction false} PacedRun(c: Config, s: State, ls: seq<Label>, k: nat, start: int)
    requires Drain.Inv(c, s) && Paced(c, s, k, start) && Run(c, s, ls).Some?
    ensures Paced(c, Run(c, s, ls).value, k, start)
    decreases |ls|
  {
    if ls != [] {
      PacedStep(c, s, ls[0], k, start);
      Drain.StepKeeps(c, s, ls[0]);
      PacedRun(c, Step(c, s, ls[0]).value, ls[1..], k, start);
    }
  }

  /** From any state in which entry k is not started until one in which entry i is, the pause passes
      once for each of the entries in between. */
  lemma PausesBetween(c: Config, s0: State, xs: seq<Label>, ys: seq<Label>, k: nat, i: nat)
    requires Init(c, s0) && Run(c, s0, xs).Some? && Run(c, Run(c, s0, xs).value, ys).Some? && k <= i < |c.nodes|
    ensures var s, t := Run(c, s0, xs).value, Run(c, Run(c, s0, xs).value, ys).value;
            && |s.slots| == |t.slots| == |c.nodes|
            && (s.slots[k] == ASLEEP && t.slots[i] != ASLEEP ==> t.now - s.now >= (i - k) * Pause(c))
  {
    Drain.InitInv(c, s0);
    Drain.RunKeeps(c, s0, xs);
    var s := Run(c, s0, xs).value;
    Drain.RunKeeps(c, s, ys);
    var t := Run(c, s, ys).value;
    if s.slots[k] == ASLEEP && t.slots[i] != ASLEEP {
      PacedRun(c, s, ys, k, s.now);
      Later(c, t, k, i, s.now);
    }
  }

  /** Entry i is started, so the pauses up to it are over. */
  lemma Later(c: Config, t: State, k: nat, i: nat, start: int)
    requires Paced(c, t, k, start) && k <= i < Reached(c, t.pc)
    ensures t.now - start >= (i - k) * Pause(c)
  {
    DueMonotone(c, start, i - k, Reached(c, t.pc) - k - 1);
    DueNext(c, start, Reached(c, t.pc) - k - 1);
  }

  lemma {:induction false} DueMonotone(c: Config, start: int, m: nat, n: nat)
    requires m <= n
    ensures Due(c, start, m) <= Due(c, start, n)
  {
    if m < n {
      DueNext(c, start, n - 1);
      DueMonotone(c, start, m, n - 1);
    }
  }

  lemma {:induction false} PausesSum(c: Config, k: nat, m: nat)
    requires 0 < k <= m
    ensures PausesAt(c, k, m) == (m - k) * Pause(c)
    decreases m - k
  {
    if k < m {
      PausesSum(c, k + 1, m);
      DueNext(c, 0, m - k - 1);
    }
  }

  /** Some run has entry i started within d of the call. */
  ghost predicate CanStartWithin(c: Config, i: nat, d: int)
    requires i < |c.nodes|
  {
    exists s, ls :: StartsWithin(c, s, ls, i, d)
  }

  ghost predicate StartsWithin(c: Config, s: State, ls: seq<Label>, i: nat, d: int)
    requires i < |c.nodes|
  {
    && Init(c, s) && Run(c, s, ls).Some?
    && i < |Run(c, s, ls).value.slots| && Run(c, s, ls).value.slots[i] != ASLEEP
    && Run(c, s, ls).value.now - s.now <= d
  }

  /** The earliest an entry can be started is once the pause has passed for each entry before it,
      whatever the other entries do. */
  lemma EarliestStart(c: Config, i: nat, d: int)
    requires i < |c.nodes|
    ensures CanStartWithin(c, i, d) <==> d >= i * Pause(c)
  {
    if CanStartWithin(c, i, d) {
      var s, ls :| StartsWithin(c, s, ls, i, d);
      PausesBetween(c, s, [], ls, 0, i);
    }
    if d >= i * Pause(c) {
      var s := Fresh(c);
      var t := Reach(c, s, i);
      var ls :| LeadsBy(c, s, ls, t, false);
      assert StartsWithin(c, s, ls, i, d);
    }
  }

  lemma Started(c: Config, s: State, ls: seq<Label>, i: nat)
    requires Init(c, s) && Run(c, s, ls).Some? && i < |c.nodes| && Reached(c, Run(c, s, ls).value.pc) > i
    ensures i < |Run(c, s, ls).value.slots| && Run(c, s, ls).value.slots[i] != ASLEEP
  {
    Drain.InitInv(c, s);
    Drain.RunKeeps(c, s, ls);
  }

  lemma PausesUpTo(c: Config, i: nat)
    ensures PausesAt(c, 0, i) + PauseAt(c, i) == i * Pause(c)
  {
    if i > 0 {
      PausesSum(c, 1, i);
      DueNext(c, 0, i - 1);
    }
  }

  lemma Reach(c: Config, s: State, i: nat) returns (t: State)
    requires Init(c, s) && i < |c.nodes|
    ensures Leads(c, s, t, false) && i < |t.slots| && t.slots[i] != ASLEEP && t.now - s.now == i * Pause(c)
  {
    var u := SkimTo(c, s, 0, i);
    t := Skim(c, u, i);
    PausesUpTo(c, i);
    Then(c, s, u, t, Unknown(c, 0, i), !Known(c, i));
    var ls :| LeadsBy(c, s, ls, t, Unknown(c, 0, i) && !Known(c, i));
    assert LeadsBy(c, s, ls, t, false);
    Started(c, s, ls, i);
  }
}
