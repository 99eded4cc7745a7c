/** Exactly when the cordon of an upgrade can be relied on: a request that lists a known name
    twice and may upgrade two nodes at once has a run in which one goroutine uncordons the
    node another one is reconciling. */
module Exclusion {
  import opened Wrappers
  import opened Upgrade
  import opened Cordon
  import Agent
  import Drain

  /** A call of /cordon, if the step is one, returns nil. */
  predicate Answered(a: Action) {
    match a
    case Work(_, CordonReturns(err, _)) => !err
    case Work(_, UncordonReturns(err, _)) => !err
    case _ => true
  }

  /** Every call of /cordon returns nil, and nobody cancels the context. */
  ghost predicate Smooth(ls: seq<Label>) {
    forall k :: 0 <= k < |ls| ==> !ls[k].act.Cancel? && Answered(ls[k].act)
  }

  ghost predicate LeadsBy(c: Config, s: State, ls: seq<Label>, s': State, smooth: bool) {
    Undisturbed(ls) && (smooth ==> Smooth(ls)) && Run(c, s, ls) == Some(s')
  }

  /** Some run without other callers goes from one state to the other. */
  ghost predicate Leads(c: Config, s: State, s': State, smooth: bool) {
    exists ls :: LeadsBy(c, s, ls, s', smooth)
  }

  lemma Nowhere(c: Config, s: State, smooth: bool)
    ensures Leads(c, s, s, smooth)
  {
    assert LeadsBy(c, s, [], s, smooth);
  }

  lemma OneStep(c: Config, s: State, l: Label, s': State, smooth: bool)
    requires Step(c, s, l) == Some(s') && !l.act.Outside? && (smooth ==> !l.act.Cancel? && Answered(l.act))
    ensures Leads(c, s, s', smooth)
  {
    var ls := [l];
    assert Run(c, s', ls[1..]) == Some(s');
    assert LeadsBy(c, s, ls, s', smooth);
  }

  lemma Then(c: Config, s: State, t: State, u: State, first: bool, second: bool)
    requires Leads(c, s, t, first) && Leads(c, t, u, second)
    ensures Leads(c, s, u, first && second)
  {
    var xs :| LeadsBy(c, s, xs, t, first);
    var ys :| LeadsBy(c, t, ys, u, second);
    RunConcat(c, s, xs, ys);
    assert LeadsBy(c, s, xs + ys, u, first && second);
  }

  lemma ClockStays(c: Config, s: State, a: Action)
    requires ActionStep(c, s, a).Some?
    ensures ActionStep(c, s, a).value.now == s.now
  {
  }

  lemma Extend(c: Config, s: State, t: State, a: Action, smooth: bool) returns (u: State)
    requires Leads(c, s, t, smooth) && !a.Outside? && ActionStep(c, t, a).Some?
    requires smooth ==> !a.Cancel? && Answered(a)
    ensures Leads(c, s, u, smooth) && ActionStep(c, t, a) == Some(u) && u.now == t.now
  {
    u := ActionStep(c, t, a).value;
    ClockStays(c, t, a);
    assert t.(now := t.now) == t;
    OneStep(c, t, Label(t.now, a), u, smooth);
    Then(c, s, t, u, smooth, smooth);
  }

  ghost predicate Ready(c: Config, s: State, k: nat) {
    && |s.slots| == |c.nodes| && s.agents.Keys == c.clients && k < |c.nodes|
    && s.pc == AtEntry(k) && s.slots[k] == ASLEEP && s.tokens < c.Capacity()
  }

  ghost predicate SameBut(s: State, s': State, k: nat) {
    && s'.agents == s.agents && |s'.slots| == |s.slots|
    && forall m :: 0 <= m < |s.slots| && m != k ==> s'.slots[m] == s.slots[m]
  }

  /** What the spawner waits before it looks entry k up. */
  function PauseAt(c: Config, k: nat): nat {
    if k > 0 && c.pause > 0 then c.pause else 0
  }

  /** The spawner passes its pause and gets to look the name up. */
  lemma ToLookup(c: Config, s: State, k: nat) returns (t: State)
    requires Ready(c, s, k)
    ensures Leads(c, s, t, true) && t.pc == Lookup(k) && t.now == s.now + PauseAt(c, k)
    ensures t.slots == s.slots && t.agents == s.agents && t.tokens == s.tokens
  {
    t := SpawnStep(c, s).value;
    assert s.(now := s.now) == s;
    OneStep(c, s, Label(s.now, Spawn), t, true);
    if t.pc.Pausing? {
      var u := t.(now := t.pc.until, pc := Lookup(k));
      OneStep(c, t, Label(t.pc.until, Spawn), u, true);
      Then(c, s, t, u, true, true);
      t := u;
    }
  }

  /** The spawner starts the goroutine of entry k, which has not moved yet. */
  lemma Launch(c: Config, s: State, k: nat) returns (t: State)
    requires Ready(c, s, k) && Known(c, k)
    ensures Leads(c, s, t, true) && t.pc == AtEntry(k + 1) && SameBut(s, t, k) && t.tokens == s.tokens + 1
    ensures t.slots[k] == ASLEEP.(phase := if c.skipPreflight then Cordoning else Preflight)
    ensures t.now == s.now + PauseAt(c, k)
  {
    t := ToLookup(c, s, k);
    t := Extend(c, s, t, Spawn, true);
    t := Extend(c, s, t, Spawn, true);
    t := Extend(c, s, t, Spawn, true);
  }

  /** A launched goroutine's first call fails: it reports, releases its token and ends. */
  lemma Flunk(c: Config, s: State, k: nat) returns (t: State)
    requires |s.slots| == |c.nodes| && s.agents.Keys == c.clients && k < |c.nodes| && Known(c, k) && s.tokens > 0
    requires s.slots[k] == ASLEEP.(phase := if c.skipPreflight then Cordoning else Preflight)
    ensures Leads(c, s, t, false) && t.pc == s.pc && SameBut(s, t, k) && t.tokens == s.tokens - 1 && t.now == s.now
  {
    Nowhere(c, s, false);
    var failure := if c.skipPreflight then CordonReturns(true, false) else Status(true, false, false);
    var u := Extend(c, s, s, Work(k, failure), false);
    assert u.slots[k].phase == Recording && u.agents == s.agents;
    t := Retire(c, u, k);
    Then(c, s, u, t, false, false);
  }

  lemma Reports(c: Config, s: State, k: nat)
    requires |s.slots| == |c.nodes| && k < |c.nodes| && c.nodes[k] in s.agents && s.slots[k].phase == Recording
    ensures WorkStep(c, s, k, Append).Some?
    ensures var t := WorkStep(c, s, k, Append).value;
            t.pc == s.pc && SameBut(s, t, k) && t.tokens == s.tokens && t.slots[k].phase == Releasing
  {
  }

  lemma Ends(c: Config, s: State, k: nat)
    requires |s.slots| == |c.nodes| && k < |c.nodes| && c.nodes[k] in s.agents && s.slots[k].phase == Releasing
    requires s.tokens > 0
    ensures WorkStep(c, s, k, Release).Some?
    ensures var t := WorkStep(c, s, k, Release).value;
            t.pc == s.pc && SameBut(s, t, k) && t.tokens == s.tokens - 1
  {
  }

  /** The last two steps of a goroutine. */
  lemma Retire(c: Config, s: State, k: nat) returns (t: State)
    requires |s.slots| == |c.nodes| && s.agents.Keys == c.clients && k < |c.nodes| && Known(c, k) && s.tokens > 0
    requires s.slots[k].phase == Recording
    ensures Leads(c, s, t, false) && t.pc == s.pc && SameBut(s, t, k) && t.tokens == s.tokens - 1 && t.now == s.now
  {
    Nowhere(c, s, false);
    Reports(c, s, k);
    var u := Extend(c, s, s, Work(k, Append), false);
    Ends(c, u, k);
    t := Extend(c, s, u, Work(k, Release), false);
  }

  /** Entry k comes and goes, and cordons nothing. */
  lemma Skim(c: Config, s: State, k: nat) returns (t: State)
    requires Ready(c, s, k)
    ensures Leads(c, s, t, !Known(c, k)) && t.pc == AtEntry(k + 1) && SameBut(s, t, k) && t.tokens == s.tokens
    ensures t.now == s.now + PauseAt(c, k)
  {
    if Known(c, k) {
      var u := Launch(c, s, k);
      t := Flunk(c, u, k);
      Then(c, s, u, t, true, false);
    } else {
      t := ToLookup(c, s, k);
      t := Extend(c, s, t, Spawn, true);
    }
  }

  /** Entries from k up to m, all without a client. */
  ghost predicate Unknown(c: Config, k: nat, m: nat)
    requires m <= |c.nodes|
  {
    forall x :: k <= x < m ==> !Known(c, x)
  }

  function PausesAt(c: Config, k: nat, m: nat): nat
    decreases m - k
  {
    if k >= m then 0 else PauseAt(c, k) + PausesAt(c, k + 1, m)
  }

  lemma {:induction false} SkimTo(c: Config, s: State, k: nat, m: nat) returns (t: State)
    requires k <= m < |c.nodes| && Ready(c, s, k)
    requires forall x :: k <= x < |s.slots| ==> s.slots[x] == ASLEEP
    ensures Leads(c, s, t, Unknown(c, k, m)) && Ready(c, t, m) && t.agents == s.agents && t.tokens == s.tokens
    ensures forall x :: m <= x < |t.slots| ==> t.slots[x] == ASLEEP
    ensures forall x :: 0 <= x < k ==> t.slots[x] == s.slots[x]
    ensures t.now == s.now + PausesAt(c, k, m)
    decreases m - k
  {
    if k == m {
      t := s;
      Nowhere(c, s, Unknown(c, k, m));
    } else {
      var u := Skim(c, s, k);
      t := SkimTo(c, u, k + 1, m);
      Then(c, s, u, t, !Known(c, k), Unknown(c, k + 1, m));
    }
  }

  /** A launched goroutine cordons its node and starts to reconcile it. */
  lemma Begin(c: Config, s: State, k: nat) returns (t: State)
    requires |s.slots| == |c.nodes| && s.agents.Keys == c.clients && k < |c.nodes| && Known(c, k)
    requires s.slots[k] == ASLEEP.(phase := if c.skipPreflight then Cordoning else Preflight)
    ensures Leads(c, s, t, true) && |t.slots| == |s.slots| && t.agents.Keys == c.clients && t.pc == s.pc
    ensures t.slots[k].phase == Reconciling && t.slots[k].cordoned && t.tokens == s.tokens
    ensures t.agents[c.nodes[k]].cordoned && t.agents[c.nodes[k]].pass == s.agents[c.nodes[k]].pass
    ensures forall m :: 0 <= m < |s.slots| && m != k ==> t.slots[m] == s.slots[m]
  {
    t := s;
    Nowhere(c, s, true);
    if !c.skipPreflight {
      t := Extend(c, s, t, Work(k, Status(false, true, true)), true);
    }
    t := Extend(c, s, t, Work(k, CordonReturns(false, true)), true);
  }

  /** The second goroutine's reconcile fails, and its deferred Uncordon opens the node under
      the first. */
  lemma Undermine(c: Config, s: State, i: nat, j: nat) returns (t: State)
    requires |s.slots| == |c.nodes| && s.agents.Keys == c.clients && i < |c.nodes| && j < |c.nodes| && i != j
    requires Known(c, i) && c.nodes[i] == c.nodes[j]
    requires s.slots[i].phase == Reconciling && s.slots[j].phase == Reconciling
    ensures Leads(c, s, t, false) && !Shielded(c, t)
  {
    Nowhere(c, s, false);
    t := Extend(c, s, s, Work(j, ReconcileReturns(true, [], false)), false);
    t := Extend(c, s, t, Work(j, UncordonReturns(false, true)), false);
    assert InBracket(t.slots[i]) && !t.agents[c.nodes[i]].cordoned;
  }

  lemma Exposed(c: Config, s: State, i: nat, j: nat) returns (t: State)
    requires Init(c, s) && i < j < |c.nodes| && c.nodes[i] == c.nodes[j] && Known(c, i) && c.Capacity() >= 2
    ensures Leads(c, s, t, false) && !Shielded(c, t)
  {
    var smooth := Unknown(c, 0, i) && Unknown(c, i + 1, j);
    var t1 := SkimTo(c, s, 0, i);
    var t2 := Launch(c, t1, i);
    Then(c, s, t1, t2, Unknown(c, 0, i), true);
    var t3 := SkimTo(c, t2, i + 1, j);
    Then(c, s, t2, t3, Unknown(c, 0, i), Unknown(c, i + 1, j));
    var t4 := Launch(c, t3, j);
    Then(c, s, t3, t4, smooth, true);
    var t5 := Begin(c, t4, i);
    Then(c, s, t4, t5, smooth, true);
    var t6 := Begin(c, t5, j);
    Then(c, s, t5, t6, smooth, true);
    t := Undermine(c, t6, i, j);
    Then(c, s, t6, t, smooth, false);
  }

  /** In every state of every run without other callers, a node is cordoned while its goroutine
      reconciles it or waits for it to sync. */
  ghost predicate AlwaysShielded(c: Config) {
    forall s, ls :: Init(c, s) && Undisturbed(ls) && Run(c, s, ls).Some? ==> Shielded(c, Run(c, s, ls).value)
  }

  lemma ExclusiveShields(c: Config)
    requires Exclusive(c)
    ensures AlwaysShielded(c)
  {
    forall s, ls | Init(c, s) && Undisturbed(ls) && Run(c, s, ls).Some?
      ensures Shielded(c, Run(c, s, ls).value)
    {
      Drain.InitInv(c, s);
      GuardedRun(c, s, ls);
      var end := Run(c, s, ls).value;
      forall i | 0 <= i < |end.slots| && InBracket(end.slots[i])
        ensures c.nodes[i] in end.agents && end.agents[c.nodes[i]].cordoned
      {
        BracketExcludesPasses(c, s, ls, i);
      }
    }
  }

  /** A call begins with no node cordoned and no pass running. */
  function Fresh(c: Config): (s: State)
    ensures s.agents.Keys == c.clients
  {
    State(AtEntry(0), 0, seq(|c.nodes|, _ => ASLEEP), [],
          map n | n in c.clients :: Agent.State(false, Agent.NoPass, 0), false, 0, [], [])
  }

  /** The cordon bracket holds exactly for the requests that list no known name twice or
      upgrade one node at a time. */
  lemma ShieldedExactly(c: Config)
    ensures AlwaysShielded(c) <==> Exclusive(c)
  {
    if Exclusive(c) {
      ExclusiveShields(c);
    } else {
      var i, j :| 0 <= i < j < |c.nodes| && c.nodes[i] == c.nodes[j] && Known(c, i);
      var s := Fresh(c);
      var t := Exposed(c, s, i, j);
      var ls :| LeadsBy(c, s, ls, t, false);
    }
  }
}
