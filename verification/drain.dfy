/** Safety of the rolling upgrade over all interleavings: tokens are conserved, the drain loop
    is a barrier, and the result list accounts for the request entry by entry. */
module Drain {
  import opened Wrappers
  import opened Upgrade
  import Agent

  /** Tokens the spawner itself has put into the channel. */
  function SpawnerTokens(c: Config, pc: Spawner): nat {
    match pc
    case Spawning(_) => 1
    case Draining(k) => k
    case Returned(false, _, _) => c.Capacity()
    case _ => 0
  }

  ghost predicate PcFits(c: Config, pc: Spawner) {
    && Reached(c, pc) <= |c.nodes|
    && (pc.Pausing? || pc.Lookup? || pc.Acquiring? || pc.Spawning? ==> Reached(c, pc) < |c.nodes|)
    && (pc.Acquiring? || pc.Spawning? ==> Known(c, pc.i))
    && (pc.Returned? && !pc.cancelled ==> pc.reached == |c.nodes|)
  }

  ghost predicate Shape(c: Config, s: State) {
    && |s.slots| == |c.nodes| && s.agents.Keys == c.clients && PcFits(c, s.pc)
    && (forall i :: Reached(c, s.pc) <= i < |s.slots| ==> s.slots[i] == ASLEEP)
    && (forall i :: 0 <= i < Reached(c, s.pc) ==>
          s.slots[i].phase != Idle && (s.slots[i].phase == Missing <==> !Known(c, i)))
  }

  /** A token is in the channel for each live goroutine, and for each send of the spawner that
      no goroutine has taken over. */
  ghost predicate Conserved(c: Config, s: State) {
    && s.tokens == Sum(s.slots, Holding) + SpawnerTokens(c, s.pc)
    && s.tokens <= c.Capacity()
  }

  function Names(rs: seq<NodeResult>): multiset<string> {
    if rs == [] then multiset{} else Names(rs[..|rs| - 1]) + multiset{rs[|rs| - 1].name}
  }

  /** Names of the entries whose result is in the list. */
  function Accounted(nodes: seq<string>, ws: seq<Worker>): multiset<string>
    requires |nodes| == |ws|
  {
    if ws == [] then multiset{}
    else (if Recorded(ws[0]) then multiset{nodes[0]} else multiset{}) + Accounted(nodes[1..], ws[1..])
  }

  ghost predicate Reported(c: Config, s: State)
    requires |s.slots| == |c.nodes|
  {
    && Names(s.results) == Accounted(c.nodes, s.slots)
    && (s.pc.Returned? ==> s.pc.answer <= s.results)
    && (s.pc.Returned? && !s.pc.cancelled ==> s.pc.answer == s.results)
  }

  ghost predicate Inv(c: Config, s: State) {
    Shape(c, s) && Conserved(c, s) && Reported(c, s)
  }

  lemma {:induction false} AccountedUpdate(nodes: seq<string>, ws: seq<Worker>, i: nat, w: Worker)
    requires i < |ws| == |nodes|
    requires Recorded(ws[i]) ==> Recorded(w)
    ensures Accounted(nodes, ws[i := w])
         == Accounted(nodes, ws) + if Recorded(w) && !Recorded(ws[i]) then multiset{nodes[i]} else multiset{}
  {
    var us := ws[i := w];
    if i == 0 {
      assert us[1..] == ws[1..];
    } else {
      assert us[1..] == ws[1..][i - 1 := w];
      AccountedUpdate(nodes[1..], ws[1..], i - 1, w);
    }
  }

  /** Where every entry is recorded, exactly the names of the request are accounted for. */
  lemma {:induction false} AccountedAll(nodes: seq<string>, ws: seq<Worker>)
    requires |nodes| == |ws|
    requires forall i :: 0 <= i < |ws| ==> Recorded(ws[i])
    ensures Accounted(nodes, ws) == multiset(nodes)
  {
    if ws != [] {
      assert nodes == [nodes[0]] + nodes[1..];
      assert forall i :: 0 <= i < |ws[1..]| ==> ws[1..][i] == ws[i + 1];
      AccountedAll(nodes[1..], ws[1..]);
      assert Recorded(ws[0]);
    }
  }

  lemma {:induction false} AccountedBound(nodes: seq<string>, ws: seq<Worker>, n: nat)
    requires n <= |nodes| == |ws|
    requires forall i :: n <= i < |ws| ==> !Recorded(ws[i])
    ensures Accounted(nodes, ws) <= multiset(nodes[..n])
  {
    if ws != [] {
      var m: nat := if n == 0 then 0 else n - 1;
      assert forall i :: 0 <= i < |ws[1..]| ==> ws[1..][i] == ws[i + 1];
      AccountedBound(nodes[1..], ws[1..], m);
      if n == 0 {
        assert !Recorded(ws[0]);
        assert nodes[1..][..0] == nodes[..0];
      } else {
        assert nodes[..n] == [nodes[0]] + nodes[1..][..m];
      }
    }
  }

  lemma NamesAppend(rs: seq<NodeResult>, r: NodeResult)
    ensures Names(rs + [r]) == Names(rs) + multiset{r.name}
  {
    assert (rs + [r])[..|rs|] == rs;
  }

  lemma {:induction false} NamesPrefix(rs: seq<NodeResult>, qs: seq<NodeResult>)
    requires rs <= qs
    ensures Names(rs) <= Names(qs)
  {
    if rs == qs {
    } else {
      assert rs <= qs[..|qs| - 1];
      NamesPrefix(rs, qs[..|qs| - 1]);
    }
  }

  lemma InitInv(c: Config, s: State)
    requires Init(c, s)
    ensures Inv(c, s)
  {
    SumZero(s.slots, Holding);
    AccountedBound(c.nodes, s.slots, 0);
    assert c.nodes[..0] == [];
  }

  /** A goroutine that moves is live; only Append records it and only Release ends it. */
  lemma WorkerFacts(w: Worker, e: Event, now: int, cancelled: bool, a: Agent.State)
    requires WorkerStep(w, e, now, cancelled, a).Some?
    ensures var w' := WorkerStep(w, e, now, cancelled, a).value;
            && Holding(w) == 1 && Holding(w') == (if e.Release? then 0 else 1)
            && w'.phase !in {Idle, Missing}
            && (Recorded(w) <==> e.Release?) && (Recorded(w') <==> e.Append? || e.Release?)
            && (e.Append? ==> w'.ok == w.ok && w'.actions == w.actions)
  {
    match w.phase
    case _ =>
  }

  /** What a goroutine's event does to the fields the invariant talks about. */
  lemma WorkStepFacts(c: Config, s: State, i: nat, e: Event)
    requires WorkStep(c, s, i, e).Some?
    requires |s.slots| == |c.nodes|
    ensures SlotChange(c, s, WorkStep(c, s, i, e).value, i)
  {
    var w := s.slots[i];
    var a := s.agents[c.nodes[i]];
    WorkerFacts(w, e, s.now, s.cancelled, a);
    EffectFacts(c, s, i, e, WorkerStep(w, e, s.now, s.cancelled, a).value);
  }

  lemma EffectFacts(c: Config, s: State, i: nat, e: Event, w': Worker)
    requires i < |s.slots| == |c.nodes| && c.nodes[i] in s.agents
    requires var w := s.slots[i];
             && Holding(w) == 1 && Holding(w') == (if e.Release? then 0 else 1)
             && w'.phase !in {Idle, Missing}
             && (Recorded(w) <==> e.Release?) && (Recorded(w') <==> e.Append? || e.Release?)
             && (e.Append? ==> w'.ok == w.ok && w'.actions == w.actions)
    requires Effect(s.(slots := s.slots[i := w']), c.nodes[i], w', e).Some?
    ensures SlotChange(c, s, Effect(s.(slots := s.slots[i := w']), c.nodes[i], w', e).value, i)
  {
  }

  lemma WorkStepKeeps(c: Config, s: State, i: nat, e: Event)
    requires Inv(c, s) && WorkStep(c, s, i, e).Some?
    ensures Inv(c, WorkStep(c, s, i, e).value)
  {
    WorkStepFacts(c, s, i, e);
    var s' := WorkStep(c, s, i, e).value;
    ShapeKept(c, s, s', i);
    ConservedKept(c, s, s', i);
    ReportedKept(c, s, s', i);
  }

  ghost predicate SlotChange(c: Config, s: State, s': State, i: nat) {
    && i < |s.slots| == |s'.slots| == |c.nodes|
    && var w, w' := s.slots[i], s'.slots[i];
    && s'.slots == s.slots[i := w'] && s'.pc == s.pc && s'.agents.Keys == s.agents.Keys
    && s'.tokens + Holding(w) == s.tokens + Holding(w')
    && (Recorded(w) ==> Recorded(w'))
    && s'.results == (
         if Recorded(w') && !Recorded(w) then s.results + [NodeResult(c.nodes[i], w.ok, w.actions)] else s.results)
    && Holding(w) == 1 && w.phase !in {Idle, Missing} && w'.phase !in {Idle, Missing}
  }

  lemma ShapeKept(c: Config, s: State, s': State, i: nat)
    requires Shape(c, s) && SlotChange(c, s, s', i)
    ensures Shape(c, s')
  {
  }

  lemma ConservedKept(c: Config, s: State, s': State, i: nat)
    requires Conserved(c, s) && SlotChange(c, s, s', i)
    ensures Conserved(c, s')
  {
    SumUpdate(s.slots, i, s'.slots[i], Holding);
  }

  lemma ReportedKept(c: Config, s: State, s': State, i: nat)
    requires Inv(c, s) && SlotChange(c, s, s', i)
    ensures Reported(c, s')
  {
    var w, w' := s.slots[i], s'.slots[i];
    assert !(s.pc.Returned? && !s.pc.cancelled) by {
      SumAtLeast(s.slots, i, Holding);
    }
    assert Accounted(c.nodes, s'.slots)
        == Accounted(c.nodes, s.slots) + if Recorded(w') && !Recorded(w) then multiset{c.nodes[i]} else multiset{} by {
      AccountedUpdate(c.nodes, s.slots, i, w');
    }
    if Recorded(w') && !Recorded(w) {
      NamesAppend(s.results, NodeResult(c.nodes[i], w.ok, w.actions));
    } else {
      assert s'.results == s.results;
    }
  }

  lemma SpawnStepKeeps(c: Config, s: State)
    requires Inv(c, s) && SpawnStep(c, s).Some?
    ensures Inv(c, SpawnStep(c, s).value)
  {
    if s.pc.Lookup? && !Known(c, s.pc.i) {
      MissingKeeps(c, s);
    } else if s.pc.Spawning? {
      GoKeeps(c, s);
    } else {
      QuietKeeps(c, s);
    }
  }

  /** Only the pc and the tokens move. */
  ghost predicate QuietChange(c: Config, s: State, s': State) {
    && s'.slots == s.slots && s'.results == s.results && s'.agents == s.agents
    && PcFits(c, s'.pc) && Reached(c, s'.pc) == Reached(c, s.pc)
    && s'.tokens - SpawnerTokens(c, s'.pc) == s.tokens - SpawnerTokens(c, s.pc) && s'.tokens <= c.Capacity()
    && (s'.pc.Returned? ==> s'.pc.answer == s'.results)
  }

  /** Spawner steps that touch no slot. */
  lemma QuietKeeps(c: Config, s: State)
    requires Inv(c, s) && SpawnStep(c, s).Some?
    requires !s.pc.Spawning? && (s.pc.Lookup? ==> Known(c, s.pc.i))
    ensures Inv(c, SpawnStep(c, s).value)
  {
    assert PcFits(c, s.pc) && SpawnerTokens(c, s.pc) <= s.tokens <= c.Capacity();
    QuietStep(c, s);
    QuietInv(c, s, SpawnStep(c, s).value);
  }

  lemma QuietStep(c: Config, s: State)
    requires |s.slots| == |c.nodes| && PcFits(c, s.pc) && SpawnStep(c, s).Some?
    requires SpawnerTokens(c, s.pc) <= s.tokens <= c.Capacity()
    requires !s.pc.Spawning? && (s.pc.Lookup? ==> Known(c, s.pc.i))
    ensures QuietChange(c, s, SpawnStep(c, s).value)
  {
  }

  lemma QuietInv(c: Config, s: State, s': State)
    requires Inv(c, s) && QuietChange(c, s, s')
    ensures Inv(c, s')
  {
  }

  lemma ReportedMissing(c: Config, s: State, s': State, i: nat, w: Worker)
    requires i < |s.slots| == |c.nodes| && s'.slots == s.slots[i := w]
    requires Reported(c, s) && !s'.pc.Returned? && !Recorded(s.slots[i]) && Recorded(w)
    requires s'.results == s.results + [NodeResult(c.nodes[i], false, [])]
    ensures Reported(c, s')
  {
    AccountedUpdate(c.nodes, s.slots, i, w);
    NamesAppend(s.results, NodeResult(c.nodes[i], false, []));
  }

  lemma ConservedWith(c: Config, s: State, s': State, i: nat, w: Worker)
    requires i < |s.slots| && s'.slots == s.slots[i := w] && s'.tokens == s.tokens && Conserved(c, s)
    requires Holding(w) + SpawnerTokens(c, s'.pc) == Holding(s.slots[i]) + SpawnerTokens(c, s.pc)
    ensures Conserved(c, s')
  {
    SumUpdate(s.slots, i, w, Holding);
  }

  lemma MissingKeeps(c: Config, s: State)
    requires Inv(c, s) && s.pc.Lookup? && !Known(c, s.pc.i)
    ensures Inv(c, SpawnStep(c, s).value)
  {
    var i := s.pc.i;
    var w := s.slots[i].(phase := Missing);
    var s' := s.(pc := AtEntry(i + 1), results := s.results + [NodeResult(c.nodes[i], false, [])],
                 slots := s.slots[i := w]);
    assert SpawnStep(c, s) == Some(s') && s.slots[i] == ASLEEP;
    ConservedWith(c, s, s', i, w);
    ReportedMissing(c, s, s', i, w);
    ShapeNext(c, s, s', i, w);
  }

  /** The spawner is done with entry i, whose slot has left Idle. */
  lemma ShapeNext(c: Config, s: State, s': State, i: nat, w: Worker)
    requires Shape(c, s) && i < |c.nodes| && Reached(c, s.pc) == i && s'.pc == AtEntry(i + 1)
    requires s'.slots == s.slots[i := w] && s'.agents == s.agents
    requires w.phase != Idle && (w.phase == Missing <==> !Known(c, i))
    ensures Shape(c, s')
  {
  }

  lemma GoKeeps(c: Config, s: State)
    requires Inv(c, s) && s.pc.Spawning?
    ensures Inv(c, SpawnStep(c, s).value)
  {
    var i := s.pc.i;
    var w := s.slots[i].(phase := if c.skipPreflight then Cordoning else Preflight);
    var s' := s.(pc := AtEntry(i + 1), slots := s.slots[i := w]);
    assert SpawnStep(c, s) == Some(s') && s.slots[i] == ASLEEP;
    ConservedWith(c, s, s', i, w);
    AccountedUpdate(c.nodes, s.slots, i, w);
    ShapeNext(c, s, s', i, w);
  }

  lemma StepKeeps(c: Config, s: State, l: Label)
    requires Inv(c, s) && Step(c, s, l).Some?
    ensures Inv(c, Step(c, s, l).value)
  {
    var t := s.(now := l.at);
    match l.act
    case Spawn => SpawnStepKeeps(c, t);
    case Work(i, e) => WorkStepKeeps(c, t, i, e);
    case _ =>
  }

  /** The invariant holds in every state of every interleaving. */
  lemma {:induction false} RunKeeps(c: Config, s: State, ls: seq<Label>)
    requires Inv(c, s) && Run(c, s, ls).Some?
    ensures Inv(c, Run(c, s, ls).value)
    decreases |ls|
  {
    if ls != [] {
      StepKeeps(c, s, ls[0]);
      RunKeeps(c, Step(c, s, ls[0]).value, ls[1..]);
    }
  }

  /** No goroutine is between `go` and the release of its token. */
  ghost predicate NoneLive(s: State) {
    forall i :: 0 <= i < |s.slots| ==> Holding(s.slots[i]) == 0
  }

  /** When RollingUpgrade returns without giving up in a pause, no goroutine is live and the
      names in its answer are exactly the request's, duplicates and unknown names included.
      Nothing changes the result list afterwards. */
  lemma DrainBarrier(c: Config, s: State, ls: seq<Label>)
    requires Init(c, s) && Run(c, s, ls).Some?
    requires Run(c, s, ls).value.pc.Returned? && !Run(c, s, ls).value.pc.cancelled
    ensures var end := Run(c, s, ls).value;
            NoneLive(end) && end.pc.answer == end.results && Names(end.pc.answer) == multiset(c.nodes)
  {
    InitInv(c, s);
    RunKeeps(c, s, ls);
    var end := Run(c, s, ls).value;
    forall i | 0 <= i < |end.slots|
      ensures Holding(end.slots[i]) == 0 && Recorded(end.slots[i])
    {
      SumAtLeast(end.slots, i, Holding);
    }
    AccountedAll(c.nodes, end.slots);
  }

  /** The spawner gives up only in a cancelled context. */
  lemma {:induction false} GaveUp(c: Config, s: State, ls: seq<Label>)
    requires Run(c, s, ls).Some? && (s.pc.Returned? && s.pc.cancelled ==> s.cancelled)
    ensures var end := Run(c, s, ls).value; end.pc.Returned? && end.pc.cancelled ==> end.cancelled
    decreases |ls|
  {
    if ls != [] {
      StaysCancelled(c, s, ls[0]);
      GaveUp(c, Step(c, s, ls[0]).value, ls[1..]);
    }
  }

  lemma StaysCancelled(c: Config, s: State, l: Label)
    requires Step(c, s, l).Some?
    ensures var s' := Step(c, s, l).value;
            && (s.cancelled ==> s'.cancelled)
            && (s'.pc.Returned? && s'.pc.cancelled ==> s.cancelled || (s.pc.Returned? && s.pc.cancelled))
  {
  }

  /** When it gives up, the context is cancelled; where it gives up at entry `reached`, the answer
      names no more than the entries before it. */
  lemma CancelledAnswer(c: Config, s: State, ls: seq<Label>)
    requires Init(c, s) && Run(c, s, ls).Some? && Run(c, s, ls).value.pc.Returned?
    ensures var end := Run(c, s, ls).value;
            && (end.pc.cancelled ==> end.cancelled)
            && end.pc.reached <= |c.nodes| && Names(end.pc.answer) <= multiset(c.nodes[..end.pc.reached])
  {
    GaveUp(c, s, ls);
    InitInv(c, s);
    RunKeeps(c, s, ls);
    var end := Run(c, s, ls).value;
    NamesPrefix(end.pc.answer, end.results);
    AccountedBound(c.nodes, end.slots, end.pc.reached);
  }

  /** At most MaxUnavailable goroutines are live in any state, or one if it is less than that, also
      after giving up. */
  lemma AvailabilityBound(c: Config, s: State, ls: seq<Label>)
    requires Init(c, s) && Run(c, s, ls).Some?
    ensures c.maxUnavailable >= 1 ==> Sum(Run(c, s, ls).value.slots, Holding) <= c.maxUnavailable
    ensures c.maxUnavailable <= 1 ==> Sum(Run(c, s, ls).value.slots, Holding) <= 1
  {
    InitInv(c, s);
    RunKeeps(c, s, ls);
  }
}
