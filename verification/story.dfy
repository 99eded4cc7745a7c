/** What the calls of one goroutine, in any run, decide: which call it makes next and what its
    result says. Everything here is about the goroutine's own events, cut out of the run. */
module Story {
  import opened Upgrade
  import opened Waiting
  import Drain
  import Progress

  function Events(ms: seq<Moment>): (es: seq<Event>)
    ensures |es| == |ms| && forall k :: 0 <= k < |es| ==> es[k] == ms[k].ev
  {
    seq(|ms|, k requires 0 <= k < |ms| => ms[k].ev)
  }

  predicate BothSynced(e: Event) {
    e.Status? && !e.err && e.el && e.cl
  }

  /** Where the Cordon call stands among the events if it is made. */
  function First(skip: bool): nat {
    if skip then 0 else 1
  }

  /** The node was upgradable: preflight is skipped or saw both clients synced. */
  predicate Passed(skip: bool, es: seq<Event>) {
    skip || (es != [] && BothSynced(es[0]))
  }

  /** Cordon returned nil. */
  predicate Cordoned(skip: bool, es: seq<Event>) {
    var p := First(skip);
    |es| > p && es[p].CordonReturns? && !es[p].err
  }

  /** The reconcile returned nil. */
  predicate Reconciled(skip: bool, es: seq<Event>) {
    var p := First(skip) + 1;
    |es| > p && es[p].ReconcileReturns? && !es[p].err
  }

  predicate Waits(skip: bool, es: seq<Event>) {
    Reconciled(skip, es) && !es[First(skip) + 1].errors
  }

  /** The last status call from there on was made and saw both clients synced. */
  ghost predicate LastPollSynced(es: seq<Event>, from: nat) {
    exists k :: from <= k < |es| && IsLastPoll(es, k) && BothSynced(es[k])
  }

  ghost predicate IsLastPoll(es: seq<Event>, k: nat)
    requires k < |es|
  {
    es[k].Status? && forall j :: k < j < |es| ==> !es[j].Status?
  }

  /** Which calls are made, in which order: each of the first is made exactly when the one before
      it allows it. */
  ghost predicate Follows(skip: bool, es: seq<Event>) {
    var p := First(skip);
    && (!skip && es != [] ==> es[0].Status?)
    && (|es| > p ==> (es[p].CordonReturns? <==> Passed(skip, es)))
    && (|es| > p + 1 ==> (es[p + 1].ReconcileReturns? <==> Cordoned(skip, es)))
    && (|es| > p + 2 ==> (es[p + 2].ReadClock? <==> Waits(skip, es)))
    && (forall k :: 0 <= k < |es| && es[k].CordonReturns? ==> k == p)
    && (forall k :: 0 <= k < |es| && es[k].ReconcileReturns? ==> k == p + 1)
  }

  /** What the result says of them. */
  ghost predicate Reports(skip: bool, es: seq<Event>, ok: bool, actions: seq<string>) {
    && (ok <==> Waits(skip, es) && LastPollSynced(es, First(skip) + 2))
    && actions == (if Cordoned(skip, es) then ["cordoned"] else [])
                  + (if Reconciled(skip, es) then es[First(skip) + 1].actions else [])
                  + (if ok then ["sync recovered"] else [])
  }

  function Count(es: seq<Event>, f: Event -> bool): nat {
    if es == [] then 0 else Count(es[..|es| - 1], f) + if f(es[|es| - 1]) then 1 else 0
  }

  function Uncordons(es: seq<Event>): nat {
    Count(es, (e: Event) => e.UncordonReturns?)
  }

  /** The status calls but for that of the preflight. */
  function Polls(skip: bool, es: seq<Event>): int {
    Count(es, (e: Event) => e.Status?) - if skip || es == [] then 0 else 1
  }

  lemma CountMore(es: seq<Event>, e: Event, f: Event -> bool)
    ensures Count(es + [e], f) == Count(es, f) + if f(e) then 1 else 0
  {
    assert (es + [e])[..|es|] == es;
  }

  ghost predicate NoneSynced(es: seq<Event>, from: nat) {
    forall k :: from <= k < |es| ==> !BothSynced(es[k])
  }

  ghost predicate Polling(skip: bool, w: Worker, es: seq<Event>) {
    var p := First(skip);
    && Waits(skip, es) && Cordoned(skip, es) && NoneSynced(es, p + 2)
    && w.actions == ["cordoned"] + es[p + 1].actions && !w.ok
  }

  /** None of the calls that depend on one before is still to be made. */
  predicate Closed(skip: bool, es: seq<Event>) {
    var p := First(skip);
    && |es| >= p && (|es| == p ==> !Passed(skip, es)) && (|es| == p + 1 ==> !Cordoned(skip, es))
    && (|es| == p + 2 ==> !Waits(skip, es))
  }

  /** The goroutine and its events so far belong together. */
  ghost predicate Tells(skip: bool, w: Worker, es: seq<Event>) {
    var p := First(skip);
    && Follows(skip, es)
    && match w.phase
       case Idle | Missing => es == [] && w.actions == [] && !w.ok
       case Preflight => !skip && es == [] && w.actions == [] && !w.ok
       case Cordoning => |es| == p && Passed(skip, es) && w.actions == [] && !w.ok
       case Reconciling => |es| == p + 1 && Cordoned(skip, es) && w.actions == ["cordoned"] && !w.ok
       case EnterWait => |es| == p + 2 && Polling(skip, w, es)
       case Uncordoning => Cordoned(skip, es) && Closed(skip, es) && Reports(skip, es, w.ok, w.actions)
       case Recording | Releasing | Finished => Closed(skip, es) && Reports(skip, es, w.ok, w.actions)
       case _ => |es| >= p + 3 && Polling(skip, w, es)
  }

  lemma ClosedMore(skip: bool, es: seq<Event>, e: Event)
    requires Closed(skip, es) && !e.CordonReturns? && !e.ReconcileReturns? && !e.ReadClock? && !e.Status?
    ensures Closed(skip, es + [e])
    ensures Cordoned(skip, es + [e]) == Cordoned(skip, es) && Reconciled(skip, es + [e]) == Reconciled(skip, es)
    ensures Waits(skip, es + [e]) == Waits(skip, es)
    ensures Follows(skip, es) ==> Follows(skip, es + [e])
  {
  }

  lemma LastPollMore(es: seq<Event>, e: Event, from: nat)
    requires !e.Status?
    ensures LastPollSynced(es + [e], from) == LastPollSynced(es, from)
  {
    var next := es + [e];
    if LastPollSynced(es, from) {
      var k: nat :| from <= k < |es| && IsLastPoll(es, k) && BothSynced(es[k]);
      assert IsLastPoll(next, k) && BothSynced(next[k]);
    }
    if LastPollSynced(next, from) {
      var k: nat :| from <= k < |next| && IsLastPoll(next, k) && BothSynced(next[k]);
      assert forall j :: 0 <= j < |es| ==> es[j] == next[j];
      assert IsLastPoll(es, k) && BothSynced(es[k]);
    }
  }

  /** What a result says does not change once its goroutine has no poll left to make. */
  lemma ReportsMore(skip: bool, es: seq<Event>, e: Event, ok: bool, actions: seq<string>)
    requires Closed(skip, es) && Follows(skip, es) && Reports(skip, es, ok, actions)
    requires e.UncordonReturns? || e.Append? || e.Release?
    ensures Closed(skip, es + [e]) && Follows(skip, es + [e]) && Reports(skip, es + [e], ok, actions)
  {
    ClosedMore(skip, es, e);
    LastPollMore(es, e, First(skip) + 2);
  }

  /** The first calls. */
  lemma TellsEarly(skip: bool, w: Worker, es: seq<Event>, m: Moment)
    requires Tells(skip, w, es) && Next(w, m).Some? && (w.phase.Preflight? || w.phase.Cordoning?)
    ensures Tells(skip, Next(w, m).value, es + [m.ev])
  {
  }

  lemma TellsReconcile(skip: bool, w: Worker, es: seq<Event>, m: Moment)
    requires Tells(skip, w, es) && Next(w, m).Some? && w.phase.Reconciling?
    ensures Tells(skip, Next(w, m).value, es + [m.ev])
  {
  }

  lemma PollsMore(skip: bool, es: seq<Event>, e: Event)
    requires var p := First(skip);
             Follows(skip, es) && Cordoned(skip, es) && Waits(skip, es) && |es| >= p + 2 && NoneSynced(es, p + 2)
    requires (|es| == First(skip) + 2 ==> e.ReadClock?) && !e.CordonReturns? && !e.ReconcileReturns?
    ensures var next, p := es + [e], First(skip);
            && Follows(skip, next) && Cordoned(skip, next) && Waits(skip, next) && next[p + 1] == es[p + 1]
            && (!BothSynced(e) ==> NoneSynced(next, p + 2))
            && (LastPollSynced(next, p + 2) <==> BothSynced(e))
  {
    var next, p := es + [e], First(skip);
    assert forall k :: 0 <= k < |es| ==> next[k] == es[k];
    if BothSynced(e) {
      assert IsLastPoll(next, |es|);
    } else {
      assert NoneSynced(next, p + 2);
    }
  }

  lemma TellsPollOn(skip: bool, w: Worker, es: seq<Event>, m: Moment)
    requires Tells(skip, w, es) && Next(w, m).Some? && (w.phase.EnterWait? || Progress.Polling(w))
    requires !Next(w, m).value.phase.Uncordoning?
    ensures Tells(skip, Next(w, m).value, es + [m.ev])
  {
    PollsMore(skip, es, m.ev);
    PollsOn(w, m);
  }

  lemma PollsOn(w: Worker, m: Moment)
    requires Next(w, m).Some? && (w.phase.EnterWait? || Progress.Polling(w))
    ensures (w.phase.EnterWait? ==> m.ev.ReadClock?) && !m.ev.CordonReturns? && !m.ev.ReconcileReturns?
    ensures var w' := Next(w, m).value;
            if w'.phase.Uncordoning?
            then w'.ok == BothSynced(m.ev) && w'.actions == w.actions + (if w'.ok then ["sync recovered"] else [])
            else Progress.Polling(w') && !BothSynced(m.ev) && w'.ok == w.ok && w'.actions == w.actions
  {
  }

  lemma TellsPollEnds(skip: bool, w: Worker, es: seq<Event>, m: Moment)
    requires Tells(skip, w, es) && Next(w, m).Some? && (w.phase.EnterWait? || Progress.Polling(w))
    requires Next(w, m).value.phase.Uncordoning?
    ensures Tells(skip, Next(w, m).value, es + [m.ev])
  {
    PollsMore(skip, es, m.ev);
    PollsOn(w, m);
  }

  lemma TellsEnd(skip: bool, w: Worker, es: seq<Event>, m: Moment)
    requires Tells(skip, w, es) && Next(w, m).Some?
    requires w.phase.Uncordoning? || w.phase.Recording? || w.phase.Releasing?
    ensures Tells(skip, Next(w, m).value, es + [m.ev])
  {
    ReportsMore(skip, es, m.ev, w.ok, w.actions);
  }

  lemma TellsNext(skip: bool, w: Worker, es: seq<Event>, m: Moment)
    requires Tells(skip, w, es) && Next(w, m).Some?
    ensures Tells(skip, Next(w, m).value, es + [m.ev])
  {
    if w.phase.Preflight? || w.phase.Cordoning? {
      TellsEarly(skip, w, es, m);
    } else if w.phase.Reconciling? {
      TellsReconcile(skip, w, es, m);
    } else if w.phase.EnterWait? || Progress.Polling(w) {
      if Next(w, m).value.phase.Uncordoning? {
        TellsPollEnds(skip, w, es, m);
      } else {
        TellsPollOn(skip, w, es, m);
      }
    } else {
      TellsEnd(skip, w, es, m);
    }
  }

  /** The history a goroutine carries is that of its events. */
  ghost predicate Counts(skip: bool, w: Worker, es: seq<Event>) {
    w.uncordons == Uncordons(es) && w.polls == Polls(skip, es) && (w.cordoned <==> Cordoned(skip, es))
  }

  lemma CountsPoll(w: Worker, m: Moment)
    requires Progress.Polling(w) && Next(w, m).Some?
    ensures var w' := Next(w, m).value;
            && w'.uncordons == w.uncordons && !m.ev.UncordonReturns?
            && w'.polls == w.polls + (if m.ev.Status? then 1 else 0)
            && w'.cordoned == w.cordoned && !m.ev.CordonReturns?
  {
  }

  lemma CountsRest(w: Worker, m: Moment)
    requires !Progress.Polling(w) && Next(w, m).Some?
    ensures var w' := Next(w, m).value;
            && w'.uncordons == w.uncordons + (if m.ev.UncordonReturns? then 1 else 0)
            && w'.polls == w.polls && (m.ev.Status? ==> w.phase.Preflight?)
            && (w'.cordoned <==> w.cordoned || (m.ev.CordonReturns? && !m.ev.err))
  {
  }

  lemma CordonedMore(skip: bool, es: seq<Event>, e: Event)
    requires Follows(skip, es + [e])
    ensures Cordoned(skip, es + [e]) <==> Cordoned(skip, es) || (e.CordonReturns? && !e.err)
  {
    var next := es + [e];
    assert next[|es|] == e;
  }

  lemma CountsMove(w: Worker, m: Moment)
    requires Next(w, m).Some?
    ensures var w' := Next(w, m).value;
            && w'.uncordons == w.uncordons + (if m.ev.UncordonReturns? then 1 else 0)
            && w'.polls == w.polls + (if m.ev.Status? && !w.phase.Preflight? then 1 else 0)
            && (w'.cordoned <==> w.cordoned || (m.ev.CordonReturns? && !m.ev.err))
  {
    if Progress.Polling(w) {
      CountsPoll(w, m);
    } else {
      CountsRest(w, m);
    }
  }

  lemma CountsGrow(skip: bool, es: seq<Event>, e: Event)
    requires es == [] && !skip ==> e.Status?
    ensures Uncordons(es + [e]) == Uncordons(es) + (if e.UncordonReturns? then 1 else 0)
    ensures Polls(skip, es + [e]) == Polls(skip, es) + (if e.Status? && (skip || es != []) then 1 else 0)
  {
    CountMore(es, e, (e: Event) => e.UncordonReturns?);
    CountMore(es, e, (e: Event) => e.Status?);
  }

  lemma OnlyPreflight(skip: bool, w: Worker, es: seq<Event>, m: Moment)
    requires Tells(skip, w, es) && Next(w, m).Some?
    ensures w.phase.Preflight? <==> es == [] && !skip
    ensures w.phase.Preflight? ==> m.ev.Status?
  {
  }

  lemma CountsNext(skip: bool, w: Worker, es: seq<Event>, m: Moment)
    requires Tells(skip, w, es) && Counts(skip, w, es) && Next(w, m).Some?
    ensures Counts(skip, Next(w, m).value, es + [m.ev])
  {
    TellsNext(skip, w, es, m);
    OnlyPreflight(skip, w, es, m);
    CountsMove(w, m);
    CordonedMore(skip, es, m.ev);
    CountsGrow(skip, es, m.ev);
  }

  ghost predicate Told(skip: bool, w: Worker, es: seq<Event>) {
    Tells(skip, w, es) && Counts(skip, w, es)
  }

  lemma ToldNext(skip: bool, w: Worker, es: seq<Event>, m: Moment)
    requires Told(skip, w, es) && Next(w, m).Some?
    ensures Told(skip, Next(w, m).value, es + [m.ev])
  {
    TellsNext(skip, w, es, m);
    CountsNext(skip, w, es, m);
  }

  /** Over a run, from any state whose slot i tells what its events so far are. */
  lemma {:induction false} ToldRun(c: Config, s: State, ls: seq<Label>, i: nat, es: seq<Event>)
    requires Drain.Inv(c, s) && Run(c, s, ls).Some? && i < |c.nodes| && Told(c.skipPreflight, s.slots[i], es)
    ensures i < |Run(c, s, ls).value.slots|
    ensures Told(c.skipPreflight, Run(c, s, ls).value.slots[i], es + Events(Moments(c, s, ls, i)))
    decreases |ls|
  {
    if ls == [] {
      assert es + Events([]) == es;
    } else {
      var l, s' := ls[0], Step(c, s, ls[0]).value;
      Drain.StepKeeps(c, s, l);
      ToldStep(c, s, l, i, es);
      ToldRun(c, s', ls[1..], i, if l.act.Work? && l.act.i == i then es + [l.act.ev] else es);
      EventsNext(c, s, ls, i, es);
    }
  }

  lemma EventsCons(es: seq<Event>, m: Moment, rest: seq<Moment>)
    ensures es + Events([m] + rest) == es + [m.ev] + Events(rest)
  {
    assert Events([m] + rest) == [m.ev] + Events(rest);
  }

  lemma EventsNext(c: Config, s: State, ls: seq<Label>, i: nat, es: seq<Event>)
    requires ls != [] && i < |c.nodes| && Step(c, s, ls[0]).Some?
    requires ls[0].act.Work? && ls[0].act.i == i ==> c.nodes[i] in s.agents
    ensures var l, rest := ls[0], Events(Moments(c, Step(c, s, ls[0]).value, ls[1..], i));
            es + Events(Moments(c, s, ls, i)) == (if l.act.Work? && l.act.i == i then es + [l.act.ev] else es) + rest
  {
    var rest := Moments(c, Step(c, s, ls[0]).value, ls[1..], i);
    if ls[0].act.Work? && ls[0].act.i == i {
      EventsCons(es, MomentOf(c, s, ls[0]), rest);
    } else {
      assert Moments(c, s, ls, i) == rest;
    }
  }

  lemma ToldStep(c: Config, s: State, l: Label, i: nat, es: seq<Event>)
    requires Drain.Inv(c, s) && Step(c, s, l).Some? && i < |c.nodes| && Told(c.skipPreflight, s.slots[i], es)
    ensures i < |Step(c, s, l).value.slots|
    ensures l.act.Work? && l.act.i == i ==>
              c.nodes[i] in s.agents
              && Told(c.skipPreflight, Step(c, s, l).value.slots[i], es + [l.act.ev])
    ensures !(l.act.Work? && l.act.i == i) ==> Told(c.skipPreflight, Step(c, s, l).value.slots[i], es)
  {
    if s.slots[i].phase == Idle {
      IdleStep(c, s, l, i);
    } else {
      StepFollows(c, s, l, i);
      if l.act.Work? && l.act.i == i {
        ToldNext(c.skipPreflight, s.slots[i], es, MomentOf(c, s, l));
      }
    }
  }

  /** Only the spawner moves a slot that is not started, and as a goroutine that has done nothing. */
  lemma IdleStep(c: Config, s: State, l: Label, i: nat)
    requires Drain.Inv(c, s) && Step(c, s, l).Some? && i < |c.nodes| && s.slots[i].phase == Idle
    ensures i < |Step(c, s, l).value.slots| && !(l.act.Work? && l.act.i == i)
    ensures var w := Step(c, s, l).value.slots[i];
            w == s.slots[i] || w == s.slots[i].(phase := Missing)
            || w == s.slots[i].(phase := if c.skipPreflight then Cordoning else Preflight)
  {
    var t := s.(now := l.at);
    match l.act
    case Work(j, e) => Progress.WorkSlots(c, t, j, e);
    case _ =>
  }

  lemma Tale(c: Config, s: State, ls: seq<Label>, i: nat)
    requires Init(c, s) && Run(c, s, ls).Some? && i < |c.nodes|
    ensures i < |Run(c, s, ls).value.slots|
    ensures Told(c.skipPreflight, Run(c, s, ls).value.slots[i], Events(Moments(c, s, ls, i)))
  {
    Drain.InitInv(c, s);
    ToldRun(c, s, ls, i, []);
    assert [] + Events(Moments(c, s, ls, i)) == Events(Moments(c, s, ls, i));
  }

  /** In any state of any run, the calls a goroutine has made are those, and in the order, that
      the answers to the earlier ones call for. */
  lemma CallsFollow(c: Config, s: State, ls: seq<Label>, i: nat)
    requires Init(c, s) && Run(c, s, ls).Some? && i < |c.nodes|
    ensures Follows(c.skipPreflight, Events(Moments(c, s, ls, i)))
  {
    Tale(c, s, ls, i);
  }

  lemma SourceOf(c: Config, s: State, ls: seq<Label>, r: NodeResult) returns (i: nat)
    requires Init(c, s) && Run(c, s, ls).Some? && r in Run(c, s, ls).value.results
    ensures var slots := Run(c, s, ls).value.slots;
            && i < |c.nodes| == |slots| && r == NodeResult(c.nodes[i], slots[i].ok, slots[i].actions)
            && Recorded(slots[i]) && (slots[i].phase == Missing <==> !Known(c, i))
  {
    Progress.Reachable(c, s, ls);
    var end := Run(c, s, ls).value;
    i :| 0 <= i < |end.slots| && Progress.Source(c, end, i, r);
  }

  /** What a result means: that of an unknown name says nothing; that of a known one is what its
      goroutine's calls make it, and all the calls that depend on one another have been made. */
  lemma ResultMeaning(c: Config, s: State, ls: seq<Label>, r: NodeResult) returns (i: nat)
    requires Init(c, s) && Run(c, s, ls).Some? && r in Run(c, s, ls).value.results
    ensures i < |c.nodes| && r.name == c.nodes[i]
    ensures !Known(c, i) ==> !r.ok && r.actions == []
    ensures Known(c, i) ==>
              var es := Events(Moments(c, s, ls, i));
              Closed(c.skipPreflight, es) && Follows(c.skipPreflight, es)
              && Reports(c.skipPreflight, es, r.ok, r.actions)
  {
    i := SourceOf(c, s, ls, r);
    Tale(c, s, ls, i);
  }

  lemma ContextEnds(w: Worker, m: Moment)
    requires Next(w, m).Some? && m.ev.ContextDone?
    ensures m.cancelled
  {
  }

  lemma StepNext(c: Config, s: State, l: Label)
    requires Step(c, s, l).Some? && l.act.Work?
    ensures l.act.i < |c.nodes| && l.act.i < |s.slots| && c.nodes[l.act.i] in s.agents
    ensures Next(s.slots[l.act.i], MomentOf(c, s, l)).Some?
  {
  }

  /** A wait ends for the context only in a cancelled one. */
  lemma {:induction false} GivesUpCancelled(c: Config, s: State, ls: seq<Label>, i: nat, k: nat)
    requires Run(c, s, ls).Some? && i < |c.nodes| && k < |Moments(c, s, ls, i)|
    requires Moments(c, s, ls, i)[k].ev.ContextDone?
    ensures Moments(c, s, ls, i)[k].cancelled
    decreases |ls|
  {
    var l, s' := ls[0], Step(c, s, ls[0]).value;
    if l.act.Work? && l.act.i == i {
      StepNext(c, s, l);
      if k == 0 {
        ContextEnds(s.slots[i], MomentOf(c, s, l));
      } else {
        GivesUpCancelled(c, s', ls[1..], i, k - 1);
      }
    } else {
      GivesUpCancelled(c, s', ls[1..], i, k);
    }
  }

  /** On every exit path: a goroutine that has ended made one Uncordon call if its Cordon returned
      nil and none otherwise, and no goroutine polls more than 42 times. */
  lemma ExitPaths(c: Config, s: State, ls: seq<Label>, i: nat)
    requires Init(c, s) && Run(c, s, ls).Some? && i < |c.nodes|
    ensures i < |Run(c, s, ls).value.slots|
    ensures var es := Events(Moments(c, s, ls, i));
            && (Run(c, s, ls).value.slots[i].phase == Finished ==>
                  Uncordons(es) == if Cordoned(c.skipPreflight, es) then 1 else 0)
            && Polls(c.skipPreflight, es) <= 42
  {
    Tale(c, s, ls, i);
    Progress.ExitPaths(c, s, ls, i);
  }
}
