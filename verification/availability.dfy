/** How many goroutines an upgrade has live at once: the bound of module Drain is met, by a run
    for every request. */
module Availability {
  import opened Wrappers
  import opened Upgrade
  import opened Exclusion
  import Drain

  /** How many of the entries are known. */
  function KnownIn(nodes: seq<string>, clients: set<string>): nat {
    if nodes == [] then 0 else (if nodes[0] in clients then 1 else 0) + KnownIn(nodes[1..], clients)
  }

  lemma {:induction false} LiveKnown(nodes: seq<string>, clients: set<string>, ws: seq<Worker>)
    requires |nodes| == |ws| && forall i :: 0 <= i < |ws| && Holding(ws[i]) > 0 ==> nodes[i] in clients
    ensures Sum(ws, Holding) <= KnownIn(nodes, clients)
  {
    if ws != [] {
      assert forall i :: 0 <= i < |ws[1..]| ==> ws[1..][i] == ws[i + 1];
      LiveKnown(nodes[1..], clients, ws[1..]);
      assert Holding(ws[0]) > 0 ==> nodes[0] in clients;
    }
  }

  /** The spawner is at entry k, and a token is taken for each live goroutine. */
  ghost predicate Standing(c: Config, s: State, k: nat) {
    && |s.slots| == |c.nodes| && s.agents.Keys == c.clients && k <= |c.nodes| && s.pc == AtEntry(k)
    && s.tokens == Sum(s.slots, Holding) <= c.Capacity()
    && forall x :: k <= x < |s.slots| ==> s.slots[x] == ASLEEP
  }

  lemma SlotMoves(s: State, t: State, k: nat)
    requires k < |s.slots| && SameBut(s, t, k)
    ensures Sum(t.slots, Holding) + Holding(s.slots[k]) == Sum(s.slots, Holding) + Holding(t.slots[k])
  {
    assert t.slots == s.slots[k := t.slots[k]];
    SumUpdate(s.slots, k, t.slots[k], Holding);
  }

  /** An entry without a client. */
  lemma Pass(c: Config, s: State, k: nat) returns (t: State)
    requires Standing(c, s, k) && k < |c.nodes| && !Known(c, k) && s.tokens < c.Capacity()
    ensures Leads(c, s, t, true) && Standing(c, t, k + 1) && t.tokens == s.tokens
  {
    t := ToLookup(c, s, k);
    t := Extend(c, s, t, Spawn, true);
    SlotMoves(s, t, k);
  }

  lemma Start(c: Config, s: State, k: nat) returns (t: State)
    requires Standing(c, s, k) && k < |c.nodes| && Known(c, k) && s.tokens < c.Capacity()
    ensures Leads(c, s, t, true) && Standing(c, t, k + 1) && t.tokens == s.tokens + 1
  {
    t := Launch(c, s, k);
    SlotMoves(s, t, k);
  }

  /** Goroutines are started until none of them fits or none is left, and none has moved yet. */
  lemma {:induction false} Fill(c: Config, s: State, k: nat) returns (t: State)
    requires Standing(c, s, k)
    ensures Leads(c, s, t, true)
    ensures var wanted := s.tokens + KnownIn(c.nodes[k..], c.clients);
            Sum(t.slots, Holding) == if wanted <= c.Capacity() then wanted else c.Capacity()
    decreases |c.nodes| - k
  {
    if k == |c.nodes| || s.tokens == c.Capacity() {
      t := s;
      Nowhere(c, s, true);
    } else {
      assert c.nodes[k..][0] == c.nodes[k] && c.nodes[k..][1..] == c.nodes[k + 1..];
      var u: State;
      if Known(c, k) {
        u := Start(c, s, k);
      } else {
        u := Pass(c, s, k);
      }
      t := Fill(c, u, k + 1);
      Then(c, s, u, t, true, true);
    }
  }

  /** No run has more than n goroutines live in any of its states. */
  ghost predicate NeverAbove(c: Config, n: nat) {
    forall s, ls :: Init(c, s) && Run(c, s, ls).Some? ==> Sum(Run(c, s, ls).value.slots, Holding) <= n
  }

  /** At most n goroutines are live in every state of every run exactly when n is at least
      MaxUnavailable (at least 1, if that is less), or at least the number of known entries. */
  lemma NeverAboveExactly(c: Config, n: nat)
    ensures NeverAbove(c, n) <==>
              (n >= 1 && n >= c.maxUnavailable) || n >= KnownIn(c.nodes, c.clients)
  {
    if (n >= 1 && n >= c.maxUnavailable) || n >= KnownIn(c.nodes, c.clients) {
      forall s, ls | Init(c, s) && Run(c, s, ls).Some?
        ensures Sum(Run(c, s, ls).value.slots, Holding) <= n
      {
        Drain.AvailabilityBound(c, s, ls);
        Drain.InitInv(c, s);
        Drain.RunKeeps(c, s, ls);
        LiveKnown(c.nodes, c.clients, Run(c, s, ls).value.slots);
      }
    } else {
      var s := Fresh(c);
      Drain.InitInv(c, s);
      var t := Fill(c, s, 0);
      assert c.nodes[0..] == c.nodes;
      var ls :| LeadsBy(c, s, ls, t, true);
      assert Init(c, s) && Run(c, s, ls) == Some(t);
    }
  }
}
