/** What the inventory's merger (pkg/inventory/loader.go) computes over any layers: the profiles in
    order and the node's own spec on top, as module Layers says it of the other merger. */
module Inventory {
  import opened Wrappers
  import opened Spec
  import opened Merging
  import opened Layers

  function InventoryStack(layers: seq<Value>): Value {
    StackWith(layers, InventoryMerge)
  }

  /** With all names present the merge is the stack of the profiles and then the node. */
  lemma InventoryIsStack(profiles: map<string, Value>, names: seq<string>, node: Value)
    requires forall i :: 0 <= i < |names| ==> names[i] in profiles
    ensures MergeNodeProfiles(profiles, names, node) == Ok(InventoryStack(LayersOf(profiles, names, node)))
  {
    var all := seq(|names|, i requires 0 <= i < |names| => profiles[names[i]]);
    FoldIsStack(profiles, names, [], InventoryMerge);
    Snoc(all, node);
  }

  /** The fields this merger overrides one by one. */
  predicate Overridden(f: Field) {
    match f
    case OfNetwork(g) => g.FirewallProvider? || g.FirewallPolicy?
    case OfExecution(g) => g.ClientName? || g.Image? || g.DataDir?
    case OfConsensus(g) => g.ClientName? || g.Image? || g.DataDir?
    case OfMaintenance(g) => g.WindowSchedule?
    case _ => false
  }

  lemma OverridesOne(f: Field, d: Value, s: Value)
    requires Overridden(f)
    ensures ContentOf(f, InventoryMerge(d, s)) == Over(ContentOf(f, d), ContentOf(f, s))
  {
    match f
    case OfNetwork(g) =>
    case OfExecution(g) =>
    case OfConsensus(g) =>
    case OfMaintenance(g) =>
  }

  /** Each of those fields has what the topmost layer says that says anything about it. */
  lemma TopmostOverrides(layers: seq<Value>, f: Field)
    requires Overridden(f)
    ensures Topmost(Each(layers, v => ContentOf(f, v)), ContentOf(f, ZERO), ContentOf(f, InventoryStack(layers)))
  {
    var get := v => ContentOf(f, v);
    forall d, s ensures get(InventoryMerge(d, s)) == Over(get(d), get(s)) {
      OverridesOne(f, d, s);
    }
    TopmostStack(layers, InventoryMerge, get);
  }

  type Boost = Mev<seq<Relay>>

  /** Layer i is the topmost one that turns MEV on. */
  predicate TurnsOn(mevs: seq<Boost>, i: nat)
    requires i < |mevs|
  {
    mevs[i].enabled && forall j :: i < j < |mevs| ==> !mevs[j].enabled
  }

  ghost predicate Whole(mevs: seq<Boost>, bottom: Boost, m: Boost) {
    || (m == bottom && forall i :: 0 <= i < |mevs| ==> !mevs[i].enabled)
    || exists i :: 0 <= i < |mevs| && TurnsOn(mevs, i) && m == mevs[i]
  }

  lemma WholeSnoc(mevs: seq<Boost>, x: Boost, bottom: Boost, m: Boost)
    requires Whole(mevs, bottom, m)
    ensures Whole(mevs + [x], bottom, if x.enabled then x else m)
  {
    var next := mevs + [x];
    if x.enabled {
      assert TurnsOn(next, |mevs|);
    } else if i :| 0 <= i < |mevs| && TurnsOn(mevs, i) && m == mevs[i] {
      assert TurnsOn(next, i);
    }
  }

  lemma {:induction false} WholeStack(layers: seq<Value>, merge: (Value, Value) -> Value, get: Value -> Boost)
    requires forall d, s :: get(merge(d, s)) == if get(s).enabled then get(s) else get(d)
    ensures Whole(Each(layers, get), get(ZERO), get(StackWith(layers, merge)))
  {
    if layers != [] {
      var below, top := layers[..|layers| - 1], layers[|layers| - 1];
      WholeStack(below, merge, get);
      WholeSnoc(Each(below, get), get(top), get(ZERO), get(StackWith(below, merge)));
      EachSnoc(layers, get);
    }
  }

  /** MEV is taken over as a whole, image, address and relays included: it is that of the topmost
      layer that turns it on, and nothing if none does. */
  lemma MevWhole(layers: seq<Value>)
    ensures Whole(Each(layers, (v: Value) => v.mev), Spec.Mev.Mev(false, "", "", []), InventoryStack(layers).mev)
  {
    WholeStack(layers, InventoryMerge, (v: Value) => v.mev);
  }

  /** The execution client's flags are merged key by key, the topmost layer that has a key deciding. */
  lemma FlagsAdd(layers: seq<Value>, k: string)
    ensures Inherits(Each(layers, (v: Value) => v.execution.flags), InventoryStack(layers).execution.flags, k)
  {
    MapStack(layers, InventoryMerge, (v: Value) => v.execution.flags, k);
  }

  /** Rules and packages are those of all layers, in their order. */
  lemma ListsConcat(layers: seq<Value>)
    ensures InventoryStack(layers).network.firewall.rules
         == Concat(Each(layers, (v: Value) => v.network.firewall.rules))
    ensures InventoryStack(layers).system.packages == Concat(Each(layers, (v: Value) => v.system.packages))
  {
    ConcatStack(layers, InventoryMerge, (v: Value) => v.network.firewall.rules);
    ConcatStack(layers, InventoryMerge, (v: Value) => v.system.packages);
  }

  /** Everything else is zero, whatever the layers say, the node's own included. */
  lemma {:induction false} NothingElse(layers: seq<Value>)
    ensures var r := InventoryStack(layers);
            && r.system == System(r.system.packages, map[], Disk([], 0, "", "", "", []))
            && r.network == Network([], [], r.network.firewall, Route53("", "", 0), [], [])
            && r.execution == Client(r.execution.client, r.execution.image, r.execution.dataDir, r.execution.flags,
                                     Resources(0, 0), Ports(0, 0, 0))
            && r.consensus == Client(r.consensus.client, r.consensus.image, r.consensus.dataDir, map[],
                                     Resources(0, 0), Ports(0, 0, 0))
            && r.observability == Observability(false, [], "", [], "", [], "", "")
            && r.maintenance == Maintenance(r.maintenance.schedule, [], [], AutoUpgrade(false, "", "", ""))
            && r.snapshot == Spec.Snapshots.Snapshots(false, "", "", false, false, "", "")
  {
    if layers != [] {
      NothingElse(layers[..|layers| - 1]);
    }
  }
}
