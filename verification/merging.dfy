/** The two mergers on values (pkg/profile/merger.go and pkg/inventory/loader.go), nil and empty
    containers identified: the algebra of the first, and where the second agrees with it. */
module Merging {
  import opened Wrappers
  import opened Spec
  import Lists

  type Value = NodeSpec<
    map<string, string>, seq<PackageSpec>, seq<FirewallRule>, seq<string>, seq<string>,
    seq<Relay>, seq<Exporter>, seq<RemoteWrite>, seq<LogDestination>>

  type SystemValue = System<seq<PackageSpec>, map<string, string>, seq<string>>
  type FirewallValue = Firewall<seq<FirewallRule>>
  type NetworkValue = Network<seq<FirewallRule>, seq<string>, seq<string>>
  type ObservabilityValue = Observability<seq<Exporter>, seq<RemoteWrite>, seq<LogDestination>>
  type ClientValue = Client<map<string, string>>

  const ZERO: Value := Zero(map[], [], [], [], [], [], [], [], [])

  function Filled<T>(s: seq<T>): bool {
    |s| > 0
  }

  function MergeSystem(d: SystemValue, s: SystemValue): SystemValue {
    System(Lists.Merge(d.packages, s.packages, PackageKey), d.parameters + s.parameters, MergeDisk(d.disk, s.disk))
  }

  function MergeFirewall(d: FirewallValue, s: FirewallValue): FirewallValue {
    Firewall(Text2(d.provider, s.provider), Text2(d.policy, s.policy), Lists.Merge(d.rules, s.rules, RuleKey))
  }

  function MergeNetwork(d: NetworkValue, s: NetworkValue): NetworkValue {
    Network(Pick(d.nameservers, s.nameservers, Filled), d.searchDomains, MergeFirewall(d.firewall, s.firewall),
            MergeRoute53(d.route53, s.route53), d.vcGateways + s.vcGateways, d.managementCIDRs + s.managementCIDRs)
  }

  function MergeClient(d: ClientValue, s: ClientValue): ClientValue {
    Client(Text2(d.client, s.client), Text2(d.image, s.image), Text2(d.dataDir, s.dataDir), d.flags + s.flags,
           d.resources, MergePorts(d.ports, s.ports))
  }

  /** mergeSpecs of pkg/profile. */
  function MergeSpecs(d: Value, s: Value): Value {
    NodeSpec(
      MergeSystem(d.system, s.system), MergeNetwork(d.network, s.network),
      MergeClient(d.execution, s.execution), MergeClient(d.consensus, s.consensus),
      MergeMev(d.mev, s.mev, Filled), MergeObservability(d.observability, s.observability, Filled, Filled, Filled),
      MergeMaintenance(d.maintenance, s.maintenance, Filled), MergeSnapshots(d.snapshot, s.snapshot))
  }

  lemma MapsAssociative<K, V>(a: map<K, V>, b: map<K, V>, c: map<K, V>)
    ensures a + b + c == a + (b + c)
  {
  }

  lemma SystemAssociative(a: Value, b: Value, c: Value)
    ensures MergeSystem(MergeSystem(a.system, b.system), c.system)
         == MergeSystem(a.system, MergeSystem(b.system, c.system))
  {
    Lists.MergeAssociative(a.system.packages, b.system.packages, c.system.packages, PackageKey);
    MapsAssociative(a.system.parameters, b.system.parameters, c.system.parameters);
  }

  lemma NetworkAssociative(a: Value, b: Value, c: Value)
    ensures MergeNetwork(MergeNetwork(a.network, b.network), c.network)
         == MergeNetwork(a.network, MergeNetwork(b.network, c.network))
  {
    Lists.MergeAssociative(a.network.firewall.rules, b.network.firewall.rules, c.network.firewall.rules, RuleKey);
    Lists.ConcatAssociative(a.network.vcGateways, b.network.vcGateways, c.network.vcGateways);
    Lists.ConcatAssociative(a.network.managementCIDRs, b.network.managementCIDRs, c.network.managementCIDRs);
  }

  lemma ClientAssociative(a: ClientValue, b: ClientValue, c: ClientValue)
    ensures MergeClient(MergeClient(a, b), c) == MergeClient(a, MergeClient(b, c))
  {
    MapsAssociative(a.flags, b.flags, c.flags);
  }

  lemma RestAssociative(a: Value, b: Value, c: Value)
    ensures MergeMev(MergeMev(a.mev, b.mev, Filled), c.mev, Filled)
         == MergeMev(a.mev, MergeMev(b.mev, c.mev, Filled), Filled)
    ensures MergeMaintenance(MergeMaintenance(a.maintenance, b.maintenance, Filled), c.maintenance, Filled)
         == MergeMaintenance(a.maintenance, MergeMaintenance(b.maintenance, c.maintenance, Filled), Filled)
    ensures MergeSnapshots(MergeSnapshots(a.snapshot, b.snapshot), c.snapshot)
         == MergeSnapshots(a.snapshot, MergeSnapshots(b.snapshot, c.snapshot))
  {
  }

  lemma ObservabilityAssociative<E, W, D>(
    x: Observability<E, W, D>, y: Observability<E, W, D>, z: Observability<E, W, D>,
    e: E -> bool, w: W -> bool, d: D -> bool)
    ensures MergeObservability(MergeObservability(x, y, e, w, d), z, e, w, d)
         == MergeObservability(x, MergeObservability(y, z, e, w, d), e, w, d)
  {
  }

  /** The override of specs is associative. */
  lemma MergeSpecsAssociative(a: Value, b: Value, c: Value)
    ensures MergeSpecs(MergeSpecs(a, b), c) == MergeSpecs(a, MergeSpecs(b, c))
  {
    SystemAssociative(a, b, c);
    NetworkAssociative(a, b, c);
    ClientAssociative(a.execution, b.execution, c.execution);
    ClientAssociative(a.consensus, b.consensus, c.consensus);
    RestAssociative(a, b, c);
    ObservabilityAssociative(a.observability, b.observability, c.observability, Filled, Filled, Filled);
  }

  /** The empty spec overrides nothing. */
  lemma RightIdentity(a: Value)
    ensures MergeSpecs(a, ZERO) == a
  {
    Lists.MergeUnits(a.system.packages, PackageKey);
    Lists.MergeUnits(a.network.firewall.rules, RuleKey);
    assert a.system.parameters + map[] == a.system.parameters;
    assert a.execution.flags + map[] == a.execution.flags && a.consensus.flags + map[] == a.consensus.flags;
    assert a.network.vcGateways + [] == a.network.vcGateways;
    assert a.network.managementCIDRs + [] == a.network.managementCIDRs;
  }

  /** A fold stops at the first name without a profile and hands back what it has so far. */
  datatype NotFound = NotFound(partial: Value, name: string)

  function Fold(
    profiles: map<string, Value>, names: seq<string>, base: Value, merge: (Value, Value) -> Value)
    : Result<Value, NotFound>
    decreases |names|
  {
    if names == [] then Ok(base)
    else if names[0] !in profiles then Err(NotFound(base, names[0]))
    else Fold(profiles, names[1..], merge(base, profiles[names[0]]), merge)
  }

  /** The spec a fold hands back, whether it got to the end or not. */
  function Reached(r: Result<Value, NotFound>): Value {
    match r
    case Ok(v) => v
    case Err(e) => e.partial
  }

  /** The rest of a fold from any position. */
  lemma FoldNext(profiles: map<string, Value>, names: seq<string>, i: nat, base: Value, merge: (Value, Value) -> Value)
    requires i <= |names|
    ensures Fold(profiles, names[i..], base, merge)
         == if i == |names| then Ok(base)
            else if names[i] !in profiles then Err(NotFound(base, names[i]))
            else Fold(profiles, names[i + 1..], merge(base, profiles[names[i]]), merge)
  {
    if i < |names| {
      assert names[i..][1..] == names[i + 1..];
    }
  }

  /** Merge: the profiles in order over the empty spec, then the node's own spec. */
  function Merge(profiles: map<string, Value>, names: seq<string>, node: Value): Result<Value, NotFound> {
    match Fold(profiles, names, ZERO, MergeSpecs)
    case Ok(base) => Ok(MergeSpecs(base, node))
    case Err(e) => Err(e)
  }

  /** A fold fails exactly when some name has no profile. */
  lemma {:induction false} FoldFails(
    profiles: map<string, Value>, names: seq<string>, base: Value, merge: (Value, Value) -> Value)
    ensures Fold(profiles, names, base, merge).Err? <==> exists i :: 0 <= i < |names| && names[i] !in profiles
    decreases |names|
  {
    if names != [] && names[0] in profiles {
      FoldFails(profiles, names[1..], merge(base, profiles[names[0]]), merge);
      if i :| 0 <= i < |names| && names[i] !in profiles {
        assert names[1..][i - 1] !in profiles;
      }
    }
  }

  lemma {:induction false} FoldFrom(profiles: map<string, Value>, names: seq<string>, base: Value, middle: Value)
    requires forall i :: 0 <= i < |names| ==> names[i] in profiles
    ensures Fold(profiles, names, MergeSpecs(base, middle), MergeSpecs).Ok?
    ensures Fold(profiles, names, middle, MergeSpecs).Ok?
    ensures Fold(profiles, names, MergeSpecs(base, middle), MergeSpecs).value
         == MergeSpecs(base, Fold(profiles, names, middle, MergeSpecs).value)
    decreases |names|
  {
    if names != [] {
      var p := profiles[names[0]];
      MergeSpecsAssociative(base, middle, p);
      FoldFrom(profiles, names[1..], base, MergeSpecs(middle, p));
    }
  }

  lemma {:induction false} FoldConcat(
    profiles: map<string, Value>, xs: seq<string>, ys: seq<string>, base: Value, merge: (Value, Value) -> Value)
    requires Fold(profiles, xs, base, merge).Ok?
    ensures Fold(profiles, xs + ys, base, merge) == Fold(profiles, ys, Fold(profiles, xs, base, merge).value, merge)
    decreases |xs|
  {
    if xs == [] {
      assert xs + ys == ys;
    } else {
      assert (xs + ys)[0] == xs[0] && (xs + ys)[1..] == xs[1..] + ys;
      FoldConcat(profiles, xs[1..], ys, merge(base, profiles[xs[0]]), merge);
    }
  }

  lemma AllPresent(profiles: map<string, Value>, xs: seq<string>, ys: seq<string>)
    requires forall i :: 0 <= i < |xs + ys| ==> (xs + ys)[i] in profiles
    ensures forall i :: 0 <= i < |xs| ==> xs[i] in profiles
    ensures forall i :: 0 <= i < |ys| ==> ys[i] in profiles
  {
    assert forall i :: 0 <= i < |xs| ==> xs[i] == (xs + ys)[i];
    assert forall i :: 0 <= i < |ys| ==> ys[i] == (xs + ys)[|xs| + i];
  }

  lemma FoldSplits(profiles: map<string, Value>, xs: seq<string>, ys: seq<string>)
    requires forall i :: 0 <= i < |xs| ==> xs[i] in profiles
    requires forall i :: 0 <= i < |ys| ==> ys[i] in profiles
    ensures Fold(profiles, xs, ZERO, MergeSpecs).Ok? && Fold(profiles, ys, ZERO, MergeSpecs).Ok?
    ensures Fold(profiles, xs + ys, ZERO, MergeSpecs)
         == Ok(MergeSpecs(Fold(profiles, xs, ZERO, MergeSpecs).value, Fold(profiles, ys, ZERO, MergeSpecs).value))
  {
    FoldFails(profiles, xs, ZERO, MergeSpecs);
    FoldConcat(profiles, xs, ys, ZERO, MergeSpecs);
    var left := Fold(profiles, xs, ZERO, MergeSpecs).value;
    RightIdentity(left);
    FoldFrom(profiles, ys, left, ZERO);
  }

  /** Merging two lists of profiles under a node is merging the second list under the node and
      that over the merge of the first; the merge fails exactly when a name is missing. */
  lemma MergeSplits(profiles: map<string, Value>, xs: seq<string>, ys: seq<string>, node: Value)
    ensures Merge(profiles, xs + ys, node).Err? <==> exists i :: 0 <= i < |xs + ys| && (xs + ys)[i] !in profiles
    ensures Merge(profiles, xs + ys, node).Ok? ==>
              && Merge(profiles, xs, ZERO).Ok? && Merge(profiles, ys, node).Ok?
              && Merge(profiles, xs + ys, node).value
                 == MergeSpecs(Merge(profiles, xs, ZERO).value, Merge(profiles, ys, node).value)
  {
    FoldFails(profiles, xs + ys, ZERO, MergeSpecs);
    if Merge(profiles, xs + ys, node).Ok? {
      AllPresent(profiles, xs, ys);
      FoldSplits(profiles, xs, ys);
      var left, right := Fold(profiles, xs, ZERO, MergeSpecs).value, Fold(profiles, ys, ZERO, MergeSpecs).value;
      RightIdentity(left);
      MergeSpecsAssociative(left, right, node);
    }
  }

  /** mergeSpecs of pkg/inventory. */
  function InventoryMerge(d: Value, s: Value): Value {
    d.(execution := d.execution.(client := Text2(d.execution.client, s.execution.client),
                                 image := Text2(d.execution.image, s.execution.image),
                                 dataDir := Text2(d.execution.dataDir, s.execution.dataDir),
                                 flags := d.execution.flags + s.execution.flags),
       consensus := d.consensus.(client := Text2(d.consensus.client, s.consensus.client),
                                 image := Text2(d.consensus.image, s.consensus.image),
                                 dataDir := Text2(d.consensus.dataDir, s.consensus.dataDir)),
       mev := if s.mev.enabled then s.mev else d.mev,
       network := d.network.(firewall := Firewall(Text2(d.network.firewall.provider, s.network.firewall.provider),
                                                  Text2(d.network.firewall.policy, s.network.firewall.policy),
                                                  d.network.firewall.rules + s.network.firewall.rules)),
       system := d.system.(packages := d.system.packages + s.system.packages),
       maintenance := d.maintenance.(schedule := Text2(d.maintenance.schedule, s.maintenance.schedule)))
  }

  /** mergeNodeProfiles. */
  function MergeNodeProfiles(profiles: map<string, Value>, names: seq<string>, node: Value): Result<Value, NotFound> {
    match Fold(profiles, names, ZERO, InventoryMerge)
    case Ok(base) => Ok(InventoryMerge(base, node))
    case Err(e) => Err(e)
  }

  /** Equal but for gateways and management networks. */
  predicate Alike(a: Value, b: Value) {
    a == b.(network := b.network.(vcGateways := a.network.vcGateways, managementCIDRs := a.network.managementCIDRs))
  }

  predicate AllAlike(profiles: map<string, Value>, others: map<string, Value>) {
    profiles.Keys == others.Keys && forall n :: n in profiles ==> Alike(profiles[n], others[n])
  }

  lemma {:induction false} FoldIgnores(
    profiles: map<string, Value>, others: map<string, Value>, names: seq<string>, base: Value)
    requires AllAlike(profiles, others)
    ensures Fold(profiles, names, base, InventoryMerge) == Fold(others, names, base, InventoryMerge)
    decreases |names|
  {
    if names != [] && names[0] in profiles {
      assert Alike(profiles[names[0]], others[names[0]]);
      FoldIgnores(profiles, others, names[1..], InventoryMerge(base, profiles[names[0]]));
    }
  }

  /** This merge takes gateways and management networks from no profile and no node. */
  lemma MergeIgnores(
    profiles: map<string, Value>, others: map<string, Value>, names: seq<string>, node: Value, other: Value)
    requires AllAlike(profiles, others) && Alike(node, other)
    ensures MergeNodeProfiles(profiles, names, node) == MergeNodeProfiles(others, names, other)
  {
    FoldIgnores(profiles, others, names, ZERO);
  }

  predicate SameScalars(p: Value, q: Value) {
    && p.execution.client == q.execution.client && p.execution.image == q.execution.image
    && p.execution.dataDir == q.execution.dataDir && p.execution.flags == q.execution.flags
    && p.consensus.client == q.consensus.client && p.consensus.image == q.consensus.image
    && p.consensus.dataDir == q.consensus.dataDir
    && p.network.firewall.provider == q.network.firewall.provider
    && p.network.firewall.policy == q.network.firewall.policy
    && p.maintenance.schedule == q.maintenance.schedule
    && p.mev.enabled == q.mev.enabled
  }

  /** Looking a key up gives the same element, and the list of the first is no longer. */
  ghost predicate SameLookups<T(!new), K(!new)>(p: seq<T>, q: seq<T>, key: T -> K) {
    && |p| <= |q|
    && forall k :: Lists.LastMatch(p, key, k) == Lists.LastMatch(q, key, k)
  }

  /** The package is the last one under its name. */
  ghost predicate Found(ps: seq<PackageSpec>, p: PackageSpec) {
    exists i :: 0 <= i < |ps| && ps[i] == p && forall j :: i < j < |ps| ==> ps[j].name != p.name
  }

  lemma {:induction false} FoundExactly(ps: seq<PackageSpec>, p: PackageSpec)
    ensures Found(ps, p) <==> Lists.LastMatch(ps, PackageKey, p.name) == Some(p)
  {
    if ps != [] {
      var rest := ps[1..];
      FoundExactly(rest, p);
      Lists.MatchFound(rest, PackageKey, p.name);
      if Found(rest, p) {
        var i :| 0 <= i < |rest| && rest[i] == p && forall j :: i < j < |rest| ==> rest[j].name != p.name;
        assert ps[i + 1] == p && forall j :: i + 1 < j < |ps| ==> ps[j] == rest[j - 1];
      }
      if Found(ps, p) {
        var i :| 0 <= i < |ps| && ps[i] == p && forall j :: i < j < |ps| ==> ps[j].name != p.name;
        if i > 0 {
          assert rest[i - 1] == p && forall j :: i - 1 < j < |rest| ==> rest[j] == ps[j + 1];
        } else {
          assert forall j :: 0 <= j < |rest| ==> rest[j] == ps[j + 1];
        }
      }
    }
  }

  /** Looking a package up by its name gives the same one, and the list of the first is no longer. */
  ghost predicate SamePackages(ps: seq<PackageSpec>, qs: seq<PackageSpec>) {
    |ps| <= |qs| && forall p :: Found(ps, p) <==> Found(qs, p)
  }

  lemma SameFound(ps: seq<PackageSpec>, qs: seq<PackageSpec>)
    requires SameLookups(ps, qs, PackageKey)
    ensures SamePackages(ps, qs)
  {
    forall p ensures Found(ps, p) <==> Found(qs, p) {
      FoundExactly(ps, p);
      FoundExactly(qs, p);
    }
  }

  ghost predicate Agree(p: Value, q: Value) {
    && SameScalars(p, q)
    && SameLookups(p.network.firewall.rules, q.network.firewall.rules, RuleKey)
    && SameLookups(p.system.packages, q.system.packages, PackageKey)
  }

  lemma LookupsStep<T(!new), K(!new)>(p: seq<T>, q: seq<T>, s: seq<T>, key: T -> K)
    requires SameLookups(p, q, key)
    ensures SameLookups(Lists.Merge(p, s, key), q + s, key)
  {
    forall k ensures Lists.LastMatch(Lists.Merge(p, s, key), key, k) == Lists.LastMatch(q + s, key, k) {
      Lists.MergeMatch(p, s, key, k);
      Lists.MatchConcat(q, s, key, k);
    }
  }

  lemma AgreeStep(p: Value, q: Value, s: Value)
    requires Agree(p, q)
    ensures Agree(MergeSpecs(p, s), InventoryMerge(q, s))
  {
    LookupsStep(p.network.firewall.rules, q.network.firewall.rules, s.network.firewall.rules, RuleKey);
    LookupsStep(p.system.packages, q.system.packages, s.system.packages, PackageKey);
  }

  lemma {:induction false} FoldsAgree(profiles: map<string, Value>, names: seq<string>, p: Value, q: Value)
    requires Agree(p, q)
    ensures Fold(profiles, names, p, MergeSpecs).Ok? <==> Fold(profiles, names, q, InventoryMerge).Ok?
    ensures Fold(profiles, names, p, MergeSpecs).Ok? ==>
              Agree(Fold(profiles, names, p, MergeSpecs).value, Fold(profiles, names, q, InventoryMerge).value)
    decreases |names|
  {
    if names != [] && names[0] in profiles {
      AgreeStep(p, q, profiles[names[0]]);
      FoldsAgree(profiles, names[1..], MergeSpecs(p, profiles[names[0]]), InventoryMerge(q, profiles[names[0]]));
    }
  }

  /** The two mergers fail on the same inputs, and agree on the client, image, data directory
      and execution flags, the firewall's provider and policy, the window, MEV's switch and
      every rule looked up by key and package looked up by name; the first's lists are never the
      longer ones. */
  lemma MergersAgree(profiles: map<string, Value>, names: seq<string>, node: Value)
    ensures Merge(profiles, names, node).Ok? <==> MergeNodeProfiles(profiles, names, node).Ok?
    ensures Merge(profiles, names, node).Ok? ==>
              var p, q := Merge(profiles, names, node).value, MergeNodeProfiles(profiles, names, node).value;
              && SameScalars(p, q) && SameLookups(p.network.firewall.rules, q.network.firewall.rules, RuleKey)
              && SamePackages(p.system.packages, q.system.packages)
  {
    FoldsAgree(profiles, names, ZERO, ZERO);
    if Merge(profiles, names, node).Ok? {
      AgreeStep(Fold(profiles, names, ZERO, MergeSpecs).value, Fold(profiles, names, ZERO, InventoryMerge).value, node);
      SameFound(Merge(profiles, names, node).value.system.packages,
                MergeNodeProfiles(profiles, names, node).value.system.packages);
    }
  }
}
