/** The two mergeSpecs on Go's own containers (pkg/profile/merger.go and pkg/inventory/loader.go):
    what they write to, and that they compute the overrides of module Merging.

    Seven containers are objects here, those whose elements a merger writes: the package and
    rule lists, the two additive lists and the three maps. The other lists are only ever
    assigned whole, never written into, and stay values. */
module GoMerge {
  import opened Spec
  import opened GoHeap
  import Lists
  import Merging

  type GoSystem = System<Slice<PackageSpec>, GoMap?, seq<string>>
  type GoNetwork = Network<Slice<FirewallRule>, seq<string>, Slice<string>>
  type GoClient = Client<GoMap?>
  type GoSpec = NodeSpec<
    GoMap?, Slice<PackageSpec>, Slice<FirewallRule>, seq<string>, Slice<string>,
    seq<Relay>, seq<Exporter>, seq<RemoteWrite>, seq<LogDestination>>

  function NothingYet(): GoSpec {
    Zero(null, Nil(), Nil(), [], Nil(), [], [], [], [])
  }

  ghost function SystemValue(h: GoSystem): System<seq<PackageSpec>, map<string, string>, seq<string>>
    requires h.packages.Ok()
    reads h.packages.arr, h.parameters
  {
    System(h.packages.Elems(), Entries(h.parameters), h.disk)
  }

  ghost predicate SoundNetwork(h: GoNetwork) {
    h.firewall.rules.Ok() && h.vcGateways.Ok() && h.managementCIDRs.Ok()
  }

  ghost function NetworkValue(h: GoNetwork): Network<seq<FirewallRule>, seq<string>, seq<string>>
    requires SoundNetwork(h)
    reads h.firewall.rules.arr, h.vcGateways.arr, h.managementCIDRs.arr
  {
    Network(h.nameservers, h.searchDomains,
            Firewall(h.firewall.provider, h.firewall.policy, h.firewall.rules.Elems()), h.route53,
            h.vcGateways.Elems(), h.managementCIDRs.Elems())
  }

  ghost function ClientValue(h: GoClient): Client<map<string, string>>
    reads h.flags
  {
    Client(h.client, h.image, h.dataDir, Entries(h.flags), h.resources, h.ports)
  }

  ghost predicate Sound(h: GoSpec) {
    h.system.packages.Ok() && SoundNetwork(h.network)
  }

  /** The objects the merger writes to, null where there is none. */
  ghost function Containers(h: GoSpec): set<object?> {
    {h.system.packages.arr, h.system.parameters, h.network.firewall.rules.arr, h.network.vcGateways.arr,
     h.network.managementCIDRs.arr, h.execution.flags, h.consensus.flags}
  }

  ghost function Value(h: GoSpec): Merging.Value
    requires Sound(h)
    reads h.system.packages.arr, h.system.parameters, h.network.firewall.rules.arr, h.network.vcGateways.arr,
          h.network.managementCIDRs.arr, h.execution.flags, h.consensus.flags
  {
    NodeSpec(SystemValue(h.system), NetworkValue(h.network), ClientValue(h.execution), ClientValue(h.consensus),
             h.mev, h.observability, h.maintenance, h.snapshot)
  }

  /** The lists the merger writes to. */
  datatype GoLists = GoLists(
    packages: Slice<PackageSpec>, rules: Slice<FirewallRule>, vcGateways: Slice<string>, managementCIDRs: Slice<string>)
  {
    ghost predicate Ok() {
      packages.Ok() && rules.Ok() && vcGateways.Ok() && managementCIDRs.Ok()
    }

    /** None is used twice. (Those of different types differ anyway.) */
    ghost predicate Apart() {
      Distinct(vcGateways.arr, managementCIDRs.arr)
    }

    ghost predicate Separate(s: GoLists) {
      && Distinct(packages.arr, s.packages.arr) && Distinct(rules.arr, s.rules.arr)
      && Distinct(vcGateways.arr, s.vcGateways.arr) && Distinct(vcGateways.arr, s.managementCIDRs.arr)
      && Distinct(managementCIDRs.arr, s.vcGateways.arr) && Distinct(managementCIDRs.arr, s.managementCIDRs.arr)
    }
  }

  /** The maps it writes to. */
  datatype GoMaps = GoMaps(parameters: GoMap?, elFlags: GoMap?, clFlags: GoMap?)
  {
    ghost function All(): set<GoMap?> {
      {parameters, elFlags, clFlags}
    }

    ghost predicate Apart() {
      Distinct(parameters, elFlags) && Distinct(parameters, clFlags) && Distinct(elFlags, clFlags)
    }

    ghost predicate Separate(s: GoMaps) {
      && Distinct(parameters, s.parameters) && Distinct(parameters, s.elFlags) && Distinct(parameters, s.clFlags)
      && Distinct(elFlags, s.parameters) && Distinct(elFlags, s.elFlags) && Distinct(elFlags, s.clFlags)
      && Distinct(clFlags, s.parameters) && Distinct(clFlags, s.elFlags) && Distinct(clFlags, s.clFlags)
    }
  }

  function ListsOf(h: GoSpec): GoLists {
    GoLists(h.system.packages, h.network.firewall.rules, h.network.vcGateways, h.network.managementCIDRs)
  }

  function MapsOf(h: GoSpec): GoMaps {
    GoMaps(h.system.parameters, h.execution.flags, h.consensus.flags)
  }

  /** No container of a spec is used twice in it. */
  ghost predicate Apart(h: GoSpec) {
    ListsOf(h).Apart() && MapsOf(h).Apart()
  }

  /** `d` and `s` share no container. */
  ghost predicate Separate(d: GoSpec, s: GoSpec) {
    ListsOf(d).Separate(ListsOf(s)) && MapsOf(d).Separate(MapsOf(s))
  }

  /** A list of the merge is `d`'s own or new. */
  twostate predicate ListsMerged(d: GoLists, s: GoLists, new r: GoLists)
    requires d.Ok() && s.Ok() && r.Ok()
    reads r.packages.arr, r.rules.arr, r.vcGateways.arr, r.managementCIDRs.arr
  {
    && (r.packages.arr == d.packages.arr || fresh(r.packages.arr))
    && (r.rules.arr == d.rules.arr || fresh(r.rules.arr))
    && (r.vcGateways.arr == d.vcGateways.arr || fresh(r.vcGateways.arr))
    && (r.managementCIDRs.arr == d.managementCIDRs.arr || fresh(r.managementCIDRs.arr))
    && r.packages.Elems() == Lists.Merge(old(d.packages.Elems()), old(s.packages.Elems()), PackageKey)
    && r.rules.Elems() == Lists.Merge(old(d.rules.Elems()), old(s.rules.Elems()), RuleKey)
    && r.vcGateways.Elems() == old(d.vcGateways.Elems()) + old(s.vcGateways.Elems())
    && r.managementCIDRs.Elems() == old(d.managementCIDRs.Elems()) + old(s.managementCIDRs.Elems())
  }

  twostate predicate MapsMerged(d: GoMaps, s: GoMaps, new r: GoMaps)
    reads r.parameters, r.elFlags, r.clFlags
  {
    && (r.parameters == d.parameters || fresh(r.parameters))
    && (r.elFlags == d.elFlags || fresh(r.elFlags))
    && (r.clFlags == d.clFlags || fresh(r.clFlags))
    && Entries(r.parameters) == old(Entries(d.parameters)) + old(Entries(s.parameters))
    && Entries(r.elFlags) == old(Entries(d.elFlags)) + old(Entries(s.elFlags))
    && Entries(r.clFlags) == old(Entries(d.clFlags)) + old(Entries(s.clFlags))
  }

  twostate predicate SameLists(h: GoLists)
    requires h.Ok()
    reads h.packages.arr, h.rules.arr, h.vcGateways.arr, h.managementCIDRs.arr
  {
    && h.packages.Elems() == old(h.packages.Elems()) && h.rules.Elems() == old(h.rules.Elems())
    && h.vcGateways.Elems() == old(h.vcGateways.Elems()) && h.managementCIDRs.Elems() == old(h.managementCIDRs.Elems())
  }

  /** The three maps. */
  method MergeMaps(d: GoMaps, s: GoMaps) returns (r: GoMaps)
    requires d.Apart() && d.Separate(s)
    modifies d.parameters, d.elFlags, d.clFlags
    ensures r.Apart() && MapsMerged(d, s, r)
  {
    var parameters := MergeMap(d.parameters, s.parameters);
    var elFlags := MergeMap(d.elFlags, s.elFlags);
    var clFlags := MergeMap(d.clFlags, s.clFlags);
    r := GoMaps(parameters, elFlags, clFlags);
  }

  /** The same, beside lists that stay as they are. */
  method MergeMapsBeside(d: GoMaps, s: GoMaps, ghost beside: GoLists) returns (r: GoMaps)
    requires d.Apart() && d.Separate(s) && beside.Ok()
    modifies d.parameters, d.elFlags, d.clFlags
    ensures r.Apart() && MapsMerged(d, s, r) && SameLists(beside)
  {
    r := MergeMaps(d, s);
  }

  twostate predicate SameAdditive(h: GoLists)
    requires h.Ok()
    reads h.vcGateways.arr, h.managementCIDRs.arr
  {
    h.vcGateways.Elems() == old(h.vcGateways.Elems()) && h.managementCIDRs.Elems() == old(h.managementCIDRs.Elems())
  }

  /** The packages. The other lists stay as they are, and so do `maps`, here and below. */
  method MergePackages(d: GoLists, s: GoLists, spare: nat, ghost maps: set<GoMap?>)
    returns (packages: Slice<PackageSpec>)
    requires d.Ok() && s.Ok() && d.Separate(s)
    modifies d.packages.arr
    ensures packages.Ok() && (packages.arr == d.packages.arr || fresh(packages.arr))
    ensures packages.Elems() == Lists.Merge(old(d.packages.Elems()), old(s.packages.Elems()), PackageKey)
    ensures d.rules.Elems() == old(d.rules.Elems()) && s.rules.Elems() == old(s.rules.Elems())
    ensures SameAdditive(d) && SameAdditive(s) && forall g :: g in maps ==> Entries(g) == old(Entries(g))
  {
    packages := MergeIndexed(d.packages, s.packages, PackageKey, spare);
  }

  /** The two keyed lists. */
  method MergeKeyed(d: GoLists, s: GoLists, spare: nat, ghost maps: set<GoMap?>)
    returns (packages: Slice<PackageSpec>, rules: Slice<FirewallRule>)
    requires d.Ok() && s.Ok() && d.Separate(s)
    modifies d.packages.arr, d.rules.arr
    ensures packages.Ok() && rules.Ok()
    ensures (packages.arr == d.packages.arr || fresh(packages.arr)) && (rules.arr == d.rules.arr || fresh(rules.arr))
    ensures packages.Elems() == Lists.Merge(old(d.packages.Elems()), old(s.packages.Elems()), PackageKey)
    ensures rules.Elems() == Lists.Merge(old(d.rules.Elems()), old(s.rules.Elems()), RuleKey)
    ensures SameAdditive(d) && SameAdditive(s) && forall g :: g in maps ==> Entries(g) == old(Entries(g))
  {
    packages := MergePackages(d, s, spare, maps);
    rules := MergeIndexed(d.rules, s.rules, RuleKey, spare);
  }

  /** The two additive lists. */
  method AppendBoth(
      d: GoLists, s: GoLists, spare: nat, ghost packages: Slice<PackageSpec>, ghost rules: Slice<FirewallRule>,
      ghost maps: set<GoMap?>)
    returns (vcGateways: Slice<string>, managementCIDRs: Slice<string>)
    requires d.Ok() && s.Ok() && d.Apart() && d.Separate(s) && packages.Ok() && rules.Ok()
    modifies d.vcGateways.arr, d.managementCIDRs.arr
    ensures vcGateways.Ok() && managementCIDRs.Ok() && Distinct(vcGateways.arr, managementCIDRs.arr)
    ensures vcGateways.arr == d.vcGateways.arr || fresh(vcGateways.arr)
    ensures managementCIDRs.arr == d.managementCIDRs.arr || fresh(managementCIDRs.arr)
    ensures vcGateways.Elems() == old(d.vcGateways.Elems()) + old(s.vcGateways.Elems())
    ensures managementCIDRs.Elems() == old(d.managementCIDRs.Elems()) + old(s.managementCIDRs.Elems())
    ensures packages.Elems() == old(packages.Elems()) && rules.Elems() == old(rules.Elems())
    ensures forall g :: g in maps ==> Entries(g) == old(Entries(g))
  {
    vcGateways := AppendSlice(d.vcGateways, s.vcGateways, spare);
    managementCIDRs := AppendSlice(d.managementCIDRs, s.managementCIDRs, spare);
  }

  /** The four lists. */
  method MergeLists(d: GoLists, s: GoLists, spare: nat, ghost maps: set<GoMap?>) returns (r: GoLists)
    requires d.Ok() && s.Ok() && d.Apart() && d.Separate(s)
    modifies d.packages.arr, d.rules.arr, d.vcGateways.arr, d.managementCIDRs.arr
    ensures r.Ok() && r.Apart() && ListsMerged(d, s, r)
    ensures forall g :: g in maps ==> Entries(g) == old(Entries(g))
  {
    var packages, rules := MergeKeyed(d, s, spare, maps);
    var vcGateways, managementCIDRs := AppendBoth(d, s, spare, packages, rules, maps);
    r := GoLists(packages, rules, vcGateways, managementCIDRs);
  }

  /** All seven. */
  method MergeContainers(d: GoLists, s: GoLists, dm: GoMaps, sm: GoMaps, spare: nat) returns (r: GoLists, rm: GoMaps)
    requires d.Ok() && s.Ok() && d.Apart() && d.Separate(s) && dm.Apart() && dm.Separate(sm)
    modifies d.packages.arr, d.rules.arr, d.vcGateways.arr, d.managementCIDRs.arr, dm.parameters, dm.elFlags, dm.clFlags
    ensures r.Ok() && r.Apart() && ListsMerged(d, s, r)
    ensures rm.Apart() && MapsMerged(dm, sm, rm)
  {
    r := MergeLists(d, s, spare, dm.All() + sm.All());
    rm := MergeMapsBeside(dm, sm, r);
  }

  /** What the result of a merge keeps of `d`: its own containers or new ones. */
  twostate predicate OldOrNew(d: GoSpec, new r: GoSpec) {
    && (r.system.packages.arr == d.system.packages.arr || fresh(r.system.packages.arr))
    && (r.system.parameters == d.system.parameters || fresh(r.system.parameters))
    && (r.network.firewall.rules.arr == d.network.firewall.rules.arr || fresh(r.network.firewall.rules.arr))
    && (r.network.vcGateways.arr == d.network.vcGateways.arr || fresh(r.network.vcGateways.arr))
    && (r.network.managementCIDRs.arr == d.network.managementCIDRs.arr || fresh(r.network.managementCIDRs.arr))
    && (r.execution.flags == d.execution.flags || fresh(r.execution.flags))
    && (r.consensus.flags == d.consensus.flags || fresh(r.consensus.flags))
  }

  /** Everything of mergeSpecs that writes into no container. */
  function Assemble(d: GoSpec, s: GoSpec, lists: GoLists, maps: GoMaps): GoSpec {
    NodeSpec(
      System(lists.packages, maps.parameters, MergeDisk(d.system.disk, s.system.disk)),
      Network(Pick(d.network.nameservers, s.network.nameservers, Merging.Filled), d.network.searchDomains,
              Firewall(Text2(d.network.firewall.provider, s.network.firewall.provider),
                       Text2(d.network.firewall.policy, s.network.firewall.policy), lists.rules),
              MergeRoute53(d.network.route53, s.network.route53), lists.vcGateways, lists.managementCIDRs),
      MergeClient(d.execution, s.execution, maps.elFlags), MergeClient(d.consensus, s.consensus, maps.clFlags),
      MergeMev(d.mev, s.mev, Merging.Filled),
      MergeObservability(d.observability, s.observability, Merging.Filled, Merging.Filled, Merging.Filled),
      MergeMaintenance(d.maintenance, s.maintenance, Merging.Filled), MergeSnapshots(d.snapshot, s.snapshot))
  }

  function MergeClient(d: GoClient, s: GoClient, flags: GoMap?): GoClient {
    Client(Text2(d.client, s.client), Text2(d.image, s.image), Text2(d.dataDir, s.dataDir), flags,
           d.resources, MergePorts(d.ports, s.ports))
  }

  /** `h` and `v` agree on everything but the seven containers. */
  ghost predicate SameRest(h: GoSpec, v: Merging.Value) {
    && h.system.disk == v.system.disk && h.network.nameservers == v.network.nameservers
    && h.network.searchDomains == v.network.searchDomains && h.network.firewall.provider == v.network.firewall.provider
    && h.network.firewall.policy == v.network.firewall.policy && h.network.route53 == v.network.route53
    && SameClient(h.execution, v.execution) && SameClient(h.consensus, v.consensus)
    && h.mev == v.mev && h.observability == v.observability && h.maintenance == v.maintenance
    && h.snapshot == v.snapshot
  }

  ghost predicate SameClient(h: GoClient, v: Client<map<string, string>>) {
    && h.client == v.client && h.image == v.image && h.dataDir == v.dataDir
    && h.resources == v.resources && h.ports == v.ports
  }

  // That a spec has a value, piece by piece: what depends on containers of one kind each.

  ghost predicate HasSystem(h: GoSpec, v: Merging.Value)
    reads h.system.packages.arr, h.system.parameters
  {
    h.system.packages.Ok() && SystemValue(h.system) == v.system
  }

  ghost predicate HasRules(h: GoSpec, v: Merging.Value)
    reads h.network.firewall.rules.arr
  {
    h.network.firewall.rules.Ok() && h.network.firewall.rules.Elems() == v.network.firewall.rules
  }

  ghost predicate HasFlags(h: GoSpec, v: Merging.Value)
    reads h.execution.flags, h.consensus.flags
  {
    ClientValue(h.execution) == v.execution && ClientValue(h.consensus) == v.consensus
  }

  ghost predicate HasLists(h: GoSpec, v: Merging.Value)
    reads h.network.vcGateways.arr, h.network.managementCIDRs.arr
  {
    && h.network.vcGateways.Ok() && h.network.vcGateways.Elems() == v.network.vcGateways
    && h.network.managementCIDRs.Ok() && h.network.managementCIDRs.Elems() == v.network.managementCIDRs
  }

  lemma Pieces(h: GoSpec, v: Merging.Value)
    ensures Sound(h) && Value(h) == v
       <==> HasSystem(h, v) && HasRules(h, v) && HasFlags(h, v) && HasLists(h, v) && SameRest(h, v)
  {
    if Sound(h) && SameRest(h, v) && HasRules(h, v) && HasLists(h, v) {
      assert NetworkValue(h.network) == v.network;
    }
  }

  lemma AssembledValue(d: GoSpec, s: GoSpec, lists: GoLists, maps: GoMaps, dv: Merging.Value, sv: Merging.Value)
    requires SameRest(d, dv) && SameRest(s, sv) && lists.Ok()
    requires lists.packages.Elems() == Lists.Merge(dv.system.packages, sv.system.packages, PackageKey)
    requires lists.rules.Elems() == Lists.Merge(dv.network.firewall.rules, sv.network.firewall.rules, RuleKey)
    requires lists.vcGateways.Elems() == dv.network.vcGateways + sv.network.vcGateways
    requires lists.managementCIDRs.Elems() == dv.network.managementCIDRs + sv.network.managementCIDRs
    requires Entries(maps.parameters) == dv.system.parameters + sv.system.parameters
    requires Entries(maps.elFlags) == dv.execution.flags + sv.execution.flags
    requires Entries(maps.clFlags) == dv.consensus.flags + sv.consensus.flags
    ensures Value(Assemble(d, s, lists, maps)) == Merging.MergeSpecs(dv, sv)
  {
    var r := Assemble(d, s, lists, maps);
    assert ClientValue(r.execution) == Merging.MergeClient(dv.execution, sv.execution);
    assert ClientValue(r.consensus) == Merging.MergeClient(dv.consensus, sv.consensus);
    assert SystemValue(r.system) == Merging.MergeSystem(dv.system, sv.system);
    assert NetworkValue(r.network) == Merging.MergeNetwork(dv.network, sv.network);
  }

  /** mergeSpecs: it writes to the seven containers of `dst` alone, and computes the override
      of values. */
  method MergeSpecs(d: GoSpec, s: GoSpec, spare: nat) returns (r: GoSpec)
    requires Sound(d) && Sound(s) && Apart(d) && Separate(d, s)
    modifies d.system.packages.arr, d.system.parameters, d.network.firewall.rules.arr, d.network.vcGateways.arr,
             d.network.managementCIDRs.arr, d.execution.flags, d.consensus.flags
    ensures Sound(r) && Apart(r) && OldOrNew(d, r)
    ensures Value(r) == Merging.MergeSpecs(old(Value(d)), old(Value(s)))
  {
    var lists, maps := MergeContainers(ListsOf(d), ListsOf(s), MapsOf(d), MapsOf(s), spare);
    r := Assemble(d, s, lists, maps);
    AssembledValue(d, s, lists, maps, old(Value(d)), old(Value(s)));
  }

  /** Everything of pkg/inventory's mergeSpecs that writes into no container. */
  function InventoryAssemble(
    d: GoSpec, s: GoSpec, packages: Slice<PackageSpec>, rules: Slice<FirewallRule>, elFlags: GoMap?): GoSpec
  {
    d.(execution := d.execution.(client := Text2(d.execution.client, s.execution.client),
                                 image := Text2(d.execution.image, s.execution.image),
                                 dataDir := Text2(d.execution.dataDir, s.execution.dataDir), flags := elFlags),
       consensus := d.consensus.(client := Text2(d.consensus.client, s.consensus.client),
                                 image := Text2(d.consensus.image, s.consensus.image),
                                 dataDir := Text2(d.consensus.dataDir, s.consensus.dataDir)),
       mev := if s.mev.enabled then s.mev else d.mev,
       network := d.network.(firewall := Firewall(Text2(d.network.firewall.provider, s.network.firewall.provider),
                                                  Text2(d.network.firewall.policy, s.network.firewall.policy), rules)),
       system := d.system.(packages := packages),
       maintenance := d.maintenance.(schedule := Text2(d.maintenance.schedule, s.maintenance.schedule)))
  }

  lemma InventoryAssembledValue(
    d: GoSpec, s: GoSpec, packages: Slice<PackageSpec>, rules: Slice<FirewallRule>, elFlags: GoMap?,
    dv: Merging.Value, sv: Merging.Value)
    requires SameRest(d, dv) && SameRest(s, sv) && packages.Ok() && rules.Ok() && Sound(d)
    requires packages.Elems() == dv.system.packages + sv.system.packages
    requires rules.Elems() == dv.network.firewall.rules + sv.network.firewall.rules
    requires Entries(elFlags) == dv.execution.flags + sv.execution.flags
    requires d.network.vcGateways.Elems() == dv.network.vcGateways
    requires d.network.managementCIDRs.Elems() == dv.network.managementCIDRs
    requires Entries(d.system.parameters) == dv.system.parameters && Entries(d.consensus.flags) == dv.consensus.flags
    ensures Value(InventoryAssemble(d, s, packages, rules, elFlags)) == Merging.InventoryMerge(dv, sv)
  {
    var r := InventoryAssemble(d, s, packages, rules, elFlags);
    var v := Merging.InventoryMerge(dv, sv);
    assert ClientValue(r.execution) == v.execution && ClientValue(r.consensus) == v.consensus;
    assert SystemValue(r.system) == v.system && NetworkValue(r.network) == v.network;
  }

  /** The appends of pkg/inventory's mergeSpecs. */
  method AppendKeyed(d: GoLists, s: GoLists, spare: nat)
    returns (packages: Slice<PackageSpec>, rules: Slice<FirewallRule>)
    requires d.Ok() && s.Ok() && d.Separate(s)
    modifies d.packages.arr, d.rules.arr
    ensures packages.Ok() && rules.Ok()
    ensures (packages.arr == d.packages.arr || fresh(packages.arr)) && (rules.arr == d.rules.arr || fresh(rules.arr))
    ensures packages.Elems() == old(d.packages.Elems()) + old(s.packages.Elems())
    ensures rules.Elems() == old(d.rules.Elems()) + old(s.rules.Elems())
    ensures d.vcGateways.Elems() == old(d.vcGateways.Elems())
    ensures d.managementCIDRs.Elems() == old(d.managementCIDRs.Elems())
  {
    packages := AppendSlice(d.packages, s.packages, spare);
    rules := AppendSlice(d.rules, s.rules, spare);
  }

  /** The same, with maps beside that stay as they are. */
  method AppendBeside(d: GoLists, s: GoLists, spare: nat, ghost maps: set<GoMap?>)
    returns (packages: Slice<PackageSpec>, rules: Slice<FirewallRule>)
    requires d.Ok() && s.Ok() && d.Separate(s)
    modifies d.packages.arr, d.rules.arr
    ensures packages.Ok() && rules.Ok()
    ensures (packages.arr == d.packages.arr || fresh(packages.arr)) && (rules.arr == d.rules.arr || fresh(rules.arr))
    ensures packages.Elems() == old(d.packages.Elems()) + old(s.packages.Elems())
    ensures rules.Elems() == old(d.rules.Elems()) + old(s.rules.Elems())
    ensures d.vcGateways.Elems() == old(d.vcGateways.Elems())
    ensures d.managementCIDRs.Elems() == old(d.managementCIDRs.Elems())
    ensures forall g :: g in maps ==> Entries(g) == old(Entries(g))
  {
    packages, rules := AppendKeyed(d, s, spare);
  }

  /** All its writes. */
  method AppendContainers(d: GoLists, s: GoLists, dm: GoMaps, sm: GoMaps, spare: nat)
    returns (packages: Slice<PackageSpec>, rules: Slice<FirewallRule>, elFlags: GoMap?)
    requires d.Ok() && s.Ok() && d.Separate(s) && dm.Apart() && dm.Separate(sm)
    modifies d.packages.arr, d.rules.arr, dm.elFlags
    ensures packages.Ok() && rules.Ok()
    ensures (packages.arr == d.packages.arr || fresh(packages.arr)) && (rules.arr == d.rules.arr || fresh(rules.arr))
    ensures elFlags == dm.elFlags || fresh(elFlags)
    ensures packages.Elems() == old(d.packages.Elems()) + old(s.packages.Elems())
    ensures rules.Elems() == old(d.rules.Elems()) + old(s.rules.Elems())
    ensures Entries(elFlags) == old(Entries(dm.elFlags)) + old(Entries(sm.elFlags))
    ensures d.vcGateways.Elems() == old(d.vcGateways.Elems())
    ensures d.managementCIDRs.Elems() == old(d.managementCIDRs.Elems())
    ensures Entries(dm.parameters) == old(Entries(dm.parameters)) && Entries(dm.clFlags) == old(Entries(dm.clFlags))
  {
    packages, rules := AppendBeside(d, s, spare, dm.All() + sm.All());
    label Appended:
    elFlags := MergeMap(dm.elFlags, sm.elFlags);
    assert packages.Elems() == old@Appended(packages.Elems()) && rules.Elems() == old@Appended(rules.Elems());
    assert d.vcGateways.Elems() == old@Appended(d.vcGateways.Elems());
    assert d.managementCIDRs.Elems() == old@Appended(d.managementCIDRs.Elems());
  }

  /** mergeSpecs of pkg/inventory: it writes to three containers of `dst` alone. */
  method InventoryMergeSpecs(d: GoSpec, s: GoSpec, spare: nat) returns (r: GoSpec)
    requires Sound(d) && Sound(s) && Apart(d) && Separate(d, s)
    modifies d.system.packages.arr, d.network.firewall.rules.arr, d.execution.flags
    ensures Sound(r) && Apart(r) && OldOrNew(d, r)
    ensures Value(r) == Merging.InventoryMerge(old(Value(d)), old(Value(s)))
  {
    var packages, rules, elFlags := AppendContainers(ListsOf(d), ListsOf(s), MapsOf(d), MapsOf(s), spare);
    r := InventoryAssemble(d, s, packages, rules, elFlags);
    InventoryAssembledValue(d, s, packages, rules, elFlags, old(Value(d)), old(Value(s)));
  }
}
