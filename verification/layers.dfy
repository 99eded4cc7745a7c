/** What a merge of layers means, field by field: the layers are the profiles in order and the
    node's own spec on top, and none of this refers to the order in which they are merged. */
module Layers {
  import opened Wrappers
  import opened Spec
  import opened Merging
  import Lists

  /** The layers merged one over another, from the empty spec. */
  function StackWith(layers: seq<Value>, merge: (Value, Value) -> Value): Value {
    if layers == [] then ZERO else merge(StackWith(layers[..|layers| - 1], merge), layers[|layers| - 1])
  }

  function Stack(layers: seq<Value>): Value {
    StackWith(layers, MergeSpecs)
  }

  function Each<T>(layers: seq<Value>, get: Value -> T): (r: seq<T>)
    ensures |r| == |layers| && forall i :: 0 <= i < |r| ==> r[i] == get(layers[i])
  {
    seq(|layers|, i requires 0 <= i < |layers| => get(layers[i]))
  }

  lemma EachSnoc<T>(layers: seq<Value>, get: Value -> T)
    requires layers != []
    ensures Each(layers, get) == Each(layers[..|layers| - 1], get) + [get(layers[|layers| - 1])]
  {
  }

  function LayersOf(profiles: map<string, Value>, names: seq<string>, node: Value): seq<Value>
    requires forall i :: 0 <= i < |names| ==> names[i] in profiles
  {
    seq(|names|, i requires 0 <= i < |names| => profiles[names[i]]) + [node]
  }

  lemma {:induction false} FoldIsStack(
    profiles: map<string, Value>, names: seq<string>, below: seq<Value>, merge: (Value, Value) -> Value)
    requires forall i :: 0 <= i < |names| ==> names[i] in profiles
    ensures Fold(profiles, names, StackWith(below, merge), merge)
         == Ok(StackWith(below + seq(|names|, i requires 0 <= i < |names| => profiles[names[i]]), merge))
    decreases |names|
  {
    var all := seq(|names|, i requires 0 <= i < |names| => profiles[names[i]]);
    if names == [] {
      assert below + all == below;
    } else {
      var next := below + [profiles[names[0]]];
      assert next[..|below|] == below;
      assert next + seq(|names[1..]|, i requires 0 <= i < |names[1..]| => profiles[names[1..][i]]) == below + all;
      FoldIsStack(profiles, names[1..], next, merge);
    }
  }

  lemma MergeIsStack(profiles: map<string, Value>, names: seq<string>, node: Value)
    requires forall i :: 0 <= i < |names| ==> names[i] in profiles
    ensures Merge(profiles, names, node) == Ok(Stack(LayersOf(profiles, names, node)))
  {
    var all := seq(|names|, i requires 0 <= i < |names| => profiles[names[i]]);
    FoldIsStack(profiles, names, [], MergeSpecs);
    Snoc(all, node);
  }

  lemma Snoc<T>(s: seq<T>, x: T)
    ensures [] + s == s && (s + [x])[..|s|] == s
  {
  }

  /** The fields that a layer overrides when it says something about them. */
  datatype Field =
    | MountedDisk
    | OfNetwork(network: NetworkField)
    | OfExecution(client: ClientField)
    | OfConsensus(client: ClientField)
    | OfMev(mev: MevField)
    | OfObservability(observability: ObservabilityField)
    | OfMaintenance(maintenance: MaintenanceField)
    | OfSnapshot(snapshot: SnapshotField)

  datatype NetworkField = Nameservers | FirewallProvider | FirewallPolicy | ZoneID | Zone | RecordTTL
  datatype ClientField = ClientName | Image | DataDir | PortNumbers
  datatype MevField = MevImage | MevListenAddr | MevRelays
  datatype ObservabilityField = Exporters | RemoteWrites | LogProvider | LogDestinations | StackDir
  datatype MaintenanceField = WindowSchedule | UpgradeOrder | PreflightChecks
  datatype SnapshotField = SnapshotProvider | SnapshotNetwork | SnapshotBlock

  datatype Content =
    | Text(text: string) | Number(number: int) | Texts(texts: seq<string>) | DiskContent(disk: Disk<seq<string>>)
    | PortsContent(ports: Ports) | RelayList(relays: seq<Relay>) | ExporterList(exporters: seq<Exporter>)
    | WriteList(writes: seq<RemoteWrite>) | LogList(logs: seq<LogDestination>)

  function NetworkContent(f: NetworkField, n: NetworkValue): Content {
    match f
    case Nameservers => Texts(n.nameservers)
    case FirewallProvider => Text(n.firewall.provider)
    case FirewallPolicy => Text(n.firewall.policy)
    case ZoneID => Text(n.route53.zoneID)
    case Zone => Text(n.route53.zone)
    case RecordTTL => Number(n.route53.ttl)
  }

  function ClientContent(f: ClientField, c: ClientValue): Content {
    match f
    case ClientName => Text(c.client)
    case Image => Text(c.image)
    case DataDir => Text(c.dataDir)
    case PortNumbers => PortsContent(c.ports)
  }

  function MevContent(f: MevField, m: Mev<seq<Relay>>): Content {
    match f
    case MevImage => Text(m.image)
    case MevListenAddr => Text(m.listenAddr)
    case MevRelays => RelayList(m.relays)
  }

  function ObservabilityContent(f: ObservabilityField, o: ObservabilityValue): Content {
    match f
    case Exporters => ExporterList(o.exporters)
    case RemoteWrites => WriteList(o.remoteWrite)
    case LogProvider => Text(o.logProvider)
    case LogDestinations => LogList(o.destinations)
    case StackDir => Text(o.stackDir)
  }

  function MaintenanceContent(f: MaintenanceField, m: Maintenance<seq<string>>): Content {
    match f
    case WindowSchedule => Text(m.schedule)
    case UpgradeOrder => Texts(m.order)
    case PreflightChecks => Texts(m.preflightChecks)
  }

  function SnapshotContent(f: SnapshotField, s: Snapshots): Content {
    match f
    case SnapshotProvider => Text(s.provider)
    case SnapshotNetwork => Text(s.network)
    case SnapshotBlock => Text(s.blockNumber)
  }

  function ContentOf(f: Field, v: Value): Content {
    match f
    case MountedDisk => DiskContent(v.system.disk)
    case OfNetwork(g) => NetworkContent(g, v.network)
    case OfExecution(g) => ClientContent(g, v.execution)
    case OfConsensus(g) => ClientContent(g, v.consensus)
    case OfMev(g) => MevContent(g, v.mev)
    case OfObservability(g) => ObservabilityContent(g, v.observability)
    case OfMaintenance(g) => MaintenanceContent(g, v.maintenance)
    case OfSnapshot(g) => SnapshotContent(g, v.snapshot)
  }

  /** Not the zero value; a disk counts by its mount path and ports by their HTTP port. */
  predicate Says(c: Content) {
    match c
    case Text(t) => t != ""
    case Number(n) => n != 0
    case Texts(ts) => ts != []
    case DiskContent(d) => d.mountPath != ""
    case PortsContent(p) => p.http != 0
    case RelayList(rs) => rs != []
    case ExporterList(es) => es != []
    case WriteList(ws) => ws != []
    case LogList(ls) => ls != []
  }

  function Over(d: Content, s: Content): Content {
    if Says(s) then s else d
  }

  /** `c` is the topmost content that says something, or `bottom` when none does. */
  ghost predicate Topmost(cs: seq<Content>, bottom: Content, c: Content) {
    || (c == bottom && forall i :: 0 <= i < |cs| ==> !Says(cs[i]))
    || exists i :: 0 <= i < |cs| && Decides(cs, i) && c == cs[i]
  }

  predicate Decides(cs: seq<Content>, i: nat)
    requires i < |cs|
  {
    Says(cs[i]) && forall j :: i < j < |cs| ==> !Says(cs[j])
  }

  lemma TopmostSnoc(cs: seq<Content>, x: Content, bottom: Content, c: Content)
    requires Topmost(cs, bottom, c)
    ensures Topmost(cs + [x], bottom, Over(c, x))
  {
    var next := cs + [x];
    if Says(x) {
      assert Decides(next, |cs|);
    } else if i :| 0 <= i < |cs| && Decides(cs, i) && c == cs[i] {
      assert Decides(next, i);
    }
  }

  lemma NetworkOver(f: NetworkField, d: NetworkValue, s: NetworkValue)
    ensures NetworkContent(f, MergeNetwork(d, s)) == Over(NetworkContent(f, d), NetworkContent(f, s))
  {
    match f
    case _ =>
  }

  lemma ClientOver(f: ClientField, d: ClientValue, s: ClientValue)
    ensures ClientContent(f, MergeClient(d, s)) == Over(ClientContent(f, d), ClientContent(f, s))
  {
    match f
    case _ =>
  }

  lemma MevOver(f: MevField, d: Mev<seq<Relay>>, s: Mev<seq<Relay>>)
    ensures MevContent(f, MergeMev(d, s, Filled)) == Over(MevContent(f, d), MevContent(f, s))
  {
    match f
    case _ =>
  }

  lemma ObservabilityOver(f: ObservabilityField, d: ObservabilityValue, s: ObservabilityValue)
    ensures ObservabilityContent(f, MergeObservability(d, s, Filled, Filled, Filled))
         == Over(ObservabilityContent(f, d), ObservabilityContent(f, s))
  {
    match f
    case _ =>
  }

  lemma MaintenanceOver(f: MaintenanceField, d: Maintenance<seq<string>>, s: Maintenance<seq<string>>)
    ensures MaintenanceContent(f, MergeMaintenance(d, s, Filled))
         == Over(MaintenanceContent(f, d), MaintenanceContent(f, s))
  {
    match f
    case _ =>
  }

  lemma SnapshotOver(f: SnapshotField, d: Snapshots, s: Snapshots)
    ensures SnapshotContent(f, MergeSnapshots(d, s)) == Over(SnapshotContent(f, d), SnapshotContent(f, s))
  {
    match f
    case _ =>
  }

  lemma Overrides(f: Field, d: Value, s: Value)
    ensures ContentOf(f, MergeSpecs(d, s)) == Over(ContentOf(f, d), ContentOf(f, s))
  {
    match f
    case MountedDisk =>
    case OfNetwork(g) => NetworkOver(g, d.network, s.network);
    case OfExecution(g) => ClientOver(g, d.execution, s.execution);
    case OfConsensus(g) => ClientOver(g, d.consensus, s.consensus);
    case OfMev(g) => MevOver(g, d.mev, s.mev);
    case OfObservability(g) => ObservabilityOver(g, d.observability, s.observability);
    case OfMaintenance(g) => MaintenanceOver(g, d.maintenance, s.maintenance);
    case OfSnapshot(g) => SnapshotOver(g, d.snapshot, s.snapshot);
  }

  lemma {:induction false} TopmostStack(layers: seq<Value>, merge: (Value, Value) -> Value, get: Value -> Content)
    requires forall d, s :: get(merge(d, s)) == Over(get(d), get(s))
    ensures Topmost(Each(layers, get), get(ZERO), get(StackWith(layers, merge)))
  {
    if layers != [] {
      var below, top := layers[..|layers| - 1], layers[|layers| - 1];
      TopmostStack(below, merge, get);
      TopmostSnoc(Each(below, get), get(top), get(ZERO), get(StackWith(below, merge)));
      EachSnoc(layers, get);
    }
  }

  /** Later profiles win over earlier ones and the node wins over all, in each of these fields:
      the merge has what the topmost layer says that says anything. */
  lemma TopmostWins(layers: seq<Value>, f: Field)
    ensures Topmost(Each(layers, v => ContentOf(f, v)), ContentOf(f, ZERO), ContentOf(f, Stack(layers)))
  {
    var get := v => ContentOf(f, v);
    forall d, s ensures get(MergeSpecs(d, s)) == Over(get(d), get(s)) {
      Overrides(f, d, s);
    }
    TopmostStack(layers, MergeSpecs, get);
  }

  /** The switches: no layer can turn one off. */
  datatype Switch = Mev | Metrics | Snapshots | SnapshotEL | SnapshotCL

  predicate On(w: Switch, v: Value) {
    match w
    case Mev => v.mev.enabled
    case Metrics => v.observability.metricsEnabled
    case Snapshots => v.snapshot.enabled
    case SnapshotEL => v.snapshot.elEnabled
    case SnapshotCL => v.snapshot.clEnabled
  }

  lemma SwitchMerged(w: Switch, d: Value, s: Value)
    ensures On(w, MergeSpecs(d, s)) <==> On(w, d) || On(w, s)
  {
    match w
    case _ =>
  }

  lemma {:induction false} AnyStack(layers: seq<Value>, merge: (Value, Value) -> Value, on: Value -> bool)
    requires !on(ZERO) && forall d, s :: on(merge(d, s)) <==> on(d) || on(s)
    ensures on(StackWith(layers, merge)) <==> exists i :: 0 <= i < |layers| && on(layers[i])
  {
    if layers != [] {
      var n := |layers| - 1;
      AnyStack(layers[..n], merge, on);
      if i :| 0 <= i < n && on(layers[..n][i]) {
        assert on(layers[i]);
      }
      if i :| 0 <= i < |layers| && on(layers[i]) && i != n {
        assert on(layers[..n][i]);
      }
    }
  }

  /** A switch is on exactly when some layer turns it on. */
  lemma SwitchesAdd(layers: seq<Value>, w: Switch)
    ensures On(w, Stack(layers)) <==> exists i :: 0 <= i < |layers| && On(w, layers[i])
  {
    forall d, s ensures On(w, MergeSpecs(d, s)) <==> On(w, d) || On(w, s) {
      SwitchMerged(w, d, s);
    }
    AnyStack(layers, MergeSpecs, v => On(w, v));
  }

  datatype MapField = KernelParameters | ExecutionFlags | ConsensusFlags

  function MapOf(f: MapField, v: Value): map<string, string> {
    match f
    case KernelParameters => v.system.parameters
    case ExecutionFlags => v.execution.flags
    case ConsensusFlags => v.consensus.flags
  }

  lemma MapMerged(f: MapField, d: Value, s: Value)
    ensures MapOf(f, MergeSpecs(d, s)) == MapOf(f, d) + MapOf(f, s)
  {
    match f
    case _ =>
  }

  /** Layer i is the topmost one whose map has the key. */
  predicate Gives(maps: seq<map<string, string>>, k: string, i: nat)
    requires i < |maps|
  {
    k in maps[i] && forall j :: i < j < |maps| ==> k !in maps[j]
  }

  /** What `m` has for the key is what the topmost map with the key has. */
  ghost predicate Inherits(maps: seq<map<string, string>>, m: map<string, string>, k: string) {
    if k in m then exists i :: 0 <= i < |maps| && Gives(maps, k, i) && m[k] == maps[i][k]
    else forall i :: 0 <= i < |maps| ==> k !in maps[i]
  }

  lemma InheritsSnoc(maps: seq<map<string, string>>, m: map<string, string>, x: map<string, string>, k: string)
    requires Inherits(maps, m, k)
    ensures Inherits(maps + [x], m + x, k)
  {
    var next := maps + [x];
    if k in x {
      assert Gives(next, k, |maps|);
    } else if k in m {
      var i :| 0 <= i < |maps| && Gives(maps, k, i) && m[k] == maps[i][k];
      assert Gives(next, k, i);
    }
  }

  lemma {:induction false} MapStack(
    layers: seq<Value>, merge: (Value, Value) -> Value, get: Value -> map<string, string>, k: string)
    requires get(ZERO) == map[] && forall d, s :: get(merge(d, s)) == get(d) + get(s)
    ensures Inherits(Each(layers, get), get(StackWith(layers, merge)), k)
  {
    if layers != [] {
      var below, top := layers[..|layers| - 1], layers[|layers| - 1];
      MapStack(below, merge, get, k);
      InheritsSnoc(Each(below, get), get(StackWith(below, merge)), get(top), k);
      EachSnoc(layers, get);
    }
  }

  /** The maps are merged key by key, the topmost layer that has a key deciding its value. */
  lemma KeysAdd(layers: seq<Value>, f: MapField, k: string)
    ensures Inherits(Each(layers, v => MapOf(f, v)), MapOf(f, Stack(layers)), k)
  {
    forall d, s ensures MapOf(f, MergeSpecs(d, s)) == MapOf(f, d) + MapOf(f, s) {
      MapMerged(f, d, s);
    }
    MapStack(layers, MergeSpecs, v => MapOf(f, v), k);
  }

  function Concat<T>(xss: seq<seq<T>>): seq<T> {
    if xss == [] then [] else Concat(xss[..|xss| - 1]) + xss[|xss| - 1]
  }

  lemma {:induction false} ConcatStack<T>(layers: seq<Value>, merge: (Value, Value) -> Value, get: Value -> seq<T>)
    requires get(ZERO) == [] && forall d, s :: get(merge(d, s)) == get(d) + get(s)
    ensures get(StackWith(layers, merge)) == Concat(Each(layers, get))
  {
    if layers != [] {
      var n := |layers| - 1;
      ConcatStack(layers[..n], merge, get);
      EachSnoc(layers, get);
      assert Each(layers, get)[..n] == Each(layers[..n], get);
    }
  }

  /** The two additive lists hold every layer's elements, in the order of the layers. */
  lemma ListsAdd(layers: seq<Value>)
    ensures Stack(layers).network.vcGateways == Concat(Each(layers, (v: Value) => v.network.vcGateways))
    ensures Stack(layers).network.managementCIDRs == Concat(Each(layers, (v: Value) => v.network.managementCIDRs))
  {
    ConcatStack(layers, MergeSpecs, (v: Value) => v.network.vcGateways);
    ConcatStack(layers, MergeSpecs, (v: Value) => v.network.managementCIDRs);
  }

  lemma {:induction false} KeyedStack<T, K>(
    layers: seq<Value>, merge: (Value, Value) -> Value, get: Value -> seq<T>, key: T -> K, k: K)
    requires get(ZERO) == [] && forall d, s :: get(merge(d, s)) == Lists.Merge(get(d), get(s), key)
    ensures Lists.LastMatch(get(StackWith(layers, merge)), key, k) == Lists.LastMatch(Concat(Each(layers, get)), key, k)
  {
    if layers != [] {
      var n := |layers| - 1;
      var below, top := layers[..n], layers[n];
      KeyedStack(below, merge, get, key, k);
      EachSnoc(layers, get);
      assert Each(layers, get)[..n] == Each(below, get);
      Lists.MergeMatch(get(StackWith(below, merge)), get(top), key, k);
      Lists.MatchConcat(Concat(Each(below, get)), get(top), key, k);
    }
  }

  /** The rule with a key is the last one with that key in all the layers' rules, one after
      another, and the package with a name the last one with that name in all their packages. */
  lemma KeyedAdd(layers: seq<Value>, ruleKey: string, p: PackageSpec)
    ensures Lists.LastMatch(Stack(layers).network.firewall.rules, RuleKey, ruleKey)
         == Lists.LastMatch(Concat(Each(layers, (v: Value) => v.network.firewall.rules)), RuleKey, ruleKey)
    ensures Found(Stack(layers).system.packages, p)
       <==> Found(Concat(Each(layers, (v: Value) => v.system.packages)), p)
  {
    KeyedStack(layers, MergeSpecs, (v: Value) => v.network.firewall.rules, RuleKey, ruleKey);
    KeyedStack(layers, MergeSpecs, (v: Value) => v.system.packages, PackageKey, p.name);
    FoundExactly(Stack(layers).system.packages, p);
    FoundExactly(Concat(Each(layers, (v: Value) => v.system.packages)), p);
  }

  predicate DistinctNames(ps: seq<PackageSpec>) {
    forall i, j :: 0 <= i < j < |ps| ==> ps[i].name != ps[j].name
  }

  function NamesIn(ps: seq<PackageSpec>): set<string> {
    set i | 0 <= i < |ps| :: ps[i].name
  }

  lemma {:induction false} KeysStack<T, K>(
    layers: seq<Value>, merge: (Value, Value) -> Value, get: Value -> seq<T>, key: T -> K)
    requires get(ZERO) == [] && forall d, s :: get(merge(d, s)) == Lists.Merge(get(d), get(s), key)
    ensures Lists.Keys(get(StackWith(layers, merge)), key) == Lists.Keys(Concat(Each(layers, get)), key)
    ensures (forall i :: 0 <= i < |layers| ==> Lists.DistinctKeys(get(layers[i]), key)) ==>
              Lists.DistinctKeys(get(StackWith(layers, merge)), key)
  {
    if layers != [] {
      var n := |layers| - 1;
      var below, top := layers[..n], layers[n];
      KeysStack(below, merge, get, key);
      EachSnoc(layers, get);
      assert Each(layers, get)[..n] == Each(below, get);
      Lists.MergeKeys(get(StackWith(below, merge)), get(top), key);
      Lists.KeysConcat(Concat(Each(below, get)), get(top), key);
      if forall i :: 0 <= i < |layers| ==> Lists.DistinctKeys(get(layers[i]), key) {
        Lists.MergeDistinct(get(StackWith(below, merge)), get(top), key);
      }
    }
  }

  /** The packages of the merge have the names that the layers' packages have, and each once if no
      layer names one twice. */
  lemma PackageNames(layers: seq<Value>)
    ensures NamesIn(Stack(layers).system.packages)
         == NamesIn(Concat(Each(layers, (v: Value) => v.system.packages)))
    ensures (forall i :: 0 <= i < |layers| ==> DistinctNames(layers[i].system.packages)) ==>
              DistinctNames(Stack(layers).system.packages)
  {
    KeysStack(layers, MergeSpecs, (v: Value) => v.system.packages, PackageKey);
    NamesAreKeys(Stack(layers).system.packages);
    NamesAreKeys(Concat(Each(layers, (v: Value) => v.system.packages)));
  }

  lemma NamesAreKeys(ps: seq<PackageSpec>)
    ensures NamesIn(ps) == Lists.Keys(ps, PackageKey)
  {
  }

  /** The fields that no layer passes on, the node's own included. */
  lemma {:induction false} NeverTaken(layers: seq<Value>)
    ensures var m := Stack(layers);
            && m.execution.resources == NO_RESOURCES && m.consensus.resources == NO_RESOURCES
            && m.snapshot.url == "" && m.maintenance.autoUpgrade == NO_AUTO_UPGRADE
            && m.network.searchDomains == [] && m.observability.scrapeInterval == "" && m.observability.envFile == ""
  {
    if layers != [] {
      NeverTaken(layers[..|layers| - 1]);
    }
  }
}
