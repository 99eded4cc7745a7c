/** The node spec (pkg/types/types.go). The containers are type parameters: module Merging
    fills in sequences and maps, module GoMerge Go's slices and map objects. */
module Spec {
  import opened Text

  datatype PackageSpec = PackageSpec(name: string, version: string)

  datatype FirewallRule = FirewallRule(
    description: string, port: int, proto: string, direction: string,
    source: string, destination: string, action: string)

  datatype Relay = Relay(url: string, name: string, ofacFiltered: bool)

  datatype Exporter = Exporter(name: string, port: int, path: string, image: string, description: string)

  datatype RemoteWrite = RemoteWrite(url: string, secret: string)

  datatype LogDestination = LogDestination(kind: string, url: string, enabled: bool)

  /** `S` is a list of strings. */
  datatype Disk<S> = Disk(
    devices: S, raidLevel: int, arrayDevice: string, mountPath: string, fsType: string, options: S)

  /** `P` is a list of packages, `M` a map from strings to strings. */
  datatype System<P, M, S> = System(packages: P, parameters: M, disk: Disk<S>)

  /** `R` is a list of firewall rules, `A` one of the lists of strings that are added up. */
  datatype Firewall<R> = Firewall(provider: string, policy: string, rules: R)

  datatype Route53 = Route53(zoneID: string, zone: string, ttl: int)

  datatype Network<R, S, A> = Network(
    nameservers: S, searchDomains: S, firewall: Firewall<R>, route53: Route53, vcGateways: A, managementCIDRs: A)

  datatype Resources = Resources(cpuCores: int, memoryGB: int)

  datatype Ports = Ports(http: int, p2p: int, metrics: int)

  datatype Client<M> = Client(
    client: string, image: string, dataDir: string, flags: M, resources: Resources, ports: Ports)

  /** `L` is a list of relays. */
  datatype Mev<L> = Mev(enabled: bool, image: string, listenAddr: string, relays: L)

  /** `E`, `W` and `D` are lists of exporters, remote writes and log destinations. */
  datatype Observability<E, W, D> = Observability(
    metricsEnabled: bool, exporters: E, scrapeInterval: string, remoteWrite: W,
    logProvider: string, destinations: D, stackDir: string, envFile: string)

  datatype AutoUpgrade = AutoUpgrade(enabled: bool, el: string, cl: string, packages: string)

  datatype Maintenance<S> = Maintenance(schedule: string, order: S, preflightChecks: S, autoUpgrade: AutoUpgrade)

  datatype Snapshots = Snapshots(
    enabled: bool, provider: string, network: string, elEnabled: bool, clEnabled: bool,
    blockNumber: string, url: string)

  datatype NodeSpec<M, P, R, S, A, L, E, W, D> = NodeSpec(
    system: System<P, M, S>, network: Network<R, S, A>, execution: Client<M>, consensus: Client<M>,
    mev: Mev<L>, observability: Observability<E, W, D>, maintenance: Maintenance<S>, snapshot: Snapshots)

  const NO_ROUTE53 := Route53("", "", 0)
  const NO_RESOURCES := Resources(0, 0)
  const NO_PORTS := Ports(0, 0, 0)
  const NO_AUTO_UPGRADE := AutoUpgrade(false, "", "", "")
  const NO_SNAPSHOTS := Snapshots(false, "", "", false, false, "", "")

  /** NodeSpec{}, given the empty containers. */
  function Zero<M, P, R, S, A, L, E, W, D>(m: M, p: P, r: R, s: S, a: A, l: L, e: E, w: W, d: D)
    : NodeSpec<M, P, R, S, A, L, E, W, D>
  {
    NodeSpec(
      System(p, m, Disk(s, 0, "", "", "", s)),
      Network(s, s, Firewall("", "", r), NO_ROUTE53, a, a),
      Client("", "", "", m, NO_RESOURCES, NO_PORTS), Client("", "", "", m, NO_RESOURCES, NO_PORTS),
      Mev(false, "", "", l), Observability(false, e, "", w, "", d, "", ""),
      Maintenance("", s, s, NO_AUTO_UPGRADE), NO_SNAPSHOTS)
  }

  // The parts of pkg/profile's mergeSpecs that write into no container: a list they take over
  // is the source's own. `some` says whether a list is not empty.

  function Text2(d: string, s: string): string {
    if s != "" then s else d
  }

  function Pick<L>(d: L, s: L, some: L -> bool): L {
    if some(s) then s else d
  }

  function MergeDisk<S>(d: Disk<S>, s: Disk<S>): Disk<S> {
    if s.mountPath != "" then s else d
  }

  function MergeRoute53(d: Route53, s: Route53): Route53 {
    Route53(Text2(d.zoneID, s.zoneID), Text2(d.zone, s.zone), if s.ttl != 0 then s.ttl else d.ttl)
  }

  function MergePorts(d: Ports, s: Ports): Ports {
    if s.http != 0 then s else d
  }

  function MergeMev<L>(d: Mev<L>, s: Mev<L>, some: L -> bool): Mev<L> {
    Mev(d.enabled || s.enabled, Text2(d.image, s.image), Text2(d.listenAddr, s.listenAddr),
        Pick(d.relays, s.relays, some))
  }

  function MergeObservability<E, W, D>(
    d: Observability<E, W, D>, s: Observability<E, W, D>, someE: E -> bool, someW: W -> bool, someD: D -> bool)
    : Observability<E, W, D>
  {
    d.(metricsEnabled := d.metricsEnabled || s.metricsEnabled,
       exporters := Pick(d.exporters, s.exporters, someE),
       remoteWrite := Pick(d.remoteWrite, s.remoteWrite, someW),
       logProvider := Text2(d.logProvider, s.logProvider),
       destinations := Pick(d.destinations, s.destinations, someD),
       stackDir := Text2(d.stackDir, s.stackDir))
  }

  function MergeMaintenance<S>(d: Maintenance<S>, s: Maintenance<S>, some: S -> bool): Maintenance<S> {
    d.(schedule := Text2(d.schedule, s.schedule),
       order := Pick(d.order, s.order, some),
       preflightChecks := Pick(d.preflightChecks, s.preflightChecks, some))
  }

  function MergeSnapshots(d: Snapshots, s: Snapshots): Snapshots {
    d.(enabled := d.enabled || s.enabled, provider := Text2(d.provider, s.provider),
       network := Text2(d.network, s.network), elEnabled := d.elEnabled || s.elEnabled,
       clEnabled := d.clEnabled || s.clEnabled, blockNumber := Text2(d.blockNumber, s.blockNumber))
  }

  /** The key of a rule in mergeFirewallRules: "%d/%s/%s". */
  function RuleKey(r: FirewallRule): string {
    DecimalInt(r.port) + "/" + r.proto + "/" + r.direction
  }

  function PackageKey(p: PackageSpec): string {
    p.name
  }

  /** The printed key tells rules apart by port, protocol and direction, as long as protocols
      contain no slash. */
  lemma RuleKeyExact(r: FirewallRule, q: FirewallRule)
    requires '/' !in r.proto && '/' !in q.proto
    ensures RuleKey(r) == RuleKey(q) <==> r.port == q.port && r.proto == q.proto && r.direction == q.direction
  {
    if RuleKey(r) == RuleKey(q) {
      RuleKeyParts(r);
      RuleKeyParts(q);
      var parts := Split(RuleKey(r), '/');
      assert parts[0] == DecimalInt(r.port) == DecimalInt(q.port);
      DecimalIntInjective(r.port, q.port);
      assert parts[1] == r.proto == q.proto;
      var lead := DecimalInt(r.port) + "/" + r.proto + "/";
      assert RuleKey(r)[|lead|..] == r.direction && RuleKey(q)[|lead|..] == q.direction;
    }
  }

  lemma RuleKeyParts(r: FirewallRule)
    requires '/' !in r.proto
    ensures var parts := Split(RuleKey(r), '/');
            |parts| >= 3 && parts[0] == DecimalInt(r.port) && parts[1] == r.proto
  {
    var n := DecimalInt(r.port);
    assert RuleKey(r) == n + ['/'] + (r.proto + ['/'] + r.direction);
    SplitConcat(n, r.proto + ['/'] + r.direction, '/');
    SplitConcat(r.proto, r.direction, '/');
    SplitNone(n, '/');
    SplitNone(r.proto, '/');
  }
}
