/** Expanding a cluster into its nodes (pkg/inventory/cluster.go): every node appends its own
    profile names to the cluster's list, so the results may share the list's spare capacity. Any
    other list of names may lie in the same array, and then reads what has been written there.

    The loop is built up in methods that each add one thing to the contract of the one before:
    what the writes to the shared array leave alone, then what has been made so far. */
module Expand {
  import opened Wrappers
  import opened GoHeap
  import opened GoMerge
  import GoFold
  import Merging
  import Sharing

  type Names = seq<string>
  type Outcome = Result<Merging.Value, Merging.NotFound>
  type Profiles = GoFold.Profiles
  type Values = GoFold.Values
  type Merger = (Values, Names, Merging.Value) -> Outcome

  datatype GoNode = GoNode(
    name: string, host: string, port: int, labels: map<string, string>,
    profiles: Slice<string>, spec: GoSpec, disabled: bool)

  datatype GoCluster = GoCluster(profiles: Slice<string>, defaultPort: int, nodes: seq<GoNode>)

  /** An EthereumNode. */
  datatype Expanded = Expanded(
    name: string, host: string, port: int, labels: map<string, string>, profiles: Slice<string>, spec: GoSpec)

  const AGENT_PORT := 9000

  function Enabled(nodes: seq<GoNode>): seq<GoNode> {
    if nodes == [] then []
    else Enabled(nodes[..|nodes| - 1]) + if nodes[|nodes| - 1].disabled then [] else [nodes[|nodes| - 1]]
  }

  lemma {:induction false} EnabledNext(nodes: seq<GoNode>, k: nat)
    requires k < |nodes|
    ensures nodes[k].disabled ==> Enabled(nodes[..k + 1]) == Enabled(nodes[..k])
    ensures !nodes[k].disabled ==>
              && |Enabled(nodes[..k])| < |Enabled(nodes)| && Enabled(nodes)[|Enabled(nodes[..k])|] == nodes[k]
              && Enabled(nodes[..k + 1]) == Enabled(nodes[..k]) + [nodes[k]]
    decreases |nodes|
  {
    assert nodes[..k + 1][..k] == nodes[..k];
    if k < |nodes| - 1 {
      var front := nodes[..|nodes| - 1];
      assert front[..k] == nodes[..k] && front[..k + 1] == nodes[..k + 1];
      EnabledNext(front, k);
    } else {
      assert nodes[..k + 1] == nodes;
    }
  }

  function Rank(all: seq<GoNode>, k: nat): nat {
    if k <= |all| then |Enabled(all[..k])| else 0
  }

  function PortOf(n: GoNode, port: int): int {
    if n.port == 0 then port else n.port
  }

  // What the shared array holds. Lists of names, and two lists of every spec, may lie in it too:
  // then what they read depends on its content.

  /** The whole array behind a slice. */
  ghost function Content(s: Slice<string>): (r: Names)
    requires s.Ok()
    reads s.arr
    ensures s.from + s.cap <= |r|
    ensures s.Elems() == r[s.from..s.End()]
  {
    if s.arr == null then [] else s.arr[..]
  }

  /** The slice fits an array with that content. */
  predicate Within(s: Slice<string>, content: Names) {
    s.len <= s.cap && s.from + s.cap <= |content|
  }

  /** The array after names were appended to the slice, each time from the same length. */
  function After(s: Slice<string>, content: Names, extras: seq<Names>): (r: Names)
    requires Within(s, content)
    ensures |r| == |content| && r[..s.End()] == content[..s.End()]
  {
    var limit := s.from + s.cap;
    var written := Sharing.Spread(content[..limit], s.End(), extras);
    assert (written + content[limit..])[..s.End()] == written[..s.End()];
    assert content[..limit][..s.End()] == content[..s.End()];
    written + content[limit..]
  }

  lemma AfterMore(s: Slice<string>, content: Names, extras: seq<Names>, i: nat)
    requires Within(s, content) && i < |extras|
    ensures After(s, content, extras[..i + 1]) == After(s, After(s, content, extras[..i]), [extras[i]])
  {
    var limit, now := s.from + s.cap, After(s, content, extras[..i]);
    Sharing.SpreadMore(content[..limit], s.End(), extras, i);
    Sharing.SpreadMore(now[..limit], s.End(), [extras[i]], 0);
    assert [extras[i]][..1] == [extras[i]] && [extras[i]][..0] == [];
    assert now[..limit] == Sharing.Spread(content[..limit], s.End(), extras[..i]) && now[limit..] == content[limit..];
  }

  lemma AfterNone(s: Slice<string>, content: Names)
    requires Within(s, content)
    ensures After(s, content, []) == content
  {
    assert content[..s.from + s.cap] + content[s.from + s.cap..] == content;
  }

  /** The list lies in the array of the other one. */
  predicate Aliases(shared: Slice<string>, list: Slice<string>) {
    list.arr != null && list.arr == shared.arr
  }

  /** What a list reads when the shared array holds `content`: `elsewhere`, if it lies elsewhere. */
  ghost function ReadNow(shared: Slice<string>, list: Slice<string>, content: Names, elsewhere: Names): Names {
    if Aliases(shared, list) && list.End() <= |content| then content[list.from..list.End()] else elsewhere
  }

  /** A list that lies elsewhere has those elements. */
  ghost predicate Reads(shared: Slice<string>, list: Slice<string>, elsewhere: Names)
    reads if Aliases(shared, list) then {} else {list.arr}
  {
    list.Ok() && (!Aliases(shared, list) ==> list.Elems() == elsewhere)
  }

  type Listed = set<(Slice<string>, Names)>
  type Valued = set<(GoSpec, Merging.Value)>

  ghost predicate SitOutside(specs: Valued)
    reads *
  {
    && (forall q :: q in specs ==> HasSystem(q.0, q.1))
    && (forall q :: q in specs ==> HasRules(q.0, q.1))
    && (forall q :: q in specs ==> HasFlags(q.0, q.1))
    && (forall q :: q in specs ==> SameRest(q.0, q.1))
  }

  /** Lists of names that have the elements beside them, unless they lie in the shared array. */
  ghost predicate ListsHold(shared: Slice<string>, lists: Listed)
    reads *
  {
    forall q :: q in lists ==> Reads(shared, q.0, q.1)
  }

  ghost predicate SitShared(shared: Slice<string>, specs: Valued)
    reads *
  {
    && (forall q :: q in specs ==> Reads(shared, q.0.network.vcGateways, q.1.network.vcGateways))
    && (forall q :: q in specs ==> Reads(shared, q.0.network.managementCIDRs, q.1.network.managementCIDRs))
  }

  /** Each of the specs has the value beside it, but for its lists of names in the shared array. */
  ghost predicate Sit(shared: Slice<string>, specs: Valued)
    reads *
  {
    SitOutside(specs) && SitShared(shared, specs)
  }

  lemma SitsAlike(shared: Slice<string>, specs: Valued, h: GoSpec, v: Merging.Value)
    requires Sit(shared, specs) && (h, v) in specs
    ensures Sound(h) && Merging.Alike(v, Value(h))
    ensures Clear(shared, h) ==> Value(h) == v
  {
    var q := (h, v);
    assert HasSystem(q.0, q.1) && HasRules(q.0, q.1) && HasFlags(q.0, q.1) && SameRest(q.0, q.1);
    assert Reads(shared, q.0.network.vcGateways, q.1.network.vcGateways);
    assert Reads(shared, q.0.network.managementCIDRs, q.1.network.managementCIDRs);
    var w := Value(h);
    assert w.network == v.network.(vcGateways := w.network.vcGateways, managementCIDRs := w.network.managementCIDRs);
  }

  /** Writing to the list does not write to the spec. */
  ghost predicate Clear(list: Slice<string>, h: GoSpec) {
    !Aliases(list, h.network.vcGateways) && !Aliases(list, h.network.managementCIDRs)
  }

  twostate lemma NewIsClear(shared: Slice<string>, new h: GoSpec)
    requires GoFold.New(h)
    ensures Clear(shared, h)
  {
    var gateways, networks := h.network.vcGateways, h.network.managementCIDRs;
    assert gateways.arr in Containers(h) && networks.arr in Containers(h);
  }

  lemma SoundSits(shared: Slice<string>, h: GoSpec)
    requires Sound(h)
    ensures Sit(shared, {(h, Value(h))})
  {
  }

  lemma SitTogether(shared: Slice<string>, a: Valued, b: Valued)
    ensures Sit(shared, a + b) <==> Sit(shared, a) && Sit(shared, b)
  {
  }

  ghost function ProfileValues(profiles: Profiles): (r: Values)
    requires forall k :: k in profiles ==> Sound(profiles[k])
    reads *
    ensures r.Keys == profiles.Keys && forall k :: k in profiles ==> r[k] == Value(profiles[k])
  {
    map k | k in profiles :: Value(profiles[k])
  }

  /** The profiles and their values are among those. */
  ghost predicate Among(profiles: Profiles, values: Values, specs: Valued) {
    values.Keys == profiles.Keys && forall k :: k in profiles ==> (profiles[k], values[k]) in specs
  }

  lemma ProfilesNow(shared: Slice<string>, profiles: Profiles, values: Values, specs: Valued) returns (now: Values)
    requires Sit(shared, specs) && Among(profiles, values, specs)
    ensures GoFold.Given(profiles, now) && Merging.AllAlike(values, now)
  {
    forall k | k in profiles ensures Sound(profiles[k]) && Merging.Alike(values[k], Value(profiles[k])) {
      SitsAlike(shared, specs, profiles[k], values[k]);
    }
    now := ProfileValues(profiles);
  }

  /** The list of a result: within the capacity of the cluster's own list when it fits there. */
  ghost predicate Appended(shared: Slice<string>, start: Names, x: Names, list: Slice<string>)
    requires shared.Ok() && |start| == shared.len
    reads list.arr
  {
    if shared.Fits(|x|) then list == shared.(len := shared.len + |x|)
    else list.Ok() && list.Elems() == start + x && Distinct(list.arr, shared.arr)
  }

  /** append(cluster.Profiles, cn.Profiles...). */
  method AppendNames(shared: Slice<string>, own: Slice<string>, spare: nat, ghost x: Names)
    returns (names: Slice<string>, list: Names)
    requires shared.Ok() && own.Ok() && x == own.Elems()
    modifies shared.arr
    ensures list == old(shared.Elems()) + x
    ensures Appended(shared, old(shared.Elems()), x, names)
    ensures Content(shared) == After(shared, old(Content(shared)), [x])
  {
    ghost var content := Content(shared);
    AfterOne(shared, content, x);
    var added := ReadOff(own);
    names := Extend(shared, added, spare);
    list := ReadOff(names);
  }

  method ReadOff(s: Slice<string>) returns (list: Names)
    requires s.Ok()
    ensures list == s.Elems()
  {
    list := if s.arr == null then [] else s.arr[s.from..s.End()];
  }

  lemma AfterOne(s: Slice<string>, content: Names, x: Names)
    requires Within(s, content)
    ensures After(s, content, [x])
         == if s.len + |x| <= s.cap then Written(content, s.End(), x) else content
  {
    var limit := s.from + s.cap;
    assert [x][..0] == [] && [x][..1] == [x];
    Sharing.SpreadMore(content[..limit], s.End(), [x], 0);
    if s.len + |x| <= s.cap {
      WrittenWithin(content, limit, s.End(), x);
    } else {
      AfterNone(s, content);
    }
  }

  lemma WrittenWithin(content: Names, limit: nat, at: nat, x: Names)
    requires at + |x| <= limit <= |content|
    ensures Written(content[..limit], at, x) + content[limit..] == Written(content, at, x)
  {
  }

  /** `merged` is mergeNodeProfiles. */
  ghost predicate Computes(merged: Merger) {
    forall values, names, v {:trigger Merging.MergeNodeProfiles(values, names, v)} ::
      merged(values, names, v) == Merging.MergeNodeProfiles(values, names, v)
  }

  /** The same, beside specs whose containers outside the shared array stay as they are. */
  method AppendOutside(shared: Slice<string>, own: Slice<string>, spare: nat, ghost x: Names, ghost specs: Valued)
    returns (names: Slice<string>, list: Names)
    requires shared.Ok() && own.Ok() && x == own.Elems() && SitOutside(specs)
    modifies shared.arr
    ensures list == old(shared.Elems()) + x && Appended(shared, old(shared.Elems()), x, names)
    ensures Content(shared) == After(shared, old(Content(shared)), [x])
    ensures SitOutside(specs)
  {
    names, list := AppendNames(shared, own, spare, x);
  }

  /** And so do their lists of names, and the nodes', unless they lie in it. */
  method AppendBeside(shared: Slice<string>, own: Slice<string>, spare: nat, ghost x: Names, ghost specs: Valued,
      ghost lists: Listed)
    returns (names: Slice<string>, list: Names)
    requires shared.Ok() && own.Ok() && x == own.Elems() && Sit(shared, specs) && ListsHold(shared, lists)
    modifies shared.arr
    ensures list == old(shared.Elems()) + x && Appended(shared, old(shared.Elems()), x, names)
    ensures Content(shared) == After(shared, old(Content(shared)), [x])
    ensures Sit(shared, specs) && ListsHold(shared, lists)
  {
    names, list := AppendOutside(shared, own, spare, x, specs);
  }

  /** mergeNodeProfiles for one node. */
  method MergeAlone(profiles: Profiles, list: Names, h: GoSpec, spare: nat,
      ghost now: Values, ghost nv: Merging.Value, ghost want: Outcome, ghost merged: Merger)
    returns (ok: bool, spec: GoSpec)
    requires GoFold.Given(profiles, now) && Sound(h) && Value(h) == nv
    requires Computes(merged) && want == merged(now, list, nv)
    ensures ok == want.Ok? && Sound(spec) && GoFold.New(spec) && (ok ==> Value(spec) == want.value)
  {
    ok, spec := GoFold.MergeNodeProfiles(profiles, list, h, spare, now);
  }

  /** It leaves other specs as they are. */
  method MergeOutside(profiles: Profiles, list: Names, h: GoSpec, spare: nat,
      ghost now: Values, ghost nv: Merging.Value, ghost want: Outcome, ghost merged: Merger, ghost specs: Valued)
    returns (ok: bool, spec: GoSpec)
    requires GoFold.Given(profiles, now) && Sound(h) && Value(h) == nv
    requires Computes(merged) && want == merged(now, list, nv) && SitOutside(specs)
    ensures ok == want.Ok? && Sound(spec) && GoFold.New(spec) && (ok ==> Value(spec) == want.value)
    ensures SitOutside(specs)
  {
    ok, spec := MergeAlone(profiles, list, h, spare, now, nv, want, merged);
  }

  /** What the writes to the array may have changed in the specs, their merge does not look at. */
  lemma SameOutcome(values: Values, now: Values, list: Names, v: Merging.Value, nv: Merging.Value,
      want: Outcome, merged: Merger)
    requires Merging.AllAlike(values, now) && Merging.Alike(v, nv)
    requires Computes(merged) && want == merged(values, list, v)
    ensures want == merged(now, list, nv)
  {
    Merging.MergeIgnores(values, now, list, v, nv);
  }

  /** And all lists of names; `values` and `v` are from before anything was written to the array. */
  method MergeBeside(shared: Slice<string>, profiles: Profiles, list: Names, h: GoSpec, spare: nat,
      ghost values: Values, ghost v: Merging.Value, ghost want: Outcome, ghost merged: Merger, ghost specs: Valued,
      ghost lists: Listed)
    returns (ok: bool, spec: GoSpec)
    requires Sit(shared, specs) && ListsHold(shared, lists) && Among(profiles, values, specs) && (h, v) in specs
    requires Computes(merged) && want == merged(values, list, v)
    ensures ok == want.Ok? && Sound(spec) && Clear(shared, spec) && (ok ==> Value(spec) == want.value)
    ensures GoFold.New(spec) && Sit(shared, specs) && ListsHold(shared, lists)
  {
    ghost var now := ProfilesNow(shared, profiles, values, specs);
    SitsAlike(shared, specs, h, v);
    ghost var nv := Value(h);
    SameOutcome(values, now, list, v, nv, want, merged);
    ok, spec := MergeOutside(profiles, list, h, spare, now, nv, want, merged, specs);
    NewIsClear(shared, spec);
  }

  /** The result for one node, but for what its spec and its list hold: the list lies within the
      capacity of the cluster's own when it fits there. */
  ghost predicate ExpandsTo(shared: Slice<string>, port: int, n: GoNode, x: Names, want: Outcome, e: Expanded) {
    && e.name == n.name && e.host == n.host && e.labels == n.labels
    && (if n.port == 0 then e.port == port else e.port == n.port)
    && (if shared.Fits(|x|) then e.profiles == shared.(len := shared.len + |x|) else !Aliases(shared, e.profiles))
    && Sound(e.spec) && Clear(shared, e.spec) && want.Ok?
  }

  /** The body of the loop, for a node that is not disabled. */
  method ExpandNode(shared: Slice<string>, port: int, n: GoNode, profiles: Profiles, spare: nat,
      ghost x: Names, ghost specs: Valued, ghost lists: Listed, ghost values: Values,
      ghost v: Merging.Value, ghost want: Outcome, ghost merged: Merger)
    returns (ok: bool, e: Expanded)
    requires shared.Ok() && n.profiles.Ok() && x == n.profiles.Elems()
    requires Sit(shared, specs) && ListsHold(shared, lists) && Among(profiles, values, specs) && (n.spec, v) in specs
    requires Computes(merged) && want == merged(values, shared.Elems() + x, v)
    modifies shared.arr
    ensures ok == want.Ok? && Sit(shared, specs) && ListsHold(shared, lists)
    ensures Reads(shared, e.profiles, old(shared.Elems()) + x)
    ensures ok ==> ExpandsTo(shared, port, n, x, want, e) && Value(e.spec) == want.value && GoFold.New(e.spec)
    ensures Content(shared) == After(shared, old(Content(shared)), [x])
  {
    var names, list := AppendBeside(shared, n.profiles, spare, x, specs, lists);
    var spec: GoSpec;
    ghost var lists' := lists + {(names, list)};
    ok, spec := MergeBeside(shared, profiles, list, n.spec, spare, values, v, want, merged, specs, lists');
    assert (names, list) in lists';
    e := Expanded(n.name, n.host, PortOf(n, port), n.labels, names, spec);
  }

  ghost predicate TurnAt(
    shared: Slice<string>, content: Names, nodes: seq<GoNode>, own: seq<Names>, extras: seq<Names>, i: nat)
    requires Within(shared, content) && i < |nodes| == |own| == |extras|
  {
    extras[i] == ReadNow(shared, nodes[i].profiles, After(shared, content, extras[..i]), own[i])
  }

  /** `extras` are the nodes' own names as each reads when its turn comes. */
  ghost predicate Turns(
    shared: Slice<string>, content: Names, nodes: seq<GoNode>, own: seq<Names>, extras: seq<Names>)
    requires Within(shared, content)
  {
    && |nodes| == |own| == |extras|
    && forall i :: 0 <= i < |nodes| ==> TurnAt(shared, content, nodes, own, extras, i)
  }

  /** What the loop works through and is to make of it: the values of the profiles; for the nodes
      that are not disabled their own names and the values of their specs; what the shared array
      holds at the start; the names as each node reads them when its turn comes, and what it would
      then get alone. */
  datatype Plan = Plan(
    profiles: Profiles, values: Values, nodes: seq<GoNode>, own: seq<Names>, specs: seq<Merging.Value>,
    extras: seq<Names>, alone: seq<Outcome>, merged: Merger, start: Names, content: Names)
  {
    ghost function With(extras: seq<Names>, alone: seq<Outcome>): Plan {
      this.(extras := extras, alone := alone)
    }

    ghost predicate Shaped(shared: Slice<string>) {
      && Within(shared, content) && start == content[shared.from..shared.End()]
      && |nodes| == |own| == |specs| == |extras| == |alone| && values.Keys == profiles.Keys
    }

    /** The content of the array when the i-th turn comes. */
    ghost function At(shared: Slice<string>, i: nat): Names
      requires Shaped(shared) && i <= |extras|
    {
      After(shared, content, extras[..i])
    }

    /** What the i-th node gets: profiles and specs as they were at the start, under the names
        that are read at its turn. */
    ghost predicate AloneAt(i: nat)
      requires i < |nodes| && |nodes| == |specs| == |extras| == |alone|
    {
      alone[i] == merged(values, start + extras[i], specs[i])
    }

    ghost predicate Valid(shared: Slice<string>) {
      && Shaped(shared) && Computes(merged) && Turns(shared, content, nodes, own, extras)
      && forall i :: 0 <= i < |nodes| ==> AloneAt(i)
    }

    /** The specs and lists in use are among those that are looked after. */
    ghost predicate Covered(inUse: Valued, lists: Listed) {
      && |nodes| == |own| == |specs| && Among(profiles, values, inUse)
      && (forall i :: 0 <= i < |nodes| ==> (nodes[i].spec, specs[i]) in inUse)
      && forall i :: 0 <= i < |nodes| ==> (nodes[i].profiles, own[i]) in lists
    }

    /** The results made so far. */
    ghost predicate Made(shared: Slice<string>, port: int, out: seq<Expanded>, inUse: Valued, lists: Listed)
      requires Shaped(shared)
    {
      && |out| <= |nodes|
      && (forall i :: 0 <= i < |out| ==> ExpandsTo(shared, port, nodes[i], extras[i], alone[i], out[i]))
      && (forall i :: 0 <= i < |out| && alone[i].Ok? ==> (out[i].spec, alone[i].value) in inUse)
      && forall i :: 0 <= i < |out| ==> (out[i].profiles, start + extras[i]) in lists
    }
  }

  lemma TurnReads(shared: Slice<string>, p: Plan, specs: Valued, lists: Listed, i: nat)
    requires shared.Ok() && p.Valid(shared) && p.Covered(specs, lists) && ListsHold(shared, lists)
    requires i < |p.nodes| && Content(shared) == p.At(shared, i)
    ensures p.nodes[i].profiles.Ok() && p.extras[i] == p.nodes[i].profiles.Elems()
  {
    var q := (p.nodes[i].profiles, p.own[i]);
    assert q in lists && Reads(shared, q.0, q.1) && TurnAt(shared, p.content, p.nodes, p.own, p.extras, i);
  }

  lemma NextContent(shared: Slice<string>, p: Plan, i: nat)
    requires p.Shaped(shared) && i < |p.extras|
    ensures p.At(shared, i + 1) == After(shared, p.At(shared, i), [p.extras[i]])
  {
    AfterMore(shared, p.content, p.extras, i);
  }

  lemma StartStays(shared: Slice<string>, p: Plan, i: nat)
    requires shared.Ok() && p.Shaped(shared) && i <= |p.extras| && Content(shared) == p.At(shared, i)
    ensures shared.Elems() == p.start
  {
    var now := p.At(shared, i);
    assert now[shared.from..shared.End()] == now[..shared.End()][shared.from..];
    assert p.content[shared.from..shared.End()] == p.content[..shared.End()][shared.from..];
  }

  ghost predicate Underway(shared: Slice<string>, p: Plan, i: nat, specs: Valued, lists: Listed)
    requires shared.Ok() && p.Shaped(shared)
    reads *
  {
    && i <= |p.extras| && Content(shared) == p.At(shared, i)
    && p.Covered(specs, lists) && Sit(shared, specs) && ListsHold(shared, lists)
  }

  /** One turn of the plan; the containers of its result are none of `taken`. */
  method ExpandTurn(shared: Slice<string>, port: int, n: GoNode, profiles: Profiles, spare: nat,
      ghost p: Plan, ghost i: nat, ghost specs: Valued, ghost lists: Listed, ghost taken: set<object?>)
    returns (ok: bool, e: Expanded)
    requires shared.Ok() && p.Valid(shared) && Underway(shared, p, i, specs, lists)
    requires i < |p.nodes| && n == p.nodes[i] && profiles == p.profiles
    modifies shared.arr
    ensures ok == p.alone[i].Ok? && Underway(shared, p, i + 1, specs, lists)
    ensures Reads(shared, e.profiles, p.start + p.extras[i])
    ensures ok ==> ExpandsTo(shared, port, n, p.extras[i], p.alone[i], e) && Value(e.spec) == p.alone[i].value
    ensures ok ==> GoFold.Off(e.spec, taken)
  {
    TurnReads(shared, p, specs, lists, i);
    NextContent(shared, p, i);
    StartStays(shared, p, i);
    assert p.AloneAt(i);
    ok, e := ExpandNode(shared, port, n, profiles, spare, p.extras[i], specs, lists, p.values, p.specs[i],
                        p.alone[i], p.merged);
    if ok {
      GoFold.NewIsOff(e.spec, taken);
    }
  }

  lemma RankNext(all: seq<GoNode>, k: nat)
    requires k < |all|
    ensures all[k].disabled ==> Rank(all, k + 1) == Rank(all, k)
    ensures !all[k].disabled ==>
              Rank(all, k + 1) == Rank(all, k) + 1 <= |Enabled(all)| && Enabled(all)[Rank(all, k)] == all[k]
  {
    EnabledNext(all, k);
  }

  /** The loop's nodes are those that are not disabled, each at the number of them before it. */
  lemma EnabledRanked(all: seq<GoNode>)
    ensures Rank(all, |all|) == |Enabled(all)|
    ensures forall k :: 0 <= k < |all| && !all[k].disabled ==>
              Rank(all, k) < |Enabled(all)| && Enabled(all)[Rank(all, k)] == all[k]
    ensures forall k :: 0 <= k < |all| ==> Rank(all, k + 1) == Rank(all, k) + if all[k].disabled then 0 else 1
  {
    assert all[..|all|] == all;
    forall k | 0 <= k < |all|
      ensures Rank(all, k + 1) == Rank(all, k) + if all[k].disabled then 0 else 1
      ensures !all[k].disabled ==> Rank(all, k) < |Enabled(all)| && Enabled(all)[Rank(all, k)] == all[k]
    {
      RankNext(all, k);
    }
  }

  lemma MoreUnderway(
    shared: Slice<string>, p: Plan, i: nat, specs: Valued, lists: Listed, h: GoSpec, v: Merging.Value,
    list: Slice<string>, x: Names)
    requires shared.Ok() && p.Shaped(shared) && Underway(shared, p, i, specs, lists)
    requires Sound(h) && Value(h) == v && Reads(shared, list, x)
    ensures Underway(shared, p, i, specs + {(h, v)}, lists + {(list, x)})
  {
    SoundSits(shared, h);
    SitTogether(shared, specs, {(h, v)});
  }

  lemma MoreMade(
    shared: Slice<string>, port: int, p: Plan, out: seq<Expanded>, specs: Valued, lists: Listed, e: Expanded)
    requires p.Shaped(shared) && p.Made(shared, port, out, specs, lists) && |out| < |p.nodes|
    requires var i := |out|; ExpandsTo(shared, port, p.nodes[i], p.extras[i], p.alone[i], e)
    ensures var i := |out|;
            p.Made(shared, port, out + [e], specs + {(e.spec, p.alone[i].value)},
                   lists + {(e.profiles, p.start + p.extras[i])})
  {
  }

  /** The results' containers are none of those, and no two results share one. */
  ghost predicate OwnContainers(out: seq<Expanded>, before: set<object?>) {
    && (forall i :: 0 <= i < |out| ==> GoFold.Off(out[i].spec, before))
    && forall i, j :: 0 <= i < j < |out| ==> GoFold.Disjoint(out[i].spec, out[j].spec)
  }

  ghost predicate Taken(out: seq<Expanded>, before: set<object?>, taken: set<object?>) {
    before <= taken && forall i, c: object :: 0 <= i < |out| && c in Containers(out[i].spec) ==> c in taken
  }

  lemma AllTaken(out: seq<Expanded>, before: set<object?>) returns (taken: set<object?>)
    ensures Taken(out, before, taken)
  {
    taken := before + set i, c: object | 0 <= i < |out| && c in Containers(out[i].spec) :: c;
  }

  lemma MoreContainers(out: seq<Expanded>, before: set<object?>, taken: set<object?>, e: Expanded)
    requires OwnContainers(out, before) && Taken(out, before, taken) && GoFold.Off(e.spec, taken)
    ensures OwnContainers(out + [e], before)
  {
    assert GoFold.Off(e.spec, before);
    forall i | 0 <= i < |out| ensures GoFold.Disjoint(out[i].spec, e.spec) {
    }
  }

  lemma OneMore(shared: Slice<string>, port: int, p: Plan, out: seq<Expanded>, specs: Valued, lists: Listed,
      before: set<object?>, taken: set<object?>, e: Expanded, v: Merging.Value, x: Names)
    requires shared.Ok() && p.Shaped(shared) && |out| < |p.nodes| && p.Made(shared, port, out, specs, lists)
    requires var i := |out|;
             && Underway(shared, p, i + 1, specs, lists)
             && ExpandsTo(shared, port, p.nodes[i], p.extras[i], p.alone[i], e)
             && Value(e.spec) == v == p.alone[i].value && x == p.start + p.extras[i] && Reads(shared, e.profiles, x)
    requires OwnContainers(out, before) && Taken(out, before, taken) && GoFold.Off(e.spec, taken)
    ensures Underway(shared, p, |out| + 1, specs + {(e.spec, v)}, lists + {(e.profiles, x)})
    ensures p.Made(shared, port, out + [e], specs + {(e.spec, v)}, lists + {(e.profiles, x)})
    ensures OwnContainers(out + [e], before)
  {
    MoreUnderway(shared, p, |out| + 1, specs, lists, e.spec, v, e.profiles, x);
    MoreMade(shared, port, p, out, specs, lists, e);
    MoreContainers(out, before, taken, e);
  }

  /** One turn, and its result is added to the others. */
  method ExpandNext(shared: Slice<string>, port: int, n: GoNode, profiles: Profiles, spare: nat, out: seq<Expanded>,
      ghost p: Plan, ghost specs: Valued, ghost lists: Listed, ghost before: set<object?>)
    returns (ok: bool, out': seq<Expanded>, ghost specs': Valued, ghost lists': Listed)
    requires shared.Ok() && p.Valid(shared) && Underway(shared, p, |out|, specs, lists)
    requires p.Made(shared, port, out, specs, lists) && profiles == p.profiles
    requires |out| < |p.nodes| && n == p.nodes[|out|] && OwnContainers(out, before)
    modifies shared.arr
    ensures ok == p.alone[|out|].Ok? && Underway(shared, p, |out| + 1, specs', lists')
    ensures ok ==> |out'| == |out| + 1 && p.Made(shared, port, out', specs', lists') && OwnContainers(out', before)
  {
    ghost var taken := AllTaken(out, before);
    var e: Expanded;
    ok, e := ExpandTurn(shared, port, n, profiles, spare, p, |out|, specs, lists, taken);
    out', specs', lists' := out + [e], specs, lists;
    if ok {
      ghost var v, x := p.alone[|out|].value, p.start + p.extras[|out|];
      OneMore(shared, port, p, out, specs, lists, before, taken, e, v, x);
      specs', lists' := specs + {(e.spec, v)}, lists + {(e.profiles, x)};
    }
  }

  /** `nodes` are the nodes of `all` that are not disabled, `rank(k)` the number of them among the first k. */
  ghost predicate Ranked(all: seq<GoNode>, nodes: seq<GoNode>, rank: nat -> nat) {
    && rank(0) == 0 && rank(|all|) == |nodes|
    && forall k: nat {:trigger all[k]} :: k < |all| ==>
      && (all[k].disabled ==> rank(k + 1) == rank(k))
      && (!all[k].disabled ==> rank(k + 1) == rank(k) + 1 <= |nodes| && nodes[rank(k)] == all[k])
  }

  /** The body of the loop; `made` counts the turns. */
  method ExpandStep(shared: Slice<string>, port: int, all: seq<GoNode>, k: nat, profiles: Profiles, spare: nat,
      out: seq<Expanded>, ghost p: Plan, ghost rank: nat -> nat, ghost specs: Valued, ghost lists: Listed,
      ghost before: set<object?>)
    returns (ok: bool, out': seq<Expanded>, ghost made: nat, ghost specs': Valued, ghost lists': Listed)
    requires shared.Ok() && p.Valid(shared) && Underway(shared, p, |out|, specs, lists)
    requires p.Made(shared, port, out, specs, lists) && profiles == p.profiles
    requires k < |all| && Ranked(all, p.nodes, rank) && |out| == rank(k) && OwnContainers(out, before)
    modifies shared.arr
    ensures Underway(shared, p, made, specs', lists')
    ensures ok ==> made == |out'| == rank(k + 1) && p.Made(shared, port, out', specs', lists')
    ensures ok ==> OwnContainers(out', before)
    ensures !ok ==> made > 0 && p.alone[made - 1].Err?
  {
    if all[k].disabled {
      return true, out, |out|, specs, lists;
    }
    made := |out| + 1;
    ok, out', specs', lists' := ExpandNext(shared, port, all[k], profiles, spare, out, p, specs, lists, before);
  }

  /** The loop of ExpandCluster. */
  method ExpandNodes(shared: Slice<string>, port: int, all: seq<GoNode>, profiles: Profiles, spare: nat,
      ghost p: Plan, ghost rank: nat -> nat, ghost specs0: Valued, ghost lists0: Listed, ghost before: set<object?>)
    returns (ok: bool, out: seq<Expanded>, ghost made: nat, ghost specs: Valued, ghost lists: Listed)
    requires shared.Ok() && p.Valid(shared) && Underway(shared, p, 0, specs0, lists0)
    requires Ranked(all, p.nodes, rank) && profiles == p.profiles
    modifies shared.arr
    ensures Underway(shared, p, made, specs, lists)
    ensures ok ==> OwnContainers(out, before)
    ensures if ok then made == |p.nodes| == |out| && p.Made(shared, port, out, specs, lists)
            else made > 0 && p.alone[made - 1].Err?
  {
    out, specs, lists, made := [], specs0, lists0, 0;
    var k := 0;
    while k < |all|
      invariant 0 <= k <= |all| && made == |out| == rank(k)
      invariant Underway(shared, p, made, specs, lists) && p.Made(shared, port, out, specs, lists)
      invariant OwnContainers(out, before)
    {
      ok, out, made, specs, lists :=
        ExpandStep(shared, port, all, k, profiles, spare, out, p, rank, specs, lists, before);
      if !ok {
        return false, [], made, specs, lists;
      }
      k := k + 1;
    }
    ok := true;
  }

  /** What the list of the i-th result reads once all the appends have been made. */
  ghost function ReadBack(shared: Slice<string>, content: Names, extras: seq<Names>, i: nat): Names
    requires Within(shared, content) && i < |extras|
  {
    Sharing.Read(content[..shared.from + shared.cap], shared.End(), extras, i)[shared.from..]
  }

  /** A list that fits within the capacity reads what all the appends leave there. */
  lemma RoomReads(s: Slice<string>, content: Names, extras: seq<Names>, i: nat)
    requires Within(s, content) && i < |extras| && s.len + |extras[i]| <= s.cap
    ensures After(s, content, extras)[s.from..s.End() + |extras[i]|] == ReadBack(s, content, extras, i)
  {
    var limit, end := s.from + s.cap, s.End() + |extras[i]|;
    var written := Sharing.Spread(content[..limit], s.End(), extras);
    Sliced(written, content[limit..], s.from, end);
  }

  lemma Sliced(a: Names, b: Names, from: nat, end: nat)
    requires from <= end <= |a|
    ensures (a + b)[from..end] == a[..end][from..]
  {
  }

  /** One that does not has the names it was made of. */
  lemma NoRoom(s: Slice<string>, content: Names, extras: seq<Names>, i: nat)
    requires Within(s, content) && i < |extras| && (s.len + |extras[i]| > s.cap || s.cap + |extras[i]| == 0)
    ensures ReadBack(s, content, extras, i) == content[s.from..s.End()] + extras[i]
  {
    var window := content[..s.from + s.cap];
    assert window[..s.End()] == content[..s.End()];
    assert (content[..s.End()] + extras[i])[s.from..] == content[s.from..s.End()] + extras[i];
  }

  /** Every result's list reads the cluster's names and then its own exactly when any two nodes
      whose names fit in the spare capacity agree as far as both go. */
  lemma ListsIntactExactly(s: Slice<string>, content: Names, extras: seq<Names>)
    requires Within(s, content)
    ensures (forall i :: 0 <= i < |extras| ==>
               ReadBack(s, content, extras, i) == content[s.from..s.End()] + extras[i])
       <==> Sharing.Compatible(content[..s.from + s.cap], s.End(), extras)
  {
    var window := content[..s.from + s.cap];
    Sharing.IntactExactly(window, s.End(), extras);
    forall i | 0 <= i < |extras|
      ensures (ReadBack(s, content, extras, i) == content[s.from..s.End()] + extras[i])
           == (Sharing.Read(window, s.End(), extras, i) == window[..s.End()] + extras[i])
    {
      OneIntact(s, content, extras, i);
    }
  }

  lemma OneIntact(s: Slice<string>, content: Names, extras: seq<Names>, i: nat)
    requires Within(s, content) && i < |extras|
    ensures var window := content[..s.from + s.cap];
            (ReadBack(s, content, extras, i) == content[s.from..s.End()] + extras[i])
            == (Sharing.Read(window, s.End(), extras, i) == window[..s.End()] + extras[i])
  {
    var window := content[..s.from + s.cap];
    assert window[..s.End()] == content[..s.End()];
    FromStart(Sharing.Read(window, s.End(), extras, i), content[..s.End()], extras[i], s.from);
    assert content[s.from..s.End()] == content[..s.End()][s.from..];
  }

  lemma FromStart(read: Names, start: Names, x: Names, from: nat)
    requires from <= |start| <= |read| && read[..|start|] == start
    ensures read[from..] == start[from..] + x <==> read == start + x
  {
    assert (start + x)[from..] == start[from..] + x;
    if read[from..] == start[from..] + x {
      assert read == read[..from] + read[from..] && read[..from] == start[..from];
      assert start == start[..from] + start[from..];
    }
  }

  lemma OneListReads(shared: Slice<string>, content: Names, extras: seq<Names>, i: nat, list: Slice<string>)
    requires shared.Ok() && Within(shared, content) && i < |extras| && Content(shared) == After(shared, content, extras)
    requires Reads(shared, list, content[shared.from..shared.End()] + extras[i])
    requires if shared.Fits(|extras[i]|) then list == shared.(len := shared.len + |extras[i]|)
             else !Aliases(shared, list)
    ensures list.Ok() && list.Elems() == ReadBack(shared, content, extras, i)
  {
    if shared.Fits(|extras[i]|) {
      RoomReads(shared, content, extras, i);
    } else {
      NoRoom(shared, content, extras, i);
    }
  }

  lemma ListReads(shared: Slice<string>, port: int, p: Plan, out: seq<Expanded>, specs: Valued, lists: Listed, i: nat)
    requires shared.Ok() && p.Valid(shared) && Underway(shared, p, |p.nodes|, specs, lists)
    requires p.Made(shared, port, out, specs, lists) && i < |out| == |p.nodes|
    ensures out[i].profiles.Ok() && out[i].profiles.Elems() == ReadBack(shared, p.content, p.extras, i)
  {
    var q := (out[i].profiles, p.start + p.extras[i]);
    assert q in lists && Reads(shared, q.0, q.1);
    assert p.extras[..|p.extras|] == p.extras;
    assert ExpandsTo(shared, port, p.nodes[i], p.extras[i], p.alone[i], out[i]);
    OneListReads(shared, p.content, p.extras, i, out[i].profiles);
  }

  /** And its spec has the value that the plan says. */
  lemma SpecReads(shared: Slice<string>, port: int, p: Plan, out: seq<Expanded>, specs: Valued, lists: Listed, i: nat)
    requires shared.Ok() && p.Valid(shared) && Underway(shared, p, |p.nodes|, specs, lists)
    requires p.Made(shared, port, out, specs, lists) && i < |out| == |p.nodes|
    ensures Sound(out[i].spec) && Ok(Value(out[i].spec)) == p.alone[i]
         == Merging.MergeNodeProfiles(p.values, p.start + p.extras[i], p.specs[i])
  {
    assert p.AloneAt(i);
    assert ExpandsTo(shared, port, p.nodes[i], p.extras[i], p.alone[i], out[i]);
    SitsAlike(shared, specs, out[i].spec, p.alone[i].value);
  }

  /** Whatever the lists are, they read something at their turns: there is such a list of lists. */
  lemma {:induction false} TurnsExist(shared: Slice<string>, content: Names, nodes: seq<GoNode>, own: seq<Names>)
    returns (extras: seq<Names>)
    requires Within(shared, content) && |nodes| == |own|
    ensures Turns(shared, content, nodes, own, extras)
  {
    if nodes == [] {
      extras := [];
    } else {
      var n := |nodes| - 1;
      var front := TurnsExist(shared, content, nodes[..n], own[..n]);
      extras := front + [ReadNow(shared, nodes[n].profiles, After(shared, content, front), own[n])];
      assert extras[..n] == front;
      forall i | 0 <= i < n ensures TurnAt(shared, content, nodes, own, extras, i) {
        assert TurnAt(shared, content, nodes[..n], own[..n], front, i) && extras[..i] == front[..i];
      }
    }
  }

  /** And only one. */
  lemma {:induction false} TurnsUnique(
    shared: Slice<string>, content: Names, nodes: seq<GoNode>, own: seq<Names>, xs: seq<Names>, ys: seq<Names>, n: nat)
    requires Within(shared, content) && n <= |nodes|
    requires Turns(shared, content, nodes, own, xs) && Turns(shared, content, nodes, own, ys)
    ensures xs[..n] == ys[..n]
  {
    if n > 0 {
      TurnsUnique(shared, content, nodes, own, xs, ys, n - 1);
      assert TurnAt(shared, content, nodes, own, xs, n - 1) && TurnAt(shared, content, nodes, own, ys, n - 1);
      assert xs[..n] == xs[..n - 1] + [xs[n - 1]] && ys[..n] == ys[..n - 1] + [ys[n - 1]];
    }
  }

  /** Turns at which every own list reads what it read at the start are the only ones there are. */
  lemma OwnTurns(shared: Slice<string>, content: Names, nodes: seq<GoNode>, own: seq<Names>, extras: seq<Names>)
    requires Within(shared, content) && Turns(shared, content, nodes, own, extras)
    ensures extras == own <==> Turns(shared, content, nodes, own, own)
  {
    if Turns(shared, content, nodes, own, own) {
      TurnsUnique(shared, content, nodes, own, extras, own, |nodes|);
      assert extras[..|nodes|] == extras && own[..|nodes|] == own;
    }
  }

  /** The list has a place of the spare capacity, counted from the end of the shared one. */
  predicate Covers(shared: Slice<string>, list: Slice<string>, p: nat) {
    Aliases(shared, list) && list.from <= shared.End() + p < list.End() && shared.len + p < shared.cap
  }

  function Room(shared: Slice<string>, content: Names): Names
    requires Within(shared, content)
  {
    content[..shared.from + shared.cap]
  }

  lemma AfterAt(shared: Slice<string>, content: Names, xs: seq<Names>, q: nat)
    requires Within(shared, content) && q < |content|
    ensures After(shared, content, xs)[q]
         == if shared.End() <= q < shared.from + shared.cap
            then Sharing.Spread(Room(shared, content), shared.End(), xs)[q] else content[q]
  {
    var now, end := After(shared, content, xs), shared.End();
    if q < end {
      assert now[..end][q] == content[..end][q];
    }
  }

  /** Appends leave what a list reads as it is exactly when they leave the places it covers. */
  lemma ReadsSame(shared: Slice<string>, list: Slice<string>, content: Names, xs: seq<Names>, own: Names)
    requires Within(shared, content) && own == ReadNow(shared, list, content, own)
    requires Aliases(shared, list) ==> list.End() <= |content|
    ensures ReadNow(shared, list, After(shared, content, xs), own) == own
       <==> forall p: nat :: Covers(shared, list, p) ==>
              Sharing.Spread(Room(shared, content), shared.End(), xs)[shared.End() + p] == content[shared.End() + p]
  {
    var now, end := After(shared, content, xs), shared.End();
    forall p: nat | Covers(shared, list, p)
      ensures now[end + p] == Sharing.Spread(Room(shared, content), end, xs)[end + p]
    {
      AfterAt(shared, content, xs, end + p);
    }
    if Aliases(shared, list) {
      SameSlice(now, content, list.from, list.End());
      forall q: nat | list.from <= q < list.End() && now[q] != content[q]
        ensures q >= end && Covers(shared, list, q - end) && now[end + (q - end)] != content[end + (q - end)]
      {
        AfterAt(shared, content, xs, q);
      }
    }
  }

  lemma SameSlice(a: Names, b: Names, from: nat, to: nat)
    requires from <= to <= |a| == |b|
    ensures a[from..to] == b[from..to] <==> forall q :: from <= q < to ==> a[q] == b[q]
  {
    if a[from..to] == b[from..to] {
      assert forall q :: from <= q < to ==> a[q] == a[from..to][q - from] == b[from..to][q - from] == b[q];
    }
  }

  /** The own lists as they read at the start. */
  ghost predicate OwnAtStart(shared: Slice<string>, content: Names, nodes: seq<GoNode>, own: seq<Names>) {
    && |nodes| == |own|
    && forall i :: 0 <= i < |nodes| ==>
         && own[i] == ReadNow(shared, nodes[i].profiles, content, own[i])
         && (Aliases(shared, nodes[i].profiles) ==> nodes[i].profiles.End() <= |content|)
  }

  /** Wherever the list covers a place of the spare capacity, the last of the appends that reaches
      the place, if there is one, puts there what it had. */
  ghost predicate Undisturbed(shared: Slice<string>, content: Names, list: Slice<string>, xs: seq<Names>)
    requires Within(shared, content)
  {
    forall j: nat, p: nat :: Covers(shared, list, p) && Sharing.LastPut(Room(shared, content), shared.End(), xs, j, p)
      ==> xs[j][p] == content[shared.End() + p]
  }

  lemma OwnTurnExactly(shared: Slice<string>, content: Names, nodes: seq<GoNode>, own: seq<Names>, i: nat)
    requires Within(shared, content) && OwnAtStart(shared, content, nodes, own) && i < |nodes|
    ensures TurnAt(shared, content, nodes, own, own, i) <==> Undisturbed(shared, content, nodes[i].profiles, own[..i])
  {
    var list, room, end := nodes[i].profiles, Room(shared, content), shared.End();
    ReadsSame(shared, list, content, own[..i], own[i]);
    forall p: nat | Covers(shared, list, p)
      ensures Sharing.Spread(room, end, own[..i])[end + p] == content[end + p]
         <==> forall j: nat :: Sharing.LastPut(room, end, own[..i], j, p) ==> own[..i][j][p] == content[end + p]
    {
      Sharing.SpreadKeepsExactly(room, end, own[..i], p);
    }
  }

  /** The nodes' own lists read at their turns what they read at the start exactly when, at every
      place of the spare capacity that one of them covers, the last node before it whose names fit
      and reach there has the name that was there. */
  lemma OwnListsExactly(
    shared: Slice<string>, content: Names, nodes: seq<GoNode>, own: seq<Names>, extras: seq<Names>)
    requires Within(shared, content) && OwnAtStart(shared, content, nodes, own)
    requires Turns(shared, content, nodes, own, extras)
    ensures extras == own <==>
              forall i :: 0 <= i < |nodes| ==> Undisturbed(shared, content, nodes[i].profiles, own[..i])
  {
    OwnTurns(shared, content, nodes, own, extras);
    forall i: nat | i < |nodes|
      ensures TurnAt(shared, content, nodes, own, own, i) <==> Undisturbed(shared, content, nodes[i].profiles, own[..i])
    {
      OwnTurnExactly(shared, content, nodes, own, i);
    }
  }

  /** The list does not reach into the spare capacity of the shared one. */
  predicate Spares(shared: Slice<string>, list: Slice<string>) {
    Aliases(shared, list) ==> list.End() <= shared.End() || list.from >= shared.from + shared.cap
  }

  /** Own lists that stay out of the spare capacity read at their turns what they read at the
      start, in particular when none shares the array. */
  lemma OwnListsStay(
    shared: Slice<string>, content: Names, nodes: seq<GoNode>, own: seq<Names>, extras: seq<Names>)
    requires Within(shared, content) && OwnAtStart(shared, content, nodes, own)
    requires Turns(shared, content, nodes, own, extras)
    requires forall i :: 0 <= i < |nodes| ==> Spares(shared, nodes[i].profiles)
    ensures extras == own
  {
    OwnListsExactly(shared, content, nodes, own, extras);
  }

  /** What Go guarantees of any slice. */
  ghost predicate Usable(nodes: seq<GoNode>, profiles: Profiles) {
    && (forall k :: k in profiles ==> Sound(profiles[k]))
    && forall n :: n in nodes ==> n.profiles.Ok() && Sound(n.spec)
  }

  lemma {:induction false} EnabledIn(nodes: seq<GoNode>)
    ensures forall n :: n in Enabled(nodes) ==> n in nodes
  {
    if nodes != [] {
      EnabledIn(nodes[..|nodes| - 1]);
    }
  }

  ghost function ElemsOf(nodes: seq<GoNode>): (r: seq<Names>)
    requires forall n :: n in nodes ==> n.profiles.Ok()
    reads *
    ensures |r| == |nodes| && forall i :: 0 <= i < |r| ==> r[i] == nodes[i].profiles.Elems()
  {
    if nodes == [] then [] else ElemsOf(nodes[..|nodes| - 1]) + [nodes[|nodes| - 1].profiles.Elems()]
  }

  ghost function ValuesOf(nodes: seq<GoNode>): (r: seq<Merging.Value>)
    requires forall n :: n in nodes ==> Sound(n.spec)
    reads *
    ensures |r| == |nodes| && forall i :: 0 <= i < |r| ==> r[i] == Value(nodes[i].spec)
  {
    if nodes == [] then [] else ValuesOf(nodes[..|nodes| - 1]) + [Value(nodes[|nodes| - 1].spec)]
  }

  /** The plan for this cluster and these profiles as they are, but for its outcome. */
  ghost function PlanOf(c: GoCluster, profiles: Profiles): Plan
    requires c.profiles.Ok() && Usable(c.nodes, profiles)
    reads *
  {
    EnabledIn(c.nodes);
    var nodes := Enabled(c.nodes);
    Plan(profiles, ProfileValues(profiles), nodes, ElemsOf(nodes), ValuesOf(nodes), [], [],
         Merging.MergeNodeProfiles, c.profiles.Elems(), Content(c.profiles))
  }

  /** There is one. */
  lemma PlanExists(shared: Slice<string>, p0: Plan) returns (p: Plan)
    requires Within(shared, p0.content) && |p0.nodes| == |p0.own| == |p0.specs| && p0.values.Keys == p0.profiles.Keys
    requires p0.start == p0.content[shared.from..shared.End()] && Computes(p0.merged)
    ensures p.Valid(shared) && p == p0.With(p.extras, p.alone)
  {
    var extras := TurnsExist(shared, p0.content, p0.nodes, p0.own);
    p := p0.(extras := extras, alone := AllAlone(p0.With(extras, [])));
    forall i | 0 <= i < |p.nodes| ensures p.AloneAt(i) {
    }
  }

  ghost function AllAlone(p: Plan): (alone: seq<Outcome>)
    requires |p.nodes| == |p.specs| == |p.extras|
    ensures |alone| == |p.nodes|
    ensures forall i :: 0 <= i < |alone| ==> alone[i] == p.merged(p.values, p.start + p.extras[i], p.specs[i])
  {
    seq(|p.nodes|, i requires 0 <= i < |p.nodes| => p.merged(p.values, p.start + p.extras[i], p.specs[i]))
  }

  lemma Gather(profiles: Profiles, values: Values, nodes: seq<GoNode>, vs: seq<Merging.Value>) returns (specs: Valued)
    requires values.Keys == profiles.Keys && |nodes| == |vs|
    requires forall k :: k in profiles ==> Sound(profiles[k]) && values[k] == Value(profiles[k])
    requires forall i :: 0 <= i < |nodes| ==> Sound(nodes[i].spec) && vs[i] == Value(nodes[i].spec)
    ensures Among(profiles, values, specs)
    ensures forall i :: 0 <= i < |nodes| ==> (nodes[i].spec, vs[i]) in specs
    ensures forall q :: q in specs ==> Sound(q.0) && q.1 == Value(q.0)
  {
    specs := (set k | k in profiles :: (profiles[k], values[k])) + set i | 0 <= i < |nodes| :: (nodes[i].spec, vs[i]);
  }

  lemma GatherLists(shared: Slice<string>, nodes: seq<GoNode>, own: seq<Names>) returns (lists: Listed)
    requires |nodes| == |own|
    requires forall i :: 0 <= i < |nodes| ==> nodes[i].profiles.Ok() && own[i] == nodes[i].profiles.Elems()
    ensures forall i :: 0 <= i < |nodes| ==> (nodes[i].profiles, own[i]) in lists
    ensures ListsHold(shared, lists)
  {
    lists := set i | 0 <= i < |nodes| :: (nodes[i].profiles, own[i]);
  }

  /** The plan says what cluster, profiles and nodes are like now. */
  ghost predicate Describes(shared: Slice<string>, p: Plan)
    reads *
  {
    && shared.Ok() && p.content == Content(shared) && p.start == shared.Elems() && Computes(p.merged)
    && p.values.Keys == p.profiles.Keys && |p.nodes| == |p.own| == |p.specs|
    && (forall k :: k in p.profiles ==> Sound(p.profiles[k]) && p.values[k] == Value(p.profiles[k]))
    && (forall i :: 0 <= i < |p.nodes| ==> Sound(p.nodes[i].spec) && p.specs[i] == Value(p.nodes[i].spec))
    && forall i :: 0 <= i < |p.nodes| ==> p.nodes[i].profiles.Ok() && p.own[i] == p.nodes[i].profiles.Elems()
  }

  lemma PlanDescribes(c: GoCluster, profiles: Profiles)
    requires c.profiles.Ok() && Usable(c.nodes, profiles)
    ensures Describes(c.profiles, PlanOf(c, profiles))
  {
    EnabledIn(c.nodes);
  }

  lemma PlanFor(c: GoCluster, profiles: Profiles) returns (p: Plan, specs: Valued, lists: Listed)
    requires c.profiles.Ok() && Usable(c.nodes, profiles)
    ensures p.Valid(c.profiles) && p == PlanOf(c, profiles).With(p.extras, p.alone)
    ensures Underway(c.profiles, p, 0, specs, lists)
  {
    PlanDescribes(c, profiles);
    p, specs, lists := PlanFrom(c.profiles, PlanOf(c, profiles));
  }

  lemma PlanFrom(shared: Slice<string>, p0: Plan) returns (p: Plan, specs: Valued, lists: Listed)
    requires Describes(shared, p0)
    ensures shared.Ok() && p.Valid(shared) && p == p0.With(p.extras, p.alone)
    ensures Underway(shared, p, 0, specs, lists)
  {
    p := PlanExists(shared, p0);
    specs := Gather(p.profiles, p.values, p.nodes, p.specs);
    AllSit(shared, specs);
    lists := GatherLists(shared, p.nodes, p.own);
    assert p.extras[..0] == [];
    AfterNone(shared, p.content);
  }

  lemma AllSit(shared: Slice<string>, specs: Valued)
    requires forall q :: q in specs ==> Sound(q.0) && q.1 == Value(q.0)
    ensures Sit(shared, specs)
  {
  }

  /** The result: its spec has the value that profiles and spec give as they were at the start, under
      the names read at its turn, and its list reads what all the appends leave there. */
  ghost predicate Result(shared: Slice<string>, port: int, p: Plan, i: nat, e: Expanded)
    requires p.Shaped(shared) && i < |p.nodes|
    reads *
  {
    && ExpandsTo(shared, port, p.nodes[i], p.extras[i], p.alone[i], e)
    && Ok(Value(e.spec)) == p.alone[i] == Merging.MergeNodeProfiles(p.values, p.start + p.extras[i], p.specs[i])
    && e.profiles.Ok() && e.profiles.Elems() == ReadBack(shared, p.content, p.extras, i)
  }

  lemma IsResult(shared: Slice<string>, port: int, p: Plan, out: seq<Expanded>, specs: Valued, lists: Listed, i: nat)
    requires shared.Ok() && p.Valid(shared) && Underway(shared, p, |p.nodes|, specs, lists)
    requires p.Made(shared, port, out, specs, lists) && i < |out| == |p.nodes|
    ensures Result(shared, port, p, i, out[i])
  {
    SpecReads(shared, port, p, out, specs, lists, i);
    ListReads(shared, port, p, out, specs, lists, i);
  }

  lemma AreResults(shared: Slice<string>, port: int, p: Plan, out: seq<Expanded>, specs: Valued, lists: Listed)
    requires shared.Ok() && p.Valid(shared) && Underway(shared, p, |p.nodes|, specs, lists)
    requires p.Made(shared, port, out, specs, lists) && |out| == |p.nodes|
    ensures forall i :: 0 <= i < |out| ==> p.alone[i].Ok? && Result(shared, port, p, i, out[i])
  {
    forall i: nat | i < |out| ensures p.alone[i].Ok? && Result(shared, port, p, i, out[i]) {
      IsResult(shared, port, p, out, specs, lists, i);
    }
  }

  /** The loop, its results read when it is over. */
  method ExpandAll(shared: Slice<string>, port: int, all: seq<GoNode>, profiles: Profiles, spare: nat,
      ghost p: Plan, ghost specs0: Valued, ghost lists0: Listed, ghost before: set<object?>)
    returns (ok: bool, out: seq<Expanded>)
    requires shared.Ok() && p.Valid(shared) && Underway(shared, p, 0, specs0, lists0)
    requires p.nodes == Enabled(all) && profiles == p.profiles
    modifies shared.arr
    ensures shared.Elems() == p.start && (ok ==> OwnContainers(out, before))
    ensures ok <==> forall i :: 0 <= i < |p.alone| ==> p.alone[i].Ok?
    ensures ok ==> |out| == |p.nodes| && forall i :: 0 <= i < |out| ==> Result(shared, port, p, i, out[i])
  {
    ghost var specs: Valued, lists: Listed, made: nat;
    EnabledRanked(all);
    assert Ranked(all, p.nodes, k => Rank(all, k));
    ok, out, made, specs, lists :=
      ExpandNodes(shared, port, all, profiles, spare, p, k => Rank(all, k), specs0, lists0, before);
    StartStays(shared, p, made);
    if ok {
      AreResults(shared, port, p, out, specs, lists);
    }
  }

  twostate lemma OwnIsNew(new out: seq<Expanded>, before: set<object?>)
    requires OwnContainers(out, before) && forall c: object :: old(allocated(c)) ==> c in before
    ensures forall i :: 0 <= i < |out| ==> GoFold.New(out[i].spec)
  {
  }

  /** ExpandCluster, whatever arrays its lists share: the results are the enabled nodes in order, each
      with the spec that the cluster's profiles, then its own as they read when its turn comes, then
      its own spec give, all with the values they had at the start; it fails if one of them names a
      missing profile. Each result's spec has containers of its own, made during the call. */
  method ExpandCluster(c: GoCluster, profiles: Profiles, spare: nat)
    returns (ok: bool, out: seq<Expanded>, ghost extras: seq<Names>, ghost alone: seq<Outcome>)
    requires c.profiles.Ok() && Usable(c.nodes, profiles)
    modifies c.profiles.arr
    ensures old(PlanOf(c, profiles)).With(extras, alone).Valid(c.profiles)
    ensures c.profiles.Elems() == old(c.profiles.Elems())
    ensures ok ==> forall i :: 0 <= i < |out| ==> GoFold.New(out[i].spec)
    ensures ok ==> forall i, j :: 0 <= i < j < |out| ==> GoFold.Disjoint(out[i].spec, out[j].spec)
    ensures ok <==> forall i :: 0 <= i < |alone| ==> alone[i].Ok?
    ensures ok ==>
              var p := old(PlanOf(c, profiles)).With(extras, alone);
              var port := if c.defaultPort == 0 then 9000 else c.defaultPort;
              |out| == |p.nodes| && forall i :: 0 <= i < |out| ==> Result(c.profiles, port, p, i, out[i])
  {
    var port := if c.defaultPort == 0 then AGENT_PORT else c.defaultPort;
    ghost var p, specs, lists := PlanFor(c, profiles);
    extras, alone := p.extras, p.alone;
    ghost var before: set<object?> := set o: object {:trigger allocated(o)} | allocated(o);
    ok, out := ExpandAll(c.profiles, port, c.nodes, profiles, spare, p, specs, lists, before);
    if ok {
      OwnIsNew(out, before);
    }
  }
}
