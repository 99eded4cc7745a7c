/** Folding profiles with either merger on Go's containers: pkg/profile's Merge and
    pkg/inventory's mergeNodeProfiles, whose loops differ only in the mergeSpecs they call. */
module GoFold {
  import opened Wrappers
  import opened GoMerge
  import Merging

  type Profiles = map<string, GoSpec>
  type Values = map<string, Merging.Value>
  type Overriding = (Merging.Value, Merging.Value) -> Merging.Value

  datatype Merger = ProfilePackage | InventoryPackage

  function OnValues(m: Merger, d: Merging.Value, s: Merging.Value): Merging.Value {
    match m
    case ProfilePackage => Merging.MergeSpecs(d, s)
    case InventoryPackage => Merging.InventoryMerge(d, s)
  }

  /** Every container of `h` was made since the call began. */
  twostate predicate New(new h: GoSpec) {
    forall c: object :: c in Containers(h) ==> fresh(c)
  }

  /** `d` and `s` share no container, said of the set of them. */
  ghost predicate Disjoint(d: GoSpec, s: GoSpec) {
    forall c: object :: c in Containers(d) ==> c !in Containers(s)
  }

  /** The set of the containers of `h`. */
  ghost predicate Owned(written: set<object?>, h: GoSpec) {
    && null !in written && (forall c :: c in written ==> c in Containers(h))
    && forall c: object :: c in Containers(h) ==> c in written
  }

  /** No container of `h` is among those. */
  ghost predicate Outside(written: set<object?>, h: GoSpec) {
    && h.system.packages.arr !in written && h.system.parameters !in written && h.network.firewall.rules.arr !in written
    && h.network.vcGateways.arr !in written && h.network.managementCIDRs.arr !in written
    && h.execution.flags !in written && h.consensus.flags !in written
  }

  lemma DisjointIsOutside(written: set<object?>, d: GoSpec, profiles: Profiles)
    requires Owned(written, d) && forall n :: n in profiles ==> Disjoint(d, profiles[n])
    ensures forall n :: n in profiles ==> Outside(written, profiles[n])
  {
  }

  twostate lemma NewIsBeside(new h: GoSpec, profiles: Profiles)
    requires New(h)
    ensures forall n :: n in profiles ==> Disjoint(h, profiles[n])
  {
  }

  twostate lemma NewIsDisjoint(new h: GoSpec, s: GoSpec)
    requires New(h)
    ensures Disjoint(h, s)
  {
  }

  twostate lemma StillNew(new before: set<object?>, new h: GoSpec)
    requires forall c: object :: c in before ==> fresh(c)
    requires forall c: object :: c in Containers(h) ==> c in before || fresh(c)
    ensures New(h)
  {
  }

  lemma Gathered(h: GoSpec) returns (written: set<object?>)
    ensures Owned(written, h)
  {
    written := set c: object | c in Containers(h);
  }

  lemma DisjointIsSeparate(d: GoSpec, s: GoSpec)
    requires Disjoint(d, s)
    ensures Separate(d, s)
  {
    var cs: seq<object?> := [
      d.system.packages.arr, d.system.parameters, d.network.firewall.rules.arr, d.network.vcGateways.arr,
      d.network.managementCIDRs.arr, d.execution.flags, d.consensus.flags];
    assert cs[0] in Containers(d) && cs[1] in Containers(d) && cs[2] in Containers(d) && cs[3] in Containers(d);
    assert cs[4] in Containers(d) && cs[5] in Containers(d) && cs[6] in Containers(d);
  }

  lemma NothingYetValue()
    ensures Sound(NothingYet()) && Apart(NothingYet()) && Value(NothingYet()) == Merging.ZERO
    ensures forall c: object :: c !in Containers(NothingYet())
  {
  }

  /** The profiles are what `values` says. */
  ghost predicate Given(profiles: Profiles, values: Values)
    reads *
  {
    && values.Keys == profiles.Keys
    && forall n :: n in profiles ==> Sound(profiles[n]) && Value(profiles[n]) == values[n]
  }

  // The same, piece by piece.

  ghost predicate KeyedGiven(profiles: Profiles, values: Values)
    reads *
  {
    && values.Keys == profiles.Keys
    && (forall n :: n in profiles ==> HasSystem(profiles[n], values[n]))
    && forall n :: n in profiles ==> HasRules(profiles[n], values[n])
  }

  ghost predicate MapsGiven(profiles: Profiles, values: Values)
    reads *
  {
    values.Keys == profiles.Keys && forall n :: n in profiles ==> HasFlags(profiles[n], values[n])
  }

  ghost predicate RestGiven(profiles: Profiles, values: Values)
    reads *
  {
    && values.Keys == profiles.Keys && (forall n :: n in profiles ==> HasLists(profiles[n], values[n]))
    && forall n :: n in profiles ==> SameRest(profiles[n], values[n])
  }

  lemma GivenPieces(profiles: Profiles, values: Values)
    ensures Given(profiles, values)
       <==> KeyedGiven(profiles, values) && MapsGiven(profiles, values) && RestGiven(profiles, values)
  {
    if values.Keys == profiles.Keys {
      forall n | n in profiles
        ensures (Sound(profiles[n]) && Value(profiles[n]) == values[n])
             == (HasSystem(profiles[n], values[n]) && HasRules(profiles[n], values[n])
                 && HasFlags(profiles[n], values[n]) && HasLists(profiles[n], values[n])
                 && SameRest(profiles[n], values[n]))
      {
        Pieces(profiles[n], values[n]);
      }
    }
  }

  /** Either mergeSpecs, as a step of a fold with `merge`. */
  method Override(m: Merger, base: GoSpec, s: GoSpec, spare: nat, ghost bv: Merging.Value, ghost sv: Merging.Value,
      ghost merge: Overriding)
    returns (r: GoSpec)
    requires forall d, s {:trigger OnValues(m, d, s)} :: merge(d, s) == OnValues(m, d, s)
    requires Sound(base) && Sound(s) && Apart(base) && Disjoint(base, s) && Value(base) == bv && Value(s) == sv
    modifies Containers(base)
    ensures Sound(r) && Apart(r) && Value(r) == merge(bv, sv)
    ensures forall c: object :: c in Containers(r) ==> c in Containers(base) || fresh(c)
  {
    DisjointIsSeparate(base, s);
    assert merge(bv, sv) == OnValues(m, bv, sv);
    match m
    case ProfilePackage => r := MergeSpecs(base, s, spare);
    case InventoryPackage => r := InventoryMergeSpecs(base, s, spare);
  }

  /** The same, `written` being the containers of `base`. */
  method OverrideIn(
      m: Merger, base: GoSpec, s: GoSpec, spare: nat, ghost bv: Merging.Value, ghost sv: Merging.Value,
      ghost merge: Overriding, ghost written: set<object?>)
    returns (r: GoSpec)
    requires forall d, s {:trigger OnValues(m, d, s)} :: merge(d, s) == OnValues(m, d, s)
    requires Sound(base) && Sound(s) && Apart(base) && Disjoint(base, s) && Value(base) == bv && Value(s) == sv
    requires Owned(written, base)
    modifies written
    ensures Sound(r) && Apart(r) && Value(r) == merge(bv, sv)
    ensures forall c: object :: c in Containers(r) ==> c in written || fresh(c)
  {
    r := Override(m, base, s, spare, bv, sv, merge);
  }

  /** Lists of packages and rules elsewhere stay as they are. */
  method OverrideBesideLists(
      m: Merger, base: GoSpec, s: GoSpec, spare: nat, ghost bv: Merging.Value, ghost sv: Merging.Value,
      ghost merge: Overriding, ghost written: set<object?>, ghost profiles: Profiles, ghost values: Values)
    returns (r: GoSpec)
    requires forall d, s {:trigger OnValues(m, d, s)} :: merge(d, s) == OnValues(m, d, s)
    requires Sound(base) && Sound(s) && Apart(base) && Disjoint(base, s) && Value(base) == bv && Value(s) == sv
    requires Owned(written, base) && forall n :: n in profiles ==> Outside(written, profiles[n])
    requires KeyedGiven(profiles, values)
    modifies written
    ensures Sound(r) && Apart(r) && Value(r) == merge(bv, sv) && KeyedGiven(profiles, values)
    ensures forall c: object :: c in Containers(r) ==> c in written || fresh(c)
  {
    r := OverrideIn(m, base, s, spare, bv, sv, merge, written);
  }

  /** And so do maps. */
  method OverrideBesideMaps(
      m: Merger, base: GoSpec, s: GoSpec, spare: nat, ghost bv: Merging.Value, ghost sv: Merging.Value,
      ghost merge: Overriding, ghost written: set<object?>, ghost profiles: Profiles, ghost values: Values)
    returns (r: GoSpec)
    requires forall d, s {:trigger OnValues(m, d, s)} :: merge(d, s) == OnValues(m, d, s)
    requires Sound(base) && Sound(s) && Apart(base) && Disjoint(base, s) && Value(base) == bv && Value(s) == sv
    requires Owned(written, base) && forall n :: n in profiles ==> Outside(written, profiles[n])
    requires KeyedGiven(profiles, values) && MapsGiven(profiles, values)
    modifies written
    ensures Sound(r) && Apart(r) && Value(r) == merge(bv, sv)
    ensures KeyedGiven(profiles, values) && MapsGiven(profiles, values)
    ensures forall c: object :: c in Containers(r) ==> c in written || fresh(c)
  {
    r := OverrideBesideLists(m, base, s, spare, bv, sv, merge, written, profiles, values);
  }

  /** And so do the other containers. */
  method OverrideBesidePieces(
      m: Merger, base: GoSpec, s: GoSpec, spare: nat, ghost bv: Merging.Value, ghost sv: Merging.Value,
      ghost merge: Overriding, ghost written: set<object?>, ghost profiles: Profiles, ghost values: Values)
    returns (r: GoSpec)
    requires forall d, s {:trigger OnValues(m, d, s)} :: merge(d, s) == OnValues(m, d, s)
    requires Sound(base) && Sound(s) && Apart(base) && Disjoint(base, s) && Value(base) == bv && Value(s) == sv
    requires Owned(written, base) && forall n :: n in profiles ==> Outside(written, profiles[n])
    requires KeyedGiven(profiles, values) && MapsGiven(profiles, values) && RestGiven(profiles, values)
    modifies written
    ensures Sound(r) && Apart(r) && Value(r) == merge(bv, sv)
    ensures KeyedGiven(profiles, values) && MapsGiven(profiles, values) && RestGiven(profiles, values)
    ensures forall c: object :: c in Containers(r) ==> c in written || fresh(c)
  {
    r := OverrideBesideMaps(m, base, s, spare, bv, sv, merge, written, profiles, values);
  }

  /** One more layer, beside profiles that stay as they are. */
  method OverrideBeside(
      m: Merger, base: GoSpec, s: GoSpec, spare: nat, ghost bv: Merging.Value, ghost sv: Merging.Value,
      ghost merge: Overriding, ghost profiles: Profiles, ghost values: Values)
    returns (r: GoSpec)
    requires forall d, s {:trigger OnValues(m, d, s)} :: merge(d, s) == OnValues(m, d, s)
    requires Sound(base) && Sound(s) && Apart(base) && Disjoint(base, s) && Value(base) == bv && Value(s) == sv
    requires Given(profiles, values) && forall n :: n in profiles ==> Disjoint(base, profiles[n])
    modifies Containers(base)
    ensures Sound(r) && Apart(r) && Value(r) == merge(bv, sv) && Given(profiles, values)
    ensures forall c: object :: c in Containers(r) ==> c in Containers(base) || fresh(c)
  {
    ghost var written := Gathered(base);
    DisjointIsOutside(written, base, profiles);
    GivenPieces(profiles, values);
    r := OverrideBesidePieces(m, base, s, spare, bv, sv, merge, written, profiles, values);
    GivenPieces(profiles, values);
  }

  /** A base of its own with the value. */
  ghost predicate Has(base: GoSpec, v: Merging.Value)
    reads Containers(base)
  {
    Sound(base) && Apart(base) && Value(base) == v
  }

  /** What is left to do after the first i names gives `want`. */
  ghost predicate Left(values: Values, names: seq<string>, i: nat, bv: Merging.Value, merge: Overriding,
      want: Result<Merging.Value, Merging.NotFound>)
  {
    i <= |names| && want == Merging.Fold(values, names[i..], bv, merge)
  }

  lemma LeftNext(values: Values, names: seq<string>, i: nat, bv: Merging.Value, merge: Overriding,
      want: Result<Merging.Value, Merging.NotFound>)
    requires Left(values, names, i, bv, merge, want)
    ensures i == |names| ==> want == Ok(bv)
    ensures i < |names| && names[i] !in values ==> want == Err(Merging.NotFound(bv, names[i]))
    ensures i < |names| && names[i] in values ==>
              Left(values, names, i + 1, merge(bv, values[names[i]]), merge, want)
  {
    Merging.FoldNext(values, names, i, bv, merge);
  }

  lemma LeftKeeps(
    values: Values, names: seq<string>, merge: Overriding, want: Result<Merging.Value, Merging.NotFound>)
    requires want == Merging.Fold(values, names, Merging.ZERO, merge)
    ensures Left(values, names, 0, Merging.ZERO, merge, want)
    ensures forall i: nat, v :: i < |names| && names[i] in values && Left(values, names, i, v, merge, want) ==>
              Left(values, names, i + 1, merge(v, values[names[i]]), merge, want)
  {
    assert names[0..] == names;
    forall i: nat, v | i < |names| && names[i] in values && Left(values, names, i, v, merge, want)
      ensures Left(values, names, i + 1, merge(v, values[names[i]]), merge, want)
    {
      LeftNext(values, names, i, v, merge, want);
    }
  }

  /** The containers of the profiles are among `theirs`. */
  ghost predicate Theirs(profiles: Profiles, theirs: set<object?>) {
    forall n, c: object :: n in profiles && c in Containers(profiles[n]) ==> c in theirs
  }

  ghost predicate Off(h: GoSpec, theirs: set<object?>) {
    forall c: object :: c in Containers(h) ==> c !in theirs
  }

  lemma OffIsDisjoint(h: GoSpec, theirs: set<object?>, profiles: Profiles)
    requires Off(h, theirs) && Theirs(profiles, theirs)
    ensures forall n :: n in profiles ==> Disjoint(h, profiles[n])
  {
    forall n | n in profiles ensures Disjoint(h, profiles[n]) {
      forall c: object | c in Containers(h) ensures c !in Containers(profiles[n]) {
      }
    }
  }

  twostate lemma NewIsOff(new h: GoSpec, theirs: set<object?>)
    requires New(h)
    ensures Off(h, theirs)
  {
  }

  /** The body of the loop. */
  method MergeName(
      m: Merger, base: GoSpec, name: string, profiles: Profiles, spare: nat, ghost bv: Merging.Value,
      ghost merge: Overriding, ghost values: Values, ghost theirs: set<object?>)
    returns (ok: bool, r: GoSpec, ghost bv': Merging.Value)
    requires forall d, s {:trigger OnValues(m, d, s)} :: merge(d, s) == OnValues(m, d, s)
    requires Has(base, bv) && Given(profiles, values) && Theirs(profiles, theirs) && Off(base, theirs)
    modifies Containers(base)
    ensures ok == (name in profiles) && bv' == (if ok then merge(bv, values[name]) else bv)
    ensures Has(r, bv') && Given(profiles, values)
    ensures forall c: object :: c in Containers(r) ==> c in Containers(base) || fresh(c)
  {
    if name !in profiles {
      return false, base, bv;
    }
    bv' := merge(bv, values[name]);
    ok := true;
    OffIsDisjoint(base, theirs, profiles);
    r := OverrideBeside(m, base, profiles[name], spare, bv, values[name], merge, profiles, values);
  }

  method Nothing() returns (base: GoSpec)
    ensures Has(base, Merging.ZERO) && New(base)
  {
    NothingYetValue();
    base := NothingYet();
  }

  /** The loop over the names. It ends at the first one without a profile, or at the end; `left` is
      anything that holds at the start and stays true from name to name. */
  method MergeNamed(m: Merger, profiles: Profiles, names: seq<string>, spare: nat, ghost values: Values,
      ghost merge: Overriding, ghost left: (nat, Merging.Value) -> bool, ghost theirs: set<object?>)
    returns (ok: bool, base: GoSpec, ghost at: nat, ghost bv: Merging.Value)
    requires forall d, s {:trigger OnValues(m, d, s)} :: merge(d, s) == OnValues(m, d, s)
    requires Given(profiles, values) && Theirs(profiles, theirs) && left(0, Merging.ZERO)
    requires forall i: nat, v :: i < |names| && names[i] in values && left(i, v) ==>
               left(i + 1, merge(v, values[names[i]]))
    ensures Has(base, bv) && New(base) && Given(profiles, values)
    ensures left(at, bv) && if ok then at == |names| else at < |names| && names[at] !in profiles
  {
    base := Nothing();
    bv := Merging.ZERO;
    var i := 0;
    while i < |names|
      invariant 0 <= i <= |names| && left(i, bv)
      invariant Has(base, bv) && New(base) && Given(profiles, values)
    {
      NewIsOff(base, theirs);
      ghost var before := Containers(base);
      ok, base, bv := MergeName(m, base, names[i], profiles, spare, bv, merge, values, theirs);
      StillNew(before, base);
      if !ok {
        return false, base, i, bv;
      }
      i := i + 1;
    }
    return true, base, i, bv;
  }

  /** The profiles in order over the empty spec. */
  method MergeProfiles(m: Merger, profiles: Profiles, names: seq<string>, spare: nat, ghost values: Values,
      ghost merge: Overriding)
    returns (ok: bool, base: GoSpec)
    requires forall d, s {:trigger OnValues(m, d, s)} :: merge(d, s) == OnValues(m, d, s)
    requires Given(profiles, values)
    ensures Sound(base) && Apart(base) && New(base) && Given(profiles, values)
    ensures Merging.Fold(values, names, Merging.ZERO, merge).Ok? == ok
    ensures Value(base) == Merging.Reached(Merging.Fold(values, names, Merging.ZERO, merge))
  {
    ghost var want := Merging.Fold(values, names, Merging.ZERO, merge);
    ghost var theirs: set<object?> := set n, c: object | n in profiles && c in Containers(profiles[n]) :: c;
    ghost var at: nat, bv: Merging.Value;
    LeftKeeps(values, names, merge, want);
    ok, base, at, bv := MergeNamed(m, profiles, names, spare, values, merge,
                                   (i: nat, v) => Left(values, names, i, v, merge, want), theirs);
    LeftNext(values, names, at, bv, merge, want);
  }

  /** The profiles in order over the empty spec, then the node's own spec. */
  method MergeWith(m: Merger, profiles: Profiles, names: seq<string>, node: GoSpec, spare: nat, ghost values: Values,
      ghost merge: Overriding)
    returns (ok: bool, r: GoSpec)
    requires forall d, s {:trigger OnValues(m, d, s)} :: merge(d, s) == OnValues(m, d, s)
    requires Sound(node) && Given(profiles, values)
    ensures Sound(r) && Apart(r) && New(r) && Given(profiles, values)
    ensures Merging.Fold(values, names, Merging.ZERO, merge).Ok? == ok
    ensures match Merging.Fold(values, names, Merging.ZERO, merge)
            case Ok(v) => Value(r) == merge(v, old(Value(node)))
            case Err(e) => Value(r) == e.partial
  {
    ok, r := MergeProfiles(m, profiles, names, spare, values, merge);
    if ok {
      ghost var nv := Value(node);
      assert nv == old(Value(node));
      NewIsDisjoint(r, node);
      NewIsBeside(r, profiles);
      ghost var before, bv := Containers(r), Value(r);
      r := OverrideBeside(m, r, node, spare, bv, nv, merge, profiles, values);
      StillNew(before, r);
    }
  }

  /** Merge: it writes to nothing that existed before the call, and gives the override of values. */
  method Merge(profiles: Profiles, names: seq<string>, node: GoSpec, spare: nat, ghost values: Values)
    returns (ok: bool, r: GoSpec)
    requires Sound(node) && Given(profiles, values)
    ensures Sound(r) && Apart(r) && New(r) && Given(profiles, values)
    ensures ok == Merging.Merge(values, names, old(Value(node))).Ok?
    ensures Value(r) == Merging.Reached(Merging.Merge(values, names, old(Value(node))))
  {
    ok, r := MergeWith(ProfilePackage, profiles, names, node, spare, values, Merging.MergeSpecs);
  }

  /** mergeNodeProfiles, likewise. */
  method MergeNodeProfiles(profiles: Profiles, names: seq<string>, node: GoSpec, spare: nat, ghost values: Values)
    returns (ok: bool, r: GoSpec)
    requires Sound(node) && Given(profiles, values)
    ensures Sound(r) && Apart(r) && New(r) && Given(profiles, values)
    ensures ok == Merging.MergeNodeProfiles(values, names, old(Value(node))).Ok?
    ensures Value(r) == Merging.Reached(Merging.MergeNodeProfiles(values, names, old(Value(node))))
  {
    ok, r := MergeWith(InventoryPackage, profiles, names, node, spare, values, Merging.InventoryMerge);
  }

  /** What has been made so far is what each node would get alone. */
  ghost predicate MadeAlone(made: seq<GoSpec>, alone: seq<Result<Merging.Value, Merging.NotFound>>)
    reads *
  {
    && |made| <= |alone|
    && forall i :: 0 <= i < |made| ==> Sound(made[i]) && alone[i].Ok? && Value(made[i]) == alone[i].value
  }

  /** One more node: what was made before stays as it is. */
  method MergeNext(profiles: Profiles, names: seq<string>, node: GoSpec, spare: nat, ghost values: Values,
      ghost made: seq<GoSpec>, ghost alone: seq<Result<Merging.Value, Merging.NotFound>>)
    returns (ok: bool, r: GoSpec)
    requires Sound(node) && Given(profiles, values)
    requires MadeAlone(made, alone) && |made| < |alone| && alone[|made|] == Merging.Merge(values, names, Value(node))
    ensures MadeAlone(made, alone) && Given(profiles, values) && ok == alone[|made|].Ok?
    ensures Sound(r) && (ok ==> Value(r) == alone[|made|].value)
  {
    ok, r := Merge(profiles, names, node, spare, values);
    forall j | 0 <= j < |made| ensures Value(made[j]) == alone[j].value {
      assert Value(made[j]) == old(Value(made[j]));
    }
  }

  lemma MadeOneMore(made: seq<GoSpec>, r: GoSpec, alone: seq<Result<Merging.Value, Merging.NotFound>>)
    requires MadeAlone(made, alone) && |made| < |alone| && Sound(r) && alone[|made|].Ok?
    requires Value(r) == alone[|made|].value
    ensures MadeAlone(made + [r], alone)
  {
  }

  /** Several nodes merged against the same profiles, one after another: `alone` is what each
      would get alone, and it gets that. */
  method MergeEach(profiles: Profiles, nodes: seq<(seq<string>, GoSpec)>, spare: nat,
      ghost values: Values, ghost alone: seq<Result<Merging.Value, Merging.NotFound>>)
    returns (ok: bool, out: seq<GoSpec>)
    requires Given(profiles, values)
    requires |alone| == |nodes|
    requires forall i :: 0 <= i < |nodes| ==>
               Sound(nodes[i].1) && alone[i] == Merging.Merge(values, nodes[i].0, Value(nodes[i].1))
    ensures ok <==> forall i :: 0 <= i < |alone| ==> alone[i].Ok?
    ensures MadeAlone(out, alone) && (ok ==> |out| == |nodes|)
  {
    out := [];
    var i := 0;
    while i < |nodes|
      invariant 0 <= i <= |nodes| && |out| == i && MadeAlone(out, alone) && Given(profiles, values)
    {
      var node := nodes[i];
      assert Value(node.1) == old(Value(node.1));
      var r: GoSpec;
      ok, r := MergeNext(profiles, node.0, node.1, spare, values, out, alone);
      if !ok {
        return false, out;
      }
      MadeOneMore(out, r, alone);
      out := out + [r];
      i := i + 1;
    }
    return true, out;
  }
}
