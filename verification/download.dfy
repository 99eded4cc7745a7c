/** A download that starts later than its discovery: how long the URL a downloader has found
    keeps streaming the complete archive while snapshots are made and pruned. */
module Download {
  import opened Wrappers
  import opened Text
  import opened Snapshot
  import Publish
  import Serving

  /** The directory has the whole archive of the block. */
  predicate Whole(f: Folder, block: string) {
    block in f.dirs && f.dirs[block] == Complete
  }

  /** Which effects of an attempt write to, or delete, the archive of the block: redoing it starts
      with truncating it. */
  function CreateHarms(a: Attempt, block: string): seq<bool> {
    if !ReachesTar(a) then []
    else
      var redone := a.block == block;
      match a.tar
      case NeverStarts => [false, redone && a.removes]
      case Breaks => [false, redone, redone]
      case Works => [false, redone, false] + if a.points then [false] else []
  }

  /** Which removals of a prune take the archive away. */
  function PruneHarms(victims: seq<Block>, fail: Option<Failure>, block: string): seq<bool>
    decreases |victims|
  {
    if victims == [] then []
    else if fail.Some? && fail.value.at == 0 then [victims[0].name == block && fail.value.left != Complete]
    else
      var fail' := if fail.Some? then Some(fail.value.(at := fail.value.at - 1)) else None;
      [victims[0].name == block] + PruneHarms(victims[1..], fail', block)
  }

  function CycleHarms(keep: int, c: Publish.Cycle, block: string): seq<bool> {
    CreateHarms(c.attempt, block)
    + if Succeeds(c.attempt) && c.listed then PruneHarms(Victims(c.order, keep), c.fail, block) else []
  }

  /** Which effects of a run redo or remove the block, in the order of its states. */
  function RunHarms(keep: int, cycles: seq<Publish.Cycle>, block: string): seq<bool> {
    if cycles == [] then [] else CycleHarms(keep, cycles[0], block) + RunHarms(keep, cycles[1..], block)
  }

  function Prior(f: Folder, states: seq<Folder>, i: nat): Folder
    requires i <= |states|
  {
    if i == 0 then f else states[i - 1]
  }

  /** A whole archive stays whole over an effect exactly when the effect does not harm it. */
  ghost predicate Tracks(f: Folder, states: seq<Folder>, harms: seq<bool>, block: string) {
    && |states| == |harms|
    && forall i :: 0 <= i < |states| && Whole(Prior(f, states, i), block) ==> (Whole(states[i], block) <==> !harms[i])
  }

  lemma TracksConcat(f: Folder, xs: seq<Folder>, hs: seq<bool>, ys: seq<Folder>, gs: seq<bool>, block: string)
    requires Tracks(f, xs, hs, block) && Tracks(Last(f, xs), ys, gs, block)
    ensures Tracks(f, xs + ys, hs + gs, block)
  {
    var states, harms := xs + ys, hs + gs;
    forall i | 0 <= i < |states| && Whole(Prior(f, states, i), block) ensures Whole(states[i], block) <==> !harms[i] {
      if i < |xs| {
        assert Prior(f, states, i) == Prior(f, xs, i);
      } else {
        assert Prior(f, states, i) == Prior(Last(f, xs), ys, i - |xs|);
      }
    }
  }

  lemma CreateTracks(f: Folder, a: Attempt, block: string)
    ensures Tracks(f, CreateStates(f, a), CreateHarms(a, block), block)
  {
  }

  lemma {:induction false} PruneTracks(f: Folder, victims: seq<Block>, fail: Option<Failure>, block: string)
    ensures Tracks(f, PruneStates(f, victims, fail), PruneHarms(victims, fail, block), block)
    decreases |victims|
  {
    if victims != [] && !(fail.Some? && fail.value.at == 0) {
      var f' := f.(dirs := f.dirs - {victims[0].name});
      var fail' := if fail.Some? then Some(fail.value.(at := fail.value.at - 1)) else None;
      PruneTracks(f', victims[1..], fail', block);
      TracksConcat(f, [f'], [victims[0].name == block],
                   PruneStates(f', victims[1..], fail'), PruneHarms(victims[1..], fail', block), block);
    }
  }

  lemma CycleTracks(f: Folder, keep: int, c: Publish.Cycle, block: string)
    ensures Tracks(f, Publish.CycleStates(f, keep, c), CycleHarms(keep, c, block), block)
  {
    CreateTracks(f, c.attempt, block);
    if Succeeds(c.attempt) && c.listed {
      var created, victims := CreateStates(f, c.attempt), Victims(c.order, keep);
      PruneTracks(Last(f, created), victims, c.fail, block);
      TracksConcat(f, created, CreateHarms(c.attempt, block), PruneStates(Last(f, created), victims, c.fail),
                   PruneHarms(victims, c.fail, block), block);
    } else {
      assert CycleHarms(keep, c, block) == CreateHarms(c.attempt, block);
    }
  }

  lemma {:induction false} RunTracks(f: Folder, keep: int, cycles: seq<Publish.Cycle>, block: string)
    ensures Tracks(f, Publish.RunStates(f, keep, cycles), RunHarms(keep, cycles, block), block)
    decreases |cycles|
  {
    if cycles != [] {
      var states := Publish.CycleStates(f, keep, cycles[0]);
      CycleTracks(f, keep, cycles[0], block);
      RunTracks(Last(f, states), keep, cycles[1..], block);
      TracksConcat(f, states, CycleHarms(keep, cycles[0], block),
                   Publish.RunStates(Last(f, states), keep, cycles[1..]), RunHarms(keep, cycles[1..], block), block);
    }
  }

  /** From a state that has the archive: every state up to a later one has it exactly when no
      effect in between harms it. */
  lemma {:induction false} WholeUntil(
    f: Folder, states: seq<Folder>, harms: seq<bool>, block: string, j: nat, k: nat)
    requires Tracks(f, states, harms, block) && j <= k < |states| && Whole(states[j], block)
    ensures (forall i :: j <= i <= k ==> Whole(states[i], block)) <==> forall i :: j < i <= k ==> !harms[i]
    decreases k
  {
    if j < k {
      WholeUntil(f, states, harms, block, j, k - 1);
      assert Prior(f, states, k) == states[k - 1];
    }
  }

  ghost predicate Harmless(harms: seq<bool>) {
    forall i :: 0 <= i < |harms| ==> !harms[i]
  }

  lemma HarmlessConcat(xs: seq<bool>, ys: seq<bool>)
    ensures Harmless(xs + ys) <==> Harmless(xs) && Harmless(ys)
  {
    var all := xs + ys;
    if Harmless(all) {
      assert forall i :: 0 <= i < |xs| ==> all[i] == xs[i];
      assert forall i :: 0 <= i < |ys| ==> all[|xs| + i] == ys[i];
    }
  }

  lemma {:induction false} PruneSpares(victims: seq<Block>, fail: Option<Failure>, block: string)
    requires block !in Publish.NamesOf(victims)
    ensures Harmless(PruneHarms(victims, fail, block))
    decreases |victims|
  {
    if victims != [] {
      assert victims[0] in victims;
      if !(fail.Some? && fail.value.at == 0) {
        var fail' := if fail.Some? then Some(fail.value.(at := fail.value.at - 1)) else None;
        assert forall b :: b in victims[1..] ==> b in victims;
        PruneSpares(victims[1..], fail', block);
        HarmlessConcat([victims[0].name == block], PruneHarms(victims[1..], fail', block));
      }
    }
  }

  lemma {:induction false} PruneHits(victims: seq<Block>, block: string)
    requires block in Publish.NamesOf(victims)
    ensures !Harmless(PruneHarms(victims, None, block))
  {
    HarmlessConcat([victims[0].name == block], PruneHarms(victims[1..], None, block));
    if victims[0].name == block {
      assert [victims[0].name == block][0];
    } else {
      var b :| b in victims && b.name == block;
      assert b in victims[1..];
      PruneHits(victims[1..], block);
    }
  }

  lemma CreateSpares(a: Attempt, block: string)
    ensures Harmless(CreateHarms(a, block)) <==> !Publish.Redoes(a, block)
  {
    if Publish.Redoes(a, block) {
      assert CreateHarms(a, block)[1];
    }
  }

  /** The cycle does not redo the block, and fewer than `keep` directories come after it. */
  predicate Spares(keep: int, c: Publish.Cycle, block: string) {
    !Publish.Redoes(c.attempt, block) && (Succeeds(c.attempt) ==> Publish.After(c.order, block) < keep)
  }

  /** A cycle that finds the block harms it in none of its effects, whatever becomes of its prune,
      exactly when it does not redo it and, if it succeeds, fewer than `keep` directories come
      after it. */
  lemma CycleSparesExactly(f: Folder, keep: int, c: Publish.Cycle, block: string)
    requires Publish.Proper(f, c) && block in Publish.Numeric(f)
    ensures (forall listed, fail :: Harmless(CycleHarms(keep, c.(listed := listed, fail := fail), block)))
       <==> Spares(keep, c, block)
  {
    var victims := Victims(c.order, keep);
    CreateSpares(c.attempt, block);
    if Succeeds(c.attempt) {
      FoundAfter(f, keep, c, block);
    }
    forall listed, fail
      ensures Harmless(CycleHarms(keep, c.(listed := listed, fail := fail), block)) <==>
                && !Publish.Redoes(c.attempt, block)
                && (Succeeds(c.attempt) && listed ==> Harmless(PruneHarms(victims, fail, block)))
    {
      HarmlessConcat(CreateHarms(c.attempt, block), PruneHarms(victims, fail, block));
      HarmlessConcat(CreateHarms(c.attempt, block), []);
    }
    if block in Publish.NamesOf(victims) {
      PruneHits(victims, block);
      assert Succeeds(c.attempt) ==> !Harmless(CycleHarms(keep, c.(listed := true, fail := None), block));
    } else {
      forall fail: Option<Failure> ensures Harmless(PruneHarms(victims, fail, block)) {
        PruneSpares(victims, fail, block);
      }
    }
    assert Harmless(CycleHarms(keep, c.(listed := false, fail := None), block)) <==> !Publish.Redoes(c.attempt, block);
  }

  lemma FoundAfter(f: Folder, keep: int, c: Publish.Cycle, block: string)
    requires Publish.Proper(f, c) && block in Publish.Numeric(f) && Succeeds(c.attempt)
    ensures block in Publish.NamesOf(Victims(c.order, keep)) <==> Publish.After(c.order, block) >= keep
  {
    var b := Block(block, ParseUint(block).value);
    assert block in Last(f, CreateStates(f, c.attempt)).dirs;
    assert b in c.order;
    var t :| 0 <= t < |c.order| && c.order[t] == b;
    Publish.VictimExactly(c.order, keep, t);
  }

  lemma HarmsCons(keep: int, c: Publish.Cycle, rest: seq<Publish.Cycle>, block: string)
    ensures RunHarms(keep, [c] + rest, block) == CycleHarms(keep, c, block) + RunHarms(keep, rest, block)
  {
    assert ([c] + rest)[1..] == rest;
  }

  /** What is harmless of a run up to cycle i, however the prune of that cycle ends. */
  lemma UntilHarms(
    keep: int, cycles: seq<Publish.Cycle>, i: nat, listed: bool, fail: Option<Failure>, block: string)
    requires i < |cycles|
    ensures var c := cycles[0];
            Harmless(RunHarms(keep, Publish.Until(cycles, i, listed, fail), block)) <==>
              if i == 0 then Harmless(CycleHarms(keep, c.(listed := listed, fail := fail), block))
              else Harmless(CycleHarms(keep, c, block))
                   && Harmless(RunHarms(keep, Publish.Until(cycles[1..], i - 1, listed, fail), block))
  {
    if i == 0 {
      var c := cycles[0].(listed := listed, fail := fail);
      assert Publish.Until(cycles, 0, listed, fail) == [c] + [];
      HarmsCons(keep, c, [], block);
      HarmlessConcat(CycleHarms(keep, c, block), []);
    } else {
      var left := Publish.Until(cycles[1..], i - 1, listed, fail);
      assert Publish.Until(cycles, i, listed, fail) == [cycles[0]] + left;
      HarmsCons(keep, cycles[0], left, block);
      HarmlessConcat(CycleHarms(keep, cycles[0], block), RunHarms(keep, left, block));
    }
  }

  /** Whatever becomes of the prune of any cycle, no effect up to then harms the block. */
  ghost predicate Unharmed(keep: int, cycles: seq<Publish.Cycle>, block: string) {
    forall i: nat, listed, fail :: i < |cycles| ==>
      Harmless(RunHarms(keep, Publish.Until(cycles, i, listed, fail), block))
  }

  lemma UnharmedFirst(keep: int, cycles: seq<Publish.Cycle>, block: string)
    requires cycles != []
    ensures Unharmed(keep, cycles, block) <==>
              && (forall listed, fail ::
                    Harmless(CycleHarms(keep, cycles[0].(listed := listed, fail := fail), block)))
              && Unharmed(keep, cycles[1..], block)
  {
    var c := cycles[0];
    assert c.(listed := c.listed, fail := c.fail) == c;
    if Unharmed(keep, cycles, block) {
      forall listed, fail ensures Harmless(CycleHarms(keep, c.(listed := listed, fail := fail), block)) {
        UntilHarms(keep, cycles, 0, listed, fail, block);
      }
      forall i: nat, listed, fail | i < |cycles| - 1
        ensures Harmless(RunHarms(keep, Publish.Until(cycles[1..], i, listed, fail), block))
      {
        UntilHarms(keep, cycles, i + 1, listed, fail, block);
      }
    } else {
      var i: nat, listed, fail :|
        i < |cycles| && !Harmless(RunHarms(keep, Publish.Until(cycles, i, listed, fail), block));
      UntilHarms(keep, cycles, i, listed, fail, block);
    }
  }

  /** A whole archive is whole in all states to come exactly when no effect harms it. */
  lemma {:induction false} WholeThrough(f: Folder, states: seq<Folder>, harms: seq<bool>, block: string, k: nat)
    requires Tracks(f, states, harms, block) && k <= |states| && Whole(f, block)
    ensures (forall i :: 0 <= i < k ==> Whole(states[i], block)) <==> forall i :: 0 <= i < k ==> !harms[i]
  {
    if k > 0 {
      WholeThrough(f, states, harms, block, k - 1);
      assert k > 1 ==> Prior(f, states, k - 1) == states[k - 2];
    }
  }

  /** Over any later cycles: no effect harms the block, whatever becomes of any prune, exactly when
      every cycle spares it. */
  lemma {:induction false} RunSparesExactly(f: Folder, keep: int, cycles: seq<Publish.Cycle>, block: string)
    requires Publish.Orderly(f, keep, cycles) && Whole(f, block) && ParseUint(block).Some?
    ensures Unharmed(keep, cycles, block) <==> forall i :: 0 <= i < |cycles| ==> Spares(keep, cycles[i], block)
    decreases |cycles|
  {
    if cycles != [] {
      var c, rest := cycles[0], cycles[1..];
      CycleSparesExactly(f, keep, c, block);
      UnharmedFirst(keep, cycles, block);
      if Spares(keep, c, block) {
        var states, harms := Publish.CycleStates(f, keep, c), CycleHarms(keep, c, block);
        assert c.(listed := c.listed, fail := c.fail) == c;
        assert Harmless(harms);
        CycleTracks(f, keep, c, block);
        WholeThrough(f, states, harms, block, |states|);
        RunSparesExactly(Last(f, states), keep, rest, block);
        assert cycles == [c] + rest;
      }
    }
  }

  function At(root: Serving.Root, network: string, slug: string, f: Folder): Serving.Root {
    root[(network, slug) := f]
  }

  /** What the URL gives depends on the archive alone. */
  lemma UrlGives(root: Serving.Root, network: string, slug: string, f: Folder, block: string)
    requires network in Serving.NETWORKS && Serving.Slashless(slug) && Serving.Slashless(block)
    ensures Whole(f, block) <==>
              Serving.Get(At(root, network, slug, f), Serving.ArchivePath(network, slug, block))
              == Serving.Stream(Complete)
  {
    Serving.RoutedPath(network, slug + "/" + block + "/" + Serving.ARCHIVE);
    assert Serving.ArchivePath(network, slug, block)
        == "/" + network + "/" + (slug + "/" + block + "/" + Serving.ARCHIVE);
    Serving.ArchiveRoundTrip(network, slug, block);
  }

  /** A downloader finds a block in one state of a run and asks for it later. Its URL streams the
      complete archive in every state up to then exactly when no effect in between redoes or
      removes that block. */
  lemma LaterServesExactly(
    root: Serving.Root, network: string, client: string, f: Folder, keep: int, cycles: seq<Publish.Cycle>,
    j: nat, k: nat)
    requires network in Serving.NETWORKS && Serving.ClientSlug(client).Some?
    requires j <= k < |Publish.RunStates(f, keep, cycles)|
    requires Publish.RunStates(f, keep, cycles)[j].latest.Some?
    requires Publish.Servable(Publish.RunStates(f, keep, cycles)[j])
    ensures var states, slug := Publish.RunStates(f, keep, cycles), Serving.ClientSlug(client).value;
            var found := Serving.Discover(At(root, network, slug, states[j]), network, client);
            && found.Some? && |RunHarms(keep, cycles, found.value.block)| == |states|
            && ((forall i :: j <= i <= k ==>
                   Serving.Get(At(root, network, slug, states[i]), found.value.path) == Serving.Stream(Complete))
                <==> forall i :: j < i <= k ==> !RunHarms(keep, cycles, found.value.block)[i])
  {
    var states, slug := Publish.RunStates(f, keep, cycles), Serving.ClientSlug(client).value;
    var block := states[j].latest.value;
    Serving.DiscoverServes(At(root, network, slug, states[j]), network, client);
    Serving.NumberIsPlain(block);
    Serving.SlugSlashless(slug);
    RunTracks(f, keep, cycles, block);
    WholeUntil(f, states, RunHarms(keep, cycles, block), block, j, k);
    forall i | j <= i <= k
      ensures (Serving.Get(At(root, network, slug, states[i]), Serving.ArchivePath(network, slug, block))
               == Serving.Stream(Complete)) == Whole(states[i], block)
    {
      UrlGives(root, network, slug, states[i], block);
    }
    var found := Serving.Discover(At(root, network, slug, states[j]), network, client);
    assert found.value.path == Serving.ArchivePath(network, slug, block);
  }

  ghost predicate Streams(root: Serving.Root, network: string, slug: string, states: seq<Folder>, path: string) {
    forall i :: 0 <= i < |states| ==> Serving.Get(At(root, network, slug, states[i]), path) == Serving.Stream(Complete)
  }

  lemma StreamsExactly(root: Serving.Root, network: string, slug: string, f: Folder, keep: int,
      cycles: seq<Publish.Cycle>, block: string)
    requires network in Serving.NETWORKS && Serving.Slashless(slug) && Serving.Slashless(block) && Whole(f, block)
    ensures Streams(root, network, slug, Publish.RunStates(f, keep, cycles), Serving.ArchivePath(network, slug, block))
       <==> Harmless(RunHarms(keep, cycles, block))
  {
    var states, harms := Publish.RunStates(f, keep, cycles), RunHarms(keep, cycles, block);
    RunTracks(f, keep, cycles, block);
    WholeThrough(f, states, harms, block, |states|);
    forall i | 0 <= i < |states|
      ensures (Serving.Get(At(root, network, slug, states[i]), Serving.ArchivePath(network, slug, block))
               == Serving.Stream(Complete)) == Whole(states[i], block)
    {
      UrlGives(root, network, slug, states[i], block);
    }
  }

  /** Whatever becomes of the prune of any cycle, the URL streams the archive in every state up to then. */
  ghost predicate AlwaysStreams(root: Serving.Root, network: string, slug: string, f: Folder, keep: int,
      cycles: seq<Publish.Cycle>, path: string)
  {
    forall i: nat, listed, fail :: i < |cycles| ==>
      Streams(root, network, slug, Publish.RunStates(f, keep, Publish.Until(cycles, i, listed, fail)), path)
  }

  /** A downloader finds a block; then cycles follow. Its URL streams the complete archive in every
      state to come, whatever becomes of any prune, exactly when every cycle spares the block. */
  lemma RunServesExactly(
    root: Serving.Root, network: string, client: string, f: Folder, keep: int, cycles: seq<Publish.Cycle>)
    requires network in Serving.NETWORKS && Serving.ClientSlug(client).Some?
    requires f.latest.Some? && Publish.Servable(f) && Publish.Orderly(f, keep, cycles)
    ensures var slug := Serving.ClientSlug(client).value;
            var found := Serving.Discover(At(root, network, slug, f), network, client);
            && found.Some?
            && (AlwaysStreams(root, network, slug, f, keep, cycles, found.value.path)
                <==> forall i :: 0 <= i < |cycles| ==> Spares(keep, cycles[i], found.value.block))
  {
    var slug, block := Serving.ClientSlug(client).value, f.latest.value;
    Serving.DiscoverServes(At(root, network, slug, f), network, client);
    Serving.NumberIsPlain(block);
    Serving.SlugSlashless(slug);
    var path := Serving.ArchivePath(network, slug, block);
    RunSparesExactly(f, keep, cycles, block);
    forall i: nat, listed, fail | i < |cycles|
      ensures Streams(root, network, slug, Publish.RunStates(f, keep, Publish.Until(cycles, i, listed, fail)), path)
         <==> Harmless(RunHarms(keep, Publish.Until(cycles, i, listed, fail), block))
    {
      StreamsExactly(root, network, slug, f, keep, Publish.Until(cycles, i, listed, fail), block);
    }
  }
}
