/** Publishing snapshots (internal/snapshot/maker.go, cmd/snapshot-server/main.go): one output
    directory as CreateSnapshot and PruneOld change it, one effect at a time. */
module Snapshot {
  import opened Wrappers
  import opened Text

  /** What a block directory holds under snapshot.tar.zst. */
  datatype Archive = Missing | Partial | Complete

  /** The subdirectories of the output directory, and its `latest` file. */
  datatype Folder = Folder(dirs: map<string, Archive>, latest: Option<string>)

  datatype Tar = Works | NeverStarts | Breaks

  /** One CreateSnapshot: the block read before the client is stopped, and how each effect goes. */
  datatype Attempt = Attempt(
    block: string, outputDir: bool, stops: bool, mkdir: bool, tar: Tar, removes: bool, points: bool)

  function ReachesTar(a: Attempt): bool {
    a.outputDir && a.stops && a.mkdir
  }

  function Succeeds(a: Attempt): bool {
    ReachesTar(a) && a.tar == Works && a.points
  }

  function Put(f: Folder, block: string, archive: Archive): Folder {
    f.(dirs := f.dirs[block := archive])
  }

  lemma PutTwice(f: Folder, block: string, first: Archive, second: Archive)
    ensures Put(Put(f, block, first), block, second) == Put(f, block, second)
  {
    assert f.dirs[block := first][block := second] == f.dirs[block := second];
  }

  function Made(f: Folder, block: string): Folder {
    if block in f.dirs then f else Put(f, block, Missing)
  }

  /** The states an attempt goes through, after each of its effects. */
  function CreateStates(f: Folder, a: Attempt): seq<Folder> {
    if !ReachesTar(a) then []
    else
      var made := Made(f, a.block);
      match a.tar
      case NeverStarts => [made, if a.removes then Put(made, a.block, Missing) else made]
      case Breaks =>
        var broken := Put(made, a.block, Partial);
        [made, broken, if a.removes then Put(made, a.block, Missing) else broken]
      case Works =>
        var done := Put(made, a.block, Complete);
        [made, Put(made, a.block, Partial), done] + if a.points then [done.(latest := Some(a.block))] else []
  }

  function Last(f: Folder, states: seq<Folder>): Folder {
    if states == [] then f else states[|states| - 1]
  }

  /** Until an attempt moves `latest`, which is its last effect and only follows a whole archive,
      `latest` and all other directories are as they were. */
  lemma CreateTouches(f: Folder, a: Attempt, i: nat)
    requires i < |CreateStates(f, a)|
    ensures var states := CreateStates(f, a);
            && (forall n :: n != a.block ==>
                  (n in states[i].dirs <==> n in f.dirs) && (n in f.dirs ==> states[i].dirs[n] == f.dirs[n]))
            && a.block in states[i].dirs
            && states[i].latest == (if Succeeds(a) && i == |states| - 1 then Some(a.block) else f.latest)
            && (Succeeds(a) && i >= |states| - 2 ==> states[i].dirs[a.block] == Complete)
  {
  }

  /** A part of an archive is left behind exactly when tar broke off and the removal failed too; a
      removal that works leaves no archive of the block, the one that was there before included. */
  lemma PartLeftExactly(f: Folder, a: Attempt)
    requires a.block in f.dirs ==> f.dirs[a.block] != Partial
    ensures var end := Last(f, CreateStates(f, a));
            && (a.block in end.dirs && end.dirs[a.block] == Partial <==>
                  a.outputDir && a.stops && a.mkdir && a.tar == Breaks && !a.removes)
            && (a.outputDir && a.stops && a.mkdir && a.tar != Works && a.removes ==>
                  a.block in end.dirs && end.dirs[a.block] == Missing)
            && (!a.outputDir || !a.stops || !a.mkdir ==> end == f)
  {
  }

  datatype Block = Block(name: string, number: nat)

  /** RemoveAll fails on the `at`-th directory and leaves `left` of its archive. */
  datatype Failure = Failure(at: nat, left: Archive)

  /** The states of the removal loop over the directories it is about to remove. */
  function PruneStates(f: Folder, victims: seq<Block>, fail: Option<Failure>): seq<Folder>
    decreases |victims|
  {
    if victims == [] then []
    else if fail.Some? && fail.value.at == 0 then
      [if victims[0].name in f.dirs then Put(f, victims[0].name, fail.value.left) else f]
    else
      var f' := f.(dirs := f.dirs - {victims[0].name});
      var fail' := if fail.Some? then Some(fail.value.(at := fail.value.at - 1)) else None;
      [f'] + PruneStates(f', victims[1..], fail')
  }

  /** From `f`, after the states in `past`, the removals left lead to the states `goal`, ending in `end`. */
  ghost predicate Heads(
    past: seq<Folder>, f: Folder, victims: seq<Block>, fail: Option<Failure>, goal: seq<Folder>, end: Folder)
  {
    past + PruneStates(f, victims, fail) == goal && Last(f, PruneStates(f, victims, fail)) == end
  }

  lemma HeadsNext(
    past: seq<Folder>, f: Folder, victims: seq<Block>, fail: Option<Failure>, goal: seq<Folder>, end: Folder)
    requires Heads(past, f, victims, fail, goal, end) && victims != [] && (fail.Some? ==> fail.value.at > 0)
    ensures var f' := f.(dirs := f.dirs - {victims[0].name});
            var fail' := if fail.Some? then Some(Failure(fail.value.at - 1, fail.value.left)) else None;
            Heads(past + [f'], f', victims[1..], fail', goal, end)
  {
    var f' := f.(dirs := f.dirs - {victims[0].name});
    var fail' := if fail.Some? then Some(Failure(fail.value.at - 1, fail.value.left)) else None;
    var future := PruneStates(f', victims[1..], fail');
    assert past + [f'] + future == past + ([f'] + future);
  }

  /** `order` lists the numeric directories once each, by ascending number. */
  ghost predicate Ascending(f: Folder, order: seq<Block>) {
    && (forall i, j :: 0 <= i < j < |order| ==> order[i].number <= order[j].number && order[i].name != order[j].name)
    && (forall i :: 0 <= i < |order| ==> order[i].name in f.dirs && ParseUint(order[i].name) == Some(order[i].number))
    && (forall n :: n in f.dirs && ParseUint(n).Some? ==> Block(n, ParseUint(n).value) in order)
  }

  /** The names of the directories, each once. */
  ghost predicate Lists(listing: seq<string>, f: Folder) {
    && (forall n :: n in listing <==> n in f.dirs)
    && forall i, j :: 0 <= i < j < |listing| ==> listing[i] != listing[j]
  }

  /** What PruneOld(keep) removes: nothing is left to keep when keep is not positive. */
  function Victims(order: seq<Block>, keep: int): seq<Block> {
    if keep <= 0 then order
    else if keep >= |order| then []
    else order[..|order| - keep]
  }

  lemma VictimsFirst(f: Folder, order: seq<Block>, keep: int)
    requires Ascending(f, order)
    ensures var toRemove, victims := |order| - keep, Victims(order, keep);
            && victims == order[..if toRemove < 0 then 0 else if toRemove > |order| then |order| else toRemove]
            && (forall k :: 0 <= k < |victims| ==> victims[k].name in f.dirs)
            && (forall j, k :: 0 <= j < k < |victims| ==> victims[j].name != victims[k].name)
  {
  }

  datatype PruneResult = Pruned | NotListed | RemoveFailed | Panicked

  ghost predicate SameBlocks(a: seq<Block>, b: seq<Block>) {
    multiset(a) == multiset(b)
  }

  ghost predicate LeastUpTo(a: seq<Block>, i: nat) {
    forall p, q :: 0 <= p < i && p < q < |a| ==> a[p].number <= a[q].number
  }

  lemma SwapBlocks(a: seq<Block>, b: seq<Block>, i: nat, j: nat)
    requires i < j < |a| && b == a[i := a[j]][j := a[i]]
    ensures SameBlocks(a, b)
    ensures LeastUpTo(a, i) ==> LeastUpTo(b, i)
  {
  }

  method Swap(a: array<Block>, i: nat, j: nat)
    requires i < j < a.Length && LeastUpTo(a[..], i)
    modifies a
    ensures a[..] == old(a[..][i := a[j]][j := a[i]])
    ensures SameBlocks(old(a[..]), a[..]) && LeastUpTo(a[..], i)
  {
    ghost var before := a[..];
    a[i], a[j] := a[j], a[i];
    SwapBlocks(before, a[..], i, j);
  }

  /** The inner loop: a smallest remaining number ends up at i. */
  method Settle(a: array<Block>, i: nat)
    requires i < a.Length && LeastUpTo(a[..], i)
    modifies a
    ensures SameBlocks(old(a[..]), a[..]) && LeastUpTo(a[..], i + 1)
  {
    var j := i + 1;
    while j < a.Length
      invariant i < j <= a.Length
      invariant SameBlocks(old(a[..]), a[..]) && LeastUpTo(a[..], i)
      invariant forall q :: i < q < j ==> a[i].number <= a[q].number
    {
      if a[i].number > a[j].number {
        Swap(a, i, j);
      }
      j := j + 1;
    }
  }

  /** The nested loops that sort by block number, in place. */
  method SortBlocks(a: array<Block>)
    modifies a
    ensures SameBlocks(old(a[..]), a[..])
    ensures forall p, q :: 0 <= p < q < a.Length ==> a[p].number <= a[q].number
  {
    var i := 0;
    while i < a.Length - 1
      invariant 0 <= i && (a.Length > 0 ==> i < a.Length)
      invariant SameBlocks(old(a[..]), a[..]) && LeastUpTo(a[..], i)
    {
      Settle(a, i);
      i := i + 1;
    }
    assert forall p, q :: 0 <= p < q < a.Length ==> a[..][p].number <= a[..][q].number;
  }

  class Maker {
    var folder: Folder
    // Every state the directory has been in since the object was made.
    ghost var trace: seq<Folder>

    constructor (folder: Folder)
      ensures this.folder == folder && trace == []
    {
      this.folder := folder;
      trace := [];
    }

    method Become(f: Folder)
      modifies this
      ensures folder == f && trace == old(trace) + [f]
    {
      folder := f;
      trace := trace + [f];
    }

    method CreateSnapshot(a: Attempt) returns (ok: bool)
      modifies this
      ensures ok == Succeeds(a)
      ensures trace == old(trace) + CreateStates(old(folder), a)
      ensures folder == Last(old(folder), CreateStates(old(folder), a))
    {
      ghost var seen := trace;
      if !a.outputDir || !a.stops || !a.mkdir {
        return false;
      }
      ghost var made := Made(folder, a.block);
      Become(Made(folder, a.block));
      if a.tar == NeverStarts {
        Become(if a.removes then Put(folder, a.block, Missing) else folder);
        assert trace == seen + [made, folder];
        return false;
      }
      Become(Put(folder, a.block, Partial));
      ghost var partial := folder;
      if a.tar == Breaks {
        Become(if a.removes then Put(folder, a.block, Missing) else folder);
        PutTwice(made, a.block, Partial, Missing);
        assert trace == seen + [made, partial, folder];
        return false;
      }
      Become(Put(folder, a.block, Complete));
      PutTwice(made, a.block, Partial, Complete);
      ghost var done := folder;
      assert trace == seen + [made, partial, done];
      if !a.points {
        return false;
      }
      Become(folder.(latest := Some(a.block)));
      assert trace == seen + ([made, partial, done] + [folder]);
      return true;
    }

    /** Collects the numeric names of the listing, in its order. */
    method Collect(listing: seq<string>) returns (dirs: array<Block>)
      ensures fresh(dirs)
      ensures dirs[..] == Numbered(listing)
    {
      var found: seq<Block> := [];
      var i := 0;
      while i < |listing|
        invariant 0 <= i <= |listing|
        invariant found + Numbered(listing[i..]) == Numbered(listing)
      {
        assert listing[i..][0] == listing[i] && listing[i..][1..] == listing[i + 1..];
        var n := ParseUint(listing[i]);
        if n.Some? {
          found := found + [Block(listing[i], n.value)];
        }
        i := i + 1;
      }
      dirs := new Block[|found|](k requires 0 <= k < |found| => found[k]);
      assert listing[i..] == [];
    }

    /** `listing` is what ReadDir gave: an error, or the directories' names, each once. The order
        in which the sort leaves equal numbers is the ghost result. */
    method PruneOld(keep: int, listing: Option<seq<string>>, fail: Option<Failure>)
      returns (r: PruneResult, ghost order: seq<Block>)
      requires listing.Some? ==> Lists(listing.value, folder)
      modifies this
      ensures r == NotListed <==> listing.None?
      ensures listing.None? ==> trace == old(trace) && folder == old(folder)
      ensures listing.Some? ==> Ascending(old(folder), order)
      ensures listing.Some? ==> trace == old(trace) + PruneStates(old(folder), Victims(order, keep), fail)
      ensures listing.Some? ==> folder == Last(old(folder), PruneStates(old(folder), Victims(order, keep), fail))
      ensures r == RemoveFailed <==> listing.Some? && fail.Some? && fail.value.at < |Victims(order, keep)|
      ensures r == Panicked <==> listing.Some? && keep < 0 && r != RemoveFailed
    {
      order := [];
      if listing.None? {
        return NotListed, order;
      }
      r, order := PruneListed(keep, listing.value, fail);
    }

    method PruneListed(keep: int, listing: seq<string>, fail: Option<Failure>)
      returns (r: PruneResult, ghost order: seq<Block>)
      requires Lists(listing, folder)
      modifies this
      ensures Ascending(old(folder), order) && r != NotListed
      ensures trace == old(trace) + PruneStates(old(folder), Victims(order, keep), fail)
      ensures folder == Last(old(folder), PruneStates(old(folder), Victims(order, keep), fail))
      ensures r == RemoveFailed <==> fail.Some? && fail.value.at < |Victims(order, keep)|
      ensures r == Panicked <==> keep < 0 && r != RemoveFailed
    {
      var dirs := Collect(listing);
      SortBlocks(dirs);
      order := dirs[..];
      NumberedAscending(folder, listing, order);
      VictimsFirst(folder, order, keep);
      r := Remove(dirs, dirs.Length - keep, Victims(order, keep), fail);
    }

    /** The loop that removes the first directories of the sorted array. */
    method Remove(dirs: array<Block>, toRemove: int, ghost victims: seq<Block>, fail: Option<Failure>)
      returns (r: PruneResult)
      requires victims == dirs[..if toRemove < 0 then 0 else if toRemove > dirs.Length then dirs.Length else toRemove]
      requires forall k :: 0 <= k < |victims| ==> victims[k].name in folder.dirs
      requires forall j, k :: 0 <= j < k < |victims| ==> victims[j].name != victims[k].name
      modifies this
      ensures trace == old(trace) + PruneStates(old(folder), victims, fail)
      ensures folder == Last(old(folder), PruneStates(old(folder), victims, fail))
      ensures r == RemoveFailed <==> fail.Some? && fail.value.at < |victims|
      ensures r == Panicked <==> toRemove > dirs.Length && r != RemoveFailed
      ensures r != NotListed
    {
      var i := 0;
      ghost var rest := fail;
      ghost var states := PruneStates(folder, victims, fail);
      ghost var goal, end := trace + states, Last(folder, states);
      while i < toRemove
        invariant 0 <= i <= |victims| && (i <= toRemove || i == 0)
        invariant fail.Some? ==> i <= fail.value.at && rest == Some(Failure(fail.value.at - i, fail.value.left))
        invariant fail.None? ==> rest == None
        invariant Heads(trace, folder, victims[i..], rest, goal, end)
        invariant forall k :: i <= k < |victims| ==> victims[k].name in folder.dirs
      {
        if i >= dirs.Length {
          return Panicked;
        }
        assert victims[i..][0] == victims[i] == dirs[i] && victims[i..][1..] == victims[i + 1..];
        if fail.Some? && fail.value.at == i {
          Become(Put(folder, dirs[i].name, fail.value.left));
          return RemoveFailed;
        }
        HeadsNext(trace, folder, victims[i..], rest, goal, end);
        Become(folder.(dirs := folder.dirs - {dirs[i].name}));
        rest := if fail.Some? then Some(Failure(fail.value.at - i - 1, fail.value.left)) else None;
        i := i + 1;
      }
      return Pruned;
    }
  }

  function Numbered(listing: seq<string>): seq<Block> {
    if listing == [] then []
    else
      (if ParseUint(listing[0]).Some? then [Block(listing[0], ParseUint(listing[0]).value)] else [])
      + Numbered(listing[1..])
  }

  lemma {:induction false} NumberedOnce(listing: seq<string>)
    requires forall i, j :: 0 <= i < j < |listing| ==> listing[i] != listing[j]
    ensures forall b :: b in Numbered(listing) <==> b.name in listing && ParseUint(b.name) == Some(b.number)
    ensures forall b :: multiset(Numbered(listing))[b] <= 1
  {
    if listing != [] {
      assert forall i :: 0 <= i < |listing[1..]| ==> listing[1..][i] == listing[i + 1];
      NumberedOnce(listing[1..]);
      assert listing == [listing[0]] + listing[1..];
      assert listing[0] !in listing[1..];
      var rest := Numbered(listing[1..]);
      assert forall b :: b in rest ==> multiset(rest)[b] >= 1;
    }
  }

  /** The sorted array enumerates the numeric directories. */
  lemma NumberedAscending(f: Folder, listing: seq<string>, order: seq<Block>)
    requires Lists(listing, f) && SameBlocks(Numbered(listing), order)
    requires forall i, j :: 0 <= i < j < |order| ==> order[i].number <= order[j].number
    ensures Ascending(f, order)
  {
    NumberedOnce(listing);
    forall b ensures b in order <==> b in Numbered(listing) {
      assert b in order <==> b in multiset(order);
      assert b in Numbered(listing) <==> b in multiset(Numbered(listing));
    }
    forall i: nat, j: nat | i < j < |order| ensures order[i].name != order[j].name {
      NamesDiffer(Numbered(listing), order, i, j);
    }
  }

  lemma NamesDiffer(numbered: seq<Block>, order: seq<Block>, i: nat, j: nat)
    requires SameBlocks(numbered, order) && i < j < |order|
    requires forall b :: b in numbered ==> ParseUint(b.name) == Some(b.number)
    requires forall b :: multiset(numbered)[b] <= 1
    ensures order[i].name != order[j].name
  {
    assert order[i] in multiset(order) && order[j] in multiset(order);
    assert order[i] in numbered && order[j] in numbered;
    if order[i] == order[j] {
      Twice(order, i, j);
    }
  }

  lemma Twice(bs: seq<Block>, i: nat, j: nat)
    requires i < j < |bs| && bs[i] == bs[j]
    ensures multiset(bs)[bs[i]] >= 2
  {
    assert bs == bs[..j] + bs[j..];
    assert bs[i] in bs[..j] && bs[j] in bs[j..];
    assert multiset(bs) == multiset(bs[..j]) + multiset(bs[j..]);
  }
}
