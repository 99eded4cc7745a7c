/** Whole runs of create and prune: what a prune leaves, and that `latest` always names a
    complete archive. */
module Publish {
  import opened Wrappers
  import opened Text
  import opened Snapshot

  function NamesOf(bs: seq<Block>): set<string> {
    set b | b in bs :: b.name
  }

  function Numeric(f: Folder): set<string> {
    set n | n in f.dirs && ParseUint(n).Some?
  }

  lemma {:induction false} NamesSize(bs: seq<Block>)
    requires forall i, j :: 0 <= i < j < |bs| ==> bs[i].name != bs[j].name
    ensures |NamesOf(bs)| == |bs|
  {
    if bs != [] {
      var init, last := bs[..|bs| - 1], bs[|bs| - 1];
      NamesSize(init);
      assert NamesOf(bs) == NamesOf(init) + {last.name};
      assert last.name !in NamesOf(init);
    }
  }

  lemma NamesCons(bs: seq<Block>, k: nat)
    requires k < |bs|
    ensures NamesOf(bs[..k + 1]) == {bs[0].name} + NamesOf(bs[1..][..k])
  {
    assert bs[..k + 1] == [bs[0]] + bs[1..][..k];
  }

  /** The k-th state of a prune lacks exactly the first k + 1 victims, unless removal k is the
      one that fails: then it lacks the first k, and only that directory's archive may differ. */
  lemma {:induction false} PruneAt(f: Folder, victims: seq<Block>, fail: Option<Failure>, k: nat)
    requires k < |PruneStates(f, victims, fail)|
    requires forall i :: 0 <= i < |victims| ==> victims[i].name in f.dirs
    requires forall i, j :: 0 <= i < j < |victims| ==> victims[i].name != victims[j].name
    ensures k < |victims| && (fail.Some? ==> k <= fail.value.at)
    ensures var st := PruneStates(f, victims, fail)[k];
            && st.latest == f.latest
            && (fail.Some? && fail.value.at == k ==>
                  st.dirs == (f.dirs - NamesOf(victims[..k]))[victims[k].name := fail.value.left])
            && (!(fail.Some? && fail.value.at == k) ==> st.dirs == f.dirs - NamesOf(victims[..k + 1]))
    decreases |victims|
  {
    if !(fail.Some? && fail.value.at == 0) {
      var f' := f.(dirs := f.dirs - {victims[0].name});
      var fail' := if fail.Some? then Some(fail.value.(at := fail.value.at - 1)) else None;
      PruneLength(f, victims, fail);
      NamesCons(victims, k);
      if k > 0 {
        PruneAt(f', victims[1..], fail', k - 1);
        NamesCons(victims, k - 1);
        PruneShift(f, victims, k);
      }
    } else {
      assert f.dirs - NamesOf(victims[..0]) == f.dirs;
    }
  }

  lemma PruneShift(f: Folder, victims: seq<Block>, k: nat)
    requires 0 < k < |victims|
    ensures f.dirs - {victims[0].name} - NamesOf(victims[1..][..k]) == f.dirs - NamesOf(victims[..k + 1])
    ensures f.dirs - {victims[0].name} - NamesOf(victims[1..][..k - 1]) == f.dirs - NamesOf(victims[..k])
  {
    NamesCons(victims, k);
    NamesCons(victims, k - 1);
  }

  lemma {:induction false} PruneLength(f: Folder, victims: seq<Block>, fail: Option<Failure>)
    ensures |PruneStates(f, victims, fail)|
         == if fail.Some? && fail.value.at < |victims| then fail.value.at + 1 else |victims|
    decreases |victims|
  {
    if victims != [] && !(fail.Some? && fail.value.at == 0) {
      PruneLength(f.(dirs := f.dirs - {victims[0].name}), victims[1..],
                  if fail.Some? then Some(fail.value.(at := fail.value.at - 1)) else None);
    }
  }

  /** Directories other than `hit` keep their archives, `hit` included when it is None. */
  ghost predicate Untouched(f: Folder, f': Folder, hit: set<string>) {
    && f'.latest == f.latest && f'.dirs.Keys <= f.dirs.Keys
    && (forall n :: n in f'.dirs && n !in hit ==> f'.dirs[n] == f.dirs[n])
    && (forall n :: n in f.dirs && ParseUint(n).None? ==> n in f'.dirs && n !in hit)
  }

  ghost predicate Older(n: string, m: string) {
    ParseUint(n).Some? && ParseUint(m).Some? && ParseUint(n).value <= ParseUint(m).value
  }

  /** A prune that succeeds leaves min(keep, n) of the n numeric directories, each at least as
      new as every one it removed, and touches nothing else. */
  lemma PruneKeepsNewest(f: Folder, order: seq<Block>, keep: nat)
    requires Ascending(f, order)
    ensures var f' := Last(f, PruneStates(f, Victims(order, keep), None));
            && |Numeric(f')| == (if keep <= |Numeric(f)| then keep else |Numeric(f)|)
            && (forall n, m :: n in Numeric(f) - Numeric(f') && m in Numeric(f') ==> Older(n, m))
            && Untouched(f, f', {})
  {
    var victims := Victims(order, keep);
    var f' := Last(f, PruneStates(f, victims, None));
    var cut := |victims|;
    PruneLength(f, victims, None);
    if cut > 0 {
      PruneAt(f, victims, None, cut - 1);
      assert victims[..cut] == victims;
    }
    assert f'.dirs == f.dirs - NamesOf(victims);
    NumericNames(f, order);
    KeptNames(f, f', order, cut);
  }

  lemma KeptNames(f: Folder, f': Folder, order: seq<Block>, cut: nat)
    requires Ascending(f, order) && Numeric(f) == NamesOf(order) && cut <= |order|
    requires f'.dirs == f.dirs - NamesOf(order[..cut])
    ensures |Numeric(f)| == |order| && |Numeric(f')| == |order| - cut
    ensures forall n, m :: n in Numeric(f) - Numeric(f') && m in Numeric(f') ==> Older(n, m)
  {
    var cutNames, kept := NamesOf(order[..cut]), NamesOf(order[cut..]);
    NamesSize(order);
    NamesSize(order[cut..]);
    SplitNames(order, cut);
    Remainder(f, f', cutNames, kept);
    forall n, m | n in cutNames && m in kept ensures Older(n, m) {
      OlderNames(f, order, cut, n, m);
    }
  }

  lemma Remainder(f: Folder, f': Folder, removed: set<string>, kept: set<string>)
    requires f'.dirs == f.dirs - removed && Numeric(f) == removed + kept && removed !! kept
    ensures Numeric(f') == kept && Numeric(f) - Numeric(f') == removed
  {
  }

  lemma OlderNames(f: Folder, order: seq<Block>, cut: nat, n: string, m: string)
    requires Ascending(f, order) && cut <= |order| && n in NamesOf(order[..cut]) && m in NamesOf(order[cut..])
    ensures Older(n, m)
  {
    var i :| 0 <= i < cut && order[..cut][i].name == n;
    var j :| 0 <= j < |order| - cut && order[cut..][j].name == m;
    assert order[i].number <= order[cut + j].number;
  }

  lemma NumericNames(f: Folder, order: seq<Block>)
    requires Ascending(f, order)
    ensures Numeric(f) == NamesOf(order)
  {
    forall n | n in Numeric(f) ensures n in NamesOf(order) {
      assert Block(n, ParseUint(n).value) in order;
    }
  }

  lemma SplitNames(order: seq<Block>, cut: nat)
    requires cut <= |order|
    requires forall i, j :: 0 <= i < j < |order| ==> order[i].name != order[j].name
    ensures NamesOf(order) == NamesOf(order[..cut]) + NamesOf(order[cut..])
    ensures NamesOf(order[..cut]) !! NamesOf(order[cut..])
  {
    assert order == order[..cut] + order[cut..];
  }

  lemma FailedPruneState(f: Folder, victims: seq<Block>, fail: Failure)
    requires fail.at < |victims|
    requires forall i :: 0 <= i < |victims| ==> victims[i].name in f.dirs
    requires forall i, j :: 0 <= i < j < |victims| ==> victims[i].name != victims[j].name
    ensures var f' := Last(f, PruneStates(f, victims, Some(fail)));
            && f'.latest == f.latest
            && f'.dirs == (f.dirs - NamesOf(victims[..fail.at]))[victims[fail.at].name := fail.left]
  {
    PruneLength(f, victims, Some(fail));
    PruneAt(f, victims, Some(fail), fail.at);
  }

  /** A prune that fails at directory `at` has removed exactly the `at` oldest ones, and may
      have damaged that directory only. */
  lemma FailedPruneRemovesPrefix(f: Folder, order: seq<Block>, keep: int, fail: Failure)
    requires Ascending(f, order) && fail.at < |Victims(order, keep)|
    ensures var f' := Last(f, PruneStates(f, Victims(order, keep), Some(fail)));
            && Numeric(f) - Numeric(f') == NamesOf(order[..fail.at])
            && (forall n, m :: n in Numeric(f) - Numeric(f') && m in Numeric(f') ==> Older(n, m))
            && Untouched(f, f', {order[fail.at].name})
  {
    var victims := Victims(order, keep);
    VictimsFirst(f, order, keep);
    FailedPruneState(f, victims, fail);
    assert victims[..fail.at] == order[..fail.at] && victims[fail.at] == order[fail.at];
    DamagedRemainder(f, Last(f, PruneStates(f, victims, Some(fail))), order, fail);
  }

  lemma DamagedRemainder(f: Folder, f': Folder, order: seq<Block>, fail: Failure)
    requires Ascending(f, order) && fail.at < |order|
    requires f'.latest == f.latest && f'.dirs == (f.dirs - NamesOf(order[..fail.at]))[order[fail.at].name := fail.left]
    ensures Numeric(f) - Numeric(f') == NamesOf(order[..fail.at])
    ensures forall n, m :: n in Numeric(f) - Numeric(f') && m in Numeric(f') ==> Older(n, m)
    ensures Untouched(f, f', {order[fail.at].name})
  {
    var cut, hit := fail.at, order[fail.at].name;
    NumericNames(f, order);
    SplitNames(order, cut);
    assert hit in NamesOf(order[cut..]) by {
      assert order[cut..][0] == order[cut];
    }
    assert f'.dirs.Keys == f.dirs.Keys - NamesOf(order[..cut]);
    assert Numeric(f') == NamesOf(order[cut..]);
    assert Numeric(f) - Numeric(f') == NamesOf(order[..cut]);
    forall n, m | n in NamesOf(order[..cut]) && m in NamesOf(order[cut..]) ensures Older(n, m) {
      OlderNames(f, order, cut, n, m);
    }
  }

  /** `latest`, once written, names a numeric directory with a complete archive. */
  predicate Servable(f: Folder) {
    f.latest.Some? ==>
      && f.latest.value in f.dirs && f.dirs[f.latest.value] == Complete && ParseUint(f.latest.value).Some?
  }

  ghost predicate AllServable(states: seq<Folder>) {
    forall i :: 0 <= i < |states| ==> Servable(states[i])
  }

  /** The block's number is strictly above those of all directories. */
  ghost predicate Newer(f: Folder, block: string) {
    ParseUint(block).Some? && forall n :: n in Numeric(f) ==> ParseUint(n).value < ParseUint(block).value
  }

  /** The attempt writes to, or deletes, the archive of the block. */
  predicate Redoes(a: Attempt, block: string) {
    ReachesTar(a) && a.block == block && (a.tar != NeverStarts || a.removes)
  }

  /** It does so with the archive `latest` names. */
  predicate Clobbers(f: Folder, a: Attempt) {
    f.latest.Some? && Redoes(a, f.latest.value)
  }

  /** An attempt keeps `latest` servable at each of its steps exactly when it does not redo the
      very block that is published. */
  lemma CreateServableExactly(f: Folder, a: Attempt)
    requires Servable(f) && ParseUint(a.block).Some?
    ensures AllServable(CreateStates(f, a)) <==> !Clobbers(f, a)
  {
    var states := CreateStates(f, a);
    if Clobbers(f, a) {
      assert states[1].dirs[a.block] != Complete && states[1].latest == Some(a.block);
    }
  }

  /** Just published: the newest numeric directory is the one `latest` names. */
  ghost predicate Published(f: Folder) {
    f.latest.Some? && f.latest.value in Numeric(f) && f.dirs[f.latest.value] == Complete
    && forall n :: n in Numeric(f) && n != f.latest.value ==> ParseUint(n).value < ParseUint(f.latest.value).value
  }

  lemma CreatePublishes(f: Folder, a: Attempt)
    requires Newer(f, a.block) && Succeeds(a)
    ensures Published(Last(f, CreateStates(f, a)))
  {
    var f' := Last(f, CreateStates(f, a));
    assert f'.latest == Some(a.block);
    assert forall n :: n in f'.dirs ==> n in f.dirs || n == a.block;
  }

  lemma VictimsLack(f: Folder, victims: seq<Block>, fail: Option<Failure>, k: nat)
    requires Servable(f) && f.latest.Some? && f.latest.value !in NamesOf(victims)
    requires k < |PruneStates(f, victims, fail)|
    requires forall i :: 0 <= i < |victims| ==> victims[i].name in f.dirs
    requires forall i, j :: 0 <= i < j < |victims| ==> victims[i].name != victims[j].name
    ensures Servable(PruneStates(f, victims, fail)[k])
  {
    PruneAt(f, victims, fail, k);
    assert victims[k] in victims;
    assert forall b :: b in victims[..k + 1] ==> b in victims;
  }

  lemma VictimGoes(f: Folder, victims: seq<Block>)
    requires f.latest.Some? && f.latest.value in NamesOf(victims)
    requires forall i :: 0 <= i < |victims| ==> victims[i].name in f.dirs
    requires forall i, j :: 0 <= i < j < |victims| ==> victims[i].name != victims[j].name
    ensures !AllServable(PruneStates(f, victims, None))
  {
    PruneLength(f, victims, None);
    PruneAt(f, victims, None, |victims| - 1);
    assert victims[..|victims|] == victims;
    assert !Servable(PruneStates(f, victims, None)[|victims| - 1]);
  }

  /** Whichever removal fails and whatever it leaves, a prune keeps `latest` servable at each of
      its steps exactly when the directory that `latest` names is not one it is to remove. */
  lemma PruneServableExactly(f: Folder, order: seq<Block>, keep: int)
    requires Servable(f) && Ascending(f, order)
    ensures (forall fail :: AllServable(PruneStates(f, Victims(order, keep), fail)))
       <==> (f.latest.Some? ==> f.latest.value !in NamesOf(Victims(order, keep)))
  {
    var victims := Victims(order, keep);
    VictimsFirst(f, order, keep);
    if f.latest.Some? && f.latest.value in NamesOf(victims) {
      VictimGoes(f, victims);
    } else {
      forall fail, k | 0 <= k < |PruneStates(f, victims, fail)| ensures Servable(PruneStates(f, victims, fail)[k]) {
        if f.latest.Some? {
          VictimsLack(f, victims, fail, k);
        } else {
          PruneAt(f, victims, fail, k);
        }
      }
    }
  }

  /** How many directories come after the one with the name. */
  function After(order: seq<Block>, name: string): nat {
    if order == [] then 0
    else if order[0].name == name then |order| - 1
    else After(order[1..], name)
  }

  lemma {:induction false} AfterAt(order: seq<Block>, t: nat)
    requires t < |order| && forall i, j :: 0 <= i < j < |order| ==> order[i].name != order[j].name
    ensures After(order, order[t].name) == |order| - 1 - t
  {
    if t > 0 {
      AfterAt(order[1..], t - 1);
    }
  }

  /** A directory is to be removed exactly when at least `keep` come after it. */
  lemma VictimExactly(order: seq<Block>, keep: int, t: nat)
    requires t < |order| && forall i, j :: 0 <= i < j < |order| ==> order[i].name != order[j].name
    ensures order[t].name in NamesOf(Victims(order, keep)) <==> After(order, order[t].name) >= keep
  {
    var victims := Victims(order, keep);
    AfterAt(order, t);
    if t < |victims| {
      assert victims[t] == order[t];
    }
  }

  /** Where no other directory has its number, those that come after it are the ones with a
      greater number. */
  lemma AfterCounts(f: Folder, order: seq<Block>, name: string)
    requires Ascending(f, order) && name in Numeric(f)
    requires forall n :: n in Numeric(f) && n != name ==> ParseUint(n) != ParseUint(name)
    ensures After(order, name) == |set n | n in Numeric(f) && ParseUint(n).value > ParseUint(name).value|
  {
    var block := Block(name, ParseUint(name).value);
    var t :| 0 <= t < |order| && order[t] == block;
    AfterAt(order, t);
    NamesSize(order[t + 1..]);
    var above := set n | n in Numeric(f) && ParseUint(n).value > block.number;
    forall n ensures n in above <==> n in NamesOf(order[t + 1..]) {
      AfterAbove(f, order, t, n);
    }
    assert above == NamesOf(order[t + 1..]);
  }

  lemma AfterAbove(f: Folder, order: seq<Block>, t: nat, n: string)
    requires Ascending(f, order) && t < |order|
    requires forall m :: m in Numeric(f) && m != order[t].name ==> ParseUint(m) != Some(order[t].number)
    ensures n in Numeric(f) && ParseUint(n).value > order[t].number <==> n in NamesOf(order[t + 1..])
  {
    if n in NamesOf(order[t + 1..]) {
      var i :| 0 <= i < |order| - t - 1 && order[t + 1..][i].name == n;
      assert order[t + 1 + i].name == n && n in Numeric(f);
    }
    if n in Numeric(f) && ParseUint(n).value > order[t].number {
      assert Block(n, ParseUint(n).value) in order;
      var i :| 0 <= i < |order| && order[i] == Block(n, ParseUint(n).value);
      assert order[t + 1..][i - t - 1] == order[i];
    }
  }

  /** One turn of runSnapshots for a client: an attempt and, if it succeeds, a prune, which does
      nothing when the directory cannot be listed. */
  datatype Cycle = Cycle(attempt: Attempt, order: seq<Block>, listed: bool, fail: Option<Failure>)

  function CycleStates(f: Folder, keep: int, c: Cycle): seq<Folder> {
    var created := CreateStates(f, c.attempt);
    if Succeeds(c.attempt) && c.listed
    then created + PruneStates(Last(f, created), Victims(c.order, keep), c.fail)
    else created
  }

  function RunStates(f: Folder, keep: int, cycles: seq<Cycle>): seq<Folder>
    decreases |cycles|
  {
    if cycles == [] then []
    else
      var states := CycleStates(f, keep, cycles[0]);
      states + RunStates(Last(f, states), keep, cycles[1..])
  }

  /** The attempt has a block number, and the prune works through the directories it finds in
      ascending order. */
  ghost predicate Proper(f: Folder, c: Cycle) {
    && ParseUint(c.attempt.block).Some?
    && (Succeeds(c.attempt) ==> Ascending(Last(f, CreateStates(f, c.attempt)), c.order))
  }

  /** The attempt does not redo the published block, and fewer than `keep` directories come
      after its own. */
  predicate CycleSafe(f: Folder, keep: int, c: Cycle) {
    !Clobbers(f, c.attempt) && (Succeeds(c.attempt) ==> After(c.order, c.attempt.block) < keep)
  }

  lemma ConcatServable(xs: seq<Folder>, ys: seq<Folder>)
    ensures AllServable(xs + ys) <==> AllServable(xs) && AllServable(ys)
  {
    var all := xs + ys;
    if AllServable(all) {
      forall i | 0 <= i < |xs| ensures Servable(xs[i]) {
        assert all[i] == xs[i];
      }
      forall i | 0 <= i < |ys| ensures Servable(ys[i]) {
        assert all[|xs| + i] == ys[i];
      }
    }
  }

  lemma LastServable(f: Folder, states: seq<Folder>)
    requires Servable(f) && AllServable(states)
    ensures Servable(Last(f, states))
  {
  }

  lemma PublishedAfter(f: Folder, keep: int, c: Cycle)
    requires Proper(f, c) && Succeeds(c.attempt)
    ensures var f' := Last(f, CreateStates(f, c.attempt));
            && f'.latest == Some(c.attempt.block) && Servable(f')
            && (c.attempt.block in NamesOf(Victims(c.order, keep)) <==> After(c.order, c.attempt.block) >= keep)
  {
    var block := Block(c.attempt.block, ParseUint(c.attempt.block).value);
    assert block in c.order;
    var t :| 0 <= t < |c.order| && c.order[t] == block;
    VictimExactly(c.order, keep, t);
  }

  lemma CycleSplit(f: Folder, keep: int, c: Cycle)
    ensures AllServable(CycleStates(f, keep, c)) <==>
              && AllServable(CreateStates(f, c.attempt))
              && (Succeeds(c.attempt) && c.listed ==>
                    AllServable(PruneStates(Last(f, CreateStates(f, c.attempt)), Victims(c.order, keep), c.fail)))
  {
    var created := CreateStates(f, c.attempt);
    ConcatServable(created, PruneStates(Last(f, created), Victims(c.order, keep), c.fail));
  }

  /** A cycle keeps `latest` servable at each of its steps, whatever becomes of its prune,
      exactly when it is safe. */
  lemma CycleServableExactly(f: Folder, keep: int, c: Cycle)
    requires Servable(f) && Proper(f, c)
    ensures (forall listed, fail :: AllServable(CycleStates(f, keep, c.(listed := listed, fail := fail))))
       <==> CycleSafe(f, keep, c)
  {
    var f', victims := Last(f, CreateStates(f, c.attempt)), Victims(c.order, keep);
    CreateServableExactly(f, c.attempt);
    if Succeeds(c.attempt) {
      PublishedAfter(f, keep, c);
      PruneServableExactly(f', c.order, keep);
    }
    if CycleSafe(f, keep, c) {
      forall listed, fail ensures AllServable(CycleStates(f, keep, c.(listed := listed, fail := fail))) {
        assert Succeeds(c.attempt) ==> AllServable(PruneStates(f', victims, fail));
        CycleSplit(f, keep, c.(listed := listed, fail := fail));
      }
    } else if Clobbers(f, c.attempt) {
      CycleSplit(f, keep, c.(listed := false, fail := None));
      assert !AllServable(CycleStates(f, keep, c.(listed := false, fail := None)));
    } else {
      var fail :| !AllServable(PruneStates(f', victims, fail));
      CycleSplit(f, keep, c.(listed := true, fail := fail));
      assert !AllServable(CycleStates(f, keep, c.(listed := true, fail := fail)));
    }
  }

  ghost predicate Orderly(f: Folder, keep: int, cycles: seq<Cycle>)
    decreases |cycles|
  {
    cycles != [] ==> Proper(f, cycles[0]) && Orderly(Last(f, CycleStates(f, keep, cycles[0])), keep, cycles[1..])
  }

  /** Every cycle of the run is safe in the state it finds. */
  predicate Safe(f: Folder, keep: int, cycles: seq<Cycle>)
    decreases |cycles|
  {
    cycles != [] ==> CycleSafe(f, keep, cycles[0]) && Safe(Last(f, CycleStates(f, keep, cycles[0])), keep, cycles[1..])
  }

  /** The run up to cycle i, whose prune ends otherwise. */
  function Until(cycles: seq<Cycle>, i: nat, listed: bool, fail: Option<Failure>): seq<Cycle>
    requires i < |cycles|
  {
    cycles[..i] + [cycles[i].(listed := listed, fail := fail)]
  }

  /** Whatever becomes of the prune of any cycle, what `latest` names is served at every
      intermediate state up to then. */
  ghost predicate Robust(f: Folder, keep: int, cycles: seq<Cycle>) {
    forall i, listed, fail :: 0 <= i < |cycles| ==> AllServable(RunStates(f, keep, Until(cycles, i, listed, fail)))
  }

  lemma RunCons(f: Folder, keep: int, c: Cycle, rest: seq<Cycle>)
    ensures RunStates(f, keep, [c] + rest)
         == CycleStates(f, keep, c) + RunStates(Last(f, CycleStates(f, keep, c)), keep, rest)
  {
    assert ([c] + rest)[1..] == rest;
  }

  lemma UntilFirst(f: Folder, keep: int, cycles: seq<Cycle>, listed: bool, fail: Option<Failure>)
    requires cycles != []
    ensures RunStates(f, keep, Until(cycles, 0, listed, fail))
         == CycleStates(f, keep, cycles[0].(listed := listed, fail := fail))
  {
    var c := cycles[0].(listed := listed, fail := fail);
    assert Until(cycles, 0, listed, fail) == [c] + [];
    RunCons(f, keep, c, []);
  }

  lemma UntilNext(f: Folder, keep: int, cycles: seq<Cycle>, i: nat, listed: bool, fail: Option<Failure>)
    requires i + 1 < |cycles|
    ensures var states, left := CycleStates(f, keep, cycles[0]), Until(cycles[1..], i, listed, fail);
            RunStates(f, keep, Until(cycles, i + 1, listed, fail)) == states + RunStates(Last(f, states), keep, left)
  {
    assert Until(cycles, i + 1, listed, fail) == [cycles[0]] + Until(cycles[1..], i, listed, fail);
    RunCons(f, keep, cycles[0], Until(cycles[1..], i, listed, fail));
  }

  /** Over any number of cycles: what `latest` names is served at every intermediate state,
      whatever becomes of any prune, exactly when every cycle is safe. */
  lemma {:induction false} RobustExactly(f: Folder, keep: int, cycles: seq<Cycle>)
    requires Servable(f) && Orderly(f, keep, cycles)
    ensures Robust(f, keep, cycles) <==> Safe(f, keep, cycles)
    decreases |cycles|
  {
    if cycles != [] {
      CycleServableExactly(f, keep, cycles[0]);
      if CycleSafe(f, keep, cycles[0]) {
        RobustStep(f, keep, cycles);
      } else {
        var listed, fail :| !AllServable(CycleStates(f, keep, cycles[0].(listed := listed, fail := fail)));
        UntilFirst(f, keep, cycles, listed, fail);
        assert !AllServable(RunStates(f, keep, Until(cycles, 0, listed, fail)));
      }
    }
  }

  /** Later cycles of a robust run are as robust from where the first one ends. */
  lemma RobustRest(f: Folder, keep: int, cycles: seq<Cycle>, i: nat, listed: bool, fail: Option<Failure>)
    requires cycles != [] && i < |cycles| - 1 && Robust(f, keep, cycles)
    ensures var states := CycleStates(f, keep, cycles[0]);
            AllServable(RunStates(Last(f, states), keep, Until(cycles[1..], i, listed, fail)))
  {
    var states := CycleStates(f, keep, cycles[0]);
    assert AllServable(RunStates(f, keep, Until(cycles, i + 1, listed, fail)));
    UntilNext(f, keep, cycles, i, listed, fail);
    ConcatServable(states, RunStates(Last(f, states), keep, Until(cycles[1..], i, listed, fail)));
  }

  lemma RobustWhole(f: Folder, keep: int, cycles: seq<Cycle>, i: nat, listed: bool, fail: Option<Failure>)
    requires i < |cycles| && AllServable(CycleStates(f, keep, cycles[0]))
    requires forall listed, fail :: AllServable(CycleStates(f, keep, cycles[0].(listed := listed, fail := fail)))
    requires Robust(Last(f, CycleStates(f, keep, cycles[0])), keep, cycles[1..])
    ensures AllServable(RunStates(f, keep, Until(cycles, i, listed, fail)))
  {
    if i == 0 {
      UntilFirst(f, keep, cycles, listed, fail);
    } else {
      var states := CycleStates(f, keep, cycles[0]);
      UntilNext(f, keep, cycles, i - 1, listed, fail);
      ConcatServable(states, RunStates(Last(f, states), keep, Until(cycles[1..], i - 1, listed, fail)));
    }
  }

  lemma {:induction false} RobustStep(f: Folder, keep: int, cycles: seq<Cycle>)
    requires Servable(f) && cycles != [] && Orderly(f, keep, cycles)
    requires forall listed, fail :: AllServable(CycleStates(f, keep, cycles[0].(listed := listed, fail := fail)))
    requires CycleSafe(f, keep, cycles[0])
    ensures Robust(f, keep, cycles) <==> Safe(f, keep, cycles)
    decreases |cycles|, 0
  {
    var c, rest := cycles[0], cycles[1..];
    var states := CycleStates(f, keep, c);
    var f' := Last(f, states);
    assert c.(listed := c.listed, fail := c.fail) == c;
    assert AllServable(states);
    LastServable(f, states);
    RobustExactly(f', keep, rest);
    if Robust(f, keep, cycles) {
      forall i: nat, listed, fail | i < |rest| ensures AllServable(RunStates(f', keep, Until(rest, i, listed, fail))) {
        RobustRest(f, keep, cycles, i, listed, fail);
      }
    }
    if Robust(f', keep, rest) {
      forall i: nat, listed, fail | i < |cycles|
        ensures AllServable(RunStates(f, keep, Until(cycles, i, listed, fail)))
      {
        RobustWhole(f, keep, cycles, i, listed, fail);
      }
    }
  }

  /** A run of safe cycles serves what `latest` names at every intermediate state. */
  lemma AlwaysServable(f: Folder, keep: int, cycles: seq<Cycle>)
    requires Servable(f) && Orderly(f, keep, cycles) && Safe(f, keep, cycles)
    ensures AllServable(RunStates(f, keep, cycles))
  {
    if cycles != [] {
      RobustExactly(f, keep, cycles);
      AsItIs(cycles);
    }
  }

  lemma AsItIs(cycles: seq<Cycle>)
    requires cycles != []
    ensures var last := cycles[|cycles| - 1]; Until(cycles, |cycles| - 1, last.listed, last.fail) == cycles
  {
    var last := cycles[|cycles| - 1];
    assert last.(listed := last.listed, fail := last.fail) == last;
  }

  /** Each attempt's block is newer than every directory then present, and each prune works
      through the directories it finds in ascending order. */
  ghost predicate Rising(f: Folder, keep: int, cycles: seq<Cycle>)
    decreases |cycles|
  {
    cycles != [] ==>
      && Newer(f, cycles[0].attempt.block) && Proper(f, cycles[0])
      && Rising(Last(f, CycleStates(f, keep, cycles[0])), keep, cycles[1..])
  }

  lemma NewerIsSafe(f: Folder, keep: int, c: Cycle)
    requires Servable(f) && Newer(f, c.attempt.block) && Proper(f, c) && keep >= 1
    ensures CycleSafe(f, keep, c)
  {
    if Succeeds(c.attempt) {
      CreatePublishes(f, c.attempt);
      var f' := Last(f, CreateStates(f, c.attempt));
      var top := c.order[|c.order| - 1];
      assert Block(c.attempt.block, ParseUint(c.attempt.block).value) in c.order;
      assert top.name in Numeric(f');
      AfterAt(c.order, |c.order| - 1);
    }
  }

  /** While block numbers rise, every cycle is safe as long as one snapshot is to be kept. */
  lemma {:induction false} RisingIsSafe(f: Folder, keep: int, cycles: seq<Cycle>)
    requires Servable(f) && Rising(f, keep, cycles) && keep >= 1
    ensures Orderly(f, keep, cycles) && Safe(f, keep, cycles)
    decreases |cycles|
  {
    if cycles != [] {
      var c := cycles[0];
      NewerIsSafe(f, keep, c);
      CycleServableExactly(f, keep, c);
      assert c.(listed := c.listed, fail := c.fail) == c;
      LastServable(f, CycleStates(f, keep, c));
      RisingIsSafe(Last(f, CycleStates(f, keep, c)), keep, cycles[1..]);
    }
  }

  /** Runs whose block numbers rise serve what `latest` names at every intermediate state. */
  ghost predicate SafeKeep(keep: int) {
    forall f, cycles :: Servable(f) && Rising(f, keep, cycles) ==> AllServable(RunStates(f, keep, cycles))
  }

  /** The retention count must be positive: with 0 the very snapshot just published goes. */
  lemma SafeKeepExactly(keep: int)
    ensures SafeKeep(keep) <==> keep >= 1
  {
    if keep >= 1 {
      forall f, cycles | Servable(f) && Rising(f, keep, cycles)
        ensures AllServable(RunStates(f, keep, cycles))
      {
        RisingIsSafe(f, keep, cycles);
        AlwaysServable(f, keep, cycles);
      }
    } else {
      NothingKept(keep);
    }
  }

  lemma NothingKept(keep: int)
    requires keep <= 0
    ensures !SafeKeep(keep)
  {
    var f, a := Folder(map[], None), Attempt("7", true, true, true, Works, true, true);
    var c := Cycle(a, [Block("7", 7)], true, None);
    OnlySeven(f, a, c);
    CycleServableExactly(f, keep, c);
    var listed, fail :| !AllServable(CycleStates(f, keep, c.(listed := listed, fail := fail)));
    var c' := c.(listed := listed, fail := fail);
    RunCons(f, keep, c', []);
    assert [c'] + [] == [c'] && [c'][1..] == [];
    ConcatServable(CycleStates(f, keep, c'), []);
    assert Rising(Last(f, CycleStates(f, keep, c')), keep, []);
    assert Rising(f, keep, [c']);
  }

  lemma OnlySeven(f: Folder, a: Attempt, c: Cycle)
    requires f == Folder(map[], None) && a == Attempt("7", true, true, true, Works, true, true)
    requires c == Cycle(a, [Block("7", 7)], true, None)
    ensures Servable(f) && Newer(f, a.block) && Proper(f, c) && Succeeds(a) && After(c.order, a.block) == 0
  {
    Seven();
    assert Last(f, CreateStates(f, a)).dirs == map["7" := Complete];
    AfterAt(c.order, 0);
  }

  lemma Seven()
    ensures ParseUint("7") == Some(7)
  {
    assert "7"[..0] == "";
  }

  lemma ParseDecimal(n: nat)
    requires n <= MAX_UINT64
    ensures ParseUint(Decimal(n)) == Some(n)
  {
    ValueDecimal(n);
  }

  /** When no block number can be had, a snapshot is named by the Unix time. The next attempt has
      a far lower number again, and its prune removes what it has just published. */
  lemma TimestampLoses(time: nat, block: nat, c: Cycle)
    requires block < time <= MAX_UINT64
    requires c == Cycle(Attempt(Decimal(block), true, true, true, Works, true, true),
                        [Block(Decimal(block), block), Block(Decimal(time), time)], true, None)
    ensures var f := Folder(map[Decimal(time) := Complete], Some(Decimal(time)));
            && Servable(f) && Proper(f, c) && !Clobbers(f, c.attempt)
            && !Servable(Last(f, CycleStates(f, 1, c)))
  {
    ParseDecimal(time);
    ParseDecimal(block);
    var f := Folder(map[Decimal(time) := Complete], Some(Decimal(time)));
    var f1 := Last(f, CreateStates(f, c.attempt));
    assert f1.dirs == map[Decimal(time) := Complete, Decimal(block) := Complete] && f1.latest == Some(Decimal(block));
    assert Ascending(f1, c.order);
    assert Victims(c.order, 1) == [Block(Decimal(block), block)];
    assert PruneStates(f1, [Block(Decimal(block), block)], None) == [f1.(dirs := f1.dirs - {Decimal(block)})];
  }
}
