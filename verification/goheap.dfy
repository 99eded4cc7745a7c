/** Go's slices and maps as objects. */
module GoHeap {
  import Lists

  /** A slice lies anywhere in its array, and its capacity need not reach the array's end. A nil
      slice has no array. */
  datatype Slice<T> = Slice(arr: array?<T>, from: nat, len: nat, cap: nat)
  {
    ghost predicate Ok() {
      if arr == null then from == len == cap == 0 else len <= cap && from + cap <= arr.Length
    }

    ghost function Elems(): seq<T>
      requires Ok()
      reads arr
    {
      if arr == null then [] else arr[from..from + len]
    }

    /** Where the next element goes. */
    function End(): nat {
      from + len
    }

    /** Appending n more elements stays within the capacity. */
    predicate Fits(n: nat) {
      arr != null && len + n <= cap
    }
  }

  function Nil<T>(): Slice<T> {
    Slice(null, 0, 0, 0)
  }

  /** Two containers that can be written to one at a time. */
  ghost predicate Distinct(a: object?, b: object?) {
    a == null || a != b
  }

  /** The whole array once `xs` has been written at a position. */
  function Written<T>(content: seq<T>, at: nat, xs: seq<T>): seq<T>
    requires at + |xs| <= |content|
  {
    content[..at] + xs + content[at + |xs|..]
  }

  /** append(s, xs...): in place when it fits, else into a new array of some larger capacity. */
  method Extend<T>(s: Slice<T>, xs: seq<T>, spare: nat) returns (r: Slice<T>)
    requires s.Ok()
    modifies s.arr
    ensures r.Ok() && r.Elems() == old(s.Elems()) + xs
    ensures r.arr == s.arr || fresh(r.arr)
    ensures s.Fits(|xs|) ==> r == s.(len := s.len + |xs|) && s.arr[..] == Written(old(s.arr[..]), s.End(), xs)
    ensures !s.Fits(|xs|) ==> (s.arr != null ==> fresh(r.arr) && s.arr[..] == old(s.arr[..]))
  {
    if s.arr == null && xs == [] {
      return s;
    }
    if s.arr != null && s.len + |xs| <= s.cap {
      forall i | 0 <= i < |xs| {
        s.arr[s.End() + i] := xs[i];
      }
      r := s.(len := s.len + |xs|);
      assert s.arr[..] == Written(old(s.arr[..]), s.End(), xs);
      assert s.arr[s.from..r.End()] == old(s.arr[..])[s.from..s.End()] + xs;
      return;
    }
    var all := (if s.arr != null then s.arr[s.from..s.End()] else []) + xs;
    var arr := new T[|all| + spare](i => if 0 <= i < |all| then all[i] else all[0]);
    r := Slice(arr, 0, |all|, |all| + spare);
    assert arr[0..r.len] == all;
  }

  method AppendSlice<T>(s: Slice<T>, t: Slice<T>, spare: nat) returns (r: Slice<T>)
    requires s.Ok() && t.Ok()
    modifies s.arr
    ensures r.Ok() && r.Elems() == old(s.Elems()) + old(t.Elems())
    ensures r.arr == s.arr || fresh(r.arr)
    ensures s.Fits(t.len) ==> r == s.(len := s.len + t.len) && s.arr[..] == old(Written(s.arr[..], s.End(), t.Elems()))
    ensures !s.Fits(t.len) ==> (s.arr != null ==> fresh(r.arr) && s.arr[..] == old(s.arr[..]))
  {
    r := Extend(s, if t.arr != null then t.arr[t.from..t.End()] else [], spare);
  }

  /** The index maps each key of `d` to the last position that has it. */
  ghost predicate Indexes<T, K>(d: seq<T>, index: map<K, nat>, key: T -> K) {
    && index.Keys == Lists.Keys(d, key)
    && forall k :: k in index ==> Lists.LastAt(d, index[k], key, k)
  }

  lemma IndexSnoc<T, K>(d: seq<T>, x: T, index: map<K, nat>, key: T -> K)
    requires Indexes(d, index, key)
    ensures Indexes(d + [x], index[key(x) := |d|], key)
  {
    Lists.KeysConcat(d, [x], key);
    assert key([x][0]) in Lists.Keys([x], key);
  }

  lemma MergeIndexedStep<T, K>(d: seq<T>, xs: seq<T>, j: nat, index: map<K, nat>, key: T -> K)
    requires Indexes(d, index, key) && j < |xs|
    ensures var before, p := Lists.Merge(d, xs[..j], key), xs[j];
            Lists.Merge(d, xs[..j + 1], key) == if key(p) in index then before[index[key(p)] := p] else before + [p]
  {
    var s, p := xs[..j], xs[j];
    assert xs[..j + 1] == s + [p];
    Lists.MergeSnoc(d, s, p, key, if key(p) in index then index[key(p)] else 0);
  }

  method BuildIndex<T, K(==)>(dst: Slice<T>, key: T -> K) returns (index: map<K, nat>)
    requires dst.Ok()
    ensures Indexes(dst.Elems(), index, key)
  {
    index := map[];
    var i := 0;
    while i < dst.len
      invariant 0 <= i <= dst.len
      invariant Indexes(dst.Elems()[..i], index, key)
    {
      var x := dst.arr[dst.from + i];
      IndexSnoc(dst.Elems()[..i], x, index, key);
      assert dst.Elems()[..i + 1] == dst.Elems()[..i] + [x];
      index := index[key(x) := i];
      i := i + 1;
    }
    assert dst.Elems()[..i] == dst.Elems();
  }

  /** One turn of the second loop. */
  method PutIndexed<T, K(==)>(r0: Slice<T>, p: T, index: map<K, nat>, key: T -> K, spare: nat) returns (r: Slice<T>)
    requires r0.Ok() && (key(p) in index ==> index[key(p)] < r0.len)
    modifies r0.arr
    ensures r.Ok() && (r.arr == r0.arr || fresh(r.arr))
    ensures r.Elems() == if key(p) in index then old(r0.Elems())[index[key(p)] := p] else old(r0.Elems()) + [p]
  {
    if key(p) in index {
      r0.arr[r0.from + index[key(p)]] := p;
      r := r0;
    } else {
      r := Extend(r0, [p], spare);
    }
  }

  method PutNext<T, K(==)>(
      r0: Slice<T>, p: T, index: map<K, nat>, key: T -> K, spare: nat, ghost d: seq<T>, ghost xs: seq<T>, ghost j: nat)
    returns (r: Slice<T>)
    requires r0.Ok() && j < |xs| && xs[j] == p && Indexes(d, index, key)
    requires r0.Elems() == Lists.Merge(d, xs[..j], key)
    modifies r0.arr
    ensures r.Ok() && (r.arr == r0.arr || fresh(r.arr))
    ensures r.Elems() == Lists.Merge(d, xs[..j + 1], key)
  {
    MergeIndexedStep(d, xs, j, index, key);
    r := PutIndexed(r0, p, index, key, spare);
  }

  /** The second loop. */
  method PutAll<T, K(==)>(
      dst: Slice<T>, src: Slice<T>, index: map<K, nat>, key: T -> K, spare: nat, ghost d: seq<T>, ghost xs: seq<T>)
    returns (r: Slice<T>)
    requires dst.Ok() && src.Ok() && Distinct(dst.arr, src.arr)
    requires d == dst.Elems() && xs == src.Elems() && Indexes(d, index, key)
    modifies dst.arr
    ensures r.Ok() && (r.arr == dst.arr || fresh(r.arr))
    ensures r.Elems() == Lists.Merge(d, xs[..|xs|], key)
  {
    r := dst;
    var j := 0;
    Lists.MergeUnits(d, key);
    while j < src.len
      invariant 0 <= j <= |xs| == src.len
      invariant src.Elems() == xs
      invariant r.Ok() && r.Elems() == Lists.Merge(d, xs[..j], key)
      invariant (r.arr == dst.arr || fresh(r.arr))
    {
      r := PutNext(r, src.arr[src.from + j], index, key, spare, d, xs, j);
      j := j + 1;
    }
  }

  /** mergeFirewallRules and mergePackages: an index of the keys of `dst`, not refreshed while
      elements are overwritten or appended. */
  method MergeIndexed<T, K(==)>(dst: Slice<T>, src: Slice<T>, key: T -> K, spare: nat) returns (r: Slice<T>)
    requires dst.Ok() && src.Ok() && Distinct(dst.arr, src.arr)
    modifies dst.arr
    ensures r.Ok() && r.Elems() == Lists.Merge(old(dst.Elems()), src.Elems(), key)
    ensures (r.arr == dst.arr || fresh(r.arr))
  {
    ghost var d, xs := dst.Elems(), src.Elems();
    var index := BuildIndex(dst, key);
    r := PutAll(dst, src, index, key, spare, d, xs);
    assert xs[..|xs|] == xs;
  }

  class GoMap {
    var m: map<string, string>

    constructor ()
      ensures m == map[]
    {
      m := map[];
    }
  }

  ghost function Entries(g: GoMap?): map<string, string>
    reads g
  {
    if g == null then map[] else g.m
  }

  /** The loop that copies every entry; Go ranges over a map in any order. */
  method CopyEntries(dst: GoMap, src: GoMap)
    requires dst != src
    modifies dst
    ensures dst.m == old(dst.m) + src.m
  {
    ghost var before := dst.m;
    var todo := src.m.Keys;
    while todo != {}
      invariant todo <= src.m.Keys && src.m == old(src.m)
      invariant dst.m.Keys == before.Keys + (src.m.Keys - todo)
      invariant forall k :: k in src.m && k !in todo ==> dst.m[k] == src.m[k]
      invariant forall k :: k in before && (k !in src.m || k in todo) ==> dst.m[k] == before[k]
      decreases todo
    {
      var k :| k in todo;
      dst.m := dst.m[k := src.m[k]];
      todo := todo - {k};
    }
  }

  /** `dst` is made first if it is nil and there is something to copy. */
  method MergeMap(dst: GoMap?, src: GoMap?) returns (r: GoMap?)
    requires Distinct(dst, src)
    modifies dst
    ensures Entries(r) == old(Entries(dst)) + Entries(src)
    ensures r == dst || fresh(r)
  {
    r := dst;
    if src == null || |src.m| == 0 {
      assert old(Entries(dst)) + Entries(src) == old(Entries(dst));
      return;
    }
    if r == null {
      r := new GoMap();
    }
    CopyEntries(r, src);
  }
}
