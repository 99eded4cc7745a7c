/** The override of one keyed list by another, as the index-map loops of
    pkg/profile/merger.go compute it, and its laws. Duplicate keys are allowed everywhere. */
module Lists {
  import opened Wrappers

  function Keys<T, K>(s: seq<T>, key: T -> K): set<K> {
    set i | 0 <= i < |s| :: key(s[i])
  }

  /** The last element with the key. */
  function LastMatch<T, K(==)>(s: seq<T>, key: T -> K, k: K): Option<T> {
    if s == [] then None
    else if LastMatch(s[1..], key, k).Some? then LastMatch(s[1..], key, k)
    else if key(s[0]) == k then Some(s[0])
    else None
  }

  function Or<T>(o: Option<T>, default: T): T {
    if o.Some? then o.value else default
  }

  /** The last element of `d` with each key is replaced by the last one of `s` with that key. */
  function Overlay<T, K(==)>(d: seq<T>, s: seq<T>, key: T -> K): (r: seq<T>)
    ensures |r| == |d|
  {
    if d == [] then []
    else [if key(d[0]) in Keys(d[1..], key) then d[0] else Or(LastMatch(s, key, key(d[0])), d[0])]
         + Overlay(d[1..], s, key)
  }

  function Without<T, K(==)>(s: seq<T>, ks: set<K>, key: T -> K): (r: seq<T>)
    ensures |r| <= |s|
  {
    if s == [] then []
    else if key(s[0]) in ks then Without(s[1..], ks, key)
    else [s[0]] + Without(s[1..], ks, key)
  }

  /** `d` overlaid, then the elements of `s` whose key `d` does not have, in their order. */
  function Merge<T, K(==)>(d: seq<T>, s: seq<T>, key: T -> K): (r: seq<T>)
    ensures |d| <= |r| <= |d| + |s|
  {
    Overlay(d, s, key) + Without(s, Keys(d, key), key)
  }

  lemma KeysCons<T, K>(x: T, s: seq<T>, key: T -> K)
    ensures Keys([x] + s, key) == {key(x)} + Keys(s, key)
  {
    var xs := [x] + s;
    forall k | k in {key(x)} + Keys(s, key) ensures k in Keys(xs, key) {
      if k == key(x) {
        assert key(xs[0]) == k;
      } else {
        var i :| 0 <= i < |s| && key(s[i]) == k;
        assert key(xs[i + 1]) == k;
      }
    }
  }

  lemma KeysSplit<T, K>(s: seq<T>, key: T -> K)
    requires s != []
    ensures Keys(s, key) == {key(s[0])} + Keys(s[1..], key)
  {
    assert s == [s[0]] + s[1..];
    KeysCons(s[0], s[1..], key);
  }

  lemma KeysConcat<T, K>(a: seq<T>, b: seq<T>, key: T -> K)
    ensures Keys(a + b, key) == Keys(a, key) + Keys(b, key)
  {
    forall k | k in Keys(a, key) + Keys(b, key) ensures k in Keys(a + b, key) {
      if k in Keys(a, key) {
        var i :| 0 <= i < |a| && key(a[i]) == k;
        assert key((a + b)[i]) == k;
      } else {
        var i :| 0 <= i < |b| && key(b[i]) == k;
        assert key((a + b)[|a| + i]) == k;
      }
    }
  }

  lemma {:induction false} MatchFound<T, K>(s: seq<T>, key: T -> K, k: K)
    ensures LastMatch(s, key, k).Some? <==> k in Keys(s, key)
    ensures LastMatch(s, key, k).Some? ==> key(LastMatch(s, key, k).value) == k
  {
    if s != [] {
      KeysSplit(s, key);
      MatchFound(s[1..], key, k);
    }
  }

  lemma {:induction false} MatchConcat<T, K>(a: seq<T>, b: seq<T>, key: T -> K, k: K)
    ensures LastMatch(a + b, key, k)
         == if LastMatch(b, key, k).Some? then LastMatch(b, key, k) else LastMatch(a, key, k)
  {
    if a == [] {
      assert a + b == b;
    } else {
      assert (a + b)[0] == a[0] && (a + b)[1..] == a[1..] + b;
      MatchConcat(a[1..], b, key, k);
    }
  }

  lemma {:induction false} OverlayKeys<T, K>(d: seq<T>, s: seq<T>, key: T -> K)
    ensures Keys(Overlay(d, s, key), key) == Keys(d, key)
    ensures forall i :: 0 <= i < |d| ==> key(Overlay(d, s, key)[i]) == key(d[i])
  {
    if d != [] {
      OverlayKeys(d[1..], s, key);
      MatchFound(s, key, key(d[0]));
      KeysSplit(d, key);
      KeysSplit(Overlay(d, s, key), key);
    }
  }

  lemma {:induction false} OverlayMatch<T, K>(d: seq<T>, s: seq<T>, key: T -> K, k: K)
    requires k in Keys(d, key)
    ensures LastMatch(Overlay(d, s, key), key, k)
         == if LastMatch(s, key, k).Some? then LastMatch(s, key, k) else LastMatch(d, key, k)
  {
    KeysSplit(d, key);
    var o := Overlay(d, s, key);
    assert o[1..] == Overlay(d[1..], s, key);
    OverlayKeys(d[1..], s, key);
    MatchFound(o[1..], key, k);
    MatchFound(d[1..], key, k);
    MatchFound(s, key, k);
    if k in Keys(d[1..], key) {
      OverlayMatch(d[1..], s, key, k);
    }
  }

  lemma {:induction false} WithoutKeys<T, K>(s: seq<T>, ks: set<K>, key: T -> K)
    ensures Keys(Without(s, ks, key), key) == Keys(s, key) - ks
  {
    if s != [] {
      WithoutKeys(s[1..], ks, key);
      KeysSplit(s, key);
      if key(s[0]) !in ks {
        KeysCons(s[0], Without(s[1..], ks, key), key);
      }
    }
  }

  lemma {:induction false} WithoutMatch<T, K>(s: seq<T>, ks: set<K>, key: T -> K, k: K)
    requires k !in ks
    ensures LastMatch(Without(s, ks, key), key, k) == LastMatch(s, key, k)
  {
    if s != [] {
      WithoutMatch(s[1..], ks, key, k);
      var w := Without(s, ks, key);
      if key(s[0]) !in ks {
        assert w[0] == s[0] && w[1..] == Without(s[1..], ks, key);
      }
    }
  }

  /** Looking a key up in the result gives the last match of the overriding list, else that of
      the overridden one. */
  lemma MergeMatch<T, K>(d: seq<T>, s: seq<T>, key: T -> K, k: K)
    ensures LastMatch(Merge(d, s, key), key, k)
         == if LastMatch(s, key, k).Some? then LastMatch(s, key, k) else LastMatch(d, key, k)
  {
    var extra := Without(s, Keys(d, key), key);
    MatchConcat(Overlay(d, s, key), extra, key, k);
    WithoutKeys(s, Keys(d, key), key);
    OverlayKeys(d, s, key);
    MatchFound(extra, key, k);
    MatchFound(d, key, k);
    MatchFound(Overlay(d, s, key), key, k);
    if k in Keys(d, key) {
      OverlayMatch(d, s, key, k);
    } else {
      WithoutMatch(s, Keys(d, key), key, k);
    }
  }

  lemma MergeKeys<T, K>(d: seq<T>, s: seq<T>, key: T -> K)
    ensures Keys(Merge(d, s, key), key) == Keys(d, key) + Keys(s, key)
  {
    KeysConcat(Overlay(d, s, key), Without(s, Keys(d, key), key), key);
    OverlayKeys(d, s, key);
    WithoutKeys(s, Keys(d, key), key);
  }

  /** Every position of the overridden list keeps its key, and the new keys follow in the order
      of the overriding list. */
  lemma MergeLayout<T, K>(d: seq<T>, s: seq<T>, key: T -> K)
    ensures forall i :: 0 <= i < |d| ==> key(Merge(d, s, key)[i]) == key(d[i])
    ensures Merge(d, s, key)[|d|..] == Without(s, Keys(d, key), key)
  {
    OverlayKeys(d, s, key);
  }

  predicate DistinctKeys<T, K(==)>(s: seq<T>, key: T -> K) {
    forall i, j :: 0 <= i < j < |s| ==> key(s[i]) != key(s[j])
  }

  lemma {:induction false} WithoutDistinct<T, K>(s: seq<T>, ks: set<K>, key: T -> K)
    requires DistinctKeys(s, key)
    ensures DistinctKeys(Without(s, ks, key), key)
  {
    if s != [] {
      assert forall i :: 0 <= i < |s[1..]| ==> s[1..][i] == s[i + 1];
      WithoutDistinct(s[1..], ks, key);
      WithoutKeys(s[1..], ks, key);
      var w := Without(s[1..], ks, key);
      assert forall i :: 0 <= i < |w| ==> key(w[i]) in Keys(w, key);
    }
  }

  /** Overriding a list without repeated keys by another one gives a third. */
  lemma MergeDistinct<T, K>(d: seq<T>, s: seq<T>, key: T -> K)
    requires DistinctKeys(d, key) && DistinctKeys(s, key)
    ensures DistinctKeys(Merge(d, s, key), key)
  {
    var o, w := Overlay(d, s, key), Without(s, Keys(d, key), key);
    OverlayKeys(d, s, key);
    WithoutDistinct(s, Keys(d, key), key);
    WithoutKeys(s, Keys(d, key), key);
    assert forall i :: 0 <= i < |d| ==> key(d[i]) in Keys(d, key);
    assert forall i :: 0 <= i < |w| ==> key(w[i]) in Keys(w, key);
  }

  lemma {:induction false} OverlayConcat<T, K>(a: seq<T>, b: seq<T>, s: seq<T>, key: T -> K)
    requires Keys(a, key) !! Keys(b, key)
    ensures Overlay(a + b, s, key) == Overlay(a, s, key) + Overlay(b, s, key)
  {
    if a == [] {
      assert a + b == b;
    } else {
      assert (a + b)[0] == a[0] && (a + b)[1..] == a[1..] + b;
      KeysSplit(a, key);
      KeysConcat(a[1..], b, key);
      OverlayConcat(a[1..], b, s, key);
    }
  }

  lemma {:induction false} OverlayTwice<T, K>(a: seq<T>, b: seq<T>, c: seq<T>, key: T -> K)
    ensures Overlay(Overlay(a, b, key), c, key) == Overlay(a, Merge(b, c, key), key)
  {
    if a != [] {
      var o := Overlay(a, b, key);
      assert o[1..] == Overlay(a[1..], b, key);
      OverlayTwice(a[1..], b, c, key);
      OverlayKeys(a[1..], b, key);
      OverlayKeys(a, b, key);
      MergeMatch(b, c, key, key(a[0]));
    }
  }

  lemma {:induction false} OverlayWithout<T, K>(b: seq<T>, c: seq<T>, ks: set<K>, key: T -> K)
    ensures Overlay(Without(b, ks, key), c, key) == Without(Overlay(b, c, key), ks, key)
  {
    if b != [] {
      OverlayWithout(b[1..], c, ks, key);
      OverlayKeys(b, c, key);
      var o := Overlay(b, c, key);
      assert o[1..] == Overlay(b[1..], c, key);
      if key(b[0]) !in ks {
        var w := Without(b[1..], ks, key);
        assert ([b[0]] + w)[1..] == w;
        WithoutKeys(b[1..], ks, key);
      }
    }
  }

  lemma {:induction false} WithoutConcat<T, K>(a: seq<T>, b: seq<T>, ks: set<K>, key: T -> K)
    ensures Without(a + b, ks, key) == Without(a, ks, key) + Without(b, ks, key)
  {
    if a == [] {
      assert a + b == b;
    } else {
      assert (a + b)[0] == a[0] && (a + b)[1..] == a[1..] + b;
      WithoutConcat(a[1..], b, ks, key);
    }
  }

  lemma {:induction false} WithoutTwice<T, K>(s: seq<T>, ks: set<K>, js: set<K>, key: T -> K)
    ensures Without(Without(s, ks, key), js, key) == Without(s, ks + js, key)
  {
    if s != [] {
      WithoutTwice(s[1..], ks, js, key);
      if key(s[0]) !in ks {
        var w := Without(s[1..], ks, key);
        assert ([s[0]] + w)[1..] == w;
      }
    }
  }

  /** Both groupings overlay `a` with the rest, then keep what of `b` is new, overlaid by `c`. */
  lemma OverlaysAssociate<T, K>(a: seq<T>, b: seq<T>, c: seq<T>, key: T -> K)
    ensures Overlay(Merge(a, b, key), c, key)
         == Overlay(a, Merge(b, c, key), key) + Without(Overlay(b, c, key), Keys(a, key), key)
  {
    var o, f := Overlay(a, b, key), Without(b, Keys(a, key), key);
    OverlayKeys(a, b, key);
    WithoutKeys(b, Keys(a, key), key);
    OverlayConcat(o, f, c, key);
    OverlayTwice(a, b, c, key);
    OverlayWithout(b, c, Keys(a, key), key);
  }

  /** What is left of the last list is what neither of the others has a key for. */
  lemma RemaindersAssociate<T, K>(a: seq<T>, b: seq<T>, c: seq<T>, key: T -> K)
    ensures Without(Merge(b, c, key), Keys(a, key), key)
         == Without(Overlay(b, c, key), Keys(a, key), key) + Without(c, Keys(Merge(a, b, key), key), key)
  {
    var ka, kb := Keys(a, key), Keys(b, key);
    MergeKeys(a, b, key);
    WithoutConcat(Overlay(b, c, key), Without(c, kb, key), ka, key);
    WithoutTwice(c, kb, ka, key);
    assert kb + ka == ka + kb;
  }

  lemma ConcatAssociative<T>(a: seq<T>, b: seq<T>, c: seq<T>)
    ensures a + b + c == a + (b + c)
  {
  }

  /** The override is associative on all lists, whatever keys repeat in them. */
  lemma MergeAssociative<T, K>(a: seq<T>, b: seq<T>, c: seq<T>, key: T -> K)
    ensures Merge(Merge(a, b, key), c, key) == Merge(a, Merge(b, c, key), key)
  {
    OverlaysAssociate(a, b, c, key);
    RemaindersAssociate(a, b, c, key);
    ConcatAssociative(Overlay(a, Merge(b, c, key), key), Without(Overlay(b, c, key), Keys(a, key), key),
                      Without(c, Keys(Merge(a, b, key), key), key));
  }

  lemma {:induction false} OverlayNothing<T, K>(d: seq<T>, key: T -> K)
    ensures Overlay(d, [], key) == d
  {
    if d != [] {
      OverlayNothing(d[1..], key);
    }
  }

  lemma {:induction false} WithoutNone<T, K>(s: seq<T>, key: T -> K)
    ensures Without(s, {}, key) == s
  {
    if s != [] {
      WithoutNone(s[1..], key);
    }
  }

  lemma MergeUnits<T, K>(s: seq<T>, key: T -> K)
    ensures Merge(s, [], key) == s && Merge([], s, key) == s
  {
    OverlayNothing(s, key);
    assert Keys([], key) == {};
    WithoutNone(s, key);
  }

  // One more element of the overriding list, as the loop takes it.

  predicate LastAt<T, K(==)>(d: seq<T>, i: nat, key: T -> K, k: K) {
    i < |d| && key(d[i]) == k && forall j :: i < j < |d| ==> key(d[j]) != k
  }

  lemma {:induction false} OverlaySnoc<T, K>(d: seq<T>, s: seq<T>, p: T, key: T -> K, i: nat)
    requires LastAt(d, i, key, key(p))
    ensures Overlay(d, s + [p], key) == Overlay(d, s, key)[i := p]
  {
    MatchConcat(s, [p], key, key(d[0]));
    if i == 0 {
      forall j | 0 <= j < |d[1..]| ensures key(d[1..][j]) != key(p) {
        assert d[1..][j] == d[j + 1];
      }
      OverlaySnocSame(d[1..], s, p, key);
    } else {
      assert forall j :: 0 <= j < |d[1..]| ==> d[1..][j] == d[j + 1];
      OverlaySnoc(d[1..], s, p, key, i - 1);
      assert key(d[1..][i - 1]) == key(p);
    }
  }

  lemma {:induction false} OverlaySnocSame<T, K>(d: seq<T>, s: seq<T>, p: T, key: T -> K)
    requires key(p) !in Keys(d, key)
    ensures Overlay(d, s + [p], key) == Overlay(d, s, key)
  {
    if d != [] {
      KeysSplit(d, key);
      MatchConcat(s, [p], key, key(d[0]));
      OverlaySnocSame(d[1..], s, p, key);
    }
  }

  lemma MergeSnoc<T, K>(d: seq<T>, s: seq<T>, p: T, key: T -> K, i: nat)
    requires key(p) in Keys(d, key) ==> LastAt(d, i, key, key(p))
    ensures Merge(d, s + [p], key)
         == if key(p) in Keys(d, key) then Merge(d, s, key)[i := p] else Merge(d, s, key) + [p]
  {
    WithoutConcat(s, [p], Keys(d, key), key);
    if key(p) in Keys(d, key) {
      OverlaySnoc(d, s, p, key, i);
    } else {
      OverlaySnocSame(d, s, p, key);
    }
  }
}
