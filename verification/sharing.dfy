/** Several appends to one slice, each from the same length: what they leave in the backing
    array they may share, and when every result still reads what was appended to it. */
module Sharing {
  import opened GoHeap

  predicate Fits<T>(content: seq<T>, at: nat, x: seq<T>) {
    at + |x| <= |content|
  }

  /** The array after one append: it is written to if what is appended fits. */
  function Put<T>(content: seq<T>, at: nat, x: seq<T>): (r: seq<T>)
    requires at <= |content|
    ensures |r| == |content| && r[..at] == content[..at]
  {
    if Fits(content, at, x) then Written(content, at, x) else content
  }

  /** The array after all the appends, one over another. */
  function Spread<T>(content: seq<T>, at: nat, extras: seq<seq<T>>): (r: seq<T>)
    requires at <= |content|
    ensures |r| == |content| && r[..at] == content[..at]
  {
    if extras == [] then content
    else Put(Spread(content, at, extras[..|extras| - 1]), at, extras[|extras| - 1])
  }

  lemma SpreadMore<T>(content: seq<T>, at: nat, extras: seq<seq<T>>, i: nat)
    requires at <= |content| && i < |extras|
    ensures Spread(content, at, extras[..i + 1]) == Put(Spread(content, at, extras[..i]), at, extras[i])
  {
    assert extras[..i + 1][..i] == extras[..i];
  }

  /** What the result of the i-th append reads once all of them have been made. */
  function Read<T>(content: seq<T>, at: nat, extras: seq<seq<T>>, i: nat): seq<T>
    requires at <= |content| && i < |extras|
  {
    if Fits(content, at, extras[i]) then Spread(content, at, extras)[..at + |extras[i]|] else content[..at] + extras[i]
  }

  predicate Intact<T(==)>(content: seq<T>, at: nat, extras: seq<seq<T>>)
    requires at <= |content|
  {
    forall i :: 0 <= i < |extras| ==> Read(content, at, extras, i) == content[..at] + extras[i]
  }

  /** One list is equal to the other as far as both go. */
  predicate SameStart<T(==)>(x: seq<T>, y: seq<T>) {
    forall p :: 0 <= p < |x| && p < |y| ==> x[p] == y[p]
  }

  predicate Compatible<T(==)>(content: seq<T>, at: nat, extras: seq<seq<T>>) {
    forall i, j :: 0 <= i < j < |extras| && Fits(content, at, extras[i]) && Fits(content, at, extras[j]) ==>
      SameStart(extras[i], extras[j])
  }

  lemma {:induction false} SpreadHolds<T>(content: seq<T>, at: nat, extras: seq<seq<T>>, i: nat, p: nat)
    requires at <= |content| && i < |extras| && Fits(content, at, extras[i]) && p < |extras[i]|
    requires Compatible(content, at, extras)
    ensures Spread(content, at, extras)[at + p] == extras[i][p]
    decreases |extras|
  {
    var n := |extras| - 1;
    var last := extras[n];
    if i == n {
    } else if Fits(content, at, last) && p < |last| {
      assert SameStart(extras[i], last);
    } else {
      assert extras[..n][i] == extras[i];
      SpreadHolds(content, at, extras[..n], i, p);
    }
  }

  lemma CompatibleReads<T>(content: seq<T>, at: nat, extras: seq<seq<T>>, i: nat)
    requires at <= |content| && i < |extras| && Compatible(content, at, extras)
    ensures Read(content, at, extras, i) == content[..at] + extras[i]
  {
    if Fits(content, at, extras[i]) {
      var final := Spread(content, at, extras);
      forall p: nat | p < |extras[i]| ensures final[at..at + |extras[i]|][p] == extras[i][p] {
        SpreadHolds(content, at, extras, i, p);
      }
      assert final[at..at + |extras[i]|] == extras[i];
      assert final[..at + |extras[i]|] == final[..at] + final[at..at + |extras[i]|];
    }
  }

  lemma IntactAgrees<T>(content: seq<T>, at: nat, extras: seq<seq<T>>, i: nat, j: nat, p: nat)
    requires at <= |content| && Intact(content, at, extras)
    requires i < |extras| && j < |extras| && Fits(content, at, extras[i]) && Fits(content, at, extras[j])
    requires p < |extras[i]| && p < |extras[j]|
    ensures extras[i][p] == extras[j][p]
  {
    assert (content[..at] + extras[i])[at + p] == Spread(content, at, extras)[at + p]
        == (content[..at] + extras[j])[at + p] by {
      assert Read(content, at, extras, i) == content[..at] + extras[i];
      assert Read(content, at, extras, j) == content[..at] + extras[j];
    }
  }

  /** Every result reads what was appended to it exactly when any two appends that fit in the
      spare capacity agree as far as both go. */
  lemma IntactExactly<T>(content: seq<T>, at: nat, extras: seq<seq<T>>)
    requires at <= |content|
    ensures Intact(content, at, extras) <==> Compatible(content, at, extras)
  {
    if Compatible(content, at, extras) {
      forall i: nat | i < |extras| ensures Read(content, at, extras, i) == content[..at] + extras[i] {
        CompatibleReads(content, at, extras, i);
      }
    }
    if Intact(content, at, extras) {
      forall i: nat, j: nat, p: nat | i < j < |extras| && Fits(content, at, extras[i]) && Fits(content, at, extras[j])
                                      && p < |extras[i]| && p < |extras[j]|
        ensures extras[i][p] == extras[j][p]
      {
        IntactAgrees(content, at, extras, i, j, p);
      }
    }
  }

  /** The j-th append is the last that writes to place p of the spare capacity. */
  ghost predicate LastPut<T>(content: seq<T>, at: nat, extras: seq<seq<T>>, j: nat, p: nat) {
    && j < |extras| && Fits(content, at, extras[j]) && p < |extras[j]|
    && forall k :: j < k < |extras| ==> !Fits(content, at, extras[k]) || p >= |extras[k]|
  }

  /** A place of the spare capacity ends up as it was exactly when the last append that reaches
      it, if there is one, put there what it had. */
  lemma {:induction false} SpreadKeepsExactly<T>(content: seq<T>, at: nat, extras: seq<seq<T>>, p: nat)
    requires at + p < |content|
    ensures Spread(content, at, extras)[at + p] == content[at + p]
       <==> forall j: nat :: LastPut(content, at, extras, j, p) ==> extras[j][p] == content[at + p]
    decreases |extras|
  {
    if extras != [] {
      var n := |extras| - 1;
      if Fits(content, at, extras[n]) && p < |extras[n]| {
        assert LastPut(content, at, extras, n, p);
      } else {
        SpreadKeepsExactly(content, at, extras[..n], p);
        assert forall j: nat :: LastPut(content, at, extras, j, p) <==> LastPut(content, at, extras[..n], j, p);
        assert Spread(content, at, extras)[at + p] == Spread(content, at, extras[..n])[at + p];
      }
    }
  }

  /** A slice without spare capacity is never shared. */
  lemma FullIsIntact<T>(content: seq<T>, extras: seq<seq<T>>)
    ensures Intact(content, |content|, extras)
  {
    IntactExactly(content, |content|, extras);
  }

  /** One spare place, two different names appended: the first result reads the second's. */
  lemma Overwritten(shared: string, spare: string, x: string, y: string)
    requires x != y
    ensures Read([shared, spare], 1, [[x], [y]], 0) == [shared, y]
    ensures !Intact([shared, spare], 1, [[x], [y]])
  {
    assert [[x], [y]][..1] == [[x]] && [[x]][..0] == [];
    assert Spread([shared, spare], 1, [[x]]) == [shared, x];
    assert Spread([shared, spare], 1, [[x], [y]]) == [shared, y];
  }
}
