/** Boolean-mask selection, the primitive behind both `s[mask]` on a numpy
    array and `DataFrame.drop` of the rows whose labels are listed: keep the
    elements whose mask entry is true, in their original order. */
module Selection {

  /** The positions whose mask entry is true, in ascending order. */
  function TrueIndices(keep: seq<bool>): (idx: seq<nat>)
    ensures forall k :: 0 <= k < |idx| ==> idx[k] < |keep| && keep[idx[k]]
    ensures forall i :: 0 <= i < |keep| && keep[i] ==> i in idx
    ensures forall k, l :: 0 <= k < l < |idx| ==> idx[k] < idx[l]
  {
    if |keep| == 0 then []
    else TrueIndices(keep[..|keep| - 1]) + (if keep[|keep| - 1] then [|keep| - 1] else [])
  }

  /** `s[keep]`: the elements of `s` at the true positions of `keep`. */
  function Mask<T>(s: seq<T>, keep: seq<bool>): (r: seq<T>)
    requires |s| == |keep|
    ensures |r| == |TrueIndices(keep)|
    ensures forall k :: 0 <= k < |r| ==> r[k] == s[TrueIndices(keep)[k]]
  {
    if |s| == 0 then []
    else Mask(s[..|s| - 1], keep[..|keep| - 1]) + (if keep[|keep| - 1] then [s[|s| - 1]] else [])
  }

  /** `idx` is a strictly increasing embedding of `r` into `s`. */
  ghost predicate Embeds<T>(r: seq<T>, s: seq<T>, idx: seq<nat>)
  {
    && |idx| == |r|
    && (forall k :: 0 <= k < |idx| ==> idx[k] < |s| && r[k] == s[idx[k]])
    && (forall k, l :: 0 <= k < l < |idx| ==> idx[k] < idx[l])
  }

  /** `r` is an order-preserving subsequence of `s`. */
  ghost predicate IsSubsequence<T>(r: seq<T>, s: seq<T>)
  {
    exists idx :: Embeds(r, s, idx)
  }

  /** A masked sequence only removes elements: it is a subsequence of its
      source, and an element survives exactly when some true position holds it. */
  lemma MaskIsSubsequence<T>(s: seq<T>, keep: seq<bool>)
    requires |s| == |keep|
    ensures IsSubsequence(Mask(s, keep), s)
    ensures forall x :: x in Mask(s, keep) <==> exists i :: 0 <= i < |s| && keep[i] && s[i] == x
  {
    var r, idx := Mask(s, keep), TrueIndices(keep);
    assert Embeds(r, s, idx);
    forall x | x in r
      ensures exists i :: 0 <= i < |s| && keep[i] && s[i] == x
    {
      var k :| 0 <= k < |r| && r[k] == x;
      assert keep[idx[k]] && s[idx[k]] == x;
    }
    forall x | exists i :: 0 <= i < |s| && keep[i] && s[i] == x
      ensures x in r
    {
      var i :| 0 <= i < |s| && keep[i] && s[i] == x;
      var k :| 0 <= k < |idx| && idx[k] == i;
      assert r[k] == x;
    }
  }

  /** Appending one element to the containing sequence keeps an embedding. */
  lemma EmbedsExtend<T>(r: seq<T>, s: seq<T>, idx: seq<nat>, x: T)
    requires Embeds(r, s, idx)
    ensures Embeds(r, s + [x], idx)
  {
  }

  /** Appending one element to both sides extends an embedding by matching
      the two new last elements. */
  lemma EmbedsSnoc<T>(r: seq<T>, s: seq<T>, idx: seq<nat>, x: T)
    requires Embeds(r, s, idx)
    ensures Embeds(r + [x], s + [x], idx + [|s|])
  {
  }

  /** Mask of a non-empty sequence, one step unfolded. */
  lemma MaskUnfold<T>(s: seq<T>, keep: seq<bool>)
    requires |s| == |keep| > 0
    ensures Mask(s, keep) ==
      Mask(s[..|s| - 1], keep[..|s| - 1]) + (if keep[|s| - 1] then [s[|s| - 1]] else [])
  {
  }

  /** A mask that is true wherever a weaker one is selects a subsequence of
      what the weaker one selects; returns the embedding. */
  lemma {:induction false} MaskRefines<T>(s: seq<T>, keep1: seq<bool>, keep2: seq<bool>)
    returns (idx: seq<nat>)
    requires |s| == |keep1| == |keep2|
    requires forall i :: 0 <= i < |s| && keep1[i] ==> keep2[i]
    ensures Embeds(Mask(s, keep1), Mask(s, keep2), idx)
    ensures |Mask(s, keep1)| <= |Mask(s, keep2)|
  {
    if |s| == 0 {
      idx := [];
    } else {
      var n := |s| - 1;
      var inner := MaskRefines(s[..n], keep1[..n], keep2[..n]);
      var r1, r2 := Mask(s[..n], keep1[..n]), Mask(s[..n], keep2[..n]);
      MaskUnfold(s, keep1);
      MaskUnfold(s, keep2);
      if keep1[n] {
        EmbedsSnoc(r1, r2, inner, s[n]);
        idx := inner + [|r2|];
      } else if keep2[n] {
        EmbedsExtend(r1, r2, inner, s[n]);
        assert r1 + [] == r1;
        idx := inner;
      } else {
        assert r1 + [] == r1 && r2 + [] == r2;
        idx := inner;
      }
    }
  }

  /** A mask with no true position selects nothing. */
  lemma MaskNone<T>(s: seq<T>, keep: seq<bool>)
    requires |s| == |keep|
    requires forall i :: 0 <= i < |keep| ==> !keep[i]
    ensures Mask(s, keep) == []
  {
  }

  /** A mask with exactly one true position selects that element. */
  lemma {:induction false} MaskSingle<T>(s: seq<T>, keep: seq<bool>, p: nat)
    requires |s| == |keep| && p < |keep|
    requires forall i :: 0 <= i < |keep| ==> (keep[i] <==> i == p)
    ensures Mask(s, keep) == [s[p]]
  {
    var n := |s| - 1;
    if p == n {
      MaskNone(s[..n], keep[..n]);
    } else {
      MaskSingle(s[..n], keep[..n], p);
    }
  }
}
