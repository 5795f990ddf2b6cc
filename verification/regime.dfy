/** The split of a measurement table into the forward-force and
    backward-force regimes. Each regime is built the way the fitting script
    builds it: collect the index labels of the rows that fail the regime's
    test, then drop every row carrying one of those labels. */
module Regime {
  import opened Measurements
  import opened Selection

  /** The index labels present in a table. */
  function Labels(t: Table): set<nat>
  {
    set i | 0 <= i < |t| :: t[i].index
  }

  /** `table[cond].index`: the labels of the rows satisfying `cond`. */
  function LabelsWhere(t: Table, cond: Row -> bool): (l: set<nat>)
    ensures l <= Labels(t)
    ensures forall i :: 0 <= i < |t| && cond(t[i]) ==> t[i].index in l
    ensures forall x :: x in l ==> exists i :: 0 <= i < |t| && cond(t[i]) && t[i].index == x
  {
    set i | 0 <= i < |t| && cond(t[i]) :: t[i].index
  }

  /** The mask `drop` applies: true for the rows whose label is not listed. */
  function KeepMask(t: Table, labels: set<nat>): (keep: seq<bool>)
    ensures |keep| == |t|
  {
    seq(|t|, i requires 0 <= i < |t| => t[i].index !in labels)
  }

  /** `table.drop(labels)`: removes every row whose label is listed, however
      many rows share that label. Every listed label must occur in the
      table, as `drop` raises on a missing one. */
  function Drop(t: Table, labels: set<nat>): (r: Table)
    requires labels <= Labels(t)
    ensures IsSubsequence(r, t)
    ensures forall x :: x in r <==> x in t && x.index !in labels
    ensures r == Unlisted(t, labels)
  {
    var keep := KeepMask(t, labels);
    MaskIsSubsequence(t, keep);
    DropIsUnlisted(t, labels);
    Mask(t, keep)
  }

  /** Reference: a front-to-back scan keeping the rows whose label is not
      listed. */
  function Unlisted(t: Table, labels: set<nat>): Table
  {
    if |t| == 0 then []
    else (if t[0].index in labels then [] else [t[0]]) + Unlisted(t[1..], labels)
  }

  /** Every copy of a row with an unlisted label survives the scan, and no
      copy of a row with a listed one. */
  lemma {:induction false} UnlistedCounts(t: Table, labels: set<nat>)
    ensures forall x ::
      multiset(Unlisted(t, labels))[x] == if x.index in labels then 0 else multiset(t)[x]
  {
    if |t| > 0 {
      assert t == [t[0]] + t[1..];
      UnlistedCounts(t[1..], labels);
    }
  }

  lemma {:induction false} UnlistedSnoc(t: Table, x: Row, labels: set<nat>)
    ensures Unlisted(t + [x], labels) == Unlisted(t, labels) + (if x.index in labels then [] else [x])
  {
    if |t| == 0 {
      assert [x][1..] == [];
    } else {
      assert (t + [x])[1..] == t[1..] + [x];
      UnlistedSnoc(t[1..], x, labels);
    }
  }

  /** The label mask selects exactly what the reference scan keeps. */
  lemma {:induction false} DropIsUnlisted(t: Table, labels: set<nat>)
    ensures Mask(t, KeepMask(t, labels)) == Unlisted(t, labels)
  {
    if |t| > 0 {
      var n := |t| - 1;
      assert t == t[..n] + [t[n]];
      assert KeepMask(t, labels)[..n] == KeepMask(t[..n], labels);
      DropIsUnlisted(t[..n], labels);
      MaskUnfold(t, KeepMask(t, labels));
      UnlistedSnoc(t[..n], t[n], labels);
    }
  }

  predicate NonPositiveForce(r: Row) { r.force <= 0.0 }

  predicate NonNegativeForce(r: Row) { r.force >= 0.0 }

  /** Positions the forward regime keeps. */
  function ForwardMask(t: Table): (keep: seq<bool>)
    ensures |keep| == |t|
  {
    KeepMask(t, LabelsWhere(t, NonPositiveForce))
  }

  /** Positions the backward regime keeps. */
  function BackwardMask(t: Table): (keep: seq<bool>)
    ensures |keep| == |t|
  {
    KeepMask(t, LabelsWhere(t, NonNegativeForce))
  }

  /** `table.drop(table[table["Force"] <= 0].index)`. */
  function Forward(t: Table): (r: Table)
    ensures IsSubsequence(r, t)
    ensures forall x :: x in r ==> x in t && x.force > 0.0
  {
    Drop(t, LabelsWhere(t, NonPositiveForce))
  }

  /** `table.drop(table[table["Force"] >= 0].index)`. */
  function Backward(t: Table): (r: Table)
    ensures IsSubsequence(r, t)
    ensures forall x :: x in r ==> x in t && x.force < 0.0
  {
    Drop(t, LabelsWhere(t, NonNegativeForce))
  }

  /** Reference: the rows with strictly positive force, in table order. */
  function Positive(t: Table): seq<Row>
  {
    Mask(t, seq(|t|, i requires 0 <= i < |t| => t[i].force > 0.0))
  }

  /** Reference: the rows with strictly negative force, in table order. */
  function Negative(t: Table): seq<Row>
  {
    Mask(t, seq(|t|, i requires 0 <= i < |t| => t[i].force < 0.0))
  }

  /** The regimes are the table filtered through their masks, and no
      position is in both: a kept forward row has positive force, a kept
      backward row negative force, and a zero-force row is in neither. */
  lemma RegimesPartitionPositions(t: Table)
    ensures Forward(t) == Mask(t, ForwardMask(t))
    ensures Backward(t) == Mask(t, BackwardMask(t))
    ensures forall i :: 0 <= i < |t| && ForwardMask(t)[i] ==> t[i].force > 0.0
    ensures forall i :: 0 <= i < |t| && BackwardMask(t)[i] ==> t[i].force < 0.0
    ensures forall i :: 0 <= i < |t| ==> !(ForwardMask(t)[i] && BackwardMask(t)[i])
    ensures forall i :: 0 <= i < |t| && t[i].force == 0.0 ==> !ForwardMask(t)[i] && !BackwardMask(t)[i]
  {
    var fm, bm := ForwardMask(t), BackwardMask(t);
    forall i | 0 <= i < |t|
      ensures fm[i] ==> t[i].force > 0.0
      ensures bm[i] ==> t[i].force < 0.0
    {
      assert NonPositiveForce(t[i]) || t[i].force > 0.0;
      assert NonNegativeForce(t[i]) || t[i].force < 0.0;
    }
  }

  /** A row with zero force is in neither regime. */
  lemma ZeroForceInNeither(t: Table, r: Row)
    requires r.force == 0.0
    ensures r !in Forward(t) && r !in Backward(t)
  {
  }

  /** A row is kept in the forward regime exactly when no row sharing its
      label (itself included) has non-positive force; likewise backward
      with non-negative force. */
  lemma RegimeMasksByLabel(t: Table)
    ensures forall i :: 0 <= i < |t| ==>
      (ForwardMask(t)[i] <==> forall j :: 0 <= j < |t| && t[j].index == t[i].index ==> t[j].force > 0.0)
    ensures forall i :: 0 <= i < |t| ==>
      (BackwardMask(t)[i] <==> forall j :: 0 <= j < |t| && t[j].index == t[i].index ==> t[j].force < 0.0)
  {
    forall i | 0 <= i < |t|
      ensures ForwardMask(t)[i] <==> forall j :: 0 <= j < |t| && t[j].index == t[i].index ==> t[j].force > 0.0
      ensures BackwardMask(t)[i] <==> forall j :: 0 <= j < |t| && t[j].index == t[i].index ==> t[j].force < 0.0
    {
      assert NonPositiveForce(t[i]) || t[i].force > 0.0;
      assert NonNegativeForce(t[i]) || t[i].force < 0.0;
    }
  }

  /** With unique labels the regimes are exactly the sign filters: forward
      is the positive-force rows and backward the negative-force rows. */
  lemma RegimesWithUniqueLabels(t: Table)
    requires UniqueLabels(t)
    ensures Forward(t) == Positive(t)
    ensures Backward(t) == Negative(t)
  {
    var fm, bm := ForwardMask(t), BackwardMask(t);
    var pos := seq(|t|, i requires 0 <= i < |t| => t[i].force > 0.0);
    var neg := seq(|t|, i requires 0 <= i < |t| => t[i].force < 0.0);
    forall i | 0 <= i < |t|
      ensures fm[i] == pos[i] && bm[i] == neg[i]
    {
      RegimeMasksByLabel(t);
      assert forall j :: 0 <= j < |t| && t[j].index == t[i].index ==> j == i;
    }
    assert fm == pos && bm == neg;
  }

  /** Whatever the labels, each regime is an order-preserving subsequence of
      its sign filter, so it never holds more rows than that filter. */
  lemma RegimesWithinSignFilters(t: Table)
    ensures IsSubsequence(Forward(t), Positive(t)) && |Forward(t)| <= |Positive(t)|
    ensures IsSubsequence(Backward(t), Negative(t)) && |Backward(t)| <= |Negative(t)|
  {
    ForwardWithinPositive(t);
    BackwardWithinNegative(t);
  }

  lemma ForwardWithinPositive(t: Table)
    ensures IsSubsequence(Forward(t), Positive(t)) && |Forward(t)| <= |Positive(t)|
  {
    RegimesPartitionPositions(t);
    var pos := seq(|t|, i requires 0 <= i < |t| => t[i].force > 0.0);
    var f := MaskRefines(t, ForwardMask(t), pos);
    assert Embeds(Forward(t), Positive(t), f);
  }

  lemma BackwardWithinNegative(t: Table)
    ensures IsSubsequence(Backward(t), Negative(t)) && |Backward(t)| <= |Negative(t)|
  {
    RegimesPartitionPositions(t);
    var neg := seq(|t|, i requires 0 <= i < |t| => t[i].force < 0.0);
    var b := MaskRefines(t, BackwardMask(t), neg);
    assert Embeds(Backward(t), Negative(t), b);
  }

  /** Two rows sharing a label, the second with non-positive force: the
      forward regime drops both. */
  lemma SharedLabelEmptiesForward(t: Table)
    requires |t| == 2 && t[0].index == t[1].index && t[1].force <= 0.0
    ensures Forward(t) == []
  {
    assert NonPositiveForce(t[1]);
    assert t[1].index in LabelsWhere(t, NonPositiveForce);
    assert forall i :: 0 <= i < |t| ==> !ForwardMask(t)[i];
    MaskNone(t, ForwardMask(t));
  }

  /** Two rows sharing a label, the first with non-negative force: the
      backward regime drops both. */
  lemma SharedLabelEmptiesBackward(t: Table)
    requires |t| == 2 && t[0].index == t[1].index && t[0].force >= 0.0
    ensures Backward(t) == []
  {
    assert NonNegativeForce(t[0]);
    assert t[0].index in LabelsWhere(t, NonNegativeForce);
    assert forall i :: 0 <= i < |t| ==> !BackwardMask(t)[i];
    MaskNone(t, BackwardMask(t));
  }

  /** A pushing row followed by a pulling row: each sign filter holds one. */
  lemma PushPullSignFilters(t: Table)
    requires |t| == 2 && t[0].force > 0.0 && t[1].force < 0.0
    ensures Positive(t) == [t[0]] && Negative(t) == [t[1]]
  {
    MaskSingle(t, seq(|t|, i requires 0 <= i < |t| => t[i].force > 0.0), 0);
    MaskSingle(t, seq(|t|, i requires 0 <= i < |t| => t[i].force < 0.0), 1);
  }

  /** Two rows sharing label 0, one pushing and one pulling: both are
      dropped from both regimes, although each has a non-zero force. */
  lemma SharedLabelEmptiesBothRegimes(push: Row, pull: Row)
    requires push.index == 0 && pull.index == 0
    requires push.force > 0.0 && pull.force < 0.0
    ensures Positive([push, pull]) == [push]
    ensures Negative([push, pull]) == [pull]
    ensures Forward([push, pull]) == []
    ensures Backward([push, pull]) == []
  {
    var t := [push, pull];
    SharedLabelEmptiesForward(t);
    SharedLabelEmptiesBackward(t);
    PushPullSignFilters(t);
  }
}
