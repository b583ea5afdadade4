/** Rule restoration from cluster centers (`NRules`): each center is cut at the
    threshold that scores best under a criterion, and the examples it then
    selects give a rule, the tightest box around them.

    The clustering itself is outside the model: the centers are given, one
    weight per example. The criterion is a parameter. */
module RCluster {
  import opened Bounds
  import opened ArgMax
  import ProcRules

  // ----- The threshold grid (line 14) -----

  /** `np.linspace(0.1, 0.9, 36)`, in exact arithmetic. */
  function Thresholds(): (ts: seq<real>)
    ensures |ts| == 36 && ts[0] == 0.1 && ts[35] == 0.9
    ensures forall j, k :: 0 <= j < k < |ts| ==> ts[j] < ts[k]
  {
    seq(36, k requires 0 <= k < 36 => 0.1 + (k as real) * (0.8 / 35.0))
  }

  // ----- Masks and contingency pairs (lines 29-40) -----

  /** `center > thresh`: the examples whose weight exceeds the threshold. */
  function Mask(center: seq<real>, t: real): (m: seq<bool>)
    ensures |m| == |center|
  {
    seq(|center|, e requires 0 <= e < |center| => center[e] > t)
  }

  /** A larger threshold selects a subset. */
  lemma MaskShrinks(center: seq<real>, t1: real, t2: real, e: int)
    requires t1 <= t2 && 0 <= e < |center|
    ensures Mask(center, t2)[e] ==> Mask(center, t1)[e]
    ensures t1 < t2 && center[e] > t1 && center[e] <= t2 ==> Mask(center, t1)[e] && !Mask(center, t2)[e]
  {
  }

  /** `np.any(mask)`. */
  predicate Any(m: seq<bool>) {
    exists e :: 0 <= e < |m| && m[e]
  }

  predicate StrictlyIncreasing(u: seq<int>) {
    forall i, j :: 0 <= i < j < |u| ==> u[i] < u[j]
  }

  /** Puts l into its place in a sorted sequence without duplicates. */
  function Insert(u: seq<int>, l: int): (v: seq<int>)
    requires StrictlyIncreasing(u)
    ensures StrictlyIncreasing(v)
    ensures forall y :: y in v <==> y in u || y == l
  {
    if u == [] then [l]
    else if l < u[0] then [l] + u
    else if l == u[0] then u
    else
      var w := Insert(u[1..], l);
      assert forall j :: 0 <= j < |w| ==> u[0] < w[j] by {
        forall j | 0 <= j < |w|
          ensures u[0] < w[j]
        {
          assert w[j] in w;
          if w[j] != l {
            var q :| 0 <= q < |u[1..]| && u[1..][q] == w[j];
            assert u[q + 1] == w[j];
          }
        }
      }
      [u[0]] + w
  }

  /** `np.unique(labels)`: the distinct labels in ascending order. */
  function Unique(labels: seq<int>): (u: seq<int>)
    ensures StrictlyIncreasing(u)
    ensures forall y :: y in u <==> y in labels
  {
    if labels == [] then [] else Insert(Unique(labels[..|labels| - 1]), labels[|labels| - 1])
  }

  /** Number of examples labelled l. */
  function Occurrences(labels: seq<int>, l: int): (n: nat)
    ensures n <= |labels|
  {
    if labels == [] then 0
    else Occurrences(labels[..|labels| - 1], l) + (if labels[|labels| - 1] == l then 1 else 0)
  }

  /** `np.sum(mask[labels == l] == inMask)`: examples labelled l inside (or outside) the mask. */
  function CountWhere(labels: seq<int>, m: seq<bool>, l: int, inMask: bool): (n: nat)
    requires |m| == |labels|
  {
    if labels == [] then 0
    else
      var k := |labels| - 1;
      CountWhere(labels[..k], m[..k], l, inMask) + (if labels[k] == l && m[k] == inMask then 1 else 0)
  }

  /** The examples of a label are split between the two sides of the mask. */
  lemma {:induction false} CountsAddUp(labels: seq<int>, m: seq<bool>, l: int)
    requires |m| == |labels|
    ensures CountWhere(labels, m, l, true) + CountWhere(labels, m, l, false) == Occurrences(labels, l)
  {
    if labels != [] {
      var k := |labels| - 1;
      CountsAddUp(labels[..k], m[..k], l);
    }
  }

  /** The [in-mask, out-of-mask] pair of one label. */
  datatype Pair = Pair(inMask: nat, outMask: nat)

  /** What the criterion receives: one pair per distinct label, ascending. */
  function Contingency(labels: seq<int>, m: seq<bool>): (c: seq<Pair>)
    requires |m| == |labels|
    ensures |c| == |Unique(labels)|
  {
    var u := Unique(labels);
    seq(|u|, i requires 0 <= i < |u| => Pair(CountWhere(labels, m, u[i], true), CountWhere(labels, m, u[i], false)))
  }

  /** Each pair adds up to its label's number of examples. */
  lemma ContingencySums(labels: seq<int>, m: seq<bool>, i: int)
    requires |m| == |labels| && 0 <= i < |Unique(labels)|
    ensures Contingency(labels, m)[i].inMask + Contingency(labels, m)[i].outMask == Occurrences(labels, Unique(labels)[i])
  {
    CountsAddUp(labels, m, Unique(labels)[i]);
  }

  /** The loop over `np.unique(labels)` that builds `stats`, listed in key order. */
  method Stats(labels: seq<int>, m: seq<bool>) returns (stats: seq<Pair>)
    requires |m| == |labels|
    ensures stats == Contingency(labels, m)
  {
    var u := Unique(labels);
    stats := [];
    var i := 0;
    while i < |u|
      invariant 0 <= i <= |u| && |stats| == i
      invariant forall q :: 0 <= q < i ==> stats[q] == Pair(CountWhere(labels, m, u[q], true), CountWhere(labels, m, u[q], false))
    {
      stats := stats + [Pair(CountWhere(labels, m, u[i], true), CountWhere(labels, m, u[i], false))];
      i := i + 1;
    }
  }

  // ----- Scores and the chosen threshold (lines 27-48) -----

  /** The criterion: a number for a list of contingency pairs. */
  type Criterion = seq<Pair> -> real

  /** The score of one threshold: 0 for an empty mask, the criterion's value otherwise. */
  function Score(center: seq<real>, labels: seq<int>, criterion: Criterion, t: real): real
    requires |center| == |labels|
  {
    var m := Mask(center, t);
    if !Any(m) then 0.0 else criterion(Contingency(labels, m))
  }

  /** `infovals`: one score per threshold of the grid. */
  function ScoreGrid(center: seq<real>, labels: seq<int>, criterion: Criterion): (s: seq<real>)
    requires |center| == |labels|
    ensures |s| == |Thresholds()|
  {
    seq(|Thresholds()|, j requires 0 <= j < |Thresholds()| => Score(center, labels, criterion, Thresholds()[j]))
  }

  /** The loop over the thresholds for one center. */
  method Scores(center: seq<real>, labels: seq<int>, criterion: Criterion) returns (infovals: seq<real>)
    requires |center| == |labels|
    ensures |infovals| == 36
    ensures forall j :: 0 <= j < 36 && !Any(Mask(center, Thresholds()[j])) ==> infovals[j] == 0.0
    ensures infovals == ScoreGrid(center, labels, criterion)
  {
    var thresholds := Thresholds();
    infovals := [];
    var j := 0;
    while j < |thresholds|
      invariant 0 <= j <= |thresholds| && |infovals| == j
      invariant forall q :: 0 <= q < j ==> infovals[q] == Score(center, labels, criterion, thresholds[q])
    {
      var mask := Mask(center, thresholds[j]);
      if !Any(mask) {
        infovals := infovals + [0.0];
      } else {
        var stats := Stats(labels, mask);
        infovals := infovals + [criterion(stats)];
      }
      j := j + 1;
    }
  }

  /** The threshold a center is cut at: the first with the largest score. */
  function Chosen(center: seq<real>, labels: seq<int>, criterion: Criterion): (j: nat)
    requires |center| == |labels|
    ensures j < 36
  {
    FirstArgMax(ScoreGrid(center, labels, criterion))
  }

  lemma ChosenIsFirstBest(center: seq<real>, labels: seq<int>, criterion: Criterion)
    requires |center| == |labels|
    ensures forall j :: 0 <= j < 36 ==>
              Score(center, labels, criterion, Thresholds()[j])
              <= Score(center, labels, criterion, Thresholds()[Chosen(center, labels, criterion)])
    ensures forall j :: 0 <= j < Chosen(center, labels, criterion) ==>
              Score(center, labels, criterion, Thresholds()[j])
              < Score(center, labels, criterion, Thresholds()[Chosen(center, labels, criterion)])
  {
    var s := ScoreGrid(center, labels, criterion);
    var c := Chosen(center, labels, criterion);
    assert forall j :: 0 <= j < 36 ==> s[j] == Score(center, labels, criterion, Thresholds()[j]);
  }

  // ----- The box of the selected examples (lines 50-58) -----

  /** Every row has F values. */
  ghost predicate Rows(data: seq<seq<real>>, F: nat) {
    forall r :: 0 <= r < |data| ==> |data[r]| == F
  }

  /** The positions where the mask is true, in increasing order. */
  function MaskedPositions(m: seq<bool>): (ps: seq<nat>)
    ensures forall r :: 0 <= r < |ps| ==> ps[r] < |m| && m[ps[r]]
    ensures forall r, q :: 0 <= r < q < |ps| ==> ps[r] < ps[q]
    ensures forall e :: 0 <= e < |m| && m[e] ==> e in ps
  {
    if m == [] then []
    else
      var k := |m| - 1;
      MaskedPositions(m[..k]) + (if m[k] then [k] else [])
  }

  /** `data[mask, :]`: the masked rows and only those, in data order. */
  function Selected(data: seq<seq<real>>, m: seq<bool>): (sel: seq<seq<real>>)
    requires |m| == |data|
    ensures |sel| == |MaskedPositions(m)| <= |data|
    ensures forall r :: 0 <= r < |sel| ==> sel[r] == data[MaskedPositions(m)[r]]
  {
    if data == [] then []
    else
      var k := |data| - 1;
      Selected(data[..k], m[..k]) + (if m[k] then [data[k]] else [])
  }

  /** Every masked example is among the selected ones. */
  lemma {:induction false} MaskedAreSelected(data: seq<seq<real>>, m: seq<bool>, e: int)
    requires |m| == |data| && 0 <= e < |data| && m[e]
    ensures data[e] in Selected(data, m)
  {
    var k := |data| - 1;
    if e < k {
      MaskedAreSelected(data[..k], m[..k], e);
    }
  }

  /** The selected rows have the width of the data's rows. */
  lemma SelectedRows(data: seq<seq<real>>, m: seq<bool>, F: nat)
    requires |m| == |data| && Rows(data, F)
    ensures Rows(Selected(data, m), F)
  {
  }

  lemma {:induction false} SelectedNonEmpty(data: seq<seq<real>>, m: seq<bool>)
    requires |m| == |data| && Any(m)
    ensures Selected(data, m) != []
  {
    var e :| 0 <= e < |m| && m[e];
    MaskedAreSelected(data, m, e);
  }

  /** `np.min(rows, axis=0)[f]`. */
  function ColMin(rows: seq<seq<real>>, f: nat): (v: real)
    requires rows != [] && forall r :: 0 <= r < |rows| ==> f < |rows[r]|
    ensures forall r :: 0 <= r < |rows| ==> v <= rows[r][f]
    ensures exists r :: 0 <= r < |rows| && rows[r][f] == v
  {
    if |rows| == 1 then rows[0][f]
    else
      var k := |rows| - 1;
      var v := ColMin(rows[..k], f);
      if rows[k][f] < v then rows[k][f] else v
  }

  /** `np.max(rows, axis=0)[f]`. */
  function ColMax(rows: seq<seq<real>>, f: nat): (v: real)
    requires rows != [] && forall r :: 0 <= r < |rows| ==> f < |rows[r]|
    ensures forall r :: 0 <= r < |rows| ==> rows[r][f] <= v
    ensures exists r :: 0 <= r < |rows| && rows[r][f] == v
  {
    if |rows| == 1 then rows[0][f]
    else
      var k := |rows| - 1;
      var v := ColMax(rows[..k], f);
      if rows[k][f] > v then rows[k][f] else v
  }

  /** Lines 52-58: the interleaved per-feature minima and maxima of the rows. */
  function BoxOf(rows: seq<seq<real>>, F: nat): (b: seq<real>)
    requires rows != [] && Rows(rows, F)
    ensures |b| == 2 * F
  {
    ProcRules.Interleave(seq(F, f requires 0 <= f < F => ColMin(rows, f)), seq(F, f requires 0 <= f < F => ColMax(rows, f)))
  }

  /** The emitted rule accepts every row it was built from, and each of its
      bounds is the value of one of those rows. */
  lemma BoxIsTightCover(rows: seq<seq<real>>, F: nat)
    requires rows != [] && Rows(rows, F)
    ensures forall r :: 0 <= r < |rows| ==> Accepts(ToBounds(BoxOf(rows, F)), rows[r])
    ensures forall f :: 0 <= f < F ==>
              (exists r :: 0 <= r < |rows| && rows[r][f] == BoxOf(rows, F)[2 * f])
              && (exists r :: 0 <= r < |rows| && rows[r][f] == BoxOf(rows, F)[2 * f + 1])
  {
    var b := BoxOf(rows, F);
    forall r | 0 <= r < |rows|
      ensures Accepts(ToBounds(b), rows[r])
    {
      forall f | 0 <= f < F
        ensures InInterval(ToBounds(b), rows[r], f)
      {
        assert b[2 * f] == ColMin(rows, f) && b[2 * f + 1] == ColMax(rows, f);
      }
    }
    forall f | 0 <= f < F
      ensures (exists r :: 0 <= r < |rows| && rows[r][f] == b[2 * f])
              && (exists r :: 0 <= r < |rows| && rows[r][f] == b[2 * f + 1])
    {
      assert b[2 * f] == ColMin(rows, f) && b[2 * f + 1] == ColMax(rows, f);
    }
  }

  // ----- Restoration (lines 19-61) -----

  /** The centers' shape: one weight per example, one label per example, rows of F values. */
  ghost predicate Shapes(centers: seq<seq<real>>, data: seq<seq<real>>, labels: seq<int>, F: nat) {
    && |labels| == |data| && Rows(data, F)
    && forall c :: 0 <= c < |centers| ==> |centers[c]| == |data|
  }

  /** The rule a center gives, or none when its best threshold selects nothing. */
  function RuleOfCenter(center: seq<real>, data: seq<seq<real>>, labels: seq<int>, criterion: Criterion, F: nat): seq<seq<real>>
    requires |center| == |data| == |labels| && Rows(data, F)
  {
    var m := Mask(center, Thresholds()[Chosen(center, labels, criterion)]);
    if Any(m) then (SelectedNonEmpty(data, m); [BoxOf(Selected(data, m), F)]) else []
  }

  /** `cluster_centers_` after `restore`: the rules of the centers, in order. */
  function Restored(centers: seq<seq<real>>, data: seq<seq<real>>, labels: seq<int>, criterion: Criterion, F: nat): seq<seq<real>>
    requires Shapes(centers, data, labels, F)
  {
    if centers == [] then []
    else
      var k := |centers| - 1;
      Restored(centers[..k], data, labels, criterion, F) + RuleOfCenter(centers[k], data, labels, criterion, F)
  }

  /** At most one rule per center, each of width 2F. */
  lemma {:induction false} RestoredCount(centers: seq<seq<real>>, data: seq<seq<real>>, labels: seq<int>, criterion: Criterion, F: nat)
    requires Shapes(centers, data, labels, F)
    ensures |Restored(centers, data, labels, criterion, F)| <= |centers|
    ensures forall i :: 0 <= i < |Restored(centers, data, labels, criterion, F)| ==>
              |Restored(centers, data, labels, criterion, F)[i]| == 2 * F
  {
    if centers != [] {
      RestoredCount(centers[..|centers| - 1], data, labels, criterion, F);
    }
  }

  /** Every restored rule accepts every example its center selects at its chosen
      threshold. */
  lemma CenterRuleAccepts(center: seq<real>, data: seq<seq<real>>, labels: seq<int>, criterion: Criterion, F: nat, e: int)
    requires |center| == |data| == |labels| && Rows(data, F) && 0 <= e < |data|
    requires Mask(center, Thresholds()[Chosen(center, labels, criterion)])[e]
    ensures |RuleOfCenter(center, data, labels, criterion, F)| == 1
    ensures Accepts(ToBounds(RuleOfCenter(center, data, labels, criterion, F)[0]), data[e])
  {
    var m := Mask(center, Thresholds()[Chosen(center, labels, criterion)]);
    MaskedAreSelected(data, m, e);
    var sel := Selected(data, m);
    SelectedRows(data, m, F);
    assert RuleOfCenter(center, data, labels, criterion, F) == [BoxOf(sel, F)];
    var r :| 0 <= r < |sel| && sel[r] == data[e];
    BoxIsTightCover(sel, F);
  }

  /** The restorer: the threshold grid, the index it was built with, and the
      rules of its last `restore`. */
  class NRules {
    const i: int
    const thresholds: seq<real>
    var clusterCenters: seq<seq<real>>

    constructor (i: int)
      ensures this.i == i && thresholds == Thresholds() && clusterCenters == []
    {
      this.i := i;
      thresholds := Thresholds();
      clusterCenters := [];
    }

    /** `restore(data, labels, criterion)` with the centers of the fitted clustering. */
    method Restore(centers: seq<seq<real>>, data: seq<seq<real>>, labels: seq<int>, criterion: Criterion, ghost F: nat)
      requires thresholds == Thresholds() && Shapes(centers, data, labels, F)
      modifies this`clusterCenters
      ensures clusterCenters == Restored(centers, data, labels, criterion, F)
    {
      clusterCenters := [];
      var c := 0;
      while c < |centers|
        invariant 0 <= c <= |centers|
        invariant clusterCenters == Restored(centers[..c], data, labels, criterion, F)
      {
        assert centers[..c + 1][..c] == centers[..c];
        var center := centers[c];
        var infovals := Scores(center, labels, criterion);
        var mask := Mask(center, thresholds[FirstArgMax(infovals)]);
        if Any(mask) {
          SelectedNonEmpty(data, mask);
          var width := |data[0]|;
          clusterCenters := clusterCenters + [BoxOf(Selected(data, mask), width)];
        }
        c := c + 1;
      }
      assert centers[..c] == centers;
    }
  }
}
