/**
 * The update step of src/kmeans.ts: `calculateNewMeans`, which moves every
 * centroid to the average of its members, and `haveMeansChanged`, which
 * decides whether another round is needed.
 */
module Centroids {
  import opened Wrappers
  import opened Geometry
  import opened Clustering

  /**
   * The column-wise sum starts from a zero vector as wide as the first point
   * and reads `point[index]` for every column of it. A narrower point would
   * contribute `undefined`, which turns the column into NaN; this predicate
   * says that does not happen.
   */
  predicate WideEnough(points: seq<Point>)
    requires |points| > 0
  {
    forall p :: p in points ==> |points[0]| <= |p|
  }

  /** `points[0].map(() => 0)`: a zero vector of the given width. */
  function Zeros(width: nat): (r: Point)
    ensures |r| == width
    ensures forall v :: 0 <= v < width ==> r[v] == 0.0
  {
    seq(width, v => 0.0)
  }

  /** `totals.map((value, index) => value + point[index])`. */
  function AddPoint(totals: Point, p: Point): (r: Point)
    requires |totals| <= |p|
    ensures |r| == |totals|
    ensures forall v :: 0 <= v < |r| ==> r[v] == totals[v] + p[v]
  {
    seq(|totals|, v requires 0 <= v < |totals| => totals[v] + p[v])
  }

  /** The `reduce` with an initial value: a left fold of `AddPoint` over the points. */
  function SumPoints(points: seq<Point>, totals: Point): (r: Point)
    requires forall p :: p in points ==> |totals| <= |p|
    ensures |r| == |totals|
  {
    if |points| == 0 then totals
    else SumPoints(points[1..], AddPoint(totals, points[0]))
  }

  /** The sum of column `v` over the points: the reference the fold is checked against. */
  function ColumnSum(points: seq<Point>, v: nat): real
    requires forall p :: p in points ==> v < |p|
  {
    if |points| == 0 then 0.0
    else points[0][v] + ColumnSum(points[1..], v)
  }

  /** Folding the points into `totals` adds each column's sum to that column and keeps the width. */
  lemma {:induction false} SumPointsColumns(points: seq<Point>, totals: Point)
    requires forall p :: p in points ==> |totals| <= |p|
    ensures |SumPoints(points, totals)| == |totals|
    ensures forall v :: 0 <= v < |totals| ==> SumPoints(points, totals)[v] == totals[v] + ColumnSum(points, v)
  {
    if |points| > 0 {
      var next := AddPoint(totals, points[0]);
      assert forall p :: p in points[1..] ==> p in points;
      SumPointsColumns(points[1..], next);
    }
  }

  /**
   * The new centroid of a non-empty member list: the column sums over the
   * first point's columns, each divided by the number of members.
   */
  function MeanOf(points: seq<Point>): (r: Point)
    requires |points| > 0 && WideEnough(points)
    ensures |r| == |points[0]|
    ensures forall v :: 0 <= v < |r| ==> r[v] == ColumnSum(points, v) / (|points| as real)
  {
    var totals := SumPoints(points, Zeros(|points[0]|));
    SumPointsColumns(points, Zeros(|points[0]|));
    seq(|totals|, v requires 0 <= v < |totals| => totals[v] / (|points| as real))
  }

  /** A cluster whose new centroid has no NaN coordinate. */
  predicate Averageable(c: Cluster) {
    |c.points| == 0 || WideEnough(c.points)
  }

  /** The new centroid of one cluster: its old centroid when it has no members, else their mean. */
  function NewMean(c: Cluster): (r: Point)
    requires Averageable(c)
    ensures |c.points| == 0 ==> r == c.mean
    ensures |c.points| > 0 ==> |r| == |c.points[0]|
    ensures |c.points| > 0 ==> forall v :: 0 <= v < |r| ==> r[v] == ColumnSum(c.points, v) / (|c.points| as real)
  {
    if |c.points| == 0 then c.mean else MeanOf(c.points)
  }

  /** The centroids `calculateNewMeans` returns, or `None` where one would get a NaN coordinate. */
  function NewMeans(clusters: seq<Cluster>): (r: Option<seq<Point>>)
    ensures r.Some? <==> forall k :: 0 <= k < |clusters| ==> Averageable(clusters[k])
    ensures r.Some? ==> |r.value| == |clusters|
    ensures r.Some? ==> forall k :: 0 <= k < |clusters| ==> r.value[k] == NewMean(clusters[k])
  {
    if forall k :: 0 <= k < |clusters| ==> Averageable(clusters[k])
    then Some(seq(|clusters|, k requires 0 <= k < |clusters| => NewMean(clusters[k])))
    else None
  }

  /** `calculateNewMeans`: one new centroid per cluster, in cluster order. */
  method CalculateNewMeans(clusters: seq<Cluster>) returns (means: Option<seq<Point>>)
    ensures means == NewMeans(clusters)
  {
    var acc: seq<Point> := [];
    for k := 0 to |clusters|
      invariant |acc| == k
      invariant forall m :: 0 <= m < k ==> Averageable(clusters[m]) && acc[m] == NewMean(clusters[m])
    {
      var c := clusters[k];
      if |c.points| == 0 {
        acc := acc + [c.mean];
      } else if forall p :: p in c.points ==> |c.points[0]| <= |p| {
        acc := acc + [MeanOf(c.points)];
      } else {
        // a member narrower than the first one makes a column NaN
        return None;
      }
    }
    assert acc == NewMeans(clusters).value;
    return Some(acc);
  }

  /** The mean of copies of one point is that point; in particular `MeanOf([p]) == p`. */
  lemma MeanOfCopies(points: seq<Point>, p: Point)
    requires |points| > 0
    requires forall q :: q in points ==> q == p
    ensures WideEnough(points)
    ensures MeanOf(points) == p
  {
    assert points[0] in points;
    var r := MeanOf(points);
    assert |r| == |p|;
    forall v | 0 <= v < |p| ensures r[v] == p[v] {
      MeanOfCopiesAt(points, p, v);
    }
  }

  lemma MeanOfCopiesAt(points: seq<Point>, p: Point, v: nat)
    requires |points| > 0 && WideEnough(points) && points[0] == p && v < |p|
    requires forall q :: q in points ==> q == p
    ensures MeanOf(points)[v] == p[v]
  {
    var n := |points| as real;
    var total := ColumnSum(points, v);
    var m := MeanOf(points);
    assert m[v] == total / n;
    ColumnSumCopies(points, p, v);
    DivideProduct(n, p[v], total);
  }

  lemma DivideProduct(n: real, x: real, total: real)
    requires n > 0.0 && total == n * x
    ensures total / n == x
  {
  }

  lemma {:induction false} ColumnSumCopies(points: seq<Point>, p: Point, v: nat)
    requires v < |p|
    requires forall q :: q in points ==> q == p
    ensures ColumnSum(points, v) == (|points| as real) * p[v]
  {
    if |points| > 0 {
      assert points[0] in points;
      assert forall q :: q in points[1..] ==> q in points;
      ColumnSumCopies(points[1..], p, v);
      var n := (|points| - 1) as real;
      assert (n + 1.0) * p[v] == n * p[v] + p[v];
    }
  }

  /**
   * Some row compared by `haveMeansChanged` differs: a coordinate of the
   * previous centroid that the new centroid lacks (`undefined`) or holds a
   * different value for.
   */
  predicate RowsDiffer(prev: seq<Point>, next: seq<Point>) {
    exists m, v :: 0 <= m < |prev| && m < |next| && 0 <= v < |prev[m]| && !Same(prev, next, m, v)
  }

  /** Coordinate `v` of centroid `m` exists in the new centroids, with the same value. */
  predicate Same(prev: seq<Point>, next: seq<Point>, m: nat, v: nat)
    requires m < |prev| && v < |prev[m]|
  {
    m < |next| && v < |next[m]| && prev[m][v] == next[m][v]
  }

  /** A previous centroid with a coordinate has no new counterpart, so indexing it throws. */
  predicate MissingRow(prev: seq<Point>, next: seq<Point>) {
    exists m :: |next| <= m < |prev| && |prev[m]| > 0
  }

  /**
   * What `haveMeansChanged` returns: `true` on the first differing
   * coordinate, `None` where it throws first, `false` when it finishes the
   * scan. Rows before a missing one all exist, so a differing row always
   * comes before any missing one.
   */
  function MeansChange(prev: seq<Point>, next: seq<Point>): Option<bool> {
    if RowsDiffer(prev, next) then Some(true)
    else if MissingRow(prev, next) then None
    else Some(false)
  }

  /** `haveMeansChanged`: a row-by-row, coordinate-by-coordinate scan of the previous centroids. */
  method HaveMeansChanged(prev: seq<Point>, next: seq<Point>) returns (changed: Option<bool>)
    ensures changed == MeansChange(prev, next)
  {
    for m := 0 to |prev|
      invariant forall i, v :: 0 <= i < m && 0 <= v < |prev[i]| ==> Same(prev, next, i, v)
    {
      for v := 0 to |prev[m]|
        invariant forall u :: 0 <= u < v ==> Same(prev, next, m, u)
      {
        if m >= |next| {
          // `newMeans[mIdx]` is undefined
          assert MissingRow(prev, next) by {
            assert |next| <= m < |prev| && |prev[m]| > 0;
          }
          assert !RowsDiffer(prev, next);
          return None;
        }
        if v >= |next[m]| || prev[m][v] != next[m][v] {
          assert !Same(prev, next, m, v);
          return Some(true);
        }
      }
    }
    assert !MissingRow(prev, next) by {
      forall i | 0 <= i < |prev| && 0 < |prev[i]| ensures i < |next| {
        assert Same(prev, next, i, 0);
      }
    }
    return Some(false);
  }

  /**
   * With one centroid per previous centroid, each as wide as before, the
   * scan reports no change exactly when the centroids are equal.
   */
  lemma UnchangedIffEqual(prev: seq<Point>, next: seq<Point>)
    requires |prev| == |next|
    requires forall m :: 0 <= m < |prev| ==> |prev[m]| == |next[m]|
    ensures MeansChange(prev, next) == Some(false) <==> prev == next
  {
    if MeansChange(prev, next) == Some(false) {
      forall m | 0 <= m < |prev| ensures prev[m] == next[m] {
        forall v | 0 <= v < |prev[m]| ensures prev[m][v] == next[m][v] {
          assert Same(prev, next, m, v);
        }
      }
    }
  }

  /** Identical centroids never count as changed. */
  lemma UnchangedOnSame(means: seq<Point>)
    ensures MeansChange(means, means) == Some(false)
  {
    forall m, v | 0 <= m < |means| && 0 <= v < |means[m]| ensures Same(means, means, m, v) {
    }
  }

  /** New centroids beyond the previous ones are never looked at. */
  lemma ExtraRowsIgnored(prev: seq<Point>, next: seq<Point>)
    requires |prev| <= |next|
    ensures MeansChange(prev, next) == MeansChange(prev, next[..|prev|])
  {
    var cut := next[..|prev|];
    forall m, v | 0 <= m < |prev| && 0 <= v < |prev[m]|
      ensures Same(prev, next, m, v) == Same(prev, cut, m, v)
    {
      assert cut[m] == next[m];
    }
    assert RowsDiffer(prev, next) == RowsDiffer(prev, cut);
  }

  /** Every point has exactly `w` coordinates. */
  predicate Width(points: seq<Point>, w: nat) {
    forall x :: x in points ==> |x| == w
  }

  /**
   * When the data and the centroids share one positive width, the update
   * step produces no NaN and keeps that width.
   */
  lemma AssignmentNewMeansWidth(sqrt: real -> real, data: seq<Point>, means: seq<Point>, w: nat)
    requires 0 < w && Width(data, w) && Width(means, w) && |means| > 0
    ensures Assignable(data, means)
    ensures NewMeans(Assignment(sqrt, data, means)).Some?
    ensures Width(NewMeans(Assignment(sqrt, data, means)).value, w)
  {
    var cs := Assignment(sqrt, data, means);
    forall k | 0 <= k < |cs| ensures Averageable(cs[k]) && |NewMean(cs[k])| == w {
      var ms := Members(sqrt, data, means, k);
      assert cs[k] == ClusterOf(sqrt, data, means, k);
      forall x | x in ms ensures |x| == w {
        MembersExactly(sqrt, data, means, k, x);
      }
      if |ms| > 0 {
        assert ms[0] in ms;
      } else {
        assert means[k] in means;
      }
    }
    var nm := NewMeans(cs).value;
    forall x | x in nm ensures |x| == w {
      var k :| 0 <= k < |nm| && nm[k] == x;
    }
  }
}
