/**
 * The assignment pass, `clusterDataPoints` of src/kmeans.ts: every point
 * joins the cluster of its nearest centroid, and the cluster accumulates the
 * distances of its members.
 */
module Clustering {
  import opened Wrappers
  import opened Geometry

  /** `DataCluster`: a centroid, its member points in data order, and their summed distance. */
  datatype Cluster = Cluster(mean: Point, points: seq<Point>, totalError: real)

  predicate NonEmptyRows(s: seq<Point>) {
    forall x :: x in s ==> |x| > 0
  }

  /**
   * The assignment pass completes exactly when there is no data, or there is
   * a centroid and every point and centroid has a coordinate. Otherwise it
   * throws: the `push` on the missing `clusters[0]` or the `reduce` in the
   * distance.
   */
  predicate Assignable(data: seq<Point>, means: seq<Point>) {
    |data| == 0 || (|means| > 0 && NonEmptyRows(data) && NonEmptyRows(means))
  }

  /** The centroids of a list of clusters, in order. */
  function MeansOf(clusters: seq<Cluster>): seq<Point> {
    seq(|clusters|, k requires 0 <= k < |clusters| => clusters[k].mean)
  }

  /**
   * The first index holding a minimal value, as a left-to-right scan finds it
   * when it replaces the running best only on a strictly smaller value.
   */
  function FirstMin(xs: seq<real>): (j: nat)
    requires |xs| > 0
    ensures j < |xs|
    ensures forall k :: 0 <= k < |xs| ==> xs[j] <= xs[k]
    ensures forall k :: 0 <= k < j ==> xs[j] < xs[k]
  {
    if |xs| == 1 then 0
    else
      var n := |xs| - 1;
      var j := FirstMin(xs[..n]);
      assert forall k :: 0 <= k < n ==> xs[..n][k] == xs[k];
      if xs[n] < xs[j] then n else j
  }

  /** The two properties of `FirstMin` single it out: no other index has both. */
  lemma FirstMinUnique(xs: seq<real>, j: nat)
    requires j < |xs|
    requires forall k :: 0 <= k < |xs| ==> xs[j] <= xs[k]
    requires forall k :: 0 <= k < j ==> xs[j] < xs[k]
    ensures j == FirstMin(xs)
  {
    var n := FirstMin(xs);
  }

  /** The distances from `p` to each centroid, in centroid order. */
  function Distances(sqrt: real -> real, p: Point, means: seq<Point>): (ds: seq<real>)
    requires |p| > 0 && NonEmptyRows(means)
  {
    seq(|means|, k requires 0 <= k < |means| => Dist(sqrt, p, means[k]))
  }

  /**
   * The centroid a point is assigned to: the lowest index among those at
   * minimal distance, so earlier centroids win ties.
   */
  function NearestIndex(sqrt: real -> real, p: Point, means: seq<Point>): (j: nat)
    requires |p| > 0 && |means| > 0 && NonEmptyRows(means)
    ensures j < |means|
    ensures forall k :: 0 <= k < |means| ==> Dist(sqrt, p, means[j]) <= Dist(sqrt, p, means[k])
    ensures forall k :: 0 <= k < j ==> Dist(sqrt, p, means[j]) < Dist(sqrt, p, means[k])
  {
    var ds := Distances(sqrt, p, means);
    assert forall k :: 0 <= k < |means| ==> ds[k] == Dist(sqrt, p, means[k]);
    FirstMin(ds)
  }

  /** The two properties of `NearestIndex` single it out: no other index has both. */
  lemma NearestIndexUnique(sqrt: real -> real, p: Point, means: seq<Point>, j: nat)
    requires |p| > 0 && |means| > 0 && NonEmptyRows(means) && j < |means|
    requires forall k :: 0 <= k < |means| ==> Dist(sqrt, p, means[j]) <= Dist(sqrt, p, means[k])
    requires forall k :: 0 <= k < j ==> Dist(sqrt, p, means[j]) < Dist(sqrt, p, means[k])
    ensures j == NearestIndex(sqrt, p, means)
  {
    var n := NearestIndex(sqrt, p, means);
  }

  /** The points of `data` assigned to centroid `k`, in data order. */
  function Members(sqrt: real -> real, data: seq<Point>, means: seq<Point>, k: nat): (r: seq<Point>)
    requires Assignable(data, means)
    ensures |r| <= |data|
    ensures NonEmptyRows(r)
  {
    if |data| == 0 then []
    else
      var init := data[..|data| - 1];
      var p := data[|data| - 1];
      assert data == init + [p];
      var rest := Members(sqrt, init, means, k);
      if NearestIndex(sqrt, p, means) == k then rest + [p] else rest
  }

  /** The running `totalError`: 0 plus each member's distance to the centroid, in order. */
  function TotalDistance(sqrt: real -> real, points: seq<Point>, mean: Point): real
    requires |points| == 0 || (|mean| > 0 && NonEmptyRows(points))
  {
    if |points| == 0 then 0.0
    else TotalDistance(sqrt, points[..|points| - 1], mean) + Dist(sqrt, points[|points| - 1], mean)
  }

  /** The cluster of centroid `k`: its members and their summed distance to it. */
  function ClusterOf(sqrt: real -> real, data: seq<Point>, means: seq<Point>, k: nat): Cluster
    requires Assignable(data, means) && k < |means|
  {
    var ms := Members(sqrt, data, means, k);
    Cluster(means[k], ms, TotalDistance(sqrt, ms, means[k]))
  }

  /** The clusters the assignment pass builds: one per centroid, in centroid order. */
  function Assignment(sqrt: real -> real, data: seq<Point>, means: seq<Point>): seq<Cluster>
    requires Assignable(data, means)
  {
    seq(|means|, k requires 0 <= k < |means| => ClusterOf(sqrt, data, means, k))
  }

  /** The number of points held by a list of clusters. */
  function PointCount(clusters: seq<Cluster>): nat {
    if |clusters| == 0 then 0
    else PointCount(clusters[..|clusters| - 1]) + |clusters[|clusters| - 1].points|
  }

  /** One step of the assignment pass: `push` the point onto cluster `j` and add its distance. */
  function AddToCluster(clusters: seq<Cluster>, j: nat, p: Point, e: real): (r: seq<Cluster>)
    requires j < |clusters|
    ensures |r| == |clusters|
    ensures r[j].mean == clusters[j].mean && r[j].points == clusters[j].points + [p]
    ensures r[j].totalError == clusters[j].totalError + e
    ensures forall k :: 0 <= k < |r| && k != j ==> r[k] == clusters[k]
  {
    clusters[j := Cluster(clusters[j].mean, clusters[j].points + [p], clusters[j].totalError + e)]
  }

  /**
   * The inner scan of `clusterDataPoints`: walk the centroids in order and
   * replace the running best only on a strictly smaller distance. `None` is
   * the throw of a distance with no common coordinates.
   */
  method ScanCentroids(sqrt: real -> real, point: Point, means: seq<Point>)
    returns (r: Option<(nat, real)>)
    requires |means| > 0
    ensures r.None? <==> !(|point| > 0 && NonEmptyRows(means))
    ensures r.Some? ==> r.value.0 == NearestIndex(sqrt, point, means)
    ensures r.Some? ==> r.value.0 < |means| && r.value.1 == Dist(sqrt, point, means[r.value.0])
  {
    var best := 0;
    var bestError := 0.0;
    for k := 0 to |means|
      invariant best < |means|
      invariant forall m :: 0 <= m < k ==> |means[m]| > 0
      invariant k > 0 ==> |point| > 0 && best < k && bestError == Dist(sqrt, point, means[best])
      invariant k > 0 ==> forall m :: 0 <= m < k ==> bestError <= Dist(sqrt, point, means[m])
      invariant k > 0 ==> forall m :: 0 <= m < best ==> bestError < Dist(sqrt, point, means[m])
    {
      var e := DistanceBetweenPoints(sqrt, point, means[k]);
      if e.None? {
        assert means[k] in means;
        return None;
      }
      if k == 0 || e.value < bestError {
        best, bestError := k, e.value;
      }
    }
    assert NonEmptyRows(means) by {
      forall x | x in means ensures |x| > 0 {
        var m :| 0 <= m < |means| && means[m] == x;
      }
    }
    NearestIndexUnique(sqrt, point, means, best);
    return Some((best, bestError));
  }

  /**
   * `clusterDataPoints`: for each point, find the first strictly nearest
   * centroid, then append the point to that cluster and add the distance to
   * its error.
   */
  method ClusterDataPoints(sqrt: real -> real, data: seq<Point>, means: seq<Point>)
    returns (r: Option<seq<Cluster>>)
    ensures r.None? <==> !Assignable(data, means)
    ensures r.Some? ==> Assignable(data, means) && r.value == Assignment(sqrt, data, means)
  {
    var clusters := seq(|means|, k requires 0 <= k < |means| => Cluster(means[k], [], 0.0));
    assert clusters == Assignment(sqrt, data[..0], means);
    for i := 0 to |data|
      invariant NonEmptyRows(data[..i])
      invariant i > 0 ==> |means| > 0 && NonEmptyRows(means)
      invariant clusters == Assignment(sqrt, data[..i], means)
    {
      var point := data[i];
      assert point in data;
      if |means| == 0 {
        // clusters[0] is undefined, so pushing onto it throws
        return None;
      }
      var nearest := ScanCentroids(sqrt, point, means);
      if nearest.None? {
        return None;
      }
      var (best, bestError) := nearest.value;
      AssignmentExtend(sqrt, data, means, i);
      clusters := AddToCluster(clusters, best, point, bestError);
    }
    assert data[..|data|] == data;
    return Some(clusters);
  }

  /** The loop step of `ClusterDataPoints`: the assignment of one more data point. */
  lemma AssignmentExtend(sqrt: real -> real, data: seq<Point>, means: seq<Point>, i: nat)
    requires i < |data| && |data[i]| > 0 && |means| > 0 && NonEmptyRows(means) && NonEmptyRows(data[..i])
    ensures NonEmptyRows(data[..i + 1])
    ensures var j := NearestIndex(sqrt, data[i], means);
      Assignment(sqrt, data[..i + 1], means)
        == AddToCluster(Assignment(sqrt, data[..i], means), j, data[i], Dist(sqrt, data[i], means[j]))
  {
    var prefix := data[..i + 1];
    assert prefix[..i] == data[..i] && prefix[i] == data[i];
    assert NonEmptyRows(prefix) by {
      forall x | x in prefix ensures |x| > 0 {
        assert x in data[..i] || x == data[i];
      }
    }
    AssignmentStep(sqrt, prefix, means);
  }

  /** The members for the whole data are those for all but the last point, plus that point if it is assigned here. */
  lemma MembersStep(sqrt: real -> real, data: seq<Point>, means: seq<Point>, k: nat)
    requires |data| > 0 && Assignable(data, means)
    ensures var n := |data| - 1;
      Assignable(data[..n], means) &&
      Members(sqrt, data, means, k)
        == Members(sqrt, data[..n], means, k) + (if NearestIndex(sqrt, data[n], means) == k then [data[n]] else [])
  {
  }

  /** A point is a member of cluster `k` exactly when it is in the data and `k` is its nearest centroid. */
  lemma {:induction false} MembersExactly(sqrt: real -> real, data: seq<Point>, means: seq<Point>, k: nat, x: Point)
    requires Assignable(data, means)
    ensures x in Members(sqrt, data, means, k) <==> x in data && NearestIndex(sqrt, x, means) == k
  {
    if |data| > 0 {
      var n := |data| - 1;
      MembersStep(sqrt, data, means, k);
      MembersExactly(sqrt, data[..n], means, k, x);
      assert data == data[..n] + [data[n]];
    }
  }

  lemma TotalDistanceAppend(sqrt: real -> real, points: seq<Point>, p: Point, mean: Point)
    requires |p| > 0 && |mean| > 0 && NonEmptyRows(points)
    ensures NonEmptyRows(points + [p])
    ensures TotalDistance(sqrt, points + [p], mean) == TotalDistance(sqrt, points, mean) + Dist(sqrt, p, mean)
  {
    var ps := points + [p];
    assert ps[..|ps| - 1] == points;
    assert NonEmptyRows(ps) by {
      forall i | 0 <= i < |ps| ensures |ps[i]| > 0 {
        if i < |points| {
          assert ps[i] == points[i];
        }
      }
    }
  }

  /** Adding the last data point changes the cluster of `k` only when `k` is that point's nearest centroid. */
  lemma ClusterOfStep(sqrt: real -> real, data: seq<Point>, means: seq<Point>, k: nat)
    requires |data| > 0 && Assignable(data, means) && k < |means|
    ensures Assignable(data[..|data| - 1], means)
    ensures var p := data[|data| - 1];
      var before := ClusterOf(sqrt, data[..|data| - 1], means, k);
      ClusterOf(sqrt, data, means, k)
        == if NearestIndex(sqrt, p, means) == k
           then Cluster(before.mean, before.points + [p], before.totalError + Dist(sqrt, p, means[k]))
           else before
  {
    var n := |data| - 1;
    var init := data[..n];
    var p := data[n];
    MembersStep(sqrt, data, means, k);
    var ms := Members(sqrt, init, means, k);
    var ms' := Members(sqrt, data, means, k);
    assert ClusterOf(sqrt, data, means, k) == Cluster(means[k], ms', TotalDistance(sqrt, ms', means[k]));
    assert ClusterOf(sqrt, init, means, k) == Cluster(means[k], ms, TotalDistance(sqrt, ms, means[k]));
    if NearestIndex(sqrt, p, means) == k {
      assert ms' == ms + [p];
      TotalDistanceAppend(sqrt, ms, p, means[k]);
    } else {
      assert ms' == ms;
    }
  }

  /** Adding the last data point changes exactly the cluster of its nearest centroid. */
  lemma AssignmentStep(sqrt: real -> real, data: seq<Point>, means: seq<Point>)
    requires |data| > 0 && Assignable(data, means)
    ensures Assignable(data[..|data| - 1], means)
    ensures var p := data[|data| - 1];
      var j := NearestIndex(sqrt, p, means);
      Assignment(sqrt, data, means)
        == AddToCluster(Assignment(sqrt, data[..|data| - 1], means), j, p, Dist(sqrt, p, means[j]))
  {
    var n := |data| - 1;
    var init := data[..n];
    var p := data[n];
    assert NonEmptyRows(init) by {
      forall x | x in init ensures |x| > 0 {
        assert x in data;
      }
    }
    var j := NearestIndex(sqrt, p, means);
    var before := Assignment(sqrt, init, means);
    var after := Assignment(sqrt, data, means);
    var expected := AddToCluster(before, j, p, Dist(sqrt, p, means[j]));
    forall k | 0 <= k < |means|
      ensures after[k] == expected[k]
    {
      ClusterOfStep(sqrt, data, means, k);
      assert before[k] == ClusterOf(sqrt, init, means, k);
      assert after[k] == ClusterOf(sqrt, data, means, k);
    }
    assert after == expected;
  }

  /** Adding a point to one cluster adds one to the point count. */
  lemma {:induction false} PointCountAdd(clusters: seq<Cluster>, j: nat, p: Point, e: real)
    requires j < |clusters|
    ensures PointCount(AddToCluster(clusters, j, p, e)) == PointCount(clusters) + 1
    decreases |clusters|
  {
    var n := |clusters|;
    var updated := AddToCluster(clusters, j, p, e);
    if j < n - 1 {
      assert updated[..n - 1] == AddToCluster(clusters[..n - 1], j, p, e);
      PointCountAdd(clusters[..n - 1], j, p, e);
    } else {
      assert updated[..n - 1] == clusters[..n - 1];
    }
  }

  /** Every data point is placed in exactly one cluster: the sizes add up to |data|. */
  lemma {:induction false} AssignmentPointCount(sqrt: real -> real, data: seq<Point>, means: seq<Point>)
    requires Assignable(data, means)
    ensures PointCount(Assignment(sqrt, data, means)) == |data|
  {
    var clusters := Assignment(sqrt, data, means);
    if |data| == 0 {
      forall k | 0 <= k < |clusters| ensures clusters[k].points == [] {
        assert clusters[k] == ClusterOf(sqrt, data, means, k);
      }
      EmptyPointCount(clusters);
    } else {
      AssignmentStep(sqrt, data, means);
      AssignmentPointCount(sqrt, data[..|data| - 1], means);
      var p := data[|data| - 1];
      var j := NearestIndex(sqrt, p, means);
      PointCountAdd(Assignment(sqrt, data[..|data| - 1], means), j, p, Dist(sqrt, p, means[j]));
    }
  }

  lemma {:induction false} EmptyPointCount(clusters: seq<Cluster>)
    requires forall k :: 0 <= k < |clusters| ==> clusters[k].points == []
    ensures PointCount(clusters) == 0
  {
    if |clusters| > 0 {
      EmptyPointCount(clusters[..|clusters| - 1]);
    }
  }

  /** One cluster per centroid, in centroid order, each carrying its own centroid. */
  lemma AssignmentShape(sqrt: real -> real, data: seq<Point>, means: seq<Point>)
    requires Assignable(data, means)
    ensures |Assignment(sqrt, data, means)| == |means|
    ensures MeansOf(Assignment(sqrt, data, means)) == means
  {
  }

  /** With a square root, a sum of distances is non-negative. */
  lemma {:induction false} TotalDistanceNonNegative(sqrt: real -> real, points: seq<Point>, mean: Point)
    requires IsSquareRoot(sqrt)
    requires |points| == 0 || (|mean| > 0 && NonEmptyRows(points))
    ensures 0.0 <= TotalDistance(sqrt, points, mean)
  {
    if |points| > 0 {
      TotalDistanceNonNegative(sqrt, points[..|points| - 1], mean);
      DistanceNonNegative(sqrt, points[|points| - 1], mean);
    }
  }

  /**
   * Each cluster's error is the sum of its members' distances to its
   * centroid; with a square root it is non-negative.
   */
  lemma AssignmentErrors(sqrt: real -> real, data: seq<Point>, means: seq<Point>, k: nat)
    requires IsSquareRoot(sqrt)
    requires Assignable(data, means) && k < |means|
    ensures var c := Assignment(sqrt, data, means)[k];
      c.totalError == TotalDistance(sqrt, c.points, c.mean) && 0.0 <= c.totalError
  {
    var ms := Members(sqrt, data, means, k);
    TotalDistanceNonNegative(sqrt, ms, means[k]);
  }
}
