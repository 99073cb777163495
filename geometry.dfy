/**
 * Points and the distance between them: `zip`, `distanceBetweenPoints`
 * and `isSameArray` of src/kmeans.ts.
 */
module Geometry {
  import opened Wrappers

  /** A point is a JavaScript `number[]`, read here as a sequence of exact reals. */
  type Point = seq<real>

  function Min(x: int, y: int): int {
    if x <= y then x else y
  }

  /**
   * `sqrt` behaves as the square root on the non-negative reals, as
   * `Math.pow(x, 0.5)` does.
   */
  ghost predicate IsSquareRoot(sqrt: real -> real) {
    forall x: real :: 0.0 <= x ==> 0.0 <= sqrt(x) && sqrt(x) * sqrt(x) == x
  }

  /** The pairs `zip` builds: one per index the two sequences have in common. */
  function Zipped<U, V>(a: seq<U>, b: seq<V>): (r: seq<(U, V)>)
    ensures |r| == Min(|a|, |b|)
    ensures forall i :: 0 <= i < |r| ==> r[i] == (a[i], b[i])
  {
    if |a| == 0 || |b| == 0 then [] else [(a[0], b[0])] + Zipped(a[1..], b[1..])
  }

  /** `zip`: fills the result index by index up to the shorter length. */
  method Zip<U, V>(a: seq<U>, b: seq<V>) returns (r: seq<(U, V)>)
    ensures r == Zipped(a, b)
  {
    var length := Min(|a|, |b|);
    r := [];
    for i := 0 to length
      invariant |r| == i
      invariant forall j :: 0 <= j < i ==> r[j] == (a[j], b[j])
    {
      r := r + [(a[i], b[i])];
    }
  }

  function Square(x: real): real {
    x * x
  }

  /** The `map` step of the distance: `(coord2 - coord1) ** 2` per pair. */
  function SquaredGaps(pairs: seq<(real, real)>): (r: seq<real>)
    ensures |r| == |pairs|
    ensures forall i :: 0 <= i < |r| ==> 0.0 <= r[i]
  {
    seq(|pairs|, i requires 0 <= i < |pairs| => Square(pairs[i].1 - pairs[i].0))
  }

  /**
   * `reduce((total, next) => total + next)` without an initial value: a left
   * fold that starts from the first element. It throws on an empty array,
   * hence the precondition; callers test for emptiness first.
   */
  function ReduceSum(xs: seq<real>): (r: real)
    requires |xs| > 0
    ensures (forall i :: 0 <= i < |xs| ==> 0.0 <= xs[i]) ==> 0.0 <= r
  {
    if |xs| == 1 then xs[0] else ReduceSum(xs[..|xs| - 1]) + xs[|xs| - 1]
  }

  /**
   * The sum of squared coordinate gaps over the coordinates `p` and `q`
   * have in common: the reference definition the `zip`/`map`/`reduce`
   * pipeline is checked against.
   */
  function SquaredDistance(p: Point, q: Point): real
  {
    var m := Min(|p|, |q|);
    if m == 0 then 0.0
    else SquaredDistance(p[..m - 1], q[..m - 1]) + Square(q[m - 1] - p[m - 1])
  }

  /**
   * The Euclidean distance over the coordinates `p` and `q` have in common,
   * where there is at least one.
   */
  function Dist(sqrt: real -> real, p: Point, q: Point): real
    requires |p| > 0 && |q| > 0
  {
    sqrt(SquaredDistance(p, q))
  }

  /** Summing the squared gaps of the zipped pairs gives the squared distance. */
  lemma {:induction false} ReduceSumGaps(p: Point, q: Point)
    requires |p| > 0 && |q| > 0
    ensures |SquaredGaps(Zipped(p, q))| > 0
    ensures ReduceSum(SquaredGaps(Zipped(p, q))) == SquaredDistance(p, q)
    decreases Min(|p|, |q|)
  {
    var m := Min(|p|, |q|);
    var gaps := SquaredGaps(Zipped(p, q));
    if m > 1 {
      var p', q' := p[..m - 1], q[..m - 1];
      ZippedPrefix(p, q, m - 1);
      SquaredGapsPrefix(Zipped(p, q), m - 1);
      ReduceSumGaps(p', q');
      assert gaps[..m - 1] == SquaredGaps(Zipped(p', q'));
      assert ReduceSum(gaps) == ReduceSum(gaps[..m - 1]) + gaps[m - 1];
    }
  }

  lemma ZippedPrefix<U, V>(a: seq<U>, b: seq<V>, n: nat)
    requires n <= |a| && n <= |b|
    ensures Zipped(a, b)[..n] == Zipped(a[..n], b[..n])
  {
  }

  lemma SquaredGapsPrefix(pairs: seq<(real, real)>, n: nat)
    requires n <= |pairs|
    ensures SquaredGaps(pairs)[..n] == SquaredGaps(pairs[..n])
  {
  }

  /**
   * `distanceBetweenPoints`: the square root of the summed squared gaps over
   * the coordinates the two points have in common. `None` models the
   * TypeError that `reduce` throws when there are no common coordinates.
   */
  function DistanceBetweenPoints(sqrt: real -> real, p: Point, q: Point): (r: Option<real>)
    ensures r.Some? <==> |p| > 0 && |q| > 0
    ensures r.Some? ==> r.value == Dist(sqrt, p, q)
  {
    var gaps := SquaredGaps(Zipped(p, q));
    if |gaps| == 0 then None
    else
      ReduceSumGaps(p, q);
      Some(sqrt(ReduceSum(gaps)))
  }

  lemma {:induction false} SquaredDistanceNonNegative(p: Point, q: Point)
    ensures 0.0 <= SquaredDistance(p, q)
    decreases Min(|p|, |q|)
  {
    var m := Min(|p|, |q|);
    if m > 0 {
      SquaredDistanceNonNegative(p[..m - 1], q[..m - 1]);
      SquareNonNegative(q[m - 1] - p[m - 1]);
    }
  }

  lemma {:induction false} SquaredDistanceSymmetric(p: Point, q: Point)
    ensures SquaredDistance(p, q) == SquaredDistance(q, p)
    decreases Min(|p|, |q|)
  {
    var m := Min(|p|, |q|);
    if m > 0 {
      SquaredDistanceSymmetric(p[..m - 1], q[..m - 1]);
      assert Square(q[m - 1] - p[m - 1]) == Square(p[m - 1] - q[m - 1]);
    }
  }

  lemma {:induction false} SquaredDistanceToSelf(p: Point)
    ensures SquaredDistance(p, p) == 0.0
    decreases |p|
  {
    if |p| > 0 {
      SquaredDistanceToSelf(p[..|p| - 1]);
    }
  }

  lemma SquareNonNegative(x: real)
    ensures 0.0 <= Square(x)
  {
    if x < 0.0 {
      assert Square(x) == (-x) * (-x);
    }
  }

  /** Two non-negative reals with the same square are equal. */
  lemma RootOfSquare(s: real, t: real)
    requires 0.0 <= s && 0.0 <= t && s * s == t * t
    ensures s == t
  {
    if s < t {
      SquareMonotone(s, t);
    } else if t < s {
      SquareMonotone(t, s);
    }
  }

  lemma SquareMonotone(a: real, b: real)
    requires 0.0 <= a < b
    ensures a * a < b * b
  {
    var aa, ab, bb := a * a, a * b, b * b;
    assert aa <= ab;
    assert ab < bb;
  }

  /** The distance does not depend on the order of its arguments. */
  lemma DistanceSymmetric(sqrt: real -> real, p: Point, q: Point)
    ensures DistanceBetweenPoints(sqrt, p, q) == DistanceBetweenPoints(sqrt, q, p)
    ensures |p| > 0 && |q| > 0 ==> Dist(sqrt, p, q) == Dist(sqrt, q, p)
  {
    SquaredDistanceSymmetric(p, q);
  }

  /** With a square root, every defined distance is non-negative. */
  lemma DistanceNonNegative(sqrt: real -> real, p: Point, q: Point)
    requires IsSquareRoot(sqrt)
    requires |p| > 0 && |q| > 0
    ensures 0.0 <= Dist(sqrt, p, q)
  {
    SquaredDistanceNonNegative(p, q);
  }

  /** With a square root, a point is at distance zero from itself. */
  lemma DistanceToSelf(sqrt: real -> real, p: Point)
    requires IsSquareRoot(sqrt)
    requires |p| > 0
    ensures Dist(sqrt, p, p) == 0.0
  {
    SquaredDistanceToSelf(p);
    var s := sqrt(0.0);
    assert 0.0 <= s && s * s == 0.0;
    RootOfSquare(s, 0.0);
  }

  /** Only the common prefix of the two points takes part in the distance. */
  lemma DistanceCommonPrefix(sqrt: real -> real, p: Point, q: Point)
    ensures var m := Min(|p|, |q|);
      DistanceBetweenPoints(sqrt, p, q) == DistanceBetweenPoints(sqrt, p[..m], q[..m])
  {
    var m := Min(|p|, |q|);
    assert Zipped(p, q) == Zipped(p[..m], q[..m]);
  }

  /** The distance between [0, 0] and [3, 4] is 5. */
  lemma DistanceExample(sqrt: real -> real)
    requires IsSquareRoot(sqrt)
    ensures DistanceBetweenPoints(sqrt, [0.0, 0.0], [3.0, 4.0]) == Some(5.0)
  {
    var p, q := [0.0, 0.0], [3.0, 4.0];
    assert p[..1] == [0.0] && q[..1] == [3.0];
    assert [0.0][..0] == [] && [3.0][..0] == [];
    assert SquaredDistance(p, q) == 25.0;
    var s := sqrt(25.0);
    assert 0.0 <= s && s * s == 25.0;
    RootOfSquare(s, 5.0);
  }

  /** `isSameArray`: equal length, then an early-exit scan for a differing element. */
  method IsSameArray<T(==)>(a: seq<T>, b: seq<T>) returns (same: bool)
    ensures same <==> |a| == |b| && forall i :: 0 <= i < |a| ==> a[i] == b[i]
    ensures same <==> a == b
  {
    if |a| != |b| {
      return false;
    }
    for i := 0 to |a|
      invariant forall j :: 0 <= j < i ==> a[j] == b[j]
    {
      if a[i] != b[i] {
        return false;
      }
    }
    return true;
  }
}
