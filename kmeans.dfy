/**
 * The driver of src/kmeans.ts: `kMeans` with its random restarts,
 * `pickRandomMeans` and `pickBestResult`.
 */
module KMeans {
  import opened Wrappers
  import opened Geometry
  import opened Clustering
  import opened Centroids

  /** Why a run produced no clusters. */
  datatype Failure =
    | Undefined       // `pickBestResult` of no results returns `undefined`
    | TypeError       // a throw: `push` on a missing cluster, `reduce` of no gaps, a missing centroid row
    | NotANumber      // a centroid coordinate would become NaN
    | DrawsExhausted  // the supplied random draws ran out
    | StepsExhausted  // the convergence loop ran out of its step budget

  /** The `totalError` of a result: 0 plus each cluster's error, in order. */
  function SummedError(clusters: seq<Cluster>): (r: real)
    ensures (forall k :: 0 <= k < |clusters| ==> 0.0 <= clusters[k].totalError) ==> 0.0 <= r
  {
    if |clusters| == 0 then 0.0
    else SummedError(clusters[..|clusters| - 1]) + clusters[|clusters| - 1].totalError
  }

  function Errors(results: seq<seq<Cluster>>): seq<real> {
    seq(|results|, i requires 0 <= i < |results| => SummedError(results[i]))
  }

  /** The result `pickBestResult` keeps: the first one of least summed error. */
  function BestIndex(results: seq<seq<Cluster>>): (i: nat)
    requires |results| > 0
    ensures i < |results|
    ensures forall j :: 0 <= j < |results| ==> SummedError(results[i]) <= SummedError(results[j])
    ensures forall j :: 0 <= j < i ==> SummedError(results[i]) < SummedError(results[j])
  {
    var es := Errors(results);
    assert forall j :: 0 <= j < |results| ==> es[j] == SummedError(results[j]);
    FirstMin(es)
  }

  /**
   * `pickBestResult`: sum each result's errors and keep a result only when
   * its sum is strictly below the best so far. With no results the best is
   * never assigned and `undefined` is returned.
   */
  method PickBestResult(results: seq<seq<Cluster>>) returns (best: Option<seq<Cluster>>)
    ensures best.None? <==> |results| == 0
    ensures best.Some? ==> best.value == results[BestIndex(results)]
  {
    var bestIndex := 0;
    var bestError := 0.0;
    for i := 0 to |results|
      invariant bestIndex <= i
      invariant i > 0 ==> bestIndex < i && bestError == SummedError(results[bestIndex])
      invariant forall j :: 0 <= j < i ==> bestError <= SummedError(results[j])
      invariant forall j :: 0 <= j < bestIndex ==> bestError < SummedError(results[j])
    {
      var result := results[i];
      var totalError := 0.0;
      for c := 0 to |result|
        invariant totalError == SummedError(result[..c])
      {
        assert result[..c + 1][..c] == result[..c];
        totalError := totalError + result[c].totalError;
      }
      assert result[..|result|] == result;
      if i == 0 || totalError < bestError {
        bestIndex, bestError := i, totalError;
      }
    }
    if |results| == 0 {
      return None;
    }
    var es := Errors(results);
    assert forall j :: 0 <= j < |results| ==> es[j] == SummedError(results[j]);
    FirstMinUnique(es, bestIndex);
    return Some(results[bestIndex]);
  }

  /** `Math.floor(Math.random() * data.length)` for a draw `u` in [0, 1). */
  function DrawIndex(u: real, n: nat): (i: int)
    requires 0.0 <= u < 1.0 && n > 0
    ensures 0 <= i < n
  {
    var x := u * (n as real);
    assert 0.0 <= x < n as real by {
      ScaleBelow(u, n as real);
    }
    x.Floor
  }

  lemma ScaleBelow(u: real, n: real)
    requires 0.0 <= u < 1.0 && n > 0.0
    ensures 0.0 <= u * n < n
  {
  }

  /** `means.some((existing) => isSameArray(existing, mean))`. */
  method SomeSameArray(means: seq<Point>, candidate: Point) returns (found: bool)
    ensures found <==> candidate in means
  {
    for i := 0 to |means|
      invariant forall j :: 0 <= j < i ==> means[j] != candidate
    {
      var same := IsSameArray(means[i], candidate);
      if same {
        return true;
      }
    }
    return false;
  }

  /** Every draw lies in [0, 1), as `Math.random` guarantees. */
  predicate Draws(rng: seq<real>) {
    forall i :: 0 <= i < |rng| ==> 0.0 <= rng[i] < 1.0
  }

  /**
   * What `pickRandomMeans` computes from the draws `rng`, given the working
   * copy `pool` and the centroids `picked` so far. Each draw `u` selects
   * `pool[DrawIndex(u, |pool|)]`. A point already picked is skipped;
   * any other point leaves the pool and is appended. The second component
   * holds the unused draws. The first is `None` when the draws run out
   * before `count` centroids are picked.
   */
  function Sample(pool: seq<Point>, picked: seq<Point>, count: nat, rng: seq<real>)
    : (r: (Option<seq<Point>>, seq<real>))
    requires count <= |picked| + |pool| && Draws(rng)
    ensures |r.1| <= |rng| && Draws(r.1)
    ensures r.0.None? ==> r.1 == []
    decreases |rng|
  {
    if count <= |picked| then (Some(picked), rng)
    else if |rng| == 0 then (None, [])
    else
      var index := DrawIndex(rng[0], |pool|);
      var mean := pool[index];
      if mean in picked then Sample(pool, picked, count, rng[1..])
      else Sample(pool[..index] + pool[index + 1..], picked + [mean], count, rng[1..])
  }

  /** The draws a sample leaves are a suffix of the ones it was given: draws are used in order. */
  lemma {:induction false} SampleSuffix(pool: seq<Point>, picked: seq<Point>, count: nat, rng: seq<real>)
    requires count <= |picked| + |pool| && Draws(rng)
    ensures var rest := Sample(pool, picked, count, rng).1; rest == rng[|rng| - |rest|..]
    decreases |rng|
  {
    if count > |picked| && |rng| > 0 {
      var index := DrawIndex(rng[0], |pool|);
      var mean := pool[index];
      var rest := Sample(pool, picked, count, rng).1;
      if mean in picked {
        SampleSuffix(pool, picked, count, rng[1..]);
      } else {
        SampleSuffix(pool[..index] + pool[index + 1..], picked + [mean], count, rng[1..]);
      }
      assert rng[1..][|rng| - 1 - |rest|..] == rng[|rng| - |rest|..];
    }
  }

  /**
   * A successful sample extends `picked` to exactly `count` pairwise
   * distinct centroids, each taken without replacement from `pool`.
   */
  lemma {:induction false} SampleFacts(pool: seq<Point>, picked: seq<Point>, count: nat, rng: seq<real>)
    requires |picked| <= count <= |picked| + |pool| && Draws(rng)
    requires forall i, j :: 0 <= i < j < |picked| ==> picked[i] != picked[j]
    ensures var means := Sample(pool, picked, count, rng).0;
      means.Some? ==>
        |means.value| == count && means.value[..|picked|] == picked &&
        multiset(means.value) <= multiset(picked) + multiset(pool) &&
        forall i, j :: 0 <= i < j < count ==> means.value[i] != means.value[j]
    decreases |rng|
  {
    if count <= |picked| {
      assert picked[..|picked|] == picked;
    } else if |rng| > 0 {
      var index := DrawIndex(rng[0], |pool|);
      var mean := pool[index];
      if mean in picked {
        SampleFacts(pool, picked, count, rng[1..]);
      } else {
        var pool' := pool[..index] + pool[index + 1..];
        var picked' := picked + [mean];
        RemoveAt(pool, index);
        SampleFacts(pool', picked', count, rng[1..]);
        var means := Sample(pool', picked', count, rng[1..]).0;
        if means.Some? {
          assert means.value[..|picked|] == means.value[..|picked'|][..|picked|];
        }
      }
    }
  }

  /** With no centroid picked yet, the first draw is always kept: it selects the first centroid. */
  lemma SampleFirst(pool: seq<Point>, count: nat, rng: seq<real>)
    requires 0 < count <= |pool| && 0 < |rng| && Draws(rng)
    ensures var means := Sample(pool, [], count, rng).0;
      means.Some? ==> |means.value| == count && means.value[0] == pool[DrawIndex(rng[0], |pool|)]
  {
    var index := DrawIndex(rng[0], |pool|);
    var pool' := pool[..index] + pool[index + 1..];
    assert Sample(pool, [], count, rng) == Sample(pool', [] + [pool[index]], count, rng[1..]);
    assert [] + [pool[index]] == [pool[index]];
    SampleFacts(pool', [pool[index]], count, rng[1..]);
  }

  /** One centroid from a non-empty pool always succeeds, with one draw: the one it selects. */
  lemma SampleOne(pool: seq<Point>, rng: seq<real>)
    requires 0 < |pool| && 0 < |rng| && Draws(rng)
    ensures Sample(pool, [], 1, rng) == (Some([pool[DrawIndex(rng[0], |pool|)]]), rng[1..])
  {
    var index := DrawIndex(rng[0], |pool|);
    assert [] + [pool[index]] == [pool[index]];
  }

  /**
   * When the pool holds pairwise distinct points none of which is picked,
   * no draw is ever skipped: one draw per missing centroid always suffices,
   * and exactly that many are used.
   */
  lemma {:induction false} SampleDistinct(pool: seq<Point>, picked: seq<Point>, count: nat, rng: seq<real>)
    requires |picked| <= count <= |picked| + |pool| && Draws(rng)
    requires forall i, j :: 0 <= i < j < |pool| ==> pool[i] != pool[j]
    requires forall x :: x in pool ==> x !in picked
    requires count - |picked| <= |rng|
    ensures Sample(pool, picked, count, rng).0.Some?
    ensures Sample(pool, picked, count, rng).1 == rng[count - |picked|..]
    decreases |rng|
  {
    if |picked| < count {
      var index := DrawIndex(rng[0], |pool|);
      var mean := pool[index];
      assert mean in pool;
      var pool' := pool[..index] + pool[index + 1..];
      forall i, j | 0 <= i < j < |pool'| ensures pool'[i] != pool'[j] {
        var i0 := if i < index then i else i + 1;
        var j0 := if j < index then j else j + 1;
        assert pool'[i] == pool[i0] && pool'[j] == pool[j0];
      }
      forall x | x in pool' ensures x !in picked + [mean] {
        var k :| 0 <= k < |pool'| && pool'[k] == x;
        var k0 := if k < index then k else k + 1;
        assert x == pool[k0] && k0 != index;
      }
      SampleDistinct(pool', picked + [mean], count, rng[1..]);
      assert rng[1..][count - (|picked| + 1)..] == rng[count - |picked|..];
    }
  }

  /**
   * `pickRandomMeans`: draw an index into a copy of the data; skip a point
   * equal to one already chosen, otherwise remove it from the copy and keep
   * it. The draws come from `rng`; `rest` is what is left of it, and `None`
   * means it ran out before `count` distinct points were found.
   */
  method PickRandomMeans(data: seq<Point>, count: nat, rng: seq<real>)
    returns (means: Option<seq<Point>>, rest: seq<real>)
    requires count <= |data|
    requires Draws(rng)
    ensures (means, rest) == Sample(data, [], count, rng)
    ensures |rest| <= |rng| && rest == rng[|rng| - |rest|..]
    ensures Draws(rest)
    ensures count == 0 ==> means == Some([]) && rest == rng
    ensures means.None? ==> rest == []
    ensures means.Some? ==> |means.value| == count
    ensures means.Some? ==> multiset(means.value) <= multiset(data)
    ensures means.Some? ==> forall i, j :: 0 <= i < j < count ==> means.value[i] != means.value[j]
  {
    SampleFacts(data, [], count, rng);
    SampleSuffix(data, [], count, rng);
    var pool := data;
    var picked: seq<Point> := [];
    rest := rng;
    while |picked| < count
      invariant |picked| <= count && |pool| == |data| - |picked|
      invariant Draws(rest)
      invariant Sample(data, [], count, rng) == Sample(pool, picked, count, rest)
      decreases |rest|
    {
      if |rest| == 0 {
        return None, rest;
      }
      var index := DrawIndex(rest[0], |pool|);
      rest := rest[1..];
      var mean := pool[index];
      var seen := SomeSameArray(picked, mean);
      if seen {
        continue;
      }
      pool := pool[..index] + pool[index + 1..];
      picked := picked + [mean];
    }
    return Some(picked), rest;
  }

  /** `data.splice(index, 1)` keeps every other element. */
  lemma RemoveAt(pool: seq<Point>, index: nat)
    requires index < |pool|
    ensures multiset(pool[..index] + pool[index + 1..]) + multiset{pool[index]} == multiset(pool)
  {
    assert pool == pool[..index] + [pool[index]] + pool[index + 1..];
  }

  /** The result when there are no more points than clusters asked for: one cluster per point. */
  function Fallback(data: seq<Point>): (r: seq<Cluster>)
    ensures |r| == |data|
    ensures forall i :: 0 <= i < |data| ==> r[i] == Cluster(data[i], [data[i]], 0.0)
  {
    seq(|data|, i requires 0 <= i < |data| => Cluster(data[i], [data[i]], 0.0))
  }

  /**
   * A result the convergence loop can stop at: the clusters are the
   * assignment of the data to their own centroids, and the update step
   * computed from them reports no change.
   */
  predicate IsConverged(sqrt: real -> real, data: seq<Point>, clusters: seq<Cluster>) {
    var means := MeansOf(clusters);
    Assignable(data, means) && clusters == Assignment(sqrt, data, means) &&
    NewMeans(clusters).Some? && MeansChange(means, NewMeans(clusters).value) == Some(false)
  }

  /** All points share one positive width. */
  predicate Uniform(data: seq<Point>) {
    |data| > 0 && |data[0]| > 0 && Width(data, |data[0]|)
  }

  /** What one round of the loop computes: the clusters, the new centroids, the change flag. */
  datatype Round = Round(clusters: seq<Cluster>, next: seq<Point>, changed: bool)

  /**
   * One round of the `while (meansChanged)` loop from the centroids
   * `means`: the assignment, the new centroids computed from it, and
   * whether `haveMeansChanged` reports a change. `Err` is where the round
   * throws or would produce a NaN.
   */
  function Step(sqrt: real -> real, data: seq<Point>, means: seq<Point>): Result<Round, Failure>
  {
    if !Assignable(data, means) then Err(TypeError)
    else
      var clusters := Assignment(sqrt, data, means);
      match NewMeans(clusters)
      case None => Err(NotANumber)
      case Some(next) =>
        match MeansChange(means, next)
        case None => Err(TypeError)
        case Some(changed) => Ok(Round(clusters, next, changed))
  }

  /**
   * A round fails exactly where the assignment throws or the update would
   * produce a NaN; `haveMeansChanged` never throws inside a round, since
   * there is one new centroid per old one. A successful round keeps one
   * cluster per centroid, each holding its centroid, and reports no change
   * exactly when the new centroids are the old ones, as long as each new
   * centroid is as wide as its old one.
   */
  lemma StepFacts(sqrt: real -> real, data: seq<Point>, means: seq<Point>)
    ensures Step(sqrt, data, means).Ok? <==>
      Assignable(data, means) && NewMeans(Assignment(sqrt, data, means)).Some?
    ensures Step(sqrt, data, means).Ok? ==>
      var round := Step(sqrt, data, means).value;
      |round.clusters| == |round.next| == |means| && MeansOf(round.clusters) == means &&
      ((forall m :: 0 <= m < |means| ==> |round.next[m]| == |means[m]|) ==> (!round.changed <==> round.next == means))
  {
    if Assignable(data, means) {
      AssignmentShape(sqrt, data, means);
      var clusters := Assignment(sqrt, data, means);
      if NewMeans(clusters).Some? {
        var next := NewMeans(clusters).value;
        assert !MissingRow(means, next);
        if forall m :: 0 <= m < |means| ==> |next[m]| == |means[m]| {
          UnchangedIffEqual(means, next);
        }
      }
    }
  }

  /**
   * With data and centroids of one positive width, a round always succeeds,
   * its new centroids keep the width, and it reports no change exactly when
   * they are the old centroids.
   */
  lemma StepUniform(sqrt: real -> real, data: seq<Point>, means: seq<Point>, w: nat)
    requires 0 < w && Width(data, w) && Width(means, w) && |means| > 0
    ensures Step(sqrt, data, means).Ok?
    ensures var round := Step(sqrt, data, means).value;
      |round.next| == |means| && Width(round.next, w) && (!round.changed <==> round.next == means)
  {
    AssignmentNewMeansWidth(sqrt, data, means, w);
    StepFacts(sqrt, data, means);
    var next := Step(sqrt, data, means).value.next;
    forall m | 0 <= m < |means| ensures |next[m]| == |means[m]| {
      assert means[m] in means;
      assert next[m] in next;
    }
  }

  /** The rounds of one restart, as a function of the current centroids. */
  function StepOf(sqrt: real -> real, data: seq<Point>): seq<Point> -> Result<Round, Failure> {
    means => Step(sqrt, data, means)
  }

  /**
   * The rounds of one restart from the centroids `means`, at most `fuel` of
   * them: repeat `step` until it reports no change, and end with the
   * clusters of that last round.
   */
  function Iterate(step: seq<Point> -> Result<Round, Failure>, means: seq<Point>, fuel: nat)
    : Result<seq<Cluster>, Failure>
    decreases fuel, 1
  {
    if fuel == 0 then Err(StepsExhausted) else After(step, step(means), fuel)
  }

  /** What the rounds return once a round has produced `round`, with `fuel` rounds counted so far. */
  function After(step: seq<Point> -> Result<Round, Failure>, round: Result<Round, Failure>, fuel: nat)
    : Result<seq<Cluster>, Failure>
    requires fuel > 0
    decreases fuel, 0
  {
    if round.Err? then Err(round.failure)
    else if round.value.changed then Iterate(step, round.value.next, fuel - 1)
    else Ok(round.value.clusters)
  }

  /**
   * The proof rule for the rounds: if `inv` holds of the first centroids,
   * every successful round from centroids satisfying `inv` either reports a
   * change and leads to centroids satisfying `inv` again, or reports none
   * and ends with clusters satisfying `done`, then a finished restart ends
   * with clusters satisfying `done`.
   */
  lemma {:induction false} IterateInduction(step: seq<Point> -> Result<Round, Failure>, inv: seq<Point> -> bool,
                                            done: seq<Cluster> -> bool, means: seq<Point>, fuel: nat)
    requires inv(means)
    requires forall m :: inv(m) && step(m).Ok? ==>
      if step(m).value.changed then inv(step(m).value.next) else done(step(m).value.clusters)
    ensures Iterate(step, means, fuel).Ok? ==> done(Iterate(step, means, fuel).value)
    decreases fuel
  {
    if fuel > 0 && step(means).Ok? && step(means).value.changed {
      IterateInduction(step, inv, done, step(means).value.next, fuel - 1);
    }
  }

  /**
   * If every round from centroids satisfying `inv` succeeds and, when it
   * reports a change, leads to centroids satisfying `inv` again, then the
   * rounds from centroids satisfying `inv` can only run out of fuel.
   */
  lemma {:induction false} IterateTotal(step: seq<Point> -> Result<Round, Failure>, inv: seq<Point> -> bool,
                                        means: seq<Point>, fuel: nat)
    requires inv(means)
    requires forall m :: inv(m) ==> step(m).Ok? && (step(m).value.changed ==> inv(step(m).value.next))
    ensures Iterate(step, means, fuel).Ok? || Iterate(step, means, fuel) == Err(StepsExhausted)
    decreases fuel
  {
    if fuel > 0 && step(means).value.changed {
      IterateTotal(step, inv, step(means).value.next, fuel - 1);
    }
  }

  /** A round that succeeds with `round` decides what the rest of the rounds return. */
  lemma IterateAdvance(step: seq<Point> -> Result<Round, Failure>, means: seq<Point>, fuel: nat, round: Round,
                       next: seq<Point>, rest: nat)
    requires fuel > 0 && step(means) == Ok(round) && next == round.next && rest == fuel - 1
    ensures Iterate(step, means, fuel) ==
      if round.changed then Iterate(step, next, rest) else Ok(round.clusters)
  {
  }

  /** A finished restart holds one cluster per initial centroid and is converged. */
  lemma IterateConverged(sqrt: real -> real, data: seq<Point>, means: seq<Point>, fuel: nat)
    ensures var r := Iterate(StepOf(sqrt, data), means, fuel);
      r.Ok? ==> |r.value| == |means| && IsConverged(sqrt, data, r.value)
  {
    var n := |means|;
    var step := StepOf(sqrt, data);
    var inv := (m: seq<Point>) => |m| == n;
    var done := (c: seq<Cluster>) => |c| == n && IsConverged(sqrt, data, c);
    forall m | inv(m) && step(m).Ok?
      ensures if step(m).value.changed then inv(step(m).value.next) else done(step(m).value.clusters)
    {
      StepFacts(sqrt, data, m);
    }
    IterateInduction(step, inv, done, means, fuel);
  }

  /** With data and centroids of one positive width, a restart can only run out of rounds. */
  lemma IterateUniform(sqrt: real -> real, data: seq<Point>, means: seq<Point>, fuel: nat, w: nat)
    requires 0 < w && Width(data, w) && Width(means, w) && |means| > 0
    ensures var r := Iterate(StepOf(sqrt, data), means, fuel);
      r.Ok? || r == Err(StepsExhausted)
  {
    var step := StepOf(sqrt, data);
    var inv := (m: seq<Point>) => Width(m, w) && |m| > 0;
    forall m | inv(m) ensures step(m).Ok? && (step(m).value.changed ==> inv(step(m).value.next)) {
      StepUniform(sqrt, data, m, w);
    }
    IterateTotal(step, inv, means, fuel);
  }

  /** The body of the `while (meansChanged)` loop: assign, update, compare. */
  method RunRound(sqrt: real -> real, data: seq<Point>, means: seq<Point>) returns (r: Result<Round, Failure>)
    ensures r == StepOf(sqrt, data)(means)
  {
    var assignment := ClusterDataPoints(sqrt, data, means);
    if assignment.None? {
      return Err(TypeError);
    }
    var clusters := assignment.value;
    var newMeans := CalculateNewMeans(clusters);
    if newMeans.None? {
      return Err(NotANumber);
    }
    // one new centroid per cluster, so no row of `newMeans` is missing
    StepFacts(sqrt, data, means);
    var changed := HaveMeansChanged(means, newMeans.value);
    if changed.None? {
      return Err(TypeError);
    }
    return Ok(Round(clusters, newMeans.value, changed.value));
  }

  /**
   * What one restart promises: a finished restart is converged with one
   * cluster per initial centroid, the first round throws when the
   * assignment does, and with uniform data only the round budget can end it.
   */
  lemma IterateOutcome(sqrt: real -> real, data: seq<Point>, seeds: seq<Point>, fuel: nat)
    ensures var r := Iterate(StepOf(sqrt, data), seeds, fuel);
      (r.Ok? ==> |r.value| == |seeds| && IsConverged(sqrt, data, r.value)) &&
      (fuel > 0 && !Assignable(data, seeds) ==> r == Err(TypeError)) &&
      (Uniform(data) && |seeds| > 0 && Width(seeds, |data[0]|) ==> r.Ok? || r == Err(StepsExhausted))
  {
    IterateConverged(sqrt, data, seeds, fuel);
    if Uniform(data) && |seeds| > 0 && Width(seeds, |data[0]|) {
      IterateUniform(sqrt, data, seeds, fuel, |data[0]|);
    }
  }

  /**
   * The `while (meansChanged)` loop of one restart: assign, update, compare,
   * until the comparison reports no change. `maxSteps` bounds the rounds.
   */
  method Converge(sqrt: real -> real, data: seq<Point>, seeds: seq<Point>, maxSteps: nat)
    returns (r: Result<seq<Cluster>, Failure>)
    ensures r == Iterate(StepOf(sqrt, data), seeds, maxSteps)
    ensures r.Ok? ==> |r.value| == |seeds| && IsConverged(sqrt, data, r.value)
    ensures maxSteps > 0 && !Assignable(data, seeds) ==> r == Err(TypeError)
    ensures Uniform(data) && |seeds| > 0 && Width(seeds, |data[0]|) ==> r.Ok? || r == Err(StepsExhausted)
  {
    var means := seeds;
    var clusters: seq<Cluster> := [];
    var changed := true;
    var fuel := maxSteps;
    while changed
      invariant Iterate(StepOf(sqrt, data), seeds, maxSteps) ==
        if changed then Iterate(StepOf(sqrt, data), means, fuel) else Ok(clusters)
      decreases fuel
    {
      if fuel == 0 {
        IterateOutcome(sqrt, data, seeds, maxSteps);
        return Err(StepsExhausted);
      }
      var round := RunRound(sqrt, data, means);
      if round.Err? {
        IterateOutcome(sqrt, data, seeds, maxSteps);
        return Err(round.failure);
      }
      ghost var prev, prevFuel := means, fuel;
      clusters := round.value.clusters;
      changed := round.value.changed;
      means := round.value.next;
      fuel := fuel - 1;
      IterateAdvance(StepOf(sqrt, data), prev, prevFuel, round.value, means, fuel);
    }
    IterateOutcome(sqrt, data, seeds, maxSteps);
    return Ok(clusters);
  }

  /** `runs` followed by the runs of `later`, or the failure of `later`. */
  function Prefixed(runs: seq<seq<Cluster>>, later: Result<seq<seq<Cluster>>, Failure>)
    : Result<seq<seq<Cluster>>, Failure>
  {
    match later
    case Ok(rs) => Ok(runs + rs)
    case Err(f) => Err(f)
  }

  /** No runs before `later` leave it as it is. */
  lemma PrefixedEmpty(later: Result<seq<seq<Cluster>>, Failure>)
    ensures Prefixed([], later) == later
  {
    if later.Ok? {
      assert [] + later.value == later.value;
    }
  }

  /** One restart: the rounds from initial centroids `seeds`, at most `maxSteps` of them. */
  function RunOf(sqrt: real -> real, data: seq<Point>, maxSteps: nat): seq<Point> -> Result<seq<Cluster>, Failure>
  {
    seeds => Iterate(StepOf(sqrt, data), seeds, maxSteps)
  }

  /** Initial centroids a restart can start from: `count` points taken from the data. */
  predicate FromData(data: seq<Point>, count: nat, seeds: seq<Point>)
  {
    |seeds| == count && multiset(seeds) <= multiset(data)
  }

  /**
   * The `n` restarts that consume the draws `rng` in order. Each samples
   * its initial centroids from the draws its predecessors left and hands
   * them to `run`. The first failure ends them all.
   */
  function Restarts(run: seq<Point> -> Result<seq<Cluster>, Failure>, data: seq<Point>, count: nat, n: nat,
                    rng: seq<real>): Result<seq<seq<Cluster>>, Failure>
    requires count <= |data| && Draws(rng)
    decreases n
  {
    if n == 0 then Ok([])
    else
      var sample := Sample(data, [], count, rng);
      if sample.0.None? then Err(DrawsExhausted)
      else
        var result := run(sample.0.value);
        if result.Err? then Err(result.failure)
        else Prefixed([result.value], Restarts(run, data, count, n - 1, sample.1))
  }

  /**
   * The proof rule for the restarts: if every successful run from initial
   * centroids taken from the data satisfies `done`, then completed
   * restarts are `n` results that all satisfy `done`.
   */
  lemma {:induction false} RestartsInduction(run: seq<Point> -> Result<seq<Cluster>, Failure>,
                                             done: seq<Cluster> -> bool, data: seq<Point>, count: nat, n: nat,
                                             rng: seq<real>)
    requires count <= |data| && Draws(rng)
    requires forall seeds :: FromData(data, count, seeds) && run(seeds).Ok? ==> done(run(seeds).value)
    ensures var rs := Restarts(run, data, count, n, rng);
      rs.Ok? ==> |rs.value| == n && forall i :: 0 <= i < n ==> done(rs.value[i])
    decreases n
  {
    if n > 0 {
      var sample := Sample(data, [], count, rng);
      if sample.0.Some? {
        SampleFacts(data, [], count, rng);
        assert FromData(data, count, sample.0.value);
        RestartsInduction(run, done, data, count, n - 1, sample.1);
      }
    }
  }

  /**
   * If every run from initial centroids taken from the data can only run
   * out of rounds, the restarts can only run out of draws or of rounds.
   */
  lemma {:induction false} RestartsTotal(run: seq<Point> -> Result<seq<Cluster>, Failure>, data: seq<Point>,
                                         count: nat, n: nat, rng: seq<real>)
    requires count <= |data| && Draws(rng)
    requires forall seeds :: FromData(data, count, seeds) ==> run(seeds).Ok? || run(seeds) == Err(StepsExhausted)
    ensures var rs := Restarts(run, data, count, n, rng);
      rs.Ok? || rs == Err(DrawsExhausted) || rs == Err(StepsExhausted)
    decreases n
  {
    if n > 0 {
      var sample := Sample(data, [], count, rng);
      if sample.0.Some? {
        SampleFacts(data, [], count, rng);
        assert FromData(data, count, sample.0.value);
        RestartsTotal(run, data, count, n - 1, sample.1);
      }
    }
  }

  /**
   * With pairwise distinct data and `count * n` draws, sampling never runs
   * dry, so only a run can make the restarts fail.
   */
  lemma {:induction false} RestartsSampled(run: seq<Point> -> Result<seq<Cluster>, Failure>, data: seq<Point>,
                                           count: nat, n: nat, rng: seq<real>)
    requires count <= |data| && Draws(rng) && count * n <= |rng|
    requires forall i, j :: 0 <= i < j < |data| ==> data[i] != data[j]
    requires forall seeds :: run(seeds) != Err(DrawsExhausted)
    ensures Restarts(run, data, count, n, rng) != Err(DrawsExhausted)
    decreases n
  {
    if n > 0 {
      SampleDistinct(data, [], count, rng);
      var sample := Sample(data, [], count, rng);
      assert count * n == count + count * (n - 1);
      RestartsSampled(run, data, count, n - 1, sample.1);
    }
  }

  /** The rounds never report a failure no round reports. */
  lemma {:induction false} IterateFailure(step: seq<Point> -> Result<Round, Failure>, f: Failure,
                                          means: seq<Point>, fuel: nat)
    requires f != StepsExhausted
    requires forall m :: step(m) != Err(f)
    ensures Iterate(step, means, fuel) != Err(f)
    decreases fuel
  {
    if fuel > 0 && step(means).Ok? && step(means).value.changed {
      IterateFailure(step, f, step(means).value.next, fuel - 1);
    }
  }

  /** Completed restarts: `n` of them, each converged with `count` clusters. */
  lemma RestartsConverged(sqrt: real -> real, data: seq<Point>, count: nat, n: nat, rng: seq<real>, maxSteps: nat)
    requires count <= |data| && Draws(rng)
    ensures var rs := Restarts(RunOf(sqrt, data, maxSteps), data, count, n, rng);
      rs.Ok? ==> |rs.value| == n && forall i :: 0 <= i < n ==> |rs.value[i]| == count && IsConverged(sqrt, data, rs.value[i])
  {
    var run := RunOf(sqrt, data, maxSteps);
    var done := (c: seq<Cluster>) => |c| == count && IsConverged(sqrt, data, c);
    forall seeds | FromData(data, count, seeds) && run(seeds).Ok? ensures done(run(seeds).value) {
      IterateConverged(sqrt, data, seeds, maxSteps);
    }
    RestartsInduction(run, done, data, count, n, rng);
  }

  /** With uniform data and at least one cluster, restarts can only run out of draws or of rounds. */
  lemma RestartsUniform(sqrt: real -> real, data: seq<Point>, count: nat, n: nat, rng: seq<real>, maxSteps: nat)
    requires 0 < count <= |data| && Draws(rng) && Uniform(data)
    ensures var rs := Restarts(RunOf(sqrt, data, maxSteps), data, count, n, rng);
      rs.Ok? || rs == Err(DrawsExhausted) || rs == Err(StepsExhausted)
  {
    var run := RunOf(sqrt, data, maxSteps);
    forall seeds | FromData(data, count, seeds) ensures run(seeds).Ok? || run(seeds) == Err(StepsExhausted) {
      forall x | x in seeds ensures |x| == |data[0]| {
        assert x in multiset(seeds);
        assert x in multiset(data);
      }
      IterateUniform(sqrt, data, seeds, maxSteps, |data[0]|);
    }
    RestartsTotal(run, data, count, n, rng);
  }

  /**
   * Pairwise distinct data never runs out of draws: `count` draws per
   * restart always suffice, so with `count * n` draws only the round
   * budget, a throw or a NaN can end the restarts early.
   */
  lemma RestartsEnoughDraws(sqrt: real -> real, data: seq<Point>, count: nat, n: nat, rng: seq<real>, maxSteps: nat)
    requires count <= |data| && Draws(rng) && count * n <= |rng|
    requires forall i, j :: 0 <= i < j < |data| ==> data[i] != data[j]
    ensures Restarts(RunOf(sqrt, data, maxSteps), data, count, n, rng) != Err(DrawsExhausted)
  {
    var run := RunOf(sqrt, data, maxSteps);
    forall seeds ensures run(seeds) != Err(DrawsExhausted) {
      IterateFailure(StepOf(sqrt, data), DrawsExhausted, seeds, maxSteps);
    }
    RestartsSampled(run, data, count, n, rng);
  }

  /** A restart that samples `seeds` and whose run yields `result` decides what the rest return. */
  lemma RestartsAdvance(run: seq<Point> -> Result<seq<Cluster>, Failure>, data: seq<Point>, count: nat, n: nat,
                        rng: seq<real>, results: seq<seq<Cluster>>, seeds: seq<Point>, result: seq<Cluster>,
                        rest: seq<real>, longer: seq<seq<Cluster>>, left: nat)
    requires count <= |data| && Draws(rng) && n > 0
    requires Sample(data, [], count, rng) == (Some(seeds), rest) && run(seeds) == Ok(result)
    requires longer == results + [result] && left == n - 1
    ensures Draws(rest)
    ensures Prefixed(results, Restarts(run, data, count, n, rng)) == Prefixed(longer, Restarts(run, data, count, left, rest))
  {
    SampleFacts(data, [], count, rng);
    var later := Restarts(run, data, count, left, rest);
    if later.Ok? {
      assert results + ([result] + later.value) == longer + later.value;
    }
  }

  /**
   * What `kMeans` returns: the fallback for small inputs; otherwise the
   * first best of the restarts, `undefined` when there are none, or the
   * first failure among them.
   */
  function KMeansResult(sqrt: real -> real, data: seq<Point>, count: nat, iterations: nat,
                        rng: seq<real>, maxSteps: nat): Result<seq<Cluster>, Failure>
    requires Draws(rng)
  {
    if |data| <= count then Ok(Fallback(data))
    else
      match Restarts(RunOf(sqrt, data, maxSteps), data, count, iterations, rng)
      case Err(f) => Err(f)
      case Ok(runs) => if |runs| == 0 then Err(Undefined) else Ok(runs[BestIndex(runs)])
  }

  /**
   * What `kMeans` promises: small inputs get the fallback; otherwise a
   * result is the first best of `iterations` converged restarts of `count`
   * clusters, no restarts give `undefined`, no clusters throw, and with
   * uniform data only the draws or the round budget can end it early.
   */
  lemma KMeansOutcome(sqrt: real -> real, data: seq<Point>, count: nat, iterations: nat, rng: seq<real>, maxSteps: nat)
    requires Draws(rng)
    ensures var r := KMeansResult(sqrt, data, count, iterations, rng, maxSteps);
      (|data| <= count ==> r == Ok(Fallback(data))) &&
      (|data| > count && iterations == 0 ==> r == Err(Undefined)) &&
      (|data| > count && count == 0 && iterations > 0 && maxSteps > 0 ==> r == Err(TypeError)) &&
      (|data| > count > 0 && iterations > 0 && Uniform(data) ==>
         r.Ok? || r == Err(DrawsExhausted) || r == Err(StepsExhausted))
  {
    if |data| > count {
      var run := RunOf(sqrt, data, maxSteps);
      if count == 0 && iterations > 0 && maxSteps > 0 {
        assert Sample(data, [], 0, rng) == (Some([]), rng);
        IterateOutcome(sqrt, data, [], maxSteps);
        assert run([]) == Err(TypeError);
      }
      if count > 0 && Uniform(data) {
        RestartsUniform(sqrt, data, count, iterations, rng, maxSteps);
      }
    }
  }

  /**
   * `kMeans`: with no more points than clusters, one cluster per point.
   * Otherwise `iterations` restarts, each from freshly drawn distinct
   * centroids run to convergence, and the first result of least summed
   * error. `runs` are the converged results of the restarts, in order.
   */
  method KMeans(sqrt: real -> real, data: seq<Point>, count: nat, iterations: nat,
                rng: seq<real>, maxSteps: nat)
    returns (r: Result<seq<Cluster>, Failure>, ghost runs: seq<seq<Cluster>>)
    requires Draws(rng)
    ensures r == KMeansResult(sqrt, data, count, iterations, rng, maxSteps)
    ensures |data| > count && r.Ok? ==> Restarts(RunOf(sqrt, data, maxSteps), data, count, iterations, rng) == Ok(runs)
    ensures |data| <= count ==> r == Ok(Fallback(data))
    ensures |data| > count && r.Ok? ==>
      |runs| == iterations > 0 && r.value == runs[BestIndex(runs)] &&
      forall i :: 0 <= i < |runs| ==> |runs[i]| == count && IsConverged(sqrt, data, runs[i])
    ensures |data| > count && iterations == 0 ==> r == Err(Undefined)
    ensures |data| > count && count == 0 && iterations > 0 && maxSteps > 0 ==> r == Err(TypeError)
    ensures |data| > count > 0 && iterations > 0 && Uniform(data) ==>
      r.Ok? || r == Err(DrawsExhausted) || r == Err(StepsExhausted)
  {
    if |data| <= count {
      return Ok(Fallback(data)), [];
    }
    ghost var run := RunOf(sqrt, data, maxSteps);
    var results: seq<seq<Cluster>> := [];
    var draws := rng;
    var i := 0;
    ghost var left := iterations;
    PrefixedEmpty(Restarts(run, data, count, left, draws));
    while i < iterations
      invariant i <= iterations && |results| == i && left == iterations - i
      invariant Draws(draws)
      invariant Restarts(run, data, count, iterations, rng) == Prefixed(results, Restarts(run, data, count, left, draws))
    {
      var picked, rest := PickRandomMeans(data, count, draws);
      if picked.None? {
        KMeansOutcome(sqrt, data, count, iterations, rng, maxSteps);
        return Err(DrawsExhausted), results;
      }
      var result := Converge(sqrt, data, picked.value, maxSteps);
      if result.Err? {
        KMeansOutcome(sqrt, data, count, iterations, rng, maxSteps);
        return Err(result.failure), results;
      }
      ghost var before, prevDraws, prevLeft := results, draws, left;
      results := results + [result.value];
      draws := rest;
      i := i + 1;
      left := left - 1;
      RestartsAdvance(run, data, count, prevLeft, prevDraws, before, picked.value, result.value, draws, results, left);
    }
    assert results + [] == results;
    RestartsConverged(sqrt, data, count, iterations, rng, maxSteps);
    KMeansOutcome(sqrt, data, count, iterations, rng, maxSteps);
    var best := PickBestResult(results);
    if best.None? {
      return Err(Undefined), results;
    }
    return Ok(best.value), results;
  }

  /** The fallback puts every point in its own cluster, with no error. */
  lemma FallbackProperties(data: seq<Point>)
    ensures PointCount(Fallback(data)) == |data|
    ensures SummedError(Fallback(data)) == 0.0
    ensures MeansOf(Fallback(data)) == data
  {
    FallbackSums(data);
  }

  lemma {:induction false} FallbackSums(data: seq<Point>)
    ensures PointCount(Fallback(data)) == |data|
    ensures SummedError(Fallback(data)) == 0.0
    decreases |data|
  {
    if |data| > 0 {
      var n := |data| - 1;
      assert Fallback(data)[..n] == Fallback(data[..n]);
      FallbackSums(data[..n]);
    }
  }

  /**
   * The fallback centroids are a fixed point of the mean update: each
   * cluster's new centroid is its own point. With a square root, each
   * error is also the distance of its point to its centroid.
   */
  lemma FallbackStable(sqrt: real -> real, data: seq<Point>)
    requires IsSquareRoot(sqrt) && NonEmptyRows(data)
    ensures NewMeans(Fallback(data)) == Some(data)
    ensures forall i :: 0 <= i < |data| ==>
      Fallback(data)[i].totalError == TotalDistance(sqrt, Fallback(data)[i].points, Fallback(data)[i].mean)
  {
    var f := Fallback(data);
    forall i | 0 <= i < |data|
      ensures Averageable(f[i]) && NewMean(f[i]) == data[i]
      ensures f[i].totalError == TotalDistance(sqrt, f[i].points, f[i].mean)
    {
      FallbackClusterStable(sqrt, data[i]);
    }
    assert NewMeans(f).value == data;
  }

  lemma FallbackClusterStable(sqrt: real -> real, p: Point)
    requires IsSquareRoot(sqrt) && |p| > 0
    ensures Averageable(Cluster(p, [p], 0.0)) && NewMean(Cluster(p, [p], 0.0)) == p
    ensures 0.0 == TotalDistance(sqrt, [p], p)
  {
    MeanOfCopies([p], p);
    DistanceToSelf(sqrt, p);
    assert [p][..0] == [];
  }

  /**
   * When the data and the centroids share one width, the converged
   * clusters are a fixed point of the update step: the new centroids equal
   * the old ones, and assigning the data to them again gives the same
   * clusters.
   */
  lemma ConvergedFixedPoint(sqrt: real -> real, data: seq<Point>, clusters: seq<Cluster>, w: nat)
    requires IsConverged(sqrt, data, clusters)
    requires 0 < w && Width(data, w) && Width(MeansOf(clusters), w) && |clusters| > 0
    ensures NewMeans(clusters) == Some(MeansOf(clusters))
    ensures clusters == Assignment(sqrt, data, NewMeans(clusters).value)
  {
    var means := MeansOf(clusters);
    AssignmentNewMeansWidth(sqrt, data, means, w);
    var nm := NewMeans(clusters).value;
    forall m | 0 <= m < |means| ensures |means[m]| == |nm[m]| {
      assert means[m] in means;
      assert nm[m] in nm;
    }
    UnchangedIffEqual(means, nm);
  }
}
