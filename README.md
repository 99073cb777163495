# k-means clustering, modelled in Dafny

This project models `kMeans` from `src/kmeans.ts` together with all of its helpers. `kMeans` is a small implementation of Lloyd's k-means algorithm with random restarts. The model proves properties about it:

- **Fallback.** With no more points than requested clusters, the result is one cluster per point.
- **Restarts.** Otherwise there are `iterations` restarts. Each restart:
  - draws `count` distinct points as its initial centroids (`pickRandomMeans`);
  - assigns every point to its nearest centroid (`clusterDataPoints`);
  - moves every centroid to the mean of its members (`calculateNewMeans`);
  - repeats until the centroids stop changing (`haveMeansChanged`).
- **Selection.** The restart with the least summed error wins (`pickBestResult`).
- **Helpers.** `zip`, `isSameArray` and `distanceBetweenPoints`.

Modules, in dependency order:

- `Wrappers` (`wrappers.dfy`): `Option` and `Result`. A JavaScript throw or `undefined` becomes `None` or `Err`.
- `Geometry` (`geometry.dfy`): points as `seq<real>`, `zip`, the distance, `isSameArray`.
- `Clustering` (`clustering.dfy`): the `DataCluster` record and the assignment pass.
- `Centroids` (`centroids.dfy`): the update step and the change test.
- `KMeans` (`kmeans.dfy`): centroid sampling, best-of-N selection, the convergence loop and `kMeans`.

Each loop of the source becomes a method with loop invariants. Each method is proved against a specification function:

- `ClusterDataPoints` returns `Assignment(sqrt, data, means)`. That is one cluster per centroid, holding the points whose `NearestIndex` is that centroid, in data order, with their summed distances.
- `CalculateNewMeans` returns `NewMeans(clusters)`.
- `HaveMeansChanged` returns `MeansChange(prev, next)`.
- `PickBestResult` returns the result at `BestIndex(results)`.
- `Zip` returns `Zipped(a, b)`.
- `PickRandomMeans` returns `Sample(data, [], count, rng)`: the draws, consumed in order, each selecting an index into the shrinking working copy.
- `RunRound`, the body of the `while (meansChanged)` loop, returns `Step(sqrt, data, means)`: the assignment, then the new centroids, then the change test.
- `Converge` returns `Iterate(StepOf(sqrt, data), seeds, maxSteps)`: the rounds from the sampled centroids until one reports no change.
- `KMeans` returns `KMeansResult`. Past the fallback, that is the best of `Restarts(RunOf(sqrt, data, maxSteps), data, count, iterations, rng)`: each restart samples its centroids from the draws the previous ones left, then converges from them.

The properties the source promises are then proved about these functions.

Numbers are exact reals. `Math.pow(x, 0.5)` is passed in as a function `sqrt`. Properties that depend on it being a square root, such as non-negative errors or zero distance to oneself, assume `IsSquareRoot(sqrt)`.

`Math.random()` is a sequence of draws in [0, 1), passed in as `rng`.

## Model

| member | source | states |
|---|---|---|
| Geometry.Zipped | src/kmeans.ts:122-129 | `zip` gives `min(|a|, |b|)` pairs, and pair `i` is `(a[i], b[i])` |
| Geometry.Zip | src/kmeans.ts:122-129 | the index loop fills exactly the pairs of `Zipped` |
| Geometry.SquaredGaps | src/kmeans.ts:133-134 | the `map` gives one squared gap per zipped pair, and none is negative |
| Geometry.ReduceSum | src/kmeans.ts:135 | the `reduce` without an initial value needs a non-empty array, and a sum of non-negative values is non-negative |
| Geometry.DistanceBetweenPoints | src/kmeans.ts:131-138 | the distance is defined exactly when both points have a coordinate (otherwise `reduce` throws), and its value is the root of the squared distance over the common prefix |
| Geometry.ReduceSumGaps | src/kmeans.ts:133-135 | summing the mapped squared gaps of the zipped pairs equals the squared distance over the common coordinates |
| Geometry.DistanceSymmetric | src/kmeans.ts:131-138 | the distance does not depend on argument order, both as an optional value and as a number |
| Geometry.DistanceNonNegative | src/kmeans.ts:131-138 | with a square root, every defined distance is at least 0 |
| Geometry.DistanceToSelf | src/kmeans.ts:131-138 | with a square root, a point is at distance 0 from itself |
| Geometry.DistanceCommonPrefix | src/kmeans.ts:122-137 | only the coordinates both points have take part in the distance |
| Geometry.DistanceExample | src/kmeans.ts:131-138 | the distance from [0, 0] to [3, 4] is 5 |
| Geometry.IsSameArray | src/kmeans.ts:76-84 | `isSameArray` is true exactly when the lengths are equal and every element is equal, that is exactly when the arrays are equal |
| Clustering.FirstMin | src/kmeans.ts:109-115 | a scan that replaces the best only on a strictly smaller value ends at a minimal value, and at the first index holding it |
| Clustering.FirstMinUnique | src/kmeans.ts:109-115 | only one index is both minimal and strictly below every earlier value |
| Clustering.NearestIndex | src/kmeans.ts:107-115 | a point goes to a centroid at minimal distance, and to the lowest such index (earlier centroids win ties) |
| Clustering.NearestIndexUnique | src/kmeans.ts:107-115 | those two properties single out the chosen centroid |
| Clustering.MembersExactly | src/kmeans.ts:106-118 | a point is a member of cluster `k` exactly when it is in the data and `k` is its nearest centroid |
| Clustering.ScanCentroids | src/kmeans.ts:107-115 | the inner scan fails exactly when some distance has no common coordinate; otherwise it ends at the nearest centroid, holding its distance |
| Clustering.ClusterDataPoints | src/kmeans.ts:101-120 | the pass fails exactly when there is data but no centroid, or some point or centroid has no coordinate; otherwise it returns the assignment |
| Clustering.AddToCluster | src/kmeans.ts:116-117 | the `push` and `+=` change only cluster `j`: its centroid stays, the point is appended to its members, and its error grows by `e`; every other cluster is unchanged |
| Clustering.ClusterOfStep | src/kmeans.ts:116-117 | one more point appends itself to its nearest cluster and adds its distance there, and leaves every other cluster alone |
| Clustering.AssignmentStep | src/kmeans.ts:106-118 | one more data point changes exactly the cluster of its nearest centroid, appending the point and adding its distance |
| Clustering.PointCountAdd | src/kmeans.ts:116 | a `push` onto one cluster adds one to the total member count |
| Clustering.AssignmentPointCount | src/kmeans.ts:105-119 | every data point lands in exactly one cluster, so the member counts add up to the number of points |
| Clustering.AssignmentShape | src/kmeans.ts:105 | there is one cluster per centroid, in centroid order, and cluster `i` holds centroid `i` |
| Clustering.TotalDistanceAppend | src/kmeans.ts:117 | adding a member adds its distance to the running error |
| Clustering.TotalDistanceNonNegative | src/kmeans.ts:117 | with a square root, a sum of distances is at least 0 |
| Clustering.AssignmentErrors | src/kmeans.ts:107-117 | each cluster's `totalError` is the sum of its members' distances to its centroid, and with a square root it is at least 0 |
| Centroids.Zeros | src/kmeans.ts:67 | `points[0].map(() => 0)` is a zero vector as wide as the first member |
| Centroids.AddPoint | src/kmeans.ts:66 | `totals.map(...)` keeps the width of the totals and adds the point's coordinate to each column |
| Centroids.SumPoints | src/kmeans.ts:64-68 | folding the members into the totals keeps the width of the totals |
| Centroids.SumPointsColumns | src/kmeans.ts:64-68 | the `reduce` keeps the width of the totals, and column `v` ends up as the initial value plus the members' column sum |
| Centroids.MeanOf | src/kmeans.ts:64-69 | the new centroid is as wide as the first member, and coordinate `v` is the column sum divided by the number of members |
| Centroids.NewMean | src/kmeans.ts:60-71 | a cluster without members keeps its centroid; otherwise its new centroid is the mean of its members |
| Centroids.NewMeans | src/kmeans.ts:58-74 | there is one new centroid per cluster, in order, unless some cluster would get a NaN coordinate |
| Centroids.CalculateNewMeans | src/kmeans.ts:58-74 | the loop computes exactly `NewMeans` |
| Centroids.MeanOfCopies | src/kmeans.ts:64-69 | the mean of copies of a point, one copy included, is that point |
| Centroids.HaveMeansChanged | src/kmeans.ts:47-56 | the nested scan answers `true` when some previous coordinate, in a row that exists in the new centroids, has no equal counterpart, throws when a previous row with a coordinate has no new row, and otherwise answers `false` |
| Centroids.UnchangedIffEqual | src/kmeans.ts:47-56 | when the shapes match, "no change" holds exactly when the two centroid lists are equal |
| Centroids.UnchangedOnSame | src/kmeans.ts:47-56 | identical centroid lists never count as changed |
| Centroids.ExtraRowsIgnored | src/kmeans.ts:48 | new centroids beyond the previous count are never looked at |
| Centroids.AssignmentNewMeansWidth | src/kmeans.ts:58-74 | when the data and centroids share one positive width, the assignment is defined, the update produces no NaN, and it keeps that width |
| KMeans.SummedError | src/kmeans.ts:35-38 | a result's summed error is non-negative when every cluster's error is |
| KMeans.BestIndex | src/kmeans.ts:31-45 | the chosen result has summed error at most every other result's, and strictly less than every earlier one's |
| KMeans.PickBestResult | src/kmeans.ts:31-45 | `undefined` exactly for an empty list; otherwise the first result of least summed error |
| KMeans.DrawIndex | src/kmeans.ts:90 | `Math.floor(Math.random() * n)` is a valid index into the working copy |
| KMeans.SomeSameArray | src/kmeans.ts:92 | the `some` over `isSameArray` is true exactly when the candidate is already among the chosen centroids |
| KMeans.Sample | src/kmeans.ts:86-99 | sampling leaves no more draws than it was given, all of them in [0, 1), and none at all when it runs out before `count` centroids |
| KMeans.SampleSuffix | src/kmeans.ts:89-90 | the draws left over are a suffix of the draws given: each iteration uses the next draw |
| KMeans.SampleFacts | src/kmeans.ts:86-99 | a successful sample keeps the centroids already chosen as its prefix, has exactly `count` centroids, is pairwise distinct, and takes them without replacement from the working copy |
| KMeans.SampleFirst | src/kmeans.ts:88-96 | with no centroid chosen yet, the first centroid is `data[DrawIndex(rng[0], |data|)]` |
| KMeans.SampleOne | src/kmeans.ts:88-98 | one centroid from non-empty data always succeeds, uses exactly one draw, and is the point that draw selects |
| KMeans.SampleDistinct | src/kmeans.ts:89-97 | when the working copy holds pairwise distinct points none of which is chosen, no draw is skipped: sampling succeeds with exactly one draw per missing centroid |
| KMeans.PickRandomMeans | src/kmeans.ts:86-99 | the loop computes exactly `Sample(data, [], count, rng)`; the draws it leaves are a suffix of the stream; on success it returns `count` centroids, pairwise distinct, taken without replacement from the data; with `count` 0 it draws nothing |
| KMeans.Fallback | src/kmeans.ts:9-13 | one cluster per data point, in order, whose centroid is that point, whose only member is that point, and whose error is 0 |
| KMeans.StepFacts | src/kmeans.ts:21-23 | a round fails exactly when the assignment throws or the update would produce NaN, so `haveMeansChanged` never throws there; a successful round keeps one cluster per centroid, each holding its centroid, and, when each new centroid is as wide as its old one, reports no change exactly when the centroids are unchanged |
| KMeans.StepUniform | src/kmeans.ts:21-23 | with data and centroids of one positive width, a round always succeeds, keeps the width, and reports no change exactly when the centroids are unchanged |
| KMeans.RunRound | src/kmeans.ts:20-25 | the body of the `while (meansChanged)` loop computes exactly one `Step` |
| KMeans.IterateInduction | src/kmeans.ts:19-25 | the proof rule for the loop: a property kept by each changing round and established by the final round holds of every finished restart |
| KMeans.IterateTotal | src/kmeans.ts:19-25 | when every round from a kept property succeeds and keeps it, the loop can only run out of its round budget |
| KMeans.IterateAdvance | src/kmeans.ts:20-25 | a successful round either ends the loop with its clusters or continues from its new centroids with one round fewer |
| KMeans.IterateFailure | src/kmeans.ts:19-25 | a failure that no round produces, other than running out of rounds, never ends the loop |
| KMeans.IterateConverged | src/kmeans.ts:19-26 | a finished restart holds one cluster per initial centroid and is converged |
| KMeans.IterateUniform | src/kmeans.ts:19-25 | with data and centroids of one positive width, a restart can only run out of its round budget |
| KMeans.IterateOutcome | src/kmeans.ts:17-26 | a finished restart is converged with one cluster per initial centroid; the first round throws when the assignment does; with uniform data only the round budget can end it |
| KMeans.Converge | src/kmeans.ts:17-26 | the loop computes exactly `Iterate` from the sampled centroids; a finished restart is converged and holds one cluster per initial centroid; the first round throws when the assignment does; with uniform data the only failure is running out of steps |
| KMeans.RestartsInduction | src/kmeans.ts:16-27 | the proof rule for the restarts: when every finished run from `count` points of the data has a property, completed restarts are `n` results that all have it |
| KMeans.RestartsTotal | src/kmeans.ts:16-27 | when every run from `count` points of the data can only run out of rounds, the restarts can only run out of draws or of rounds |
| KMeans.RestartsSampled | src/kmeans.ts:16-17 | with pairwise distinct data and `count` draws per restart, sampling never runs out of draws |
| KMeans.RestartsAdvance | src/kmeans.ts:16-27 | a restart that samples `seeds` and converges to `result` appends `result` to the results and leaves the remaining restarts to the draws it did not use |
| KMeans.RestartsConverged | src/kmeans.ts:16-27 | completed restarts are `n` results, each converged with `count` clusters |
| KMeans.RestartsUniform | src/kmeans.ts:16-27 | with uniform data and at least one cluster, the restarts can only run out of draws or of rounds |
| KMeans.RestartsEnoughDraws | src/kmeans.ts:16-27 | with pairwise distinct data and `count * n` draws, the restarts never run out of draws |
| KMeans.KMeansOutcome | src/kmeans.ts:7-29 | small inputs get the fallback; no restarts give `undefined`; `count` 0 throws in the first round; with uniform data only exhausted draws or rounds can fail |
| KMeans.KMeans | src/kmeans.ts:7-29 | the function computes exactly `KMeansResult`; past the fallback, `runs` are exactly the restarts on the draws in order, and a result is the first best of `iterations` converged runs of `count` clusters; no restarts give `undefined`; `count` 0 throws; with uniform data only exhausted draws or rounds can fail |
| KMeans.FallbackProperties | src/kmeans.ts:8-14 | the fallback holds every point once, has summed error 0, and its centroids are the data |
| KMeans.FallbackStable | src/kmeans.ts:8-14 | the fallback centroids are a fixed point of the mean update: each cluster's new centroid is its own point; with a square root each error is its members' distance sum |
| KMeans.ConvergedFixedPoint | src/kmeans.ts:20-25 | with one width throughout, a converged result is a fixed point: the new centroids equal the old ones, and reassigning to them reproduces the clusters |

## Left out

- `Math.random()` is replaced by the injected draw sequence `rng`. Each draw is assumed to lie in [0, 1), as `Math.random` guarantees.
- An exhausted `rng` ends the run with `DrawsExhausted`. This bounds the duplicate-skip loop of `pickRandomMeans`. That loop never ends if the data has fewer distinct points than `count`, for example `[[1], [1], [1]]` with `count` 2.
- The `while (meansChanged)` loop gets a budget of `maxSteps` rounds per restart. Running out ends the run with `StepsExhausted`. Termination of the real loop depends on exact float equality and is not proved.
- IEEE floating point is not modelled: numbers are exact reals. Rounding, `Infinity` and `NaN` are left out.
- The `Infinity` starting values of `bestError` are replaced by "the first candidate is always taken".
- `Centroids.CalculateNewMeans`: when a member is narrower than the first member of its cluster, the source silently computes a `NaN` coordinate and carries on. The model stops with `NotANumber` instead.
- `Math.pow(x, 0.5)` is the parameter `sqrt`. Only `IsSquareRoot` is assumed of it, and only where a property needs it.
- `count` and `iterations` are naturals, passed explicitly. Negative, fractional or `NaN` arguments, and the default values 10 and 10, are not modelled.
- `KMeans.PickRandomMeans` requires `count <= |data|`. Its only caller ensures this. Larger counts would read past the end of the working copy.
- Object identity is not modelled: clusters, centroids and points are values. The source pushes into cluster objects in place and shares point arrays between `data`, `means` and clusters. Nothing in it mutates a shared point, so values give the same results.
- `Clustering.Members` keeps data order by construction: it is the in-order filter of the data. No separate lemma states the order.
- build/kmeans.js and build/kmeans.d.ts are not part of this model. They are the compiled output and type declarations of src/kmeans.ts.
