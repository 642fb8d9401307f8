# Poisson-disk sampling on a surface — a Dafny model

This project models the sampling core of `PoissonDiskSampler`, a Unity
component that scatters points over the ground inside a box collider with a
Bridson-style dart-throwing process. The sampler keeps two lists: the active
points (the work list) and the final points (the append-only result). A batch
repeatedly picks an active point and makes up to `SampleLimit` attempts to
place a new point in the annulus around it. An attempt succeeds when the ground
query hits below the candidate, the candidate is at least `SamplingRadius` from
the final points scanned, and it lies in the bounds. The accepted point is the
candidate moved onto the ground. It joins both lists and gets a spawned marker.
When every attempt fails, the picked point leaves the active list. A batch stops
after 100 accepted points or when the active list is empty.

Layout:

- `optional.dfy` — `Optional.Option`, for failed queries and nullable points.
- `geometry.dfy` — `Geometry`: points, the box, the ground-query origin
  arithmetic and disk candidates.
- `acceptance.dfy` — `Acceptance`: one attempt (`AttemptAt`), the search over
  attempts (`FirstSuccess`, `Search`), `List.Remove` (`IndexOf`, `Remove`), and
  what separation the stored points do and do not get.
- `sampler.dfy` — `Sampler`: the pure model of a run over the three lists
  (`Step`, `Batch`, `Run`) with the invariants every step keeps, and the class
  `Sampler.PoissonDiskSampler` whose fields are the three lists. Its methods
  are seeding, the distance scan, the attempt loop, a batch step, the batch
  loop, clearing and the run, each proved to end in the state the pure model
  gives. `Sampler.RunOnFlatGround` runs a fresh sampler end to end.

Unity services become inputs:

- `Physics.Raycast` against the Ground layer is a function `Surface` from the
  ray origin to the height of the ground below it, if any. It takes the whole
  origin, so it is a generalisation of a height map over (x, z).
- `Random.Range` becomes explicit inputs. `pick(batch, step, n)` is the index
  drawn at a batch's step-th pick and must be below `n`. `draws(batch, step, i)`
  is the horizontal offset of that step's attempt `i`. Inside one batch they are
  `pick(step, n)` and `draws(step, i)`.
- `Bounds.Contains` is a closed axis-aligned box given by center and half-extents.
- `float` becomes `real`. Distances are compared squared against the squared
  radius, which is equivalent because the radius is positive.

What the code guarantees, and what it does not:

- Poisson-disk sampling is meant to leave stored points pairwise at least the
  radius apart and inside the sampled region. Here the distance check and the
  bounds check judge the candidate at its seed's height, BEFORE its y is
  replaced by the ground height (line 107 runs before line 109). So on uneven
  ground the stored points are not guaranteed to be pairwise a radius apart,
  nor to lie inside the bounds. `Acceptance.StoredPointCanBreakSeparation` and
  `Acceptance.StoredPointCanLeaveBounds` give concrete inputs on a ledge-shaped
  ground where this happens.
- What is guaranteed on any ground (`Sampler.GrownFrom`): the final points only
  grow; each new one gets a marker; and each new one is admissible. Admissible
  means some candidate with its x and z had ground at its height below it, was
  at least the radius from every final point the scan read at that step, and lay
  in the bounds. So each new point lies over the box's footprint.
- On flat ground the stored point is its candidate. There every final point is
  on the ground, inside the bounds, at least the radius from every other one,
  and has its marker (`Acceptance.FlatGroundKeepsSeparation`,
  `Sampler.RunOnFlatGround`).
- The seed enters the active list only, never the final points (line 47).
  Accepted points are therefore not checked against the seed.
- The distance scan reads the first `Samples.Count` final points, not all of
  them. The two counts stay equal through seeding and batches.
  `ClearSampledPoints` empties `Samples` and leaves the point lists, after which
  the scan reads nothing and every candidate passes the distance check.
- `ClearSampledPoints` counts with a 16-bit `short`. With more than 32767
  markers the index wraps to -32768 after the first 32768 are destroyed, the
  list access throws, and `Samples.Clear()` is never reached.
- A failed seed query only logs and stops. It is not reported as an error value.

## Model

| member | source | states |
|---|---|---|
| `Geometry.RayOriginNotBelow` | Assets/Scripts/PoissonDiskSampler.cs:177-181 | The query origin keeps x and z of origin + offset. Its height is `abs((origin.y + offset.y) * 1000)`. That height is never negative and never below the queried height. It is zero exactly when the queried height is zero. |
| `Geometry.CandidateKeepsSeedHeight` | Assets/Scripts/PoissonDiskSampler.cs:117-126 | A disk candidate keeps the seed's y and moves x and z by the drawn offset. Its squared distance to the seed is the offset's squared length, so an annulus offset puts it one to two radii from the seed. |
| `Acceptance.AttemptAt` | Assets/Scripts/PoissonDiskSampler.cs:105-112 | One attempt succeeds iff three things hold, all judged on the pre-projection candidate: the ground query hits, every scanned point is at least a radius away, and the box contains it. The sample has the candidate's x and z and the hit height as y, so it lies over the box's footprint. |
| `Acceptance.FirstSuccessFinds` | Assets/Scripts/PoissonDiskSampler.cs:103-114 | The attempt loop with early return (`FirstSuccess`) succeeds iff some attempt below the limit succeeds. Its result is that of the first successful attempt, and all earlier attempts failed. |
| `Acceptance.SearchAccepted` | Assets/Scripts/PoissonDiskSampler.cs:105-111 | An accepted sample comes from an attempt below SampleLimit, and all earlier attempts failed. That candidate had a ground hit, passed the distance and bounds checks on its own coordinates, and the sample is it with y replaced by the hit height. |
| `Acceptance.SearchAdmissible` | Assets/Scripts/PoissonDiskSampler.cs:105-110 | An accepted sample is admissible against the points scanned, and lies over the box's footprint. |
| `Acceptance.AdmissibleOverFootprint` | Assets/Scripts/PoissonDiskSampler.cs:107-109 | An admissible point has the x and z of an in-box candidate, so it lies over the box's footprint. |
| `Acceptance.IndexOf` | Assets/Scripts/PoissonDiskSampler.cs:75 | `List.IndexOf`: -1 iff the value is absent; otherwise the index of its first occurrence. |
| `Acceptance.RemoveAtIndexOf` | Assets/Scripts/PoissonDiskSampler.cs:75 | `List.Remove` leaves a list without the value unchanged, and otherwise cuts out exactly the entry at the value's first index. |
| `Acceptance.RemoveFirst` | Assets/Scripts/PoissonDiskSampler.cs:75 | `List.Remove`: a list without the value is unchanged. Otherwise the first occurrence goes and the rest keep their order; the length drops by one, the multiset loses one copy of the value, and nothing new appears. |
| `Acceptance.FlatGroundKeepsSeparation` | Assets/Scripts/PoissonDiskSampler.cs:107-110 | On ground flat at one level, with the seed on it, an accepted sample is on the ground and inside the box. Appending it to separated scanned points keeps them pairwise a radius apart. |
| `Acceptance.StoredPointCanBreakSeparation` | Assets/Scripts/PoissonDiskSampler.cs:107-110 | Concrete ledge case. The seed and an earlier point are on the ground and a radius apart. A candidate one radius from the seed is accepted, but is stored half a radius from the earlier point. |
| `Acceptance.StoredPointCanLeaveBounds` | Assets/Scripts/PoissonDiskSampler.cs:107-110 | Concrete ledge case. The seed and the candidate are inside the box. The candidate is accepted, and its stored point lies below the box. |
| `Sampler.WrapShort` | Assets/Scripts/PoissonDiskSampler.cs:172 | `short` arithmetic: the result lies in [-32768, 32767] and differs from the exact value by a multiple of 65536. |
| `Sampler.Step` | Assets/Scripts/PoissonDiskSampler.cs:65-75 | One step either appends exactly one final point, keeping the earlier ones, or leaves the final points and markers alone and shortens the active list by one. Markers never outnumber final points. |
| `Sampler.Batch` | Assets/Scripts/PoissonDiskSampler.cs:56-79 | The rest of a batch stops with 100 accepted in all or with the active list empty, and never passes 100. Each accepted point adds one final point. |
| `Sampler.Run` | Assets/Scripts/PoissonDiskSampler.cs:49-53 | Batches run until the active list is empty or the batch bound is reached. The final points never shrink. |
| `Sampler.BatchKeeps` | Assets/Scripts/PoissonDiskSampler.cs:56-79 | Any property of the lists that every step keeps holds at the end of the batch. |
| `Sampler.RunKeeps` | Assets/Scripts/PoissonDiskSampler.cs:49-53 | Any property of the lists that every step keeps holds at the end of the run. |
| `Sampler.AcceptGrows` | Assets/Scripts/PoissonDiskSampler.cs:68-72 | Appending an admissible point to the final points, with its marker, keeps the lists grown from the start: earlier points and markers are kept and every new point is admissible. |
| `Sampler.StepGrows` | Assets/Scripts/PoissonDiskSampler.cs:65-75 | One step keeps the lists grown from the start. |
| `Sampler.GrownOverFootprint` | Assets/Scripts/PoissonDiskSampler.cs:107-109 | Every final point added since the start lies over the box's footprint. |
| `Sampler.StepKeepsFlat` | Assets/Scripts/PoissonDiskSampler.cs:65-75 | On flat ground one step keeps every point on the ground, markers in lockstep with final points, and the final points separated and inside the box. |
| `Sampler.BatchGrows` | Assets/Scripts/PoissonDiskSampler.cs:56-79 | A batch leaves the lists grown from where it started. |
| `Sampler.RunGrows` | Assets/Scripts/PoissonDiskSampler.cs:49-53 | A run leaves the lists grown from where it started. |
| `Sampler.BatchKeepsFlat` | Assets/Scripts/PoissonDiskSampler.cs:56-79 | On flat ground a batch keeps the flat-ground invariant. |
| `Sampler.RunKeepsFlat` | Assets/Scripts/PoissonDiskSampler.cs:49-53 | On flat ground a run keeps the flat-ground invariant. |
| `Sampler.PoissonDiskSampler.constructor` | Assets/Scripts/PoissonDiskSampler.cs:23-24 | A new sampler has empty active points, final points and markers. On flat ground it satisfies the flat-ground invariant. |
| `Sampler.PoissonDiskSampler.Seed` | Assets/Scripts/PoissonDiskSampler.cs:39-47 | The seed is the ground hit below the transform position plus (rx, extents.y, rz). On a miss nothing changes. On a hit it is appended to the active points only; the final points and markers are unchanged. |
| `Sampler.PoissonDiskSampler.PointIsAtAppropriateDistance` | Assets/Scripts/PoissonDiskSampler.cs:128-157 | The running-minimum scan returns true iff each of the first `Samples.Count` final points is at least a radius from the candidate. It is true when there are no markers. |
| `Sampler.PoissonDiskSampler.PointIsValid` | Assets/Scripts/PoissonDiskSampler.cs:100-115 | Returns true iff one of the first SampleLimit attempts succeeds, and then yields that first successful sample. On false it hands back the ref argument unchanged. |
| `Sampler.PoissonDiskSampler.InstantiateAtPoint` | Assets/Scripts/PoissonDiskSampler.cs:81-87 | Appends one marker at the point, and changes nothing else. |
| `Sampler.PoissonDiskSampler.SampleStep` | Assets/Scripts/PoissonDiskSampler.cs:65-75 | The new lists are `Step` of the old ones. On success the same point is appended once each to the final points, the active points and the markers. On failure the first occurrence of the picked point leaves the active points, and the final points and markers are unchanged. |
| `Sampler.PoissonDiskSampler.DoSamplingBatch` | Assets/Scripts/PoissonDiskSampler.cs:56-79 | The new lists and the accepted count are those of `Batch`: at most 100 accepted, stopping at 100 or with the active list empty. The lists are grown from the old ones, so every new final point has its marker, is admissible against the points scanned at its step, and lies over the footprint. The flat-ground invariant is kept at every level. |
| `Sampler.PoissonDiskSampler.ClearSampledPoints` | Assets/Scripts/PoissonDiskSampler.cs:170-175 | With at most 32767 markers it destroys them all and empties the list, after which the scan reads no point. With more, the `short` index wraps after 32768 have been destroyed, the access throws, and the list is left as it was. The point lists never change. |
| `Sampler.PoissonDiskSampler.SamplingCoroutine` | Assets/Scripts/PoissonDiskSampler.cs:36-54 | A missed seed changes nothing. Otherwise the new lists and the batch count are those of `Run` from the seeded lists, ending with the active list empty (or at the batch bound). The lists are grown from the old ones, new points lie over the footprint, and the flat-ground invariant is kept at every level. |
| `Sampler.RunOnFlatGround` | Assets/Scripts/PoissonDiskSampler.cs:26-54 | A fresh sampler on flat ground ends with final points that are on the ground and inside the box, pairwise at least a radius apart, and one marker each. |

## Left out

- Coroutine pacing (`StartCoroutine`, `yield return`, `WaitForSecondsRealtime`, `SpawnSpeed` and the 3-second pause between batches) is scheduling only. The run is a plain loop of batches.
- Sampler.PoissonDiskSampler.SamplingCoroutine: runs at most `maxBatches` batches rather than looping until the active list is empty, because the code does not enforce that the whole run terminates (that depends on randomness and packing).
- Sampler.PoissonDiskSampler.ClearSampledPoints: the exception is reported as a returned flag; how Unity surfaces it to the editor is not modelled.
- `Physics.Raycast`, `LayerMask.GetMask` and `Bounds.Contains` are engine calls; they are an input function and a box predicate.
- `Random.Range` and the trigonometry and normalisation of `GetRandomPointOnDisk` are float numerics. The drawn index and offset are inputs. `InAnnulus` states the intended offset length but is not required of the inputs.
- Float rounding, `Vector3.Distance`'s square root and `float.MaxValue` are not modelled. Reals are compared squared, and the scan's initial maximum is an absent minimum.
- `Debug.Log`, `Debug.DrawRay`, `GameObject.CreatePrimitive`, transform scaling and `DestroyImmediate` are presentation. A marker records only its position.
- `FillSampledPoints` is unused and only spawns markers.
- A `Samples` list filled in the editor before the run is not modelled. The model keeps markers no more numerous than final points, since otherwise the scan would index past the final points and throw.
- The editor ranges of `SamplingRadius` ([0.1, 1]) and `SampleLimit` ([5, 30]) are not required. The model needs only a positive radius.
- The batch counter is an `sbyte` in the source. It never exceeds 100, so it is an unbounded natural here.
- The active list holds `Vector3?` in the source, but never null. It holds points here, and `List.Remove` compares them by value.
