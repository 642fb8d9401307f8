/**
  The sampler component: two point lists and the list of spawned markers,
  updated in place by seeding, by the batch driver and by clearing. Every
  source of randomness is an input: `pick(step, n)` is the index drawn from
  [0, n) for the batch's step-th pick, and `draws(step, i)` is the disk offset
  of that step's i-th attempt.
 */
module Sampler {
  import opened Optional
  import opened Geometry
  import opened Acceptance

  /** The number of accepted points after which one batch yields (BATCH_LIMIT). */
  const BatchLimit: nat := 100

  /** The largest value of a 16-bit signed integer (short.MaxValue). */
  const ShortMax: int := 32767

  /** Two's-complement wrap-around of an integer into the range of a short. */
  function WrapShort(v: int): (w: int)
    ensures -ShortMax - 1 <= w <= ShortMax
    ensures (w - v) % (2 * (ShortMax + 1)) == 0
  {
    (v + ShortMax + 1) % (2 * (ShortMax + 1)) - (ShortMax + 1)
  }

  /** A spawned placeholder object, known only by where it was placed. */
  datatype Marker = Marker(position: Point3)

  /** The settings a run reads and never changes. */
  datatype Config = Config(surface: Surface, bounds: Box, radius: real, sampleLimit: nat)

  /** The three lists a run updates: the active points, the final points and the markers. */
  datatype Lists = Lists(active: seq<Point3>, final: seq<Point3>, markers: seq<Marker>) {

    /** The distance scan reads as many final points as there are markers; they exist. */
    predicate Valid()
    {
      |markers| <= |final|
    }

    /** The final points the distance scan reads. */
    function Scanned(): seq<Point3>
      requires Valid()
    {
      final[..|markers|]
    }
  }

  /** The disk offsets of one step's attempts. */
  function StepDraws(draws: (nat, nat) -> DiskOffset, step: nat): nat -> DiskOffset
  {
    (i: nat) => draws(step, i)
  }

  /**
    One step of a batch on the active point at `index`: on success the sample
    is appended to the active points, the final points and the markers; on
    failure the first occurrence of the picked point leaves the active points.
   */
  function Step(cfg: Config, s: Lists, index: nat, draws: nat -> DiskOffset): (r: Lists)
    requires s.Valid() && index < |s.active|
    ensures r.Valid()
    ensures || (|r.final| == |s.final| + 1 && r.final[..|s.final|] == s.final)
            || (r.final == s.final && r.markers == s.markers && |r.active| == |s.active| - 1)
  {
    var seed := s.active[index];
    match Search(cfg.surface, cfg.bounds, s.Scanned(), cfg.radius, seed, draws, cfg.sampleLimit)
    case Some(p) => Lists(s.active + [p], s.final + [p], s.markers + [Marker(p)])
    case None =>
      RemoveFirst(s.active, seed);
      s.(active := Remove(s.active, seed))
  }

  /**
    The rest of a batch from step `step` with `accepted` points accepted so
    far, and the number accepted at its end: it stops at BatchLimit accepted
    points or when the active list is empty, and every accepted point adds
    one final point.
   */
  function Batch(cfg: Config, s: Lists, pick: (nat, nat) -> nat, draws: (nat, nat) -> DiskOffset,
                 step: nat, accepted: nat): (r: (Lists, nat))
    requires s.Valid() && accepted <= BatchLimit
    requires forall step, n :: 0 < n ==> pick(step, n) < n
    ensures r.0.Valid() && accepted <= r.1 <= BatchLimit
    ensures r.1 == BatchLimit || r.0.active == []
    ensures |r.0.final| == |s.final| + (r.1 - accepted)
    decreases BatchLimit - accepted, |s.active|, 1
  {
    if accepted == BatchLimit || s.active == [] then (s, accepted)
    else BatchOn(cfg, s, pick, draws, step, accepted)
  }

  /** A batch that has not ended: one step, then the rest of the batch. */
  function BatchOn(cfg: Config, s: Lists, pick: (nat, nat) -> nat, draws: (nat, nat) -> DiskOffset,
                   step: nat, accepted: nat): (r: (Lists, nat))
    requires s.Valid() && accepted < BatchLimit && s.active != []
    requires forall step, n :: 0 < n ==> pick(step, n) < n
    ensures r.0.Valid() && accepted <= r.1 <= BatchLimit
    ensures r.1 == BatchLimit || r.0.active == []
    ensures |r.0.final| == |s.final| + (r.1 - accepted)
    decreases BatchLimit - accepted, |s.active|, 0
  {
    var next := Step(cfg, s, pick(step, |s.active|), StepDraws(draws, step));
    if |next.final| == |s.final| then Batch(cfg, next, pick, draws, step + 1, accepted)
    else Batch(cfg, next, pick, draws, step + 1, accepted + 1)
  }

  /** The index draws of one batch. */
  function BatchPick(pick: (nat, nat, nat) -> nat, batch: nat): (p: (nat, nat) -> nat)
    requires forall batch, step, n :: 0 < n ==> pick(batch, step, n) < n
    ensures forall step, n :: 0 < n ==> p(step, n) < n
  {
    (step: nat, n: nat) => pick(batch, step, n)
  }

  /** The disk offsets of one batch. */
  function BatchDraws(draws: (nat, nat, nat) -> DiskOffset, batch: nat): (nat, nat) -> DiskOffset
  {
    (step: nat, i: nat) => draws(batch, step, i)
  }

  /**
    The rest of a run from batch `batch`, and the number of batches at its
    end: batches run while the active list is not empty, at most maxBatches.
   */
  function Run(cfg: Config, s: Lists, pick: (nat, nat, nat) -> nat, draws: (nat, nat, nat) -> DiskOffset,
               batch: nat, maxBatches: nat): (r: (Lists, nat))
    requires s.Valid() && batch <= maxBatches
    requires forall batch, step, n :: 0 < n ==> pick(batch, step, n) < n
    ensures r.0.Valid() && batch <= r.1 <= maxBatches
    ensures r.0.active == [] || r.1 == maxBatches
    ensures |s.final| <= |r.0.final|
    decreases maxBatches - batch
  {
    if s.active == [] || batch == maxBatches then (s, batch)
    else
      var next := Batch(cfg, s, BatchPick(pick, batch), BatchDraws(draws, batch), 0, 0).0;
      Run(cfg, next, pick, draws, batch + 1, maxBatches)
  }

  /** Every step keeps `inv`. */
  ghost predicate StepInvariant(cfg: Config, inv: Lists -> bool)
  {
    forall t: Lists, index: nat, d: nat -> DiskOffset ::
      t.Valid() && index < |t.active| && inv(t) ==> inv(Step(cfg, t, index, d))
  }

  /** A batch that has not ended takes one step and goes on. */
  lemma BatchUnfold(cfg: Config, s: Lists, pick: (nat, nat) -> nat, draws: (nat, nat) -> DiskOffset,
                    step: nat, accepted: nat)
    requires s.Valid() && accepted < BatchLimit && s.active != []
    requires forall step, n :: 0 < n ==> pick(step, n) < n
    ensures var next := Step(cfg, s, pick(step, |s.active|), StepDraws(draws, step));
      Batch(cfg, s, pick, draws, step, accepted)
      == Batch(cfg, next, pick, draws, step + 1, if |next.final| == |s.final| then accepted else accepted + 1)
  {
    assert Batch(cfg, s, pick, draws, step, accepted) == BatchOn(cfg, s, pick, draws, step, accepted);
  }

  /** An invariant every step keeps holds at the end of the rest of a batch. */
  lemma {:induction false} BatchKeeps(cfg: Config, s: Lists, pick: (nat, nat) -> nat,
                                      draws: (nat, nat) -> DiskOffset, step: nat, accepted: nat,
                                      inv: Lists -> bool)
    requires s.Valid() && accepted <= BatchLimit
    requires forall step, n :: 0 < n ==> pick(step, n) < n
    requires StepInvariant(cfg, inv) && inv(s)
    ensures inv(Batch(cfg, s, pick, draws, step, accepted).0)
    decreases BatchLimit - accepted, |s.active|
  {
    if accepted == BatchLimit || s.active == [] {
    } else {
      var next := Step(cfg, s, pick(step, |s.active|), StepDraws(draws, step));
      var more := if |next.final| == |s.final| then accepted else accepted + 1;
      BatchUnfold(cfg, s, pick, draws, step, accepted);
      BatchKeeps(cfg, next, pick, draws, step + 1, more, inv);
    }
  }

  /** An invariant every step keeps holds at the end of the rest of a run. */
  lemma {:induction false} RunKeeps(cfg: Config, s: Lists, pick: (nat, nat, nat) -> nat,
                                    draws: (nat, nat, nat) -> DiskOffset, batch: nat, maxBatches: nat,
                                    inv: Lists -> bool)
    requires s.Valid() && batch <= maxBatches
    requires forall batch, step, n :: 0 < n ==> pick(batch, step, n) < n
    requires StepInvariant(cfg, inv) && inv(s)
    ensures inv(Run(cfg, s, pick, draws, batch, maxBatches).0)
    decreases maxBatches - batch
  {
    if s.active == [] || batch == maxBatches {
    } else {
      BatchKeeps(cfg, s, BatchPick(pick, batch), BatchDraws(draws, batch), 0, 0, inv);
      var next := Batch(cfg, s, BatchPick(pick, batch), BatchDraws(draws, batch), 0, 0).0;
      RunKeeps(cfg, next, pick, draws, batch + 1, maxBatches, inv);
    }
  }

  /**
    Every final point from index `from` on was admissible against the final
    points before it, less the last `lag` of them (the final points that had
    no marker, which the distance scan did not read).
   */
  ghost predicate AllAdmissible(cfg: Config, final: seq<Point3>, from: nat, lag: nat)
    requires lag <= from
  {
    forall i :: from <= i < |final| ==>
      Admissible(cfg.surface, cfg.bounds, final[..i - lag], cfg.radius, final[i])
  }

  /**
    The final points only grew since `start`, and the markers grew with them,
    one marker at each new final point.
   */
  ghost predicate MarkedFrom(start: Lists, final: seq<Point3>, markers: seq<Marker>)
    requires start.Valid()
  {
    var lag := |start.final| - |start.markers|;
    && |start.final| <= |final| && final[..|start.final|] == start.final
    && |markers| == |final| - lag && markers[..|start.markers|] == start.markers
    && forall i :: |start.final| <= i < |final| ==> markers[i - lag] == Marker(final[i])
  }

  /**
    What a run has done to the lists since `start`: the final points only
    grew, each new one got a marker, and each new one was admissible against
    the final points the distance scan read when it was accepted.
   */
  ghost predicate GrownFrom(cfg: Config, start: Lists, s: Lists)
    requires start.Valid()
  {
    && MarkedFrom(start, s.final, s.markers)
    && AllAdmissible(cfg, s.final, |start.final|, |start.final| - |start.markers|)
  }

  /** Nothing has grown yet at the start. */
  lemma GrownFromItself(cfg: Config, s: Lists)
    requires s.Valid()
    ensures GrownFrom(cfg, s, s)
  {
  }

  /** Every new final point lies over the bounds' footprint. */
  lemma GrownOverFootprint(cfg: Config, start: Lists, s: Lists)
    requires start.Valid() && GrownFrom(cfg, start, s)
    ensures forall i :: |start.final| <= i < |s.final| ==> cfg.bounds.ContainsXZ(s.final[i])
  {
    AllAdmissibleOverFootprint(cfg, s.final, |start.final|, |start.final| - |start.markers|);
  }

  /** Admissible final points lie over the bounds' footprint. */
  lemma AllAdmissibleOverFootprint(cfg: Config, final: seq<Point3>, from: nat, lag: nat)
    requires lag <= from && AllAdmissible(cfg, final, from, lag)
    ensures forall i :: from <= i < |final| ==> cfg.bounds.ContainsXZ(final[i])
  {
    forall i | from <= i < |final| ensures cfg.bounds.ContainsXZ(final[i]) {
      AdmissibleOverFootprint(cfg.surface, cfg.bounds, final[..i - lag], cfg.radius, final[i]);
    }
  }

  /** Appending a point admissible against the scanned prefix keeps every point admissible. */
  lemma AdmissibleAppend(cfg: Config, final: seq<Point3>, from: nat, lag: nat, p: Point3)
    requires lag <= from <= |final| && AllAdmissible(cfg, final, from, lag)
    requires Admissible(cfg.surface, cfg.bounds, final[..|final| - lag], cfg.radius, p)
    ensures AllAdmissible(cfg, final + [p], from, lag)
  {
    var r := final + [p];
    forall i | from <= i < |r|
      ensures Admissible(cfg.surface, cfg.bounds, r[..i - lag], cfg.radius, r[i])
    {
      assert r[..i - lag] == final[..i - lag];
      if i == |final| {
        assert r[i] == p;
      } else {
        assert r[i] == final[i];
      }
    }
  }

  /** Appending a final point with its marker keeps the markers in step. */
  lemma AcceptMarks(start: Lists, final: seq<Point3>, markers: seq<Marker>, p: Point3)
    requires start.Valid() && MarkedFrom(start, final, markers)
    ensures MarkedFrom(start, final + [p], markers + [Marker(p)])
  {
    var lag := |start.final| - |start.markers|;
    var final' := final + [p];
    var markers' := markers + [Marker(p)];
    assert final'[..|start.final|] == final[..|start.final|];
    assert markers'[..|start.markers|] == markers[..|start.markers|];
    forall i | |start.final| <= i < |final'| ensures markers'[i - lag] == Marker(final'[i]) {
      if i < |final| {
        assert markers'[i - lag] == markers[i - lag] && final'[i] == final[i];
      }
    }
  }

  /** Appending an admissible final point with its marker keeps the growth since `start`. */
  lemma AcceptGrows(cfg: Config, start: Lists, s: Lists, p: Point3, active: seq<Point3>)
    requires start.Valid() && s.Valid() && GrownFrom(cfg, start, s)
    requires Admissible(cfg.surface, cfg.bounds, s.Scanned(), cfg.radius, p)
    ensures GrownFrom(cfg, start, Lists(active, s.final + [p], s.markers + [Marker(p)]))
  {
    var lag := |start.final| - |start.markers|;
    var r := Lists(active, s.final + [p], s.markers + [Marker(p)]);
    AcceptMarks(start, s.final, s.markers, p);
    assert s.Scanned() == s.final[..|s.final| - lag];
    AdmissibleAppend(cfg, s.final, |start.final|, lag, p);
    assert r.final == s.final + [p] && r.markers == s.markers + [Marker(p)];
  }

  /** One step keeps the growth since `start`. */
  lemma StepGrows(cfg: Config, start: Lists, s: Lists, index: nat, draws: nat -> DiskOffset)
    requires start.Valid() && s.Valid() && index < |s.active|
    requires GrownFrom(cfg, start, s)
    ensures GrownFrom(cfg, start, Step(cfg, s, index, draws))
  {
    var seed := s.active[index];
    var found := Search(cfg.surface, cfg.bounds, s.Scanned(), cfg.radius, seed, draws, cfg.sampleLimit);
    if found.Some? {
      SearchAdmissible(cfg.surface, cfg.bounds, s.Scanned(), cfg.radius, seed, draws, cfg.sampleLimit);
      AcceptGrows(cfg, start, s, found.value, s.active + [found.value]);
    }
  }

  /** Every step keeps the growth since `start`. */
  lemma GrowthIsStepInvariant(cfg: Config, start: Lists)
    requires start.Valid()
    ensures StepInvariant(cfg, (t: Lists) => GrownFrom(cfg, start, t))
  {
    forall t: Lists, index: nat, d: nat -> DiskOffset | t.Valid() && index < |t.active| && GrownFrom(cfg, start, t)
      ensures GrownFrom(cfg, start, Step(cfg, t, index, d))
    {
      StepGrows(cfg, start, t, index, d);
    }
  }

  /**
    On ground flat at `level`: every point is on the ground, the markers and
    the final points are in lockstep, and the final points are separated and
    inside the bounds.
   */
  ghost predicate FlatLists(cfg: Config, s: Lists, level: real)
  {
    && FlatAt(cfg.surface, level)
    && AllAt(s.active, level)
    && AllAt(s.final, level)
    && |s.markers| == |s.final|
    && Separated(s.final, cfg.radius)
    && forall p :: p in s.final ==> cfg.bounds.Contains(p)
  }

  /** One step keeps the flat-ground invariant. */
  lemma StepKeepsFlat(cfg: Config, s: Lists, index: nat, draws: nat -> DiskOffset, level: real)
    requires s.Valid() && index < |s.active| && FlatLists(cfg, s, level)
    ensures FlatLists(cfg, Step(cfg, s, index, draws), level)
  {
    var seed := s.active[index];
    var found := Search(cfg.surface, cfg.bounds, s.Scanned(), cfg.radius, seed, draws, cfg.sampleLimit);
    assert s.Scanned() == s.final;
    if found.Some? {
      FlatGroundKeepsSeparation(cfg.surface, cfg.bounds, s.final, cfg.radius, seed, draws, cfg.sampleLimit, level);
    } else {
      RemoveFirst(s.active, seed);
    }
  }

  /** Every step keeps the flat-ground invariant. */
  lemma FlatIsStepInvariant(cfg: Config, level: real)
    ensures StepInvariant(cfg, (t: Lists) => FlatLists(cfg, t, level))
  {
    forall t: Lists, index: nat, d: nat -> DiskOffset | t.Valid() && index < |t.active| && FlatLists(cfg, t, level)
      ensures FlatLists(cfg, Step(cfg, t, index, d), level)
    {
      StepKeepsFlat(cfg, t, index, d, level);
    }
  }

  /**
    A batch leaves the lists grown from where it started: every point it
    appends to the final points has a marker and was admissible against the
    final points scanned when it was accepted.
   */
  lemma BatchGrows(cfg: Config, s: Lists, pick: (nat, nat) -> nat, draws: (nat, nat) -> DiskOffset)
    requires s.Valid()
    requires forall step, n :: 0 < n ==> pick(step, n) < n
    ensures GrownFrom(cfg, s, Batch(cfg, s, pick, draws, 0, 0).0)
  {
    GrownFromItself(cfg, s);
    GrowthIsStepInvariant(cfg, s);
    BatchKeeps(cfg, s, pick, draws, 0, 0, (t: Lists) => GrownFrom(cfg, s, t));
  }

  /** A run from `start` leaves the lists grown from `start`. */
  lemma RunGrows(cfg: Config, start: Lists, s: Lists, pick: (nat, nat, nat) -> nat,
                 draws: (nat, nat, nat) -> DiskOffset, maxBatches: nat)
    requires start.Valid() && s.Valid() && GrownFrom(cfg, start, s)
    requires forall batch, step, n :: 0 < n ==> pick(batch, step, n) < n
    ensures GrownFrom(cfg, start, Run(cfg, s, pick, draws, 0, maxBatches).0)
  {
    GrowthIsStepInvariant(cfg, start);
    RunKeeps(cfg, s, pick, draws, 0, maxBatches, (t: Lists) => GrownFrom(cfg, start, t));
  }

  /** On flat ground a batch keeps the flat-ground invariant. */
  lemma BatchKeepsFlat(cfg: Config, s: Lists, pick: (nat, nat) -> nat, draws: (nat, nat) -> DiskOffset,
                       level: real)
    requires s.Valid() && FlatLists(cfg, s, level)
    requires forall step, n :: 0 < n ==> pick(step, n) < n
    ensures FlatLists(cfg, Batch(cfg, s, pick, draws, 0, 0).0, level)
  {
    FlatIsStepInvariant(cfg, level);
    BatchKeeps(cfg, s, pick, draws, 0, 0, (t: Lists) => FlatLists(cfg, t, level));
  }

  /** One step of a batch loop that has not stopped keeps it on Batch's course. */
  lemma BatchStepped(cfg: Config, s0: Lists, s: Lists, next: Lists, pick: (nat, nat) -> nat,
                     draws: (nat, nat) -> DiskOffset, step: nat, accepted: nat)
    requires s0.Valid() && s.Valid() && accepted < BatchLimit && s.active != []
    requires forall step, n :: 0 < n ==> pick(step, n) < n
    requires next == Step(cfg, s, pick(step, |s.active|), StepDraws(draws, step))
    requires Batch(cfg, s0, pick, draws, 0, 0) == Batch(cfg, s, pick, draws, step, accepted)
    ensures |next.final| == |s.final| ==> |next.active| < |s.active|
    ensures Batch(cfg, s0, pick, draws, 0, 0)
      == Batch(cfg, next, pick, draws, step + 1, if |next.final| == |s.final| then accepted else accepted + 1)
  {
    BatchUnfold(cfg, s, pick, draws, step, accepted);
  }

  /** A batch loop that has stopped where Batch from `s0` leads is at Batch's result. */
  lemma BatchDone(cfg: Config, s0: Lists, s: Lists, pick: (nat, nat) -> nat, draws: (nat, nat) -> DiskOffset,
                  step: nat, accepted: nat)
    requires s0.Valid() && s.Valid() && accepted <= BatchLimit
    requires forall step, n :: 0 < n ==> pick(step, n) < n
    requires accepted == BatchLimit || s.active == []
    requires Batch(cfg, s0, pick, draws, 0, 0) == Batch(cfg, s, pick, draws, step, accepted)
    ensures (s, accepted) == Batch(cfg, s0, pick, draws, 0, 0)
  {
  }

  /** Wherever the ground is flat and the lists start flat, a batch keeps them flat. */
  lemma BatchKeepsFlatEverywhere(cfg: Config, s: Lists, pick: (nat, nat) -> nat, draws: (nat, nat) -> DiskOffset)
    requires s.Valid()
    requires forall step, n :: 0 < n ==> pick(step, n) < n
    ensures forall level :: FlatLists(cfg, s, level) ==> FlatLists(cfg, Batch(cfg, s, pick, draws, 0, 0).0, level)
  {
    forall level | FlatLists(cfg, s, level)
      ensures FlatLists(cfg, Batch(cfg, s, pick, draws, 0, 0).0, level)
    {
      BatchKeepsFlat(cfg, s, pick, draws, level);
    }
  }

  /** One batch of a run that has not stopped keeps it on Run's course. */
  lemma RunStepped(cfg: Config, s0: Lists, s: Lists, next: Lists, pick: (nat, nat, nat) -> nat,
                   draws: (nat, nat, nat) -> DiskOffset, batches: nat, maxBatches: nat)
    requires s0.Valid() && s.Valid() && batches < maxBatches && s.active != []
    requires forall batch, step, n :: 0 < n ==> pick(batch, step, n) < n
    requires next == Batch(cfg, s, BatchPick(pick, batches), BatchDraws(draws, batches), 0, 0).0
    requires Run(cfg, s0, pick, draws, 0, maxBatches) == Run(cfg, s, pick, draws, batches, maxBatches)
    ensures Run(cfg, s0, pick, draws, 0, maxBatches) == Run(cfg, next, pick, draws, batches + 1, maxBatches)
  {
  }

  /** A run that has stopped where Run from `s0` leads is at Run's result. */
  lemma RunDone(cfg: Config, s0: Lists, s: Lists, pick: (nat, nat, nat) -> nat,
                draws: (nat, nat, nat) -> DiskOffset, batches: nat, maxBatches: nat)
    requires s0.Valid() && s.Valid() && batches <= maxBatches
    requires forall batch, step, n :: 0 < n ==> pick(batch, step, n) < n
    requires s.active == [] || batches == maxBatches
    requires Run(cfg, s0, pick, draws, 0, maxBatches) == Run(cfg, s, pick, draws, batches, maxBatches)
    ensures (s, batches) == Run(cfg, s0, pick, draws, 0, maxBatches)
  {
  }

  /** Wherever the ground is flat and the lists start flat, a run keeps them flat. */
  lemma RunKeepsFlatEverywhere(cfg: Config, s: Lists, pick: (nat, nat, nat) -> nat,
                               draws: (nat, nat, nat) -> DiskOffset, maxBatches: nat)
    requires s.Valid()
    requires forall batch, step, n :: 0 < n ==> pick(batch, step, n) < n
    ensures forall level :: FlatLists(cfg, s, level) ==> FlatLists(cfg, Run(cfg, s, pick, draws, 0, maxBatches).0, level)
  {
    forall level | FlatLists(cfg, s, level)
      ensures FlatLists(cfg, Run(cfg, s, pick, draws, 0, maxBatches).0, level)
    {
      RunKeepsFlat(cfg, s, pick, draws, maxBatches, level);
    }
  }

  /** On flat ground a run keeps the flat-ground invariant. */
  lemma RunKeepsFlat(cfg: Config, s: Lists, pick: (nat, nat, nat) -> nat,
                     draws: (nat, nat, nat) -> DiskOffset, maxBatches: nat, level: real)
    requires s.Valid() && FlatLists(cfg, s, level)
    requires forall batch, step, n :: 0 < n ==> pick(batch, step, n) < n
    ensures FlatLists(cfg, Run(cfg, s, pick, draws, 0, maxBatches).0, level)
  {
    FlatIsStepInvariant(cfg, level);
    RunKeeps(cfg, s, pick, draws, 0, maxBatches, (t: Lists) => FlatLists(cfg, t, level));
  }

  class PoissonDiskSampler {
    /** The ground query (Physics.Raycast against the Ground layer). */
    const surface: Surface
    /** The collider's bounds. */
    const bounds: Box
    /** The component's transform position, the origin of the seed query. */
    const position: Point3
    const radius: real
    const sampleLimit: nat

    /** The spawned markers (Samples). */
    var samples: seq<Marker>
    /** The work list (_activePoints). */
    var activePoints: seq<Point3>
    /** The append-only result list (_finalPoints). */
    var finalPoints: seq<Point3>

    /** The settings, as the pure model of a run reads them. */
    ghost function Cfg(): Config
    {
      Config(surface, bounds, radius, sampleLimit)
    }

    /** The three lists, as the pure model of a run reads them. */
    ghost function State(): Lists
      reads this
    {
      Lists(activePoints, finalPoints, samples)
    }

    /**
      The radius is positive, and the distance scan, which reads as many of
      the final points as there are markers, stays within the final points.
     */
    ghost predicate Valid()
      reads this
    {
      radius > 0.0 && State().Valid()
    }

    /** The final points the distance scan reads. */
    ghost function Scanned(): seq<Point3>
      reads this
      requires Valid()
    {
      finalPoints[..|samples|]
    }

    /** The flat-ground invariant of the current lists. */
    ghost predicate FlatRun(level: real)
      reads this
    {
      FlatLists(Cfg(), State(), level)
    }

    constructor (surface: Surface, bounds: Box, position: Point3, radius: real, sampleLimit: nat)
      requires radius > 0.0
      ensures Valid()
      ensures this.surface == surface && this.bounds == bounds && this.position == position
      ensures this.radius == radius && this.sampleLimit == sampleLimit
      ensures activePoints == [] && finalPoints == [] && samples == []
      ensures forall level :: FlatAt(surface, level) ==> FlatRun(level)
    {
      this.surface := surface;
      this.bounds := bounds;
      this.position := position;
      this.radius := radius;
      this.sampleLimit := sampleLimit;
      samples := [];
      activePoints := [];
      finalPoints := [];
    }

    /**
      Seeding: the ground below the transform position offset by (rx, the
      bounds' half-height, rz), where rx and rz are drawn from [0, extents.x]
      and [0, extents.z]. On a hit the hit point joins the active list only;
      on a miss nothing changes.
     */
    method Seed(rx: real, rz: real) returns (seeded: bool)
      requires Valid()
      modifies this`activePoints
      ensures Valid()
      ensures var hit := TryRayCast(surface, position, Point3(rx, bounds.extents.y, rz));
        && seeded == hit.Some?
        && activePoints == (if seeded then old(activePoints) + [hit.value] else old(activePoints))
      ensures finalPoints == old(finalPoints) && samples == old(samples)
    {
      var hit := TryRayCast(surface, position, Point3(rx, bounds.extents.y, rz));
      if hit.None? {
        return false;
      }
      activePoints := activePoints + [hit.value];
      seeded := true;
    }

    /**
      The linear distance scan over the first |samples| final points: true
      exactly when each of them is at least the radius away from the candidate,
      so always true when there are no markers. The running minimum starts above
      every distance (float.MaxValue in the source).
     */
    method PointIsAtAppropriateDistance(candidate: Point3) returns (ok: bool)
      requires Valid()
      ensures ok <==> AllFar(Scanned(), candidate, radius)
      ensures samples == [] ==> ok
    {
      var minimal: Option<real> := None;
      ghost var nearest: nat := 0;
      for i := 0 to |samples|
        invariant minimal.None? ==> i == 0
        invariant minimal.Some? ==> nearest < i && minimal.value == SqDist(finalPoints[nearest], candidate)
        invariant forall j :: 0 <= j < i ==> minimal.Some? && minimal.value <= SqDist(finalPoints[j], candidate)
      {
        var d := SqDist(finalPoints[i], candidate);
        if minimal.None? || d < minimal.value {
          minimal := Some(d);
          nearest := i;
        }
      }
      ok := minimal.None? || minimal.value >= radius * radius;
    }

    /**
      Up to sampleLimit attempts around seed: the first candidate that has
      ground below it and passes the distance and bounds checks (both on its
      pre-projection coordinates) is returned moved onto the ground; when none
      does, `previous` is returned untouched (the source's ref parameter).
     */
    method PointIsValid(seed: Point3, previous: Point3, draws: nat -> DiskOffset) returns (ok: bool, sample: Point3)
      requires Valid()
      ensures var found := Search(surface, bounds, Scanned(), radius, seed, draws, sampleLimit);
        ok == found.Some? && sample == (if ok then found.value else previous)
    {
      ghost var attempt := Attempts(surface, bounds, Scanned(), radius, seed, draws);
      for i := 0 to sampleLimit
        invariant FirstSuccess(attempt, 0, sampleLimit) == FirstSuccess(attempt, i, sampleLimit)
      {
        var neighbour := DiskCandidate(seed, draws(i));
        var hit := TryRayCast(surface, neighbour, Zero);
        if hit.None? {
          continue;
        }
        var far := PointIsAtAppropriateDistance(neighbour);
        if far && bounds.Contains(neighbour) {
          assert attempt(i) == Some(neighbour.(y := hit.value.y));
          return true, neighbour.(y := hit.value.y);
        }
      }
      return false, previous;
    }

    /** Spawns a marker at the point (InstantiateAtPoint). */
    method InstantiateAtPoint(point: Point3)
      modifies this`samples
      ensures samples == old(samples) + [Marker(point)]
    {
      samples := samples + [Marker(point)];
    }

    /**
      One step of a batch, on the active point at `index`: on success the
      accepted point is appended to the final points, the active points and
      the markers; on failure the first occurrence of the picked point leaves
      the active list and nothing else changes. This is the transition Step.
     */
    method SampleStep(index: nat, draws: nat -> DiskOffset) returns (accepted: bool, point: Point3)
      requires Valid() && index < |activePoints|
      modifies this`activePoints, this`finalPoints, this`samples
      ensures Valid()
      ensures State() == Step(Cfg(), old(State()), index, draws)
      ensures var seed := old(activePoints)[index];
        var found := Search(surface, bounds, old(Scanned()), radius, seed, draws, sampleLimit);
        && accepted == found.Some?
        && (accepted ==> && point == found.value
                         && finalPoints == old(finalPoints) + [point]
                         && activePoints == old(activePoints) + [point]
                         && samples == old(samples) + [Marker(point)])
        && (!accepted ==> && finalPoints == old(finalPoints)
                          && samples == old(samples)
                          && activePoints == Remove(old(activePoints), seed))
    {
      var sampled := activePoints[index];
      accepted, point := PointIsValid(sampled, Zero, draws);
      if accepted {
        finalPoints := finalPoints + [point];
        activePoints := activePoints + [point];
        InstantiateAtPoint(point);
      } else {
        activePoints := Remove(activePoints, sampled);
      }
    }

    /**
      One batch: steps until BatchLimit points have been accepted or the
      active list is empty. The new lists and the count are those of Batch;
      so every new final point has a marker and was admissible against the
      final points scanned when it was accepted, and on flat ground the
      flat-ground invariant is kept.
     */
    method DoSamplingBatch(pick: (nat, nat) -> nat, draws: (nat, nat) -> DiskOffset) returns (accepted: nat)
      requires Valid()
      requires forall step, n :: 0 < n ==> pick(step, n) < n
      modifies this`activePoints, this`finalPoints, this`samples
      ensures Valid()
      ensures (State(), accepted) == Batch(Cfg(), old(State()), pick, draws, 0, 0)
      ensures accepted <= BatchLimit && (accepted == BatchLimit || activePoints == [])
      ensures |finalPoints| == |old(finalPoints)| + accepted
      ensures GrownFrom(Cfg(), old(State()), State())
      ensures forall i :: |old(finalPoints)| <= i < |finalPoints| ==> bounds.ContainsXZ(finalPoints[i])
      ensures forall level :: old(FlatRun(level)) ==> FlatRun(level)
    {
      accepted := 0;
      var step: nat := 0;
      while accepted < BatchLimit && |activePoints| > 0
        invariant Valid() && accepted <= BatchLimit
        invariant Batch(Cfg(), old(State()), pick, draws, 0, 0) == Batch(Cfg(), State(), pick, draws, step, accepted)
        decreases BatchLimit - accepted, |activePoints|
      {
        ghost var before := State();
        var index := pick(step, |activePoints|);
        var ok, point := SampleStep(index, StepDraws(draws, step));
        BatchStepped(Cfg(), old(State()), before, State(), pick, draws, step, accepted);
        if ok {
          accepted := accepted + 1;
        }
        step := step + 1;
      }
      BatchDone(Cfg(), old(State()), State(), pick, draws, step, accepted);
      BatchGrows(Cfg(), old(State()), pick, draws);
      GrownOverFootprint(Cfg(), old(State()), State());
      BatchKeepsFlatEverywhere(Cfg(), old(State()), pick, draws);
    }

    /**
      Removes every marker (ClearSampledPoints). The loop index is a 16-bit
      short: with more than ShortMax markers it wraps to -32768 after
      destroying the first ShortMax + 1 of them, indexing the list there
      throws, and the list is not cleared. Returns whether it threw and how
      many markers were destroyed; both point lists are left as they are.
     */
    method ClearSampledPoints() returns (threw: bool, destroyed: nat)
      requires Valid()
      modifies this`samples
      ensures Valid()
      ensures threw <==> |old(samples)| > ShortMax
      ensures destroyed == if threw then ShortMax + 1 else |old(samples)|
      ensures !threw ==> samples == [] && Scanned() == []
      ensures threw ==> samples == old(samples)
      ensures finalPoints == old(finalPoints) && activePoints == old(activePoints)
    {
      var i: int := 0;
      destroyed := 0;
      while i < |samples|
        invariant -ShortMax - 1 <= i <= ShortMax
        invariant 0 <= i ==> destroyed == i && i <= |samples|
        invariant i < 0 ==> i == -ShortMax - 1 && destroyed == ShortMax + 1 && |samples| > ShortMax
        decreases if i < 0 then 0 else ShortMax + 2 - i
      {
        if i < 0 {
          // Samples[i] with a negative index throws before Samples.Clear().
          return true, destroyed;
        }
        destroyed := destroyed + 1;
        i := WrapShort(i + 1);
      }
      samples := [];
      threw := false;
    }

    /**
      A sampling run: seed, then run batches while the active list is not
      empty, here at most maxBatches of them. A failed seed changes nothing;
      otherwise the new lists and the batch count are those of Run from the
      seeded lists, so every new final point has a marker and was admissible
      when it was accepted, and on flat ground the flat-ground invariant is
      kept.
     */
    method SamplingCoroutine(rx: real, rz: real, pick: (nat, nat, nat) -> nat,
                             draws: (nat, nat, nat) -> DiskOffset, maxBatches: nat)
      returns (seeded: bool, batches: nat)
      requires Valid()
      requires forall batch, step, n :: 0 < n ==> pick(batch, step, n) < n
      modifies this`activePoints, this`finalPoints, this`samples
      ensures Valid()
      ensures var hit := TryRayCast(surface, position, Point3(rx, bounds.extents.y, rz));
        && seeded == hit.Some?
        && (!seeded ==> State() == old(State()) && batches == 0)
        && (seeded ==> (State(), batches)
                       == Run(Cfg(), old(State()).(active := old(activePoints) + [hit.value]), pick, draws, 0, maxBatches))
      ensures seeded ==> batches <= maxBatches && (activePoints == [] || batches == maxBatches)
      ensures GrownFrom(Cfg(), old(State()), State())
      ensures forall i :: |old(finalPoints)| <= i < |finalPoints| ==> bounds.ContainsXZ(finalPoints[i])
      ensures forall level :: old(FlatRun(level)) ==> FlatRun(level)
    {
      batches := 0;
      seeded := Seed(rx, rz);
      GrownFromItself(Cfg(), old(State()));
      if !seeded {
        return;
      }
      ghost var start := State();
      while |activePoints| > 0 && batches < maxBatches
        invariant Valid() && batches <= maxBatches
        invariant Run(Cfg(), start, pick, draws, 0, maxBatches) == Run(Cfg(), State(), pick, draws, batches, maxBatches)
        decreases maxBatches - batches
      {
        ghost var before := State();
        var accepted := DoSamplingBatch(BatchPick(pick, batches), BatchDraws(draws, batches));
        RunStepped(Cfg(), start, before, State(), pick, draws, batches, maxBatches);
        batches := batches + 1;
      }
      RunDone(Cfg(), start, State(), pick, draws, batches, maxBatches);
      RunGrows(Cfg(), old(State()), start, pick, draws, maxBatches);
      GrownOverFootprint(Cfg(), old(State()), State());
      RunKeepsFlatEverywhere(Cfg(), start, pick, draws, maxBatches);
    }
  }

  /**
    A fresh sampler run to the end of its batches on ground flat at `level`
    (the component's Start): every final point is on the ground, inside the
    bounds, and at least the radius away from every other one, with one
    marker each.
   */
  method RunOnFlatGround(surface: Surface, bounds: Box, position: Point3, radius: real, sampleLimit: nat,
                         rx: real, rz: real, pick: (nat, nat, nat) -> nat,
                         draws: (nat, nat, nat) -> DiskOffset, maxBatches: nat, ghost level: real)
    returns (sampler: PoissonDiskSampler)
    requires radius > 0.0 && FlatAt(surface, level)
    requires forall batch, step, n :: 0 < n ==> pick(batch, step, n) < n
    ensures fresh(sampler) && sampler.Valid()
    ensures Separated(sampler.finalPoints, radius) && AllAt(sampler.finalPoints, level)
    ensures forall p :: p in sampler.finalPoints ==> bounds.Contains(p)
    ensures |sampler.samples| == |sampler.finalPoints|
  {
    sampler := new PoissonDiskSampler(surface, bounds, position, radius, sampleLimit);
    var seeded, batches := sampler.SamplingCoroutine(rx, rz, pick, draws, maxBatches);
  }
}
