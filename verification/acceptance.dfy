/**
  The acceptance logic of the sampler as values: one candidate attempt, the
  search over up to SampleLimit attempts, the removal of a saturated point
  from the active list, and what the separation test does and does not
  guarantee about the stored points.
 */
module Acceptance {
  import opened Optional
  import opened Geometry

  /**
    The ground query (a downward raycast against the Ground layer): given the
    ray origin, the height of the first surface straight below it, if any.
   */
  type Surface = Point3 -> Option<real>

  /** Queries the ground below rayOrigin + offset; on a hit, the hit point. */
  function TryRayCast(surface: Surface, rayOrigin: Point3, offset: Point3): Option<Point3>
  {
    var o := RayOrigin(rayOrigin, offset);
    match surface(o)
    case None => None
    case Some(h) => Some(Point3(o.x, h, o.z))
  }

  /** Every one of pts is at least radius away from c. */
  predicate AllFar(pts: seq<Point3>, c: Point3, radius: real)
  {
    forall i :: 0 <= i < |pts| ==> SqDist(pts[i], c) >= radius * radius
  }

  /**
    One attempt around seed with the drawn offset: the candidate must have
    ground below it, be far enough from the scanned points and lie in the box,
    the last two judged on the candidate BEFORE its height is replaced; the
    accepted sample is the candidate moved onto the ground.
   */
  function AttemptAt(surface: Surface, box: Box, scanned: seq<Point3>, radius: real,
                     seed: Point3, off: DiskOffset): (r: Option<Point3>)
    ensures var c := DiskCandidate(seed, off);
      r.Some? <==> (surface(RayOrigin(c, Zero)).Some? && AllFar(scanned, c, radius) && box.Contains(c))
    ensures r.Some? ==>
      r.value == Point3(seed.x + off.dx, surface(RayOrigin(DiskCandidate(seed, off), Zero)).value, seed.z + off.dz)
    ensures r.Some? ==> box.ContainsXZ(r.value)
  {
    var c := DiskCandidate(seed, off);
    match TryRayCast(surface, c, Zero)
    case None => None
    case Some(hit) =>
      if AllFar(scanned, c, radius) && box.Contains(c) then Some(c.(y := hit.y)) else None
  }

  /**
    Runs attempts `from` up to (not including) `limit` in order and yields the
    result of the first one that succeeds.
   */
  function FirstSuccess<T>(attempt: nat -> Option<T>, from: nat, limit: nat): Option<T>
    decreases limit - from
  {
    if from >= limit then None
    else if attempt(from).Some? then attempt(from)
    else FirstSuccess(attempt, from + 1, limit)
  }

  /**
    The search succeeds exactly when some attempt below the limit succeeds,
    and then yields the result of the first one, every earlier attempt having
    failed.
   */
  lemma {:induction false} FirstSuccessFinds<T>(attempt: nat -> Option<T>, from: nat, limit: nat)
    ensures var r := FirstSuccess(attempt, from, limit);
      && (r.Some? <==> exists j :: from <= j < limit && attempt(j).Some?)
      && (r.Some? ==>
            exists k :: from <= k < limit && attempt(k) == r && forall j :: from <= j < k ==> attempt(j).None?)
    decreases limit - from
  {
    if from < limit && attempt(from).None? {
      FirstSuccessFinds(attempt, from + 1, limit);
      assert forall j :: from <= j < limit && attempt(j).Some? ==> from + 1 <= j;
    }
  }

  /** The attempts around one seed, numbered by the random draw they use. */
  function Attempts(surface: Surface, box: Box, scanned: seq<Point3>, radius: real,
                    seed: Point3, draws: nat -> DiskOffset): nat -> Option<Point3>
  {
    (j: nat) => AttemptAt(surface, box, scanned, radius, seed, draws(j))
  }

  /** Up to `limit` attempts around seed; the sample of the first that succeeds. */
  function Search(surface: Surface, box: Box, scanned: seq<Point3>, radius: real,
                  seed: Point3, draws: nat -> DiskOffset, limit: nat): Option<Point3>
  {
    FirstSuccess(Attempts(surface, box, scanned, radius, seed, draws), 0, limit)
  }

  /**
    What an accepted sample is: the candidate of some attempt below the limit,
    every earlier attempt having failed, with ground below it, far enough from
    the scanned points and inside the box; the sample keeps the candidate's x
    and z, takes the ground height as y, and so lies over the box's footprint.
   */
  lemma {:induction false} SearchAccepted(surface: Surface, box: Box, scanned: seq<Point3>, radius: real,
                                          seed: Point3, draws: nat -> DiskOffset, limit: nat)
    requires Search(surface, box, scanned, radius, seed, draws, limit).Some?
    ensures var q := Search(surface, box, scanned, radius, seed, draws, limit).value;
      && box.ContainsXZ(q)
      && exists k :: 0 <= k < limit
           && (forall j :: 0 <= j < k ==> AttemptAt(surface, box, scanned, radius, seed, draws(j)).None?)
           && var c := DiskCandidate(seed, draws(k));
              && surface(RayOrigin(c, Zero)) == Some(q.y)
              && q == Point3(c.x, q.y, c.z)
              && AllFar(scanned, c, radius)
              && box.Contains(c)
  {
    var attempt := Attempts(surface, box, scanned, radius, seed, draws);
    FirstSuccessFinds(attempt, 0, limit);
    var q := Search(surface, box, scanned, radius, seed, draws, limit).value;
    var k :| 0 <= k < limit && attempt(k) == Some(q) && forall j :: 0 <= j < k ==> attempt(j).None?;
    assert AttemptAt(surface, box, scanned, radius, seed, draws(k)) == Some(q);
    forall j | 0 <= j < k ensures AttemptAt(surface, box, scanned, radius, seed, draws(j)).None? {
      assert attempt(j).None?;
    }
  }

  /** The index of the first occurrence of x in s, or -1 (List.IndexOf). */
  function IndexOf<T(==)>(s: seq<T>, x: T): (i: int)
    ensures -1 <= i < |s|
    ensures i == -1 <==> x !in s
    ensures 0 <= i ==> s[i] == x && x !in s[..i]
  {
    if s == [] then -1
    else if s[0] == x then 0
    else
      var j := IndexOf(s[1..], x);
      if j < 0 then -1
      else
        assert s[..j + 1] == [s[0]] + s[1..][..j];
        j + 1
  }

  /** Removes the first occurrence of x from s, if there is one (List.Remove). */
  function Remove<T(==)>(s: seq<T>, x: T): seq<T>
  {
    if s == [] then []
    else if s[0] == x then s[1..]
    else [s[0]] + Remove(s[1..], x)
  }

  /** Removal cuts out the element at the index IndexOf finds, if any. */
  lemma {:induction false} RemoveAtIndexOf<T>(s: seq<T>, x: T)
    ensures x !in s ==> Remove(s, x) == s
    ensures x in s ==> Remove(s, x) == s[..IndexOf(s, x)] + s[IndexOf(s, x) + 1..]
  {
    if s != [] && s[0] != x {
      var t := s[1..];
      RemoveAtIndexOf(t, x);
      assert s == [s[0]] + t;
      if x in t {
        var i := IndexOf(t, x);
        assert IndexOf(s, x) == i + 1;
        assert s[..i + 1] == [s[0]] + t[..i];
        assert s[i + 2..] == t[i + 1..];
      }
    }
  }

  /**
    Removal leaves a list without x as it is; otherwise it cuts out exactly the
    first occurrence of x, keeping the order of the rest, so the list has one
    x less and nothing new.
   */
  lemma RemoveFirst<T>(s: seq<T>, x: T)
    ensures x !in s ==> Remove(s, x) == s
    ensures x in s ==>
      exists i :: 0 <= i < |s| && s[i] == x && x !in s[..i] && Remove(s, x) == s[..i] + s[i + 1..]
    ensures |Remove(s, x)| == if x in s then |s| - 1 else |s|
    ensures multiset(Remove(s, x)) == multiset(s) - multiset{x}
    ensures forall y :: y in Remove(s, x) ==> y in s
  {
    RemoveAtIndexOf(s, x);
    if x in s {
      CutOut(s, IndexOf(s, x));
    } else {
      assert multiset(s)[x] == 0;
      assert multiset(s) - multiset{x} == multiset(s);
    }
  }

  /** Cutting out the entry at i takes one s[i] out of the multiset and adds nothing. */
  lemma CutOut<T>(s: seq<T>, i: nat)
    requires i < |s|
    ensures multiset(s[..i] + s[i + 1..]) == multiset(s) - multiset{s[i]}
    ensures forall y :: y in s[..i] + s[i + 1..] ==> y in s
  {
    var r := s[..i] + s[i + 1..];
    assert s == s[..i] + [s[i]] + s[i + 1..];
    assert multiset(s) == multiset(s[..i]) + multiset{s[i]} + multiset(s[i + 1..]);
    assert multiset(r) == multiset(s[..i]) + multiset(s[i + 1..]);
    forall y | y in r ensures y in s {
      assert y in multiset(r);
    }
  }

  /** Any two distinct entries of pts are at least radius apart. */
  ghost predicate Separated(pts: seq<Point3>, radius: real)
  {
    forall i, j :: 0 <= i < j < |pts| ==> SqDist(pts[i], pts[j]) >= radius * radius
  }

  /** The ground is flat at the given level wherever the query hits. */
  ghost predicate FlatAt(surface: Surface, level: real)
  {
    forall o :: surface(o).Some? ==> surface(o).value == level
  }

  ghost predicate AllAt(pts: seq<Point3>, level: real)
  {
    forall p :: p in pts ==> p.y == level
  }

  /**
    q could have been stored against the scanned points: some candidate with
    q's x and z had ground at q's height below it, was at least radius from
    every scanned point and lay in the box.
   */
  ghost predicate Admissible(surface: Surface, box: Box, scanned: seq<Point3>, radius: real, q: Point3)
  {
    exists c: Point3 :: c.x == q.x && c.z == q.z && surface(RayOrigin(c, Zero)) == Some(q.y)
                        && AllFar(scanned, c, radius) && box.Contains(c)
  }

  /** An admissible point lies over the box's footprint. */
  lemma AdmissibleOverFootprint(surface: Surface, box: Box, scanned: seq<Point3>, radius: real, q: Point3)
    requires Admissible(surface, box, scanned, radius, q)
    ensures box.ContainsXZ(q)
  {
    var c: Point3 :| c.x == q.x && c.z == q.z && surface(RayOrigin(c, Zero)) == Some(q.y)
                     && AllFar(scanned, c, radius) && box.Contains(c);
  }

  /**
    Whatever the search accepts is admissible against the points it scanned,
    and so lies over the box's footprint.
   */
  lemma SearchAdmissible(surface: Surface, box: Box, scanned: seq<Point3>, radius: real,
                         seed: Point3, draws: nat -> DiskOffset, limit: nat)
    requires Search(surface, box, scanned, radius, seed, draws, limit).Some?
    ensures var q := Search(surface, box, scanned, radius, seed, draws, limit).value;
      Admissible(surface, box, scanned, radius, q) && box.ContainsXZ(q)
  {
    SearchAccepted(surface, box, scanned, radius, seed, draws, limit);
  }

  /**
    On flat ground, with the seed on the ground, the accepted sample is the
    candidate itself, so the separation checked before projection carries over
    to the stored point: appending it keeps the scanned points separated.
   */
  lemma {:induction false} FlatGroundKeepsSeparation(surface: Surface, box: Box, scanned: seq<Point3>,
                                                     radius: real, seed: Point3, draws: nat -> DiskOffset,
                                                     limit: nat, level: real)
    requires FlatAt(surface, level) && seed.y == level
    requires Separated(scanned, radius)
    requires Search(surface, box, scanned, radius, seed, draws, limit).Some?
    ensures var q := Search(surface, box, scanned, radius, seed, draws, limit).value;
      q.y == level && box.Contains(q) && Separated(scanned + [q], radius)
  {
    var q := Search(surface, box, scanned, radius, seed, draws, limit).value;
    var attempt := Attempts(surface, box, scanned, radius, seed, draws);
    FirstSuccessFinds(attempt, 0, limit);
    var k :| 0 <= k < limit && attempt(k) == Some(q);
    assert AttemptAt(surface, box, scanned, radius, seed, draws(k)) == Some(q);
    var c := DiskCandidate(seed, draws(k));
    assert q == c;
    var all := scanned + [q];
    forall i, j | 0 <= i < j < |all| ensures SqDist(all[i], all[j]) >= radius * radius {
      if j < |scanned| {
        assert all[i] == scanned[i] && all[j] == scanned[j];
      } else {
        assert all[i] == scanned[i] && all[j] == c;
      }
    }
  }

  /** Uneven ground: a ledge at height 5 for x <= 0, the floor at height 0 beyond it. */
  function Ledge(o: Point3): Option<real>
  {
    Some(if o.x <= 0.0 then 5.0 else 0.0)
  }

  // The ledge example below: a seed on the ledge at (-0.5, 5, 0) throws the
  // candidate (0.5, 5, 0) one radius (1.0) over the edge; the floor point
  // (1, 0, 0) was stored earlier.

  lemma LedgeSeedOnGround()
    ensures Ledge(RayOrigin(Point3(-0.5, 5.0, 0.0), Zero)) == Some(5.0)
  {
  }

  lemma LedgeEarlierOnGround()
    ensures Ledge(RayOrigin(Point3(1.0, 0.0, 0.0), Zero)) == Some(0.0)
  {
  }

  lemma LedgeCandidateHitsFloor()
    ensures TryRayCast(Ledge, Point3(0.5, 5.0, 0.0), Zero) == Some(Point3(0.5, 0.0, 0.0))
  {
  }

  lemma LedgeCandidate()
    ensures DiskCandidate(Point3(-0.5, 5.0, 0.0), DiskOffset(1.0, 0.0)) == Point3(0.5, 5.0, 0.0)
  {
  }

  lemma LedgeOffsetInAnnulus()
    ensures InAnnulus(DiskOffset(1.0, 0.0), 1.0)
  {
  }

  lemma LedgeSeedFarFromEarlier()
    ensures SqDist(Point3(-0.5, 5.0, 0.0), Point3(1.0, 0.0, 0.0)) >= 1.0
  {
  }

  lemma LedgeCandidateFarFromEarlier()
    ensures AllFar([Point3(1.0, 0.0, 0.0)], Point3(0.5, 5.0, 0.0), 1.0)
  {
  }

  lemma LedgeStoredNearEarlier()
    ensures SqDist(Point3(0.5, 0.0, 0.0), Point3(1.0, 0.0, 0.0)) < 1.0
  {
  }

  lemma LedgeCandidateInTallBox()
    ensures Box(Point3(0.0, 5.0, 0.0), Point3(10.0, 10.0, 10.0)).Contains(Point3(0.5, 5.0, 0.0))
  {
  }

  lemma LedgeCandidateInFlatBox()
    ensures Box(Point3(0.0, 5.0, 0.0), Point3(10.0, 1.0, 10.0)).Contains(Point3(0.5, 5.0, 0.0))
  {
  }

  lemma LedgeSeedInFlatBox()
    ensures Box(Point3(0.0, 5.0, 0.0), Point3(10.0, 1.0, 10.0)).Contains(Point3(-0.5, 5.0, 0.0))
  {
  }

  lemma LedgeStoredBelowFlatBox()
    ensures !Box(Point3(0.0, 5.0, 0.0), Point3(10.0, 1.0, 10.0)).Contains(Point3(0.5, 0.0, 0.0))
  {
  }

  /** The ledge attempt, accepted against the earlier floor point in the tall box. */
  lemma LedgeAttemptInTallBox()
    ensures AttemptAt(Ledge, Box(Point3(0.0, 5.0, 0.0), Point3(10.0, 10.0, 10.0)), [Point3(1.0, 0.0, 0.0)],
                      1.0, Point3(-0.5, 5.0, 0.0), DiskOffset(1.0, 0.0))
            == Some(Point3(0.5, 0.0, 0.0))
  {
    LedgeCandidate();
    LedgeCandidateHitsFloor();
    LedgeCandidateFarFromEarlier();
    LedgeCandidateInTallBox();
  }

  /** The ledge attempt, accepted with nothing scanned in the flat box. */
  lemma LedgeAttemptInFlatBox()
    ensures AttemptAt(Ledge, Box(Point3(0.0, 5.0, 0.0), Point3(10.0, 1.0, 10.0)), [],
                      1.0, Point3(-0.5, 5.0, 0.0), DiskOffset(1.0, 0.0))
            == Some(Point3(0.5, 0.0, 0.0))
  {
    LedgeCandidate();
    LedgeCandidateHitsFloor();
    LedgeCandidateInFlatBox();
  }

  /**
    The stored point can be closer than the radius to a stored earlier point:
    both the seed and the earlier point lie on the ground and are a radius
    apart, the candidate drawn one radius from the seed passes the separation
    test at the ledge's height, and it is then stored on the floor, half a
    radius from the earlier point.
   */
  lemma StoredPointCanBreakSeparation()
    ensures Ledge(RayOrigin(Point3(-0.5, 5.0, 0.0), Zero)) == Some(5.0)
    ensures Ledge(RayOrigin(Point3(1.0, 0.0, 0.0), Zero)) == Some(0.0)
    ensures SqDist(Point3(-0.5, 5.0, 0.0), Point3(1.0, 0.0, 0.0)) >= 1.0
    ensures InAnnulus(DiskOffset(1.0, 0.0), 1.0)
    ensures AttemptAt(Ledge, Box(Point3(0.0, 5.0, 0.0), Point3(10.0, 10.0, 10.0)), [Point3(1.0, 0.0, 0.0)],
                      1.0, Point3(-0.5, 5.0, 0.0), DiskOffset(1.0, 0.0))
            == Some(Point3(0.5, 0.0, 0.0))
    ensures SqDist(Point3(0.5, 0.0, 0.0), Point3(1.0, 0.0, 0.0)) < 1.0
  {
    LedgeSeedOnGround();
    LedgeEarlierOnGround();
    LedgeSeedFarFromEarlier();
    LedgeOffsetInAnnulus();
    LedgeAttemptInTallBox();
    LedgeStoredNearEarlier();
  }

  /**
    The stored point can lie outside the box: the seed and the candidate are
    inside it at the ledge's height, and projection moves the stored point
    below the box's floor. Only the horizontal containment survives (see
    AttemptAt).
   */
  lemma StoredPointCanLeaveBounds()
    ensures Ledge(RayOrigin(Point3(-0.5, 5.0, 0.0), Zero)) == Some(5.0)
    ensures Box(Point3(0.0, 5.0, 0.0), Point3(10.0, 1.0, 10.0)).Contains(Point3(-0.5, 5.0, 0.0))
    ensures AttemptAt(Ledge, Box(Point3(0.0, 5.0, 0.0), Point3(10.0, 1.0, 10.0)), [],
                      1.0, Point3(-0.5, 5.0, 0.0), DiskOffset(1.0, 0.0))
            == Some(Point3(0.5, 0.0, 0.0))
    ensures !Box(Point3(0.0, 5.0, 0.0), Point3(10.0, 1.0, 10.0)).Contains(Point3(0.5, 0.0, 0.0))
  {
    LedgeSeedOnGround();
    LedgeSeedInFlatBox();
    LedgeAttemptInFlatBox();
    LedgeStoredBelowFlatBox();
  }
}
