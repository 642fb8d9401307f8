/**
  Points, boxes and the two pieces of coordinate arithmetic of the sampler:
  the origin of the downward ground query and the construction of a disk
  candidate around a seed point. Unity's single-precision floats are modelled
  as reals.
 */
module Geometry {

  /** A position in world space (Unity's Vector3). */
  datatype Point3 = Point3(x: real, y: real, z: real)

  const Zero: Point3 := Point3(0.0, 0.0, 0.0)

  /** The factor by which the ground query lifts its origin (Y_OFFSET_FOR_SAMPLING_RAYCAST). */
  const RaycastLift: real := 1000.0

  function Add(p: Point3, q: Point3): Point3
  {
    Point3(p.x + q.x, p.y + q.y, p.z + q.z)
  }

  function Abs(r: real): real
  {
    if r < 0.0 then -r else r
  }

  /** Squared Euclidean distance; comparing it with a squared radius replaces Vector3.Distance. */
  function SqDist(p: Point3, q: Point3): real
  {
    (p.x - q.x) * (p.x - q.x) + (p.y - q.y) * (p.y - q.y) + (p.z - q.z) * (p.z - q.z)
  }

  /**
    An axis-aligned box given by its center and half-sizes (Unity's Bounds).
    Its faces belong to it.
   */
  datatype Box = Box(center: Point3, extents: Point3) {

    predicate Contains(p: Point3)
    {
      && center.x - extents.x <= p.x <= center.x + extents.x
      && center.y - extents.y <= p.y <= center.y + extents.y
      && center.z - extents.z <= p.z <= center.z + extents.z
    }

    /** The horizontal part of Contains: the point lies above or below the box's footprint. */
    predicate ContainsXZ(p: Point3)
    {
      && center.x - extents.x <= p.x <= center.x + extents.x
      && center.z - extents.z <= p.z <= center.z + extents.z
    }
  }

  /**
    The origin from which the ground is queried: the sum of the ray origin and
    the offset, with its height multiplied by the lift factor and made
    non-negative.
   */
  function RayOrigin(rayOrigin: Point3, offset: Point3): Point3
  {
    var shifted := Add(rayOrigin, offset);
    shifted.(y := Abs(shifted.y * RaycastLift))
  }

  /**
    The query keeps the horizontal position it is asked about and never starts
    below it: its height is non-negative, at least the queried height, and
    strictly above that height's magnitude unless that height is zero.
   */
  lemma RayOriginNotBelow(rayOrigin: Point3, offset: Point3)
    ensures var o := RayOrigin(rayOrigin, offset);
      && o.x == rayOrigin.x + offset.x && o.z == rayOrigin.z + offset.z
      && o.y >= 0.0 && o.y >= rayOrigin.y + offset.y
      && (o.y == 0.0 <==> rayOrigin.y + offset.y == 0.0)
      && (rayOrigin.y + offset.y != 0.0 ==> o.y > Abs(rayOrigin.y + offset.y))
  {
  }

  /** The horizontal offset of a disk candidate from its seed (direction times length). */
  datatype DiskOffset = DiskOffset(dx: real, dz: real)

  /** The offset's length lies in [radius, 2 radius], compared squared. */
  predicate InAnnulus(off: DiskOffset, radius: real)
  {
    radius * radius <= off.dx * off.dx + off.dz * off.dz <= 4.0 * radius * radius
  }

  /** A candidate around a seed point: the seed moved horizontally by the offset. */
  function DiskCandidate(seed: Point3, off: DiskOffset): Point3
  {
    Add(seed, Point3(off.dx, 0.0, off.dz))
  }

  /**
    A disk candidate keeps its seed's height, so its distance to the seed is the
    offset's length; an offset drawn from the annulus puts it between one and
    two radii from the seed.
   */
  lemma CandidateKeepsSeedHeight(seed: Point3, off: DiskOffset, radius: real)
    ensures var c := DiskCandidate(seed, off);
      && c.y == seed.y
      && c.x == seed.x + off.dx && c.z == seed.z + off.dz
      && SqDist(seed, c) == off.dx * off.dx + off.dz * off.dz
      && (InAnnulus(off, radius) ==> radius * radius <= SqDist(seed, c) <= 4.0 * radius * radius)
  {
  }
}
