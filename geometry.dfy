/**
 * Points in space and the volume of the tetrahedron spanned by four of them
 * (`return_tetrahedron_volume` in solution.py).
 *
 * Coordinates are exact reals; the source computes with double-precision floats.
 */
module Geometry {

  /** A loaded record: three coordinates and the integer number associated with the point. */
  datatype Point = Point(x: real, y: real, z: real, number: int)

  /** A displacement between two points. */
  datatype Vector = Vector(x: real, y: real, z: real)

  /** The edge vector from `p` to `q`. */
  function Edge(p: Point, q: Point): Vector
  {
    Vector(q.x - p.x, q.y - p.y, q.z - p.z)
  }

  function Cross(u: Vector, v: Vector): Vector
  {
    Vector(u.y * v.z - u.z * v.y, u.z * v.x - u.x * v.z, u.x * v.y - u.y * v.x)
  }

  function Dot(u: Vector, v: Vector): real
  {
    u.x * v.x + u.y * v.y + u.z * v.z
  }

  function Abs(r: real): (a: real)
    ensures a >= 0.0
    ensures a == r || a == -r
  {
    if r < 0.0 then -r else r
  }

  /**
   * AD . (AB x AC), the signed volume of the parallelepiped on the three edges from `p1`;
   * it vanishes when one of those edges is zero.
   */
  function TripleProduct(p1: Point, p2: Point, p3: Point, p4: Point): (t: real)
    ensures (|| Edge(p1, p2) == Vector(0.0, 0.0, 0.0)
             || Edge(p1, p3) == Vector(0.0, 0.0, 0.0)
             || Edge(p1, p4) == Vector(0.0, 0.0, 0.0)) ==> t == 0.0
  {
    Dot(Edge(p1, p4), Cross(Edge(p1, p2), Edge(p1, p3)))
  }

  /** The volume of the tetrahedron with vertices `p1` .. `p4`; the numbers play no part. */
  function Volume(p1: Point, p2: Point, p3: Point, p4: Point): (v: real)
    ensures v >= 0.0
    ensures v == 0.0 <==> TripleProduct(p1, p2, p3, p4) == 0.0
  {
    Abs(TripleProduct(p1, p2, p3, p4)) / 6.0
  }

  /** Two vertices at the same place give a flat tetrahedron, whichever two they are. */
  lemma CoincidentVerticesGiveZeroVolume(p1: Point, p2: Point, p3: Point, p4: Point)
    requires Edge(p1, p2) == Vector(0.0, 0.0, 0.0) || Edge(p1, p3) == Vector(0.0, 0.0, 0.0)
          || Edge(p1, p4) == Vector(0.0, 0.0, 0.0) || Edge(p2, p3) == Vector(0.0, 0.0, 0.0)
          || Edge(p2, p4) == Vector(0.0, 0.0, 0.0) || Edge(p3, p4) == Vector(0.0, 0.0, 0.0)
    ensures Volume(p1, p2, p3, p4) == 0.0
  {
  }

  /** A fourth vertex in the plane through the first three gives volume zero. */
  lemma CoplanarVerticesGiveZeroVolume(p1: Point, p2: Point, p3: Point, p4: Point, s: real, t: real)
    requires Edge(p1, p4) == Vector(s * Edge(p1, p2).x + t * Edge(p1, p3).x,
                                     s * Edge(p1, p2).y + t * Edge(p1, p3).y,
                                     s * Edge(p1, p2).z + t * Edge(p1, p3).z)
    ensures Volume(p1, p2, p3, p4) == 0.0
  {
  }

  /** Exchanging any two adjacent arguments only flips the sign of the triple product. */
  lemma SwapNegatesTripleProduct(p1: Point, p2: Point, p3: Point, p4: Point)
    ensures TripleProduct(p2, p1, p3, p4) == -TripleProduct(p1, p2, p3, p4)
    ensures TripleProduct(p1, p3, p2, p4) == -TripleProduct(p1, p2, p3, p4)
    ensures TripleProduct(p1, p2, p4, p3) == -TripleProduct(p1, p2, p3, p4)
  {
    SwapFirstNegates(p1, p2, p3, p4);
    SwapMiddleNegates(p1, p2, p3, p4);
    SwapLastNegates(p1, p2, p3, p4);
  }

  lemma SwapFirstNegates(p1: Point, p2: Point, p3: Point, p4: Point)
    ensures TripleProduct(p2, p1, p3, p4) == -TripleProduct(p1, p2, p3, p4)
  {
  }

  lemma SwapMiddleNegates(p1: Point, p2: Point, p3: Point, p4: Point)
    ensures TripleProduct(p1, p3, p2, p4) == -TripleProduct(p1, p2, p3, p4)
  {
  }

  lemma SwapLastNegates(p1: Point, p2: Point, p3: Point, p4: Point)
    ensures TripleProduct(p1, p2, p4, p3) == -TripleProduct(p1, p2, p3, p4)
  {
  }

  /** The volume does not depend on the order of the vertices, so any vertex may serve as the origin. */
  lemma VolumeIsSymmetric(p1: Point, p2: Point, p3: Point, p4: Point)
    ensures Volume(p2, p1, p3, p4) == Volume(p1, p2, p3, p4)
    ensures Volume(p3, p2, p1, p4) == Volume(p1, p2, p3, p4)
    ensures Volume(p4, p2, p3, p1) == Volume(p1, p2, p3, p4)
    ensures Volume(p1, p3, p2, p4) == Volume(p1, p2, p3, p4)
    ensures Volume(p1, p2, p4, p3) == Volume(p1, p2, p3, p4)
  {
    var t := TripleProduct(p1, p2, p3, p4);
    SwapNegatesTripleProduct(p1, p2, p3, p4);
    // (p3, p2, p1, p4) is reached by the adjacent swaps (1 2), (2 3), (1 2)
    SwapNegatesTripleProduct(p2, p1, p3, p4);
    SwapNegatesTripleProduct(p2, p3, p1, p4);
    assert TripleProduct(p3, p2, p1, p4) == -t;
    // (p4, p2, p3, p1) is reached by (3 4), (2 3), (1 2), (2 3), (3 4)
    SwapNegatesTripleProduct(p1, p2, p4, p3);
    SwapNegatesTripleProduct(p1, p4, p2, p3);
    SwapNegatesTripleProduct(p4, p1, p2, p3);
    SwapNegatesTripleProduct(p4, p2, p1, p3);
    assert TripleProduct(p4, p2, p3, p1) == -t;
  }

  /** A corner of an axis-aligned unit cube and its three neighbours span volume 1/6, wherever the corner is. */
  lemma UnitCornerVolume(o: Point, n1: int, n2: int, n3: int)
    ensures Volume(o, Point(o.x + 1.0, o.y, o.z, n1), Point(o.x, o.y + 1.0, o.z, n2), Point(o.x, o.y, o.z + 1.0, n3)) == 1.0 / 6.0
  {
    UnitCornerTripleProduct(o, n1, n2, n3);
  }

  lemma UnitCornerTripleProduct(o: Point, n1: int, n2: int, n3: int)
    ensures TripleProduct(o, Point(o.x + 1.0, o.y, o.z, n1), Point(o.x, o.y + 1.0, o.z, n2), Point(o.x, o.y, o.z + 1.0, n3)) == 1.0
  {
    var p1, p2, p3 := Point(o.x + 1.0, o.y, o.z, n1), Point(o.x, o.y + 1.0, o.z, n2), Point(o.x, o.y, o.z + 1.0, n3);
    assert Edge(o, p1) == Vector(1.0, 0.0, 0.0);
    assert Edge(o, p2) == Vector(0.0, 1.0, 0.0);
    assert Edge(o, p3) == Vector(0.0, 0.0, 1.0);
  }
}
