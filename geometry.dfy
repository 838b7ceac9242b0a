/** Points and vectors of 3-space over the reals: the `(x, y, z)` tuples of the
    planner and the position and velocity triples of the simulator. */
module Geometry {

  import opened RealMath

  datatype Point = Point(x: real, y: real, z: real)

  function Add(a: Point, b: Point): Point { Point(a.x + b.x, a.y + b.y, a.z + b.z) }

  function Sub(a: Point, b: Point): Point { Point(a.x - b.x, a.y - b.y, a.z - b.z) }

  function Scale(k: real, a: Point): Point { Point(k * a.x, k * a.y, k * a.z) }

  function Dot(a: Point, b: Point): real { a.x * b.x + a.y * b.y + a.z * b.z }

  /** The squared Euclidean length `x**2 + y**2 + z**2`. */
  function NormSq(a: Point): real
  {
    a.x * a.x + a.y * a.y + a.z * a.z
  }

  lemma NormSqNonNegative(a: Point)
    ensures NormSq(a) >= 0.0
  {
    var xx, yy, zz := a.x * a.x, a.y * a.y, a.z * a.z;
    assert xx >= 0.0 && yy >= 0.0 && zz >= 0.0;
  }

  /** Only the zero vector has squared length zero. */
  lemma NormSqZero(a: Point)
    requires NormSq(a) == 0.0
    ensures a == Point(0.0, 0.0, 0.0)
  {
    var xx, yy, zz := a.x * a.x, a.y * a.y, a.z * a.z;
    assert xx >= 0.0 && yy >= 0.0 && zz >= 0.0;
    SquareZero(a.x);
    SquareZero(a.y);
    SquareZero(a.z);
  }

  /** Every other vector has positive squared length. */
  lemma NormSqPositive(a: Point)
    requires a != Point(0.0, 0.0, 0.0)
    ensures NormSq(a) > 0.0
  {
    NormSqNonNegative(a);
    if NormSq(a) == 0.0 {
      NormSqZero(a);
      assert false;
    }
  }

  /** Scaling a vector by `c` scales its squared length by `c * c`. */
  lemma NormSqScale(c: real, a: Point)
    ensures NormSq(Scale(c, a)) == c * c * NormSq(a)
  {
  }

  /** The dot product is linear in its first argument. */
  lemma DotScale(c: real, a: Point, b: Point)
    ensures Dot(Scale(c, a), b) == c * Dot(a, b)
  {
  }

  /** `|a - k b|^2 = |a|^2 - 2 k (a . b) + k^2 |b|^2`. */
  lemma NormSqSubScale(a: Point, b: Point, k: real)
    ensures NormSq(Sub(a, Scale(k, b))) == NormSq(a) - 2.0 * k * Dot(a, b) + k * k * NormSq(b)
  {
    SquareSubScale(a.x, b.x, k);
    SquareSubScale(a.y, b.y, k);
    SquareSubScale(a.z, b.z, k);
    Distribute3(2.0 * k, a.x * b.x, a.y * b.y, a.z * b.z);
    Distribute3(k * k, b.x * b.x, b.y * b.y, b.z * b.z);
  }

  lemma SquareSubScale(a: real, b: real, k: real)
    ensures (a - k * b) * (a - k * b) == a * a - 2.0 * k * (a * b) + k * k * (b * b)
  {
  }

  lemma Distribute3(k: real, p: real, q: real, r: real)
    ensures k * (p + q + r) == k * p + k * q + k * r
  {
  }
}
