/**
 * Cartesian coordinates and the distance test of bond detection.
 * Euclidean lengths involve a square root, so the model keeps squared
 * lengths and compares them with the squared threshold.
 */
module Geometry {

  datatype Coordinates = Coordinates(x: real, y: real, z: real)

  function Minus(a: Coordinates, b: Coordinates): Coordinates {
    Coordinates(a.x - b.x, a.y - b.y, a.z - b.z)
  }

  /** The square of norm(). */
  function SqNorm(c: Coordinates): (n: real)
    ensures n >= 0.0
  {
    c.x * c.x + c.y * c.y + c.z * c.z
  }

  /** The square of calculate_distance(). */
  function SqDistance(a: Coordinates, b: Coordinates): real {
    SqNorm(Minus(a, b))
  }

  /** calculate_distance(a, b) <= threshold, stated on squares. */
  predicate WithinThreshold(a: Coordinates, b: Coordinates, threshold: real) {
    0.0 <= threshold && SqDistance(a, b) <= threshold * threshold
  }

  /** For a non-negative distance d, the test d <= t and the squared test agree,
      so WithinThreshold decides the source's comparison exactly. */
  lemma SquaredTestExact(d: real, t: real)
    requires d >= 0.0
    ensures d <= t <==> (0.0 <= t && d * d <= t * t)
  {
    if 0.0 <= t && d > t {
      var u, v := d - t, d + t;
      assert u * v > 0.0;
      assert d * d - t * t == u * v;
    }
    if d <= t {
      assert t * t - d * d == (t - d) * (t + d);
    }
  }

  /** The test does not depend on the order of the two atoms. */
  lemma WithinThresholdSymmetric(a: Coordinates, b: Coordinates, threshold: real)
    ensures WithinThreshold(a, b, threshold) == WithinThreshold(b, a, threshold)
  {
    assert SqDistance(a, b) == SqDistance(b, a);
  }

  /** The threshold is inclusive: atoms exactly `threshold` apart pass. */
  lemma ThresholdInclusive(a: Coordinates, b: Coordinates, threshold: real)
    requires 0.0 <= threshold
    requires SqDistance(a, b) == threshold * threshold
    ensures WithinThreshold(a, b, threshold)
  {
  }
}
