/** Pixel-space values shared by the spot detector and the tracker. */
module Geometry {

  /** An OpenCV bounding box: top-left corner (x, y), width w and height h, in whole pixels. */
  datatype Box = Box(x: int, y: int, w: int, h: int) {
    /** The right edge x + w. */
    function Right(): int { x + w }
    /** The bottom edge y + h. */
    function Bottom(): int { y + h }
  }

  /** A point in the image plane with real coordinates (a centroid, the disk centre). */
  datatype Point = Point(x: real, y: real)

  /** The squared Euclidean distance between two points. */
  function SqDist(p: Point, q: Point): real
  {
    (p.x - q.x) * (p.x - q.x) + (p.y - q.y) * (p.y - q.y)
  }

  /** The Euclidean distance from p to q is at most limit, decided on squares (no square root). */
  predicate WithinDistance(p: Point, q: Point, limit: real)
  {
    0.0 <= limit && SqDist(p, q) <= limit * limit
  }

  /** The squared comparison decides exactly `norm(p - q) <= limit` for the true distance d. */
  lemma WithinDistanceIsNorm(p: Point, q: Point, limit: real, d: real)
    requires 0.0 <= d && d * d == SqDist(p, q)
    ensures WithinDistance(p, q, limit) <==> d <= limit
  {
    if d <= limit {
      SquareMono(d, limit);
    } else if 0.0 <= limit {
      SquareStrict(limit, d);
    }
  }

  lemma SquareMono(a: real, b: real)
    requires 0.0 <= a <= b
    ensures a * a <= b * b
  {
    assert a * a <= a * b;
    assert a * b <= b * b;
  }

  lemma SquareStrict(a: real, b: real)
    requires 0.0 <= a < b
    ensures a * a < b * b
  {
    calc {
      a * a;
    <=
      a * b;
    <
      b * b;
    }
  }

  /** Distance is symmetric, so "within distance" does not depend on the order of the points. */
  lemma WithinDistanceSymmetric(p: Point, q: Point, limit: real)
    ensures WithinDistance(p, q, limit) == WithinDistance(q, p, limit)
  {
    assert SqDist(p, q) == SqDist(q, p);
  }
}
