/** Axis-aligned rectangles and the open-interval overlap test used for every collision. */
module Geometry {

  datatype Rect = Rect(x: real, y: real, width: real, height: real)

  /** The overlap test: strict comparisons, so rectangles that only share an edge do not collide. */
  predicate IsColliding(a: Rect, b: Rect)
  {
    a.x < b.x + b.width &&
    a.x + a.width > b.x &&
    a.y < b.y + b.height &&
    a.y + a.height > b.y
  }

  /** A point lies strictly inside a rectangle. */
  ghost predicate Inside(a: Rect, px: real, py: real)
  {
    a.x < px < a.x + a.width && a.y < py < a.y + a.height
  }

  function Max(a: real, b: real): real { if a < b then b else a }
  function Min(a: real, b: real): real { if a < b then a else b }

  /** Swapping the two arguments never changes the verdict. */
  lemma CollidingIsSymmetric(a: Rect, b: Rect)
    ensures IsColliding(a, b) <==> IsColliding(b, a)
  {
  }

  /** Rectangles that meet along an edge (left/right or top/bottom) do not collide. */
  lemma TouchingEdgesDoNotCollide(a: Rect, b: Rect)
    requires a.x + a.width == b.x || b.x + b.width == a.x || a.y + a.height == b.y || b.y + b.height == a.y
    ensures !IsColliding(a, b)
  {
  }

  /**
   * For rectangles of positive size the test agrees with the geometric definition:
   * they collide exactly when some point lies strictly inside both.
   */
  lemma CollidingMeansCommonInteriorPoint(a: Rect, b: Rect)
    requires a.width > 0.0 && a.height > 0.0 && b.width > 0.0 && b.height > 0.0
    ensures IsColliding(a, b) <==> exists px, py :: Inside(a, px, py) && Inside(b, px, py)
  {
    if IsColliding(a, b) {
      var px := (Max(a.x, b.x) + Min(a.x + a.width, b.x + b.width)) / 2.0;
      var py := (Max(a.y, b.y) + Min(a.y + a.height, b.y + b.height)) / 2.0;
      assert Inside(a, px, py) && Inside(b, px, py);
    }
  }

  /** The two sample cases: overlapping squares collide, squares sharing an edge do not. */
  lemma OverlapSamples()
    ensures IsColliding(Rect(0.0, 0.0, 10.0, 10.0), Rect(5.0, 5.0, 10.0, 10.0))
    ensures !IsColliding(Rect(0.0, 0.0, 10.0, 10.0), Rect(10.0, 0.0, 10.0, 10.0))
  {
  }
}
