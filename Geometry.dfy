/** Axis-aligned boxes and the overlap test that decides bird/pipe collisions. */
module Geometry {
  import opened Config

  /** A box given by its top-left corner and its extent. */
  datatype Rect = Rect(x: real, y: real, width: real, height: real)

  /** The overlap test of the game: all four comparisons are strict. */
  function DetectCollision(a: Rect, b: Rect): (r: bool)
    // two boxes that are both flat in one direction never overlap
    ensures r ==> a.width + b.width > 0.0 && a.height + b.height > 0.0
  {
    a.x < b.x + b.width &&
    a.x + a.width > b.x &&
    a.y < b.y + b.height &&
    a.y + a.height > b.y
  }

  /** The point (px, py) lies strictly inside r. */
  predicate Inside(r: Rect, px: real, py: real)
  {
    r.x < px < r.x + r.width && r.y < py < r.y + r.height
  }

  lemma CollisionSymmetric(a: Rect, b: Rect)
    ensures DetectCollision(a, b) == DetectCollision(b, a)
  {}

  /** Boxes that only touch along an edge do not collide. */
  lemma EdgeContactIsNoCollision(a: Rect, b: Rect)
    requires a.x + a.width == b.x || b.x + b.width == a.x || a.y + a.height == b.y || b.y + b.height == a.y
    ensures !DetectCollision(a, b)
  {}

  /** A box of zero width or zero height never collides with itself. */
  lemma FlatBoxMissesItself(a: Rect)
    requires a.width == 0.0 || a.height == 0.0
    ensures !DetectCollision(a, a)
  {}

  /** A zero-size box strictly inside a larger one does collide with it:
      the strict test excludes edge contact, not degenerate boxes. */
  lemma FlatBoxInsideWideBoxCollides()
    ensures DetectCollision(Rect(5.0, 5.0, 0.0, 0.0), Rect(0.0, 0.0, 10.0, 10.0))
  {}

  /** For boxes of positive size the test is exactly "the open boxes share a point". */
  lemma CollisionIffCommonPoint(a: Rect, b: Rect)
    requires a.width > 0.0 && a.height > 0.0 && b.width > 0.0 && b.height > 0.0
    ensures DetectCollision(a, b) <==> exists px, py :: Inside(a, px, py) && Inside(b, px, py)
  {
    if DetectCollision(a, b) {
      var px := (Max(a.x, b.x) + Min(a.x + a.width, b.x + b.width)) / 2.0;
      var py := (Max(a.y, b.y) + Min(a.y + a.height, b.y + b.height)) / 2.0;
      assert Inside(a, px, py) && Inside(b, px, py);
    }
  }

  /** Two concrete cases: overlapping 20x20 boxes collide; boxes meeting only at a corner do not. */
  lemma CollisionExamples()
    ensures DetectCollision(Rect(10.0, 10.0, 20.0, 20.0), Rect(15.0, 15.0, 20.0, 20.0))
    ensures !DetectCollision(Rect(0.0, 0.0, 10.0, 10.0), Rect(10.0, 10.0, 10.0, 10.0))
  {}
}
