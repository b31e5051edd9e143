/**
  Axis-aligned bounding boxes and the overlap test that every collision in
  the game uses: ball against paddle and power-up against ball.
 */
module Geometry {

  /** A rectangle given by its top-left corner and its (non-negative) extent.
      Field coordinates: x grows to the right, y grows towards the paddle's edge. */
  datatype Box = Box(left: real, top: real, width: real, height: real)
  {
    function Right(): real { left + width }
    function Bottom(): real { top + height }
  }

  /** The point (px, py) lies in the closed rectangle `b`. */
  predicate Contains(b: Box, px: real, py: real)
  {
    b.left <= px <= b.Right() && b.top <= py <= b.Bottom()
  }

  /** The collision test: the boxes are separated only when one lies strictly
      to one side of the other on some axis, so edges that touch collide.
      Boxes sharing a point always collide, whatever their sizes. */
  predicate Overlaps(a: Box, b: Box): (r: bool)
    ensures (exists px, py :: Contains(a, px, py) && Contains(b, px, py)) ==> r
  {
    if a.Right() < b.left || b.Right() < a.left then false
    else if a.Bottom() < b.top || b.Bottom() < a.top then false
    else true
  }

  /** For boxes of non-negative size the test is exactly "the two closed
      rectangles share a point", in both directions. */
  lemma OverlapsIffCommonPoint(a: Box, b: Box)
    requires a.width >= 0.0 && a.height >= 0.0
    requires b.width >= 0.0 && b.height >= 0.0
    ensures Overlaps(a, b) <==> exists px, py :: Contains(a, px, py) && Contains(b, px, py)
  {
    if Overlaps(a, b) {
      var px := if a.left <= b.left then b.left else a.left;
      var py := if a.top <= b.top then b.top else a.top;
      assert Contains(a, px, py) && Contains(b, px, py);
    }
  }

  /** Which box is named first does not matter. */
  lemma OverlapsSymmetric(a: Box, b: Box)
    ensures Overlaps(a, b) == Overlaps(b, a)
  {
  }

  /** Two boxes whose facing vertical edges coincide collide whenever their
      vertical extents meet. */
  lemma TouchingEdgesCollide(a: Box, b: Box)
    requires b.left == a.Right()
    requires b.top <= a.Bottom() && a.top <= b.Bottom()
    requires a.width >= 0.0 && b.width >= 0.0
    ensures Overlaps(a, b)
  {
  }

  /** The box of a disc-like entity of the given half-size centred at (cx, cy):
      the source computes its width as right minus left, which is 2 * size. */
  function CenteredBox(cx: real, cy: real, size: real): (b: Box)
    ensures size >= 0.0 ==> b.width >= 0.0 && b.height >= 0.0 && Contains(b, cx, cy)
    ensures b.Right() - cx == cx - b.left == size
    ensures b.Bottom() - cy == cy - b.top == size
  {
    Box(cx - size, cy - size, (cx + size) - (cx - size), (cy + size) - (cy - size))
  }
}
