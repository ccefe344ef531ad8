/** The screen-edge wrap applied to every moving sprite once per frame
    (wrapMatterSprite in main.js): a body that has left the window
    reappears at the opposite edge. Each axis is handled on its own. */
module ScreenWrap {

  /** A position in window coordinates. */
  datatype Point = Point(x: real, y: real)

  /** The window is the closed rectangle [0, width] x [0, height]. */
  predicate OnScreen(p: Point, width: real, height: real) {
    0.0 <= p.x <= width && 0.0 <= p.y <= height
  }

  /** One axis of the wrap: a coordinate below 0 jumps to the far edge,
      one beyond the far edge jumps to 0, anything in between stays. */
  function WrapAxis(p: real, extent: real): (r: real)
    ensures 0.0 <= extent ==> 0.0 <= r <= extent
    ensures 0.0 <= p <= extent ==> r == p
    ensures p < 0.0 ==> r == extent
    ensures 0.0 <= p && extent < p ==> r == 0.0
  {
    if p < 0.0 then extent
    else if p > extent then 0.0
    else p
  }

  /** The new position handed to the physics body. */
  function WrapPoint(p: Point, width: real, height: real): (r: Point)
    ensures 0.0 <= width && 0.0 <= height ==> OnScreen(r, width, height)
    ensures OnScreen(p, width, height) ==> r == p
  {
    Point(WrapAxis(p.x, width), WrapAxis(p.y, height))
  }

  /** The x result depends only on x and the width, the y result only on
      y and the height. */
  lemma WrapAxesIndependent(p: Point, q: Point, width: real, height: real)
    ensures p.x == q.x ==> WrapPoint(p, width, height).x == WrapPoint(q, width, height).x
    ensures p.y == q.y ==> WrapPoint(p, width, height).y == WrapPoint(q, width, height).y
  {
  }

  /** Wrapping twice is wrapping once: a wrapped position is on screen, and
      on-screen positions are left alone. */
  lemma WrapIdempotent(p: Point, width: real, height: real)
    requires 0.0 <= width && 0.0 <= height
    ensures WrapPoint(WrapPoint(p, width, height), width, height) == WrapPoint(p, width, height)
  {
  }
}
