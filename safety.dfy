/** The safety test of placeShipWhenSafe (main.js): the ship is put back at
    the centre of the window only when no asteroid is within 150 of it.
    Distances are compared squared, which for non-negative lengths is the
    same test as comparing the square roots. */
module Safety {
  import opened ScreenWrap
  import opened Entities

  const SafeRadius: real := 150.0

  function DistanceSquared(p: Point, q: Point): (d: real)
    ensures 0.0 <= d
  {
    (p.x - q.x) * (p.x - q.x) + (p.y - q.y) * (p.y - q.y)
  }

  /** The centre of a window of the given size. */
  function Center(width: real, height: real): Point {
    Point(width / 2.0, height / 2.0)
  }

  /** An asteroid far enough from `c` not to forbid placing the ship there. */
  predicate Clear(o: GameObject, c: Point) {
    DistanceSquared(o.pos, c) >= SafeRadius * SafeRadius
  }

  ghost predicate SafeAt(asteroids: seq<GameObject>, c: Point) {
    forall i :: 0 <= i < |asteroids| ==> Clear(asteroids[i], c)
  }

  /** The forEach over the asteroid group that clears the flag on every
      asteroid that is too close. */
  method IsSafeToPlace(asteroids: seq<GameObject>, c: Point) returns (safe: bool)
    ensures safe <==> SafeAt(asteroids, c)
    ensures !safe <==> exists i :: 0 <= i < |asteroids| && DistanceSquared(asteroids[i].pos, c) < SafeRadius * SafeRadius
  {
    safe := true;
    for i := 0 to |asteroids|
      invariant safe <==> forall j :: 0 <= j < i ==> Clear(asteroids[j], c)
    {
      if DistanceSquared(asteroids[i].pos, c) < SafeRadius * SafeRadius {
        safe := false;
      }
    }
  }

  /** Removing asteroids never makes the centre less safe. */
  lemma SafeWithout(asteroids: seq<GameObject>, c: Point, id: nat)
    requires SafeAt(asteroids, c)
    ensures SafeAt(Without(asteroids, id), c)
  {
  }
}
