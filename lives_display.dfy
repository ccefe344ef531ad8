/** The row of small ship icons that shows the remaining lives
    (updateLivesDisplay in main.js). */
module LivesDisplay {
  import opened ScreenWrap

  const InitialX: real := 100.0
  const InitialY: real := 100.0
  const Padding: real := -20.0

  /** Where icon i is drawn: one icon every 40 + padding = 20 to the right. */
  function IconAt(i: nat): Point {
    Point(InitialX + (i as real) * (40.0 + Padding), InitialY)
  }

  /** The icons drawn for `lives` remaining lives, in the order the loop
      adds them to the group (the group is cleared first). */
  method IconPositions(lives: int) returns (icons: seq<Point>)
    ensures |icons| == if lives > 0 then lives else 0
    ensures forall i :: 0 <= i < |icons| ==> icons[i] == Point(100.0 + 20.0 * (i as real), 100.0)
  {
    icons := [];
    var i := 0;
    while i < lives
      invariant 0 <= i <= (if lives > 0 then lives else 0)
      invariant |icons| == i
      invariant forall j :: 0 <= j < i ==> icons[j] == IconAt(j)
    {
      icons := icons + [IconAt(i)];
      i := i + 1;
    }
  }
}
