/** What a hit does to an asteroid (onBulletAsteroidCollision, main.js):
    a large one splits into two medium ones, a medium one into two small
    ones, a small one just disappears; and what a bullet hit scores. */
module Splitting {
  import opened Entities

  /** The sizes that split when hit. */
  predicate Splits(o: GameObject) {
    o.asteroidSize == Some(Large) || o.asteroidSize == Some(Medium)
  }

  /** Rank of a size: children rank strictly lower than their parent. */
  function Rank(s: Size): nat {
    match s
    case Large => 2
    case Medium => 1
    case Small => 0
  }

  /** The size of the pieces a hit leaves behind, if any. */
  function ChildSize(s: Size): (r: Option<Size>)
    ensures r.Some? <==> s != Small
    ensures r.Some? ==> Rank(r.value) + 1 == Rank(s)
  {
    match s
    case Large => Some(Medium)
    case Medium => Some(Small)
    case Small => None
  }

  /** Piece `i` (0 or 1) of a split asteroid, with identity `id`: it starts
      where the parent was, one size smaller, with texture 1 or 2. */
  function Child(parent: GameObject, i: nat, id: nat): (c: GameObject)
    requires Splits(parent)
    ensures c.id == id && c.pos == parent.pos && c.key in AsteroidKeys
    ensures c.asteroidSize == ChildSize(parent.asteroidSize.value)
    ensures Rank(c.asteroidSize.value) + 1 == Rank(parent.asteroidSize.value)
  {
    var key :=
      if parent.asteroidSize == Some(Large) then
        (if i == 0 then "mediumAsteroid1" else "mediumAsteroid2")
      else
        (if i == 0 then "smallAsteroid1" else "smallAsteroid2");
    GameObject(id, key, ChildSize(parent.asteroidSize.value), parent.pos)
  }

  /** Everything a hit adds to the asteroid group, numbered from `firstId`:
      two pieces for a large or medium asteroid, none otherwise. */
  function Children(parent: GameObject, firstId: nat): (r: seq<GameObject>)
    ensures |r| == if Splits(parent) then 2 else 0
    ensures forall c :: c in r ==>
      firstId <= c.id < firstId + 2 && c.pos == parent.pos && c.key in AsteroidKeys
      && c.asteroidSize.Some? && Rank(c.asteroidSize.value) + 1 == Rank(parent.asteroidSize.value)
    ensures Distinct(r)
  {
    if Splits(parent) then [Child(parent, 0, firstId), Child(parent, 1, firstId + 1)] else []
  }

  /** The score added per piece inside the splitting loop of a bullet hit. */
  function PointsPerChild(s: Size): nat {
    match s
    case Large => 20
    case Medium => 50
    case Small => 0
  }

  /** Total score of one bullet hit on an asteroid with this tag. */
  function BulletPoints(size: Option<Size>): (p: nat)
    ensures size == Some(Large) ==> p == 40
    ensures size == Some(Medium) ==> p == 100
    ensures size == Some(Small) ==> p == 100
    ensures size == None ==> p == 0
  {
    match size
    case Some(Large) => 2 * PointsPerChild(Large)
    case Some(Medium) => 2 * PointsPerChild(Medium)
    case Some(Small) => 100
    case None => 0
  }

  /** Two ways to measure what an asteroid still holds: the score that
      bullets can still get out of it and its pieces, or the number of hits
      needed to clear it and all its pieces. */
  datatype Measure = Points | Hits

  /** What one hit on an asteroid of size s yields in measure m. */
  function HitYield(s: Size, m: Measure): nat {
    match m
    case Points => BulletPoints(Some(s))
    case Hits => 1
  }

  /** What an asteroid of size s holds: the yield of hitting it plus what
      its two pieces hold. */
  function Worth(s: Size, m: Measure): nat
    decreases Rank(s)
  {
    HitYield(s, m) + (if s == Small then 0 else 2 * Worth(ChildSize(s).value, m))
  }

  lemma WorthValues()
    ensures Worth(Small, Points) == 100 && Worth(Medium, Points) == 300 && Worth(Large, Points) == 640
    ensures Worth(Small, Hits) == 1 && Worth(Medium, Hits) == 3 && Worth(Large, Hits) == 7
  {
  }

  function ObjectWorth(o: GameObject, m: Measure): nat {
    if o.asteroidSize.Some? then Worth(o.asteroidSize.value, m) else 0
  }

  /** What a whole group of asteroids holds. */
  function Total(g: seq<GameObject>, m: Measure): nat {
    if g == [] then 0 else ObjectWorth(g[0], m) + Total(g[1..], m)
  }

  lemma {:induction false} TotalAppend(x: seq<GameObject>, y: seq<GameObject>, m: Measure)
    ensures Total(x + y, m) == Total(x, m) + Total(y, m)
  {
    if x == [] {
      assert x + y == y;
    } else {
      assert (x + y)[1..] == x[1..] + y;
      TotalAppend(x[1..], y, m);
    }
  }

  lemma {:induction false} TotalWithout(g: seq<GameObject>, o: GameObject, m: Measure)
    requires Distinct(g) && o in g
    ensures Total(Without(g, o.id), m) + ObjectWorth(o, m) == Total(g, m)
  {
    if g[0] == o {
      WithoutAbsent(g[1..], o.id);
    } else {
      assert o in g[1..];
      TotalWithout(g[1..], o, m);
    }
  }

  /** The pieces of a split hold what their parent held, less the yield of
      the hit that split it. */
  lemma ChildrenTotal(parent: GameObject, firstId: nat, m: Measure)
    requires parent.asteroidSize.Some?
    ensures Total(Children(parent, firstId), m) + HitYield(parent.asteroidSize.value, m)
            == ObjectWorth(parent, m)
  {
    var r := Children(parent, firstId);
    var s := parent.asteroidSize.value;
    if Splits(parent) {
      assert r[1..] == [r[1]] && r[1..][1..] == [];
      assert Total(r[1..], m) == ObjectWorth(r[1], m) + Total([], m);
      assert Total(r, m) == ObjectWorth(r[0], m) + ObjectWorth(r[1], m);
      assert ObjectWorth(r[0], m) == Worth(ChildSize(s).value, m) == ObjectWorth(r[1], m);
    }
  }

  /** Destroying a member of the field and adding its pieces takes exactly
      one hit's yield out of the field: for points that is the score the
      bullet hit awards, for hits it is one. */
  lemma HitTakesOneYield(g: seq<GameObject>, o: GameObject, firstId: nat, m: Measure)
    requires Distinct(g) && o in g && o.asteroidSize.Some?
    ensures Total(Without(g, o.id) + Children(o, firstId), m) + HitYield(o.asteroidSize.value, m)
            == Total(g, m)
  {
    TotalAppend(Without(g, o.id), Children(o, firstId), m);
    TotalWithout(g, o, m);
    ChildrenTotal(o, firstId, m);
  }
}
