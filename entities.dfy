/** The game objects the collision handler sees, and the groups
    (`scene.asteroids`, `scene.bullets`) that hold them. Engine sprites are
    reduced to what the game logic reads from them: an identity, the
    texture key, the `asteroidSize` tag and the position. */
module Entities {
  import opened ScreenWrap

  datatype Option<T> = None | Some(value: T)

  /** The `asteroidSize` tag: 'large', 'medium' or 'small'. */
  datatype Size = Large | Medium | Small

  /** A sprite with a physics body. `id` stands for object identity (the
      `===` comparison with `scene.ship`); `asteroidSize` is None on
      objects that never had the tag set. */
  datatype GameObject = GameObject(id: nat, key: string, asteroidSize: Option<Size>, pos: Point)

  /** A physics body as reported in a collision pair; `gameObject` may be
      missing (world bounds and other bare bodies). */
  datatype Body = Body(gameObject: Option<GameObject>)

  /** The five texture keys that mark a sprite as an asteroid. */
  const AsteroidKeys: set<string> :=
    {"asteroid", "mediumAsteroid1", "mediumAsteroid2", "smallAsteroid1", "smallAsteroid2"}

  const BulletKey: string := "bullet"

  /** The ship's texture key. */
  const ShipKey: string := "spaceship"

  /** No two members of a group share an identity. */
  ghost predicate Distinct(g: seq<GameObject>) {
    g == [] || ((forall o :: o in g[1..] ==> o.id != g[0].id) && Distinct(g[1..]))
  }

  /** The group after `destroy()` on the object with identity `id`: that
      object is gone, everything else stays, in order. */
  function Without(g: seq<GameObject>, id: nat): (r: seq<GameObject>)
    ensures forall o :: o in r <==> o in g && o.id != id
    ensures |r| <= |g|
    ensures Distinct(g) ==> Distinct(r)
  {
    if g == [] then []
    else if g[0].id == id then Without(g[1..], id)
    else [g[0]] + Without(g[1..], id)
  }

  /** Destroying an object that is not in the group leaves it as it was. */
  lemma {:induction false} WithoutAbsent(g: seq<GameObject>, id: nat)
    requires forall o :: o in g ==> o.id != id
    ensures Without(g, id) == g
  {
    if g != [] {
      WithoutAbsent(g[1..], id);
      assert g == [g[0]] + g[1..];
    }
  }

  /** Destroying a member of a group with distinct identities removes
      exactly one element. */
  lemma {:induction false} WithoutMember(g: seq<GameObject>, o: GameObject)
    requires Distinct(g) && o in g
    ensures |Without(g, o.id)| == |g| - 1
  {
    if g[0] == o {
      WithoutAbsent(g[1..], o.id);
    } else {
      assert o in g[1..];
      WithoutMember(g[1..], o);
    }
  }

  /** Objects appended after the destroyed identity are unaffected. */
  lemma {:induction false} WithoutAppend(x: seq<GameObject>, y: seq<GameObject>, id: nat)
    requires forall o :: o in y ==> o.id != id
    ensures Without(x + y, id) == Without(x, id) + y
  {
    if x == [] {
      WithoutAbsent(y, id);
      assert x + y == y;
    } else {
      assert (x + y)[1..] == x[1..] + y;
      WithoutAppend(x[1..], y, id);
    }
  }

  /** Appending objects with identities not yet in use keeps a group's
      identities distinct. */
  lemma {:induction false} DistinctAppend(x: seq<GameObject>, y: seq<GameObject>)
    requires Distinct(x) && Distinct(y)
    requires forall a, b :: a in x && b in y ==> a.id != b.id
    ensures Distinct(x + y)
  {
    if x != [] {
      assert (x + y)[1..] == x[1..] + y;
      DistinctAppend(x[1..], y);
    } else {
      assert x + y == y;
    }
  }
}
