/** The first step of onBulletAsteroidCollision (main.js): deciding which
    of the two reported bodies plays the asteroid, the bullet and the ship. */
module Roles {
  import opened Entities

  /** Which body of the reported pair. */
  datatype Side = A | B

  /** The three roles; None where no body qualifies. */
  datatype Roles = Roles(asteroid: Option<Side>, bullet: Option<Side>, player: Option<Side>)

  predicate IsAsteroid(b: Body) {
    b.gameObject.Some? && b.gameObject.value.key in AsteroidKeys
  }

  predicate IsBullet(b: Body) {
    b.gameObject.Some? && b.gameObject.value.key == BulletKey
  }

  /** The ship is recognised by identity, not by texture. */
  predicate IsShip(b: Body, shipId: nat) {
    b.gameObject.Some? && b.gameObject.value.id == shipId
  }

  function Pick(side: Side, a: Body, b: Body): Body {
    if side == A then a else b
  }

  /** Body A is tried first; B only when A does not qualify. */
  function FirstOf(inA: bool, inB: bool): (r: Option<Side>)
    ensures r == Some(A) <==> inA
    ensures r == Some(B) <==> !inA && inB
    ensures r == None <==> !inA && !inB
  {
    if inA then Some(A) else if inB then Some(B) else None
  }

  function Classify(a: Body, b: Body, shipId: nat): (r: Roles)
    ensures r.asteroid == Some(A) <==> IsAsteroid(a)
    ensures r.asteroid == Some(B) <==> !IsAsteroid(a) && IsAsteroid(b)
    ensures r.asteroid.None? <==> !IsAsteroid(a) && !IsAsteroid(b)
    ensures r.bullet == Some(A) <==> IsBullet(a)
    ensures r.bullet == Some(B) <==> !IsBullet(a) && IsBullet(b)
    ensures r.bullet.None? <==> !IsBullet(a) && !IsBullet(b)
    ensures r.player == Some(A) <==> IsShip(a, shipId)
    ensures r.player == Some(B) <==> !IsShip(a, shipId) && IsShip(b, shipId)
    ensures r.player.None? <==> !IsShip(a, shipId) && !IsShip(b, shipId)
    ensures r.asteroid.Some? ==> IsAsteroid(Pick(r.asteroid.value, a, b))
    ensures r.bullet.Some? ==> IsBullet(Pick(r.bullet.value, a, b))
    ensures r.player.Some? ==> IsShip(Pick(r.player.value, a, b), shipId)
  {
    Roles(FirstOf(IsAsteroid(a), IsAsteroid(b)),
          FirstOf(IsBullet(a), IsBullet(b)),
          FirstOf(IsShip(a, shipId), IsShip(b, shipId)))
  }

  /** The ship's own body carries the ship's texture. */
  predicate ShipKeyed(b: Body, shipId: nat) {
    IsShip(b, shipId) ==> b.gameObject.value.key == ShipKey
  }

  /** When the ship's body carries its texture, a pair with an asteroid and
      the ship has no bullet, so at most one branch of the handler runs. */
  lemma ShipAndBulletExclusive(a: Body, b: Body, shipId: nat)
    requires ShipKeyed(a, shipId) && ShipKeyed(b, shipId)
    ensures var r := Classify(a, b, shipId);
      !(r.asteroid.Some? && r.player.Some? && r.bullet.Some?)
  {
  }

  /** No texture is both an asteroid's and a bullet's, so when both roles
      are filled they are filled by different bodies. */
  lemma AsteroidAndBulletAreDifferentBodies(a: Body, b: Body, shipId: nat)
    ensures var r := Classify(a, b, shipId);
      r.asteroid.Some? && r.bullet.Some? ==> r.asteroid != r.bullet
  {
  }
}
