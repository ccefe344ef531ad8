/** The scene state that main.js keeps beside the engine (score, lives, the
    game-over flag, the asteroid and bullet groups, the ship's placement and
    the life icons) and the callbacks that change it: create, update,
    updateScore, updateLivesDisplay, resetShip, placeShipWhenSafe,
    fireBullet, onBulletAsteroidCollision and gameOver. */
module Game {
  import opened ScreenWrap
  import opened Entities
  import opened Roles
  import opened Splitting
  import opened Safety
  import opened LivesDisplay

  const InitialLives: int := 3
  const InitialAsteroids: nat := 8
  /** Where resetShip parks the ship while it waits for a safe moment. */
  const Parked: Point := Point(-1000.0, -1000.0)

  /** Each member of `r` is the member of `g` at the same place, moved by the wrap. */
  ghost predicate WrappedFrom(r: seq<GameObject>, g: seq<GameObject>, width: real, height: real) {
    |r| == |g| && forall i :: 0 <= i < |g| ==> r[i] == g[i].(pos := WrapPoint(g[i].pos, width, height))
  }

  /** The forEach of update() that wraps every member of a group. */
  method WrapGroup(g: seq<GameObject>, width: real, height: real) returns (r: seq<GameObject>)
    ensures WrappedFrom(r, g, width, height)
    ensures 0.0 <= width && 0.0 <= height ==> forall o :: o in r ==> OnScreen(o.pos, width, height)
  {
    r := [];
    for i := 0 to |g|
      invariant |r| == i
      invariant forall j :: 0 <= j < i ==> r[j] == g[j].(pos := WrapPoint(g[j].pos, width, height))
    {
      r := r + [g[i].(pos := WrapPoint(g[i].pos, width, height))];
    }
  }

  /** A well-formed member of a group: an identity handed out by the scene
      and not the ship's, a texture from `keys`, and a size tag on asteroids. */
  ghost predicate Member(o: GameObject, keys: set<string>, nextId: nat, shipId: nat) {
    o.id < nextId && o.id != shipId && o.key in keys
    && (o.key in AsteroidKeys ==> o.asteroidSize.Some?)
  }

  /** Wrapping moves objects and changes nothing else about them. */
  lemma {:induction false} WrapKeepsGroup(r: seq<GameObject>, g: seq<GameObject>, width: real, height: real,
                                          keys: set<string>, nextId: nat, shipId: nat)
    requires WrappedFrom(r, g, width, height)
    ensures (forall o :: o in g ==> Member(o, keys, nextId, shipId)) ==>
            (forall o :: o in r ==> Member(o, keys, nextId, shipId))
    ensures Distinct(g) ==> Distinct(r)
  {
    if (forall o :: o in g ==> Member(o, keys, nextId, shipId)) {
      forall o | o in r ensures Member(o, keys, nextId, shipId) {
        var i :| 0 <= i < |r| && r[i] == o;
        assert g[i] in g;
      }
    }
    if g != [] && Distinct(g) {
      assert WrappedFrom(r[1..], g[1..], width, height);
      WrapKeepsGroup(r[1..], g[1..], width, height, keys, nextId, shipId);
      forall o | o in r[1..] ensures o.id != r[0].id {
        var j :| 0 <= j < |r[1..]| && r[1..][j] == o;
        assert g[1..][j] in g[1..];
      }
    }
  }

  /** The asteroid group after a bullet hit on `rock`: an untagged asteroid
      stays, a tagged one is destroyed; the pieces of a split join at the end. */
  function StruckField(field: seq<GameObject>, rock: GameObject, firstId: nat): seq<GameObject> {
    (if rock.asteroidSize.Some? then Without(field, rock.id) else field) + Children(rock, firstId)
  }

  /** The asteroid group after the ship hits `rock`: it is destroyed whatever
      its tag, after its pieces (if any) have joined. */
  function ShatteredField(field: seq<GameObject>, rock: GameObject, firstId: nat): seq<GameObject> {
    Without(field, rock.id) + Children(rock, firstId)
  }

  /** For an asteroid of the field, both kinds of hit leave the same field,
      which holds exactly one hit less than before and exactly the bullet
      hit's score less: what a bullet hit adds to the score it takes out of
      the field, and a ship hit forfeits it. */
  lemma HitAccounting(field: seq<GameObject>, rock: GameObject, firstId: nat)
    requires Distinct(field) && rock in field && rock.asteroidSize.Some?
    ensures StruckField(field, rock, firstId) == ShatteredField(field, rock, firstId)
    ensures Total(StruckField(field, rock, firstId), Points) + BulletPoints(rock.asteroidSize)
            == Total(field, Points)
    ensures Total(StruckField(field, rock, firstId), Hits) + 1 == Total(field, Hits)
    ensures |StruckField(field, rock, firstId)| + 1 == |field| + |Children(rock, firstId)|
  {
    WithoutMember(field, rock);
    HitTakesOneYield(field, rock, firstId, Points);
    HitTakesOneYield(field, rock, firstId, Hits);
  }

  /** The opening field of large asteroids holds 640 points and 7 hits per
      asteroid. */
  lemma {:induction false} OpeningFieldWorth(field: seq<GameObject>)
    requires forall o :: o in field ==> o.asteroidSize == Some(Large)
    ensures Total(field, Points) == 640 * |field|
    ensures Total(field, Hits) == 7 * |field|
  {
    if field != [] {
      assert field[0] in field;
      OpeningFieldWorth(field[1..]);
      WorthValues();
    }
  }

  /** The two role combinations that make the collision handler act. */
  predicate ShipStruck(a: Body, b: Body, shipId: nat) {
    var r := Classify(a, b, shipId); r.asteroid.Some? && r.player.Some?
  }

  predicate BulletStruck(a: Body, b: Body, shipId: nat) {
    var r := Classify(a, b, shipId); r.asteroid.Some? && r.bullet.Some?
  }

  /** The game object in the asteroid role, and the one in the bullet role. */
  function Rock(a: Body, b: Body, shipId: nat): GameObject
    requires Classify(a, b, shipId).asteroid.Some?
  {
    Pick(Classify(a, b, shipId).asteroid.value, a, b).gameObject.value
  }

  function Shot(a: Body, b: Body, shipId: nat): GameObject
    requires Classify(a, b, shipId).bullet.Some?
  {
    Pick(Classify(a, b, shipId).bullet.value, a, b).gameObject.value
  }

  class Scene {
    const width: real
    const height: real
    const shipId: nat
    var score: int
    var lives: int
    /** The module-level isGameOver flag. */
    var gameOver: bool
    /** False once the ship sprite has been destroyed. */
    var shipActive: bool
    var shipVisible: bool
    var shipPos: Point
    var asteroids: seq<GameObject>
    var bullets: seq<GameObject>
    /** Positions of the life icons currently drawn. */
    var lifeIcons: seq<Point>
    /** The next identity to hand out to a new sprite. */
    var nextId: nat

    /** The groups hold well-formed, distinct, scene-made objects. */
    ghost predicate GroupsValid()
      reads this`asteroids, this`bullets, this`nextId
    {
      shipId < nextId
      && (forall o :: o in asteroids ==> Member(o, AsteroidKeys, nextId, shipId))
      && (forall o :: o in bullets ==> Member(o, {BulletKey}, nextId, shipId))
      && Distinct(asteroids)
      && Distinct(bullets)
    }

    /** The icon row shows exactly the remaining lives. */
    ghost predicate LivesShown()
      reads this`lives, this`lifeIcons
    {
      |lifeIcons| == (if lives > 0 then lives else 0)
      && forall i :: 0 <= i < |lifeIcons| ==> lifeIcons[i] == IconAt(i)
    }

    /** Score and lives are never negative, the game is over exactly when
        no lives are left, and the ship exists exactly while it is not. */
    ghost predicate Status()
      reads this`score, this`lives, this`gameOver, this`shipActive
    {
      0 <= score && 0 <= lives
      && (gameOver <==> lives == 0)
      && (shipActive <==> !gameOver)
    }

    ghost predicate Valid()
      reads this
    {
      Status() && GroupsValid() && LivesShown()
    }

    /** A body the engine can report: the ship only while its sprite exists
        (and with the ship's texture), an asteroid-textured sprite only as
        the member of the asteroid group it is, a bullet only as a member of
        the bullet group, and otherwise some sprite the scene created. */
    ghost predicate Reportable(b: Body)
      reads this
    {
      b.gameObject.Some? ==>
        var o := b.gameObject.value;
        o.id < nextId
        && (o.id == shipId ==> shipActive && o.key == ShipKey)
        && (o.key in AsteroidKeys ==> o in asteroids)
        && (o.key == BulletKey ==> o in bullets)
    }

    /** create(): score 0, three lives, eight large asteroids at the
        positions the random draws gave, then the ship is placed. */
    constructor (width: real, height: real, spawn: seq<Point>)
      requires |spawn| == InitialAsteroids
      ensures Valid()
      ensures this.width == width && this.height == height
      ensures score == 0 && lives == InitialLives && !gameOver && shipActive
      ensures |asteroids| == InitialAsteroids
      ensures forall i :: 0 <= i < |asteroids| ==>
        asteroids[i].asteroidSize == Some(Large) && asteroids[i].pos == spawn[i]
      ensures bullets == []
      ensures shipVisible <==> SafeAt(asteroids, Center(width, height))
      ensures shipPos == if shipVisible then Center(width, height) else Parked
    {
      var field := [];
      for i := 0 to |spawn|
        invariant |field| == i
        invariant forall j :: 0 <= j < i ==> field[j] == GameObject(j + 1, "asteroid", Some(Large), spawn[j])
        invariant forall o :: o in field ==> 1 <= o.id <= i && o.key == "asteroid" && o.asteroidSize == Some(Large)
        invariant Distinct(field)
      {
        var rock := GameObject(i + 1, "asteroid", Some(Large), spawn[i]);
        DistinctAppend(field, [rock]);
        field := field + [rock];
      }
      this.width := width;
      this.height := height;
      shipId := 0;
      score := 0;
      lives := InitialLives;
      gameOver := false;
      shipActive := true;
      shipVisible := true;
      shipPos := Point(0.0, 0.0);
      asteroids := field;
      bullets := [];
      lifeIcons := [];
      nextId := |spawn| + 1;
      new;
      UpdateLivesDisplay();
      ResetShip();
    }

    /** updateScore: the score text is redrawn (not modelled) and the score
        goes up by `points`; every caller passes 0, 20, 50 or 100. */
    method UpdateScore(points: nat)
      modifies this`score
      ensures score == old(score) + points
    {
      score := score + points;
    }

    /** updateLivesDisplay: the icon group is cleared and one icon drawn per life. */
    method UpdateLivesDisplay()
      modifies this`lifeIcons
      ensures LivesShown()
    {
      lifeIcons := IconPositions(lives);
    }

    /** The safety test and its outcome; when it fails the source retries
        on a timer, which is a later call of this method. */
    method PlaceShipWhenSafe() returns (placed: bool)
      modifies this`shipPos, this`shipVisible
      ensures placed <==> SafeAt(asteroids, Center(width, height))
      ensures placed ==> shipPos == Center(width, height) && shipVisible
      ensures !placed ==> shipPos == old(shipPos) && shipVisible == old(shipVisible)
    {
      placed := IsSafeToPlace(asteroids, Center(width, height));
      if placed {
        shipPos := Center(width, height);
        shipVisible := true;
      }
    }

    /** resetShip: park and hide the ship, then try to place it. */
    method ResetShip()
      modifies this`shipPos, this`shipVisible
      ensures shipVisible <==> SafeAt(asteroids, Center(width, height))
      ensures shipPos == if shipVisible then Center(width, height) else Parked
    {
      shipPos := Parked;
      shipVisible := false;
      var _ := PlaceShipWhenSafe();
    }

    /** gameOver: raise the one-way flag and destroy the ship. */
    method GameOver()
      modifies this`gameOver, this`shipActive
      ensures gameOver && !shipActive
    {
      gameOver := true;
      shipActive := false;
    }

    /** fireBullet: a new bullet at the muzzle joins the bullet group. */
    method FireBullet(muzzle: Point)
      requires Valid()
      modifies this`bullets, this`nextId
      ensures Valid()
      ensures bullets == old(bullets) + [GameObject(old(nextId), BulletKey, None, muzzle)]
      ensures nextId == old(nextId) + 1
    {
      DistinctAppend(bullets, [GameObject(nextId, BulletKey, None, muzzle)]);
      bullets := bullets + [GameObject(nextId, BulletKey, None, muzzle)];
      nextId := nextId + 1;
    }

    /** `destroy()` on an asteroid: it leaves the asteroid group. */
    method DestroyAsteroid(id: nat)
      requires GroupsValid()
      modifies this`asteroids
      ensures GroupsValid()
      ensures asteroids == Without(old(asteroids), id)
    {
      asteroids := Without(asteroids, id);
    }

    /** `destroy()` on a bullet: it leaves the bullet group. */
    method DestroyBullet(id: nat)
      requires GroupsValid()
      modifies this`bullets
      ensures GroupsValid()
      ensures bullets == Without(old(bullets), id)
    {
      bullets := Without(bullets, id);
    }

    /** One iteration of a splitting loop: piece `i` joins the asteroid group. */
    method AddChild(parent: GameObject, i: nat)
      requires GroupsValid() && Splits(parent)
      modifies this`asteroids, this`nextId
      ensures GroupsValid()
      ensures asteroids == old(asteroids) + [Child(parent, i, old(nextId))]
      ensures nextId == old(nextId) + 1
    {
      var c := Child(parent, i, nextId);
      DistinctAppend(asteroids, [c]);
      asteroids := asteroids + [c];
      nextId := nextId + 1;
    }

    /** The splitting loop of the bullet branch: two pieces, and 20 (large)
        or 50 (medium) points for each. */
    method SplitScoring(parent: GameObject)
      requires GroupsValid() && Splits(parent)
      modifies this`asteroids, this`nextId, this`score
      ensures GroupsValid()
      ensures asteroids == old(asteroids) + Children(parent, old(nextId))
      ensures nextId == old(nextId) + 2
      ensures score == old(score) + BulletPoints(parent.asteroidSize)
    {
      var size := parent.asteroidSize.value;
      for i := 0 to 2
        invariant GroupsValid()
        invariant nextId == old(nextId) + i
        invariant asteroids == old(asteroids) + Children(parent, old(nextId))[..i]
        invariant score == old(score) + i * PointsPerChild(size)
      {
        assert Children(parent, old(nextId))[..i + 1]
          == Children(parent, old(nextId))[..i] + [Child(parent, i, nextId)];
        AddChild(parent, i);
        UpdateScore(PointsPerChild(size));
      }
    }

    /** The splitting loop of the ship branch: two pieces, no points. */
    method Split(parent: GameObject)
      requires GroupsValid() && Splits(parent)
      modifies this`asteroids, this`nextId
      ensures GroupsValid()
      ensures asteroids == old(asteroids) + Children(parent, old(nextId))
      ensures nextId == old(nextId) + 2
    {
      for i := 0 to 2
        invariant GroupsValid()
        invariant nextId == old(nextId) + i
        invariant asteroids == old(asteroids) + Children(parent, old(nextId))[..i]
      {
        assert Children(parent, old(nextId))[..i + 1]
          == Children(parent, old(nextId))[..i] + [Child(parent, i, nextId)];
        AddChild(parent, i);
      }
    }

    /** The bullet branch of the collision handler. A large or medium
        asteroid is destroyed and replaced by its two pieces, scoring 20 or
        50 per piece; a small one is destroyed for 100. The bullet is
        destroyed in every case. The field's remaining worth moves to the
        score: what the score gains, the field loses. */
    method BulletHit(rock: GameObject, bullet: GameObject)
      requires GroupsValid() && rock in asteroids && bullet in bullets
      modifies this`asteroids, this`nextId, this`score, this`bullets
      ensures GroupsValid()
      ensures asteroids == StruckField(old(asteroids), rock, old(nextId))
      ensures |asteroids| == old(|asteroids|) - 1 + (if Splits(rock) then 2 else 0)
      ensures score == old(score) + BulletPoints(rock.asteroidSize)
      ensures score + Total(asteroids, Points) == old(score + Total(asteroids, Points))
      ensures Total(asteroids, Hits) + 1 == old(Total(asteroids, Hits))
      ensures bullets == Without(old(bullets), bullet.id)
      ensures |bullets| == old(|bullets|) - 1
    {
      WithoutMember(bullets, bullet);
      Strike(rock);
      DestroyBullet(bullet.id);
    }

    /** What the bullet branch does to the asteroid and the score. */
    method Strike(rock: GameObject)
      requires GroupsValid() && rock in asteroids
      modifies this`asteroids, this`nextId, this`score
      ensures GroupsValid()
      ensures asteroids == StruckField(old(asteroids), rock, old(nextId))
      ensures |asteroids| == old(|asteroids|) - 1 + |Children(rock, old(nextId))|
      ensures score == old(score) + BulletPoints(rock.asteroidSize)
      ensures Total(asteroids, Points) + BulletPoints(rock.asteroidSize) == old(Total(asteroids, Points))
      ensures Total(asteroids, Hits) + 1 == old(Total(asteroids, Hits))
    {
      ghost var field := asteroids;
      HitAccounting(field, rock, nextId);
      match rock.asteroidSize
      case Some(Large) | Some(Medium) =>
        DestroyAsteroid(rock.id);
        SplitScoring(rock);
      case Some(Small) =>
        DestroyAsteroid(rock.id);
        UpdateScore(100);
        assert asteroids == Without(field, rock.id) + [];
      case None =>
        // every asteroid the scene creates is given a size tag
        assert false;
    }

    /** The ship branch of the collision handler: one life is lost, the
        asteroid is split as for a bullet (a small one just vanishes) and
        destroyed, no points are scored, and the ship is either reset or,
        on the last life, the game ends. */
    method ShipHit(rock: GameObject)
      requires Status() && GroupsValid() && LivesShown() && shipActive && rock in asteroids
      modifies this`lives, this`lifeIcons, this`asteroids, this`nextId,
               this`shipPos, this`shipVisible, this`gameOver, this`shipActive
      ensures Status() && GroupsValid() && LivesShown()
      ensures lives == old(lives) - 1
      ensures asteroids == ShatteredField(old(asteroids), rock, old(nextId))
      ensures |asteroids| == old(|asteroids|) - 1 + (if Splits(rock) then 2 else 0)
      ensures Total(asteroids, Points) + BulletPoints(rock.asteroidSize) == old(Total(asteroids, Points))
      ensures Total(asteroids, Hits) + 1 == old(Total(asteroids, Hits))
      ensures lives > 0 ==> (!gameOver && shipActive
        && (shipVisible <==> SafeAt(asteroids, Center(width, height)))
        && shipPos == (if shipVisible then Center(width, height) else Parked))
      ensures lives == 0 ==> (gameOver && !shipActive
        && shipPos == old(shipPos) && shipVisible == old(shipVisible))
    {
      LoseLife();
      Wreck(rock);
    }

    /** The rest of the ship branch once the life is gone: the asteroid is
        shattered, then the ship is reset or the game ends. */
    method Wreck(rock: GameObject)
      requires GroupsValid() && rock in asteroids
      requires 0 <= score && 0 <= lives && !gameOver && shipActive
      modifies this`asteroids, this`nextId,
               this`shipPos, this`shipVisible, this`gameOver, this`shipActive
      ensures Status() && GroupsValid()
      ensures asteroids == ShatteredField(old(asteroids), rock, old(nextId))
      ensures |asteroids| == old(|asteroids|) - 1 + |Children(rock, old(nextId))|
      ensures Total(asteroids, Points) + BulletPoints(rock.asteroidSize) == old(Total(asteroids, Points))
      ensures Total(asteroids, Hits) + 1 == old(Total(asteroids, Hits))
      ensures lives > 0 ==> (!gameOver && shipActive
        && (shipVisible <==> SafeAt(asteroids, Center(width, height)))
        && shipPos == (if shipVisible then Center(width, height) else Parked))
      ensures lives == 0 ==> (gameOver && !shipActive
        && shipPos == old(shipPos) && shipVisible == old(shipVisible))
    {
      Shatter(rock);
      Respawn();
    }

    /** The end of the ship branch: with lives left the ship is reset,
        on the last one the game ends. */
    method Respawn()
      requires 0 <= score && 0 <= lives && !gameOver && shipActive
      modifies this`shipPos, this`shipVisible, this`gameOver, this`shipActive
      ensures Status()
      ensures lives > 0 ==> (!gameOver && shipActive
        && (shipVisible <==> SafeAt(asteroids, Center(width, height)))
        && shipPos == (if shipVisible then Center(width, height) else Parked))
      ensures lives == 0 ==> (gameOver && !shipActive
        && shipPos == old(shipPos) && shipVisible == old(shipVisible))
    {
      if lives > 0 {
        ResetShip();
      } else {
        GameOver();
      }
    }

    /** `scene.lives -= 1` and the redrawn icon row. */
    method LoseLife()
      requires LivesShown() && 0 < lives
      modifies this`lives, this`lifeIcons
      ensures LivesShown()
      ensures lives == old(lives) - 1
    {
      lives := lives - 1;
      UpdateLivesDisplay();
    }

    /** The split loop of the ship branch (when the asteroid splits),
        followed by the destruction of the asteroid. */
    method Shatter(rock: GameObject)
      requires GroupsValid() && rock in asteroids
      modifies this`asteroids, this`nextId
      ensures GroupsValid()
      ensures asteroids == ShatteredField(old(asteroids), rock, old(nextId))
      ensures |asteroids| == old(|asteroids|) - 1 + |Children(rock, old(nextId))|
      ensures Total(asteroids, Points) + BulletPoints(rock.asteroidSize) == old(Total(asteroids, Points))
      ensures Total(asteroids, Hits) + 1 == old(Total(asteroids, Hits))
    {
      ghost var field, firstId := asteroids, nextId;
      HitAccounting(field, rock, firstId);
      if Splits(rock) {
        Split(rock);
      }
      assert asteroids == field + Children(rock, firstId);
      WithoutAppend(field, Children(rock, firstId), rock.id);
      DestroyAsteroid(rock.id);
    }

    /** What the handler may take for granted about a reported pair: the
        asteroid it hits is in the asteroid group, the bullet in the bullet
        group, the ship is still there, and the ship never comes with a
        bullet. */
    lemma ReportedRoles(a: Body, b: Body)
      requires Reportable(a) && Reportable(b)
      ensures !(ShipStruck(a, b, shipId) && BulletStruck(a, b, shipId))
      ensures ShipStruck(a, b, shipId) ==> Rock(a, b, shipId) in asteroids && shipActive
      ensures BulletStruck(a, b, shipId) ==>
        Rock(a, b, shipId) in asteroids && Shot(a, b, shipId) in bullets
    {
      ShipAndBulletExclusive(a, b, shipId);
    }

    /** onBulletAsteroidCollision for one reported pair. At most one of
        its two branches runs: the ship's body carries the ship's texture,
        which fills neither the asteroid nor the bullet role. */
    method OnCollision(a: Body, b: Body)
      requires Valid() && Reportable(a) && Reportable(b)
      modifies this
      ensures Valid()
      ensures !(ShipStruck(a, b, shipId) && BulletStruck(a, b, shipId))
      ensures !ShipStruck(a, b, shipId) && !BulletStruck(a, b, shipId) ==> unchanged(this)
      ensures lives == old(lives) - (if ShipStruck(a, b, shipId) then 1 else 0)
      ensures score == old(score) + (if BulletStruck(a, b, shipId) then BulletPoints(Rock(a, b, shipId).asteroidSize) else 0)
      ensures old(gameOver) ==> gameOver && lives == old(lives)
      // a bullet hit
      ensures BulletStruck(a, b, shipId) ==>
        asteroids == StruckField(old(asteroids), Rock(a, b, shipId), old(nextId))
        && |asteroids| == old(|asteroids|) - 1 + (if Splits(Rock(a, b, shipId)) then 2 else 0)
        && score + Total(asteroids, Points) == old(score + Total(asteroids, Points))
        && Total(asteroids, Hits) + 1 == old(Total(asteroids, Hits))
        && bullets == Without(old(bullets), Shot(a, b, shipId).id)
        && |bullets| == old(|bullets|) - 1
      ensures !BulletStruck(a, b, shipId) ==> bullets == old(bullets)
      ensures !ShipStruck(a, b, shipId) ==>
        shipPos == old(shipPos) && shipVisible == old(shipVisible) && shipActive == old(shipActive)
      // a ship hit
      ensures ShipStruck(a, b, shipId) ==>
        asteroids == ShatteredField(old(asteroids), Rock(a, b, shipId), old(nextId))
        && |asteroids| == old(|asteroids|) - 1 + (if Splits(Rock(a, b, shipId)) then 2 else 0)
        && Total(asteroids, Points) + BulletPoints(Rock(a, b, shipId).asteroidSize) == old(Total(asteroids, Points))
        && Total(asteroids, Hits) + 1 == old(Total(asteroids, Hits))
      ensures ShipStruck(a, b, shipId) && lives > 0 ==>
        !gameOver && shipActive
        && (shipVisible <==> SafeAt(asteroids, Center(width, height)))
        && shipPos == (if shipVisible then Center(width, height) else Parked)
      ensures ShipStruck(a, b, shipId) && lives == 0 ==> gameOver && !shipActive
    {
      var roles := Classify(a, b, shipId);
      ReportedRoles(a, b);
      if roles.asteroid.Some? && roles.player.Some? {
        ShipHit(Rock(a, b, shipId));
      }
      if roles.asteroid.Some? && roles.bullet.Some? {
        BulletHit(Rock(a, b, shipId), Shot(a, b, shipId));
      }
    }

    /** update(): every frame the score is refreshed with 0 points; while the
        game runs a pressed fire key fires a bullet, the bullets are wrapped
        and so is the ship; the asteroids are wrapped in every frame. */
    method Frame(fire: bool, muzzle: Point)
      requires Valid()
      modifies this`score, this`bullets, this`nextId, this`shipPos, this`asteroids
      ensures Valid()
      ensures score == old(score)
      ensures nextId == old(nextId) + (if fire && !gameOver then 1 else 0)
      ensures WrappedFrom(asteroids, old(asteroids), width, height)
      ensures !gameOver ==> WrappedFrom(bullets,
        old(bullets) + (if fire then [GameObject(old(nextId), BulletKey, None, muzzle)] else []), width, height)
      ensures gameOver ==> bullets == old(bullets)
      ensures shipPos == if gameOver then old(shipPos) else WrapPoint(old(shipPos), width, height)
    {
      UpdateScore(0);
      if !gameOver {
        if fire {
          FireBullet(muzzle);
        }
        ghost var before := bullets;
        bullets := WrapGroup(bullets, width, height);
        WrapKeepsGroup(bullets, before, width, height, {BulletKey}, nextId, shipId);
        if shipActive {
          shipPos := WrapPoint(shipPos, width, height);
        }
      }
      ghost var field := asteroids;
      asteroids := WrapGroup(asteroids, width, height);
      WrapKeepsGroup(asteroids, field, width, height, AsteroidKeys, nextId, shipId);
    }
  }
}
