# Asteroids game logic (main.js), modelled in Dafny

The game is an Asteroids clone built on the Phaser engine with its Matter
physics. Almost everything it does is delegated to the engine. This project
models the small amount of game logic that `main.js` keeps for itself:

- the screen-edge wrap that moves a sprite leaving the window to the opposite
  edge (`ScreenWrap`);
- the collision handler `onBulletAsteroidCollision`. It classifies the two
  reported bodies into asteroid, bullet and ship roles (`Roles`). It splits a
  large asteroid into two medium ones and a medium one into two small ones,
  and destroys a small one (`Splitting`). A bullet hit scores points and
  removes the bullet. A ship hit costs a life and scores nothing
  (`Game.Scene.BulletHit`, `Game.Scene.ShipHit`, `Game.Scene.OnCollision`);
- score, lives and the one-way game-over flag (`Game.Scene`);
- the safety test that keeps the ship off the centre of the window while an
  asteroid is within 150 of it (`Safety`);
- the row of life icons (`LivesDisplay`);
- the per-frame `update()` as far as it concerns this state: the zero-point
  score refresh, firing, and wrapping bullets, ship and asteroids
  (`Game.Scene.Frame`).

Sprites are reduced to value records `GameObject(id, key, asteroidSize, pos)`.
`id` stands for object identity, which the source uses to recognise the ship
(`=== scene.ship`). `key` is the texture key, which decides the asteroid and
bullet roles. `asteroidSize` is the size tag, which decides what a hit does.
The asteroid and bullet groups are sequences, and `destroy()` removes the
object with that identity (`Entities.Without`). Coordinates are `real`.

Beyond the rules themselves, the model proves an accounting fact about the
asteroid field. Give every asteroid a worth: the points bullets can still
earn from it and its pieces (small 100, medium 300, large 640), and the hits
needed to clear it (1, 3, 7). A bullet hit on a member of the field moves
exactly its points from the field to the score. A ship hit forfeits them.
Both take exactly one hit out of the field. The opening field of eight large
asteroids is therefore worth 5120 points and 56 hits (`Game.HitAccounting`,
`Game.OpeningFieldWorth`).

The model follows the code as written. One behaviour that follows from it:
`resetShip` parks the hidden ship at (-1000, -1000), and `update()` wraps the
ship whenever it is active, visible or not. So one frame later the parked ship
sits at the window corner (width, height). `Game.Scene.Frame` reproduces this.

## Model

| member | source | states |
|---|---|---|
| ScreenWrap.WrapAxis | main.js:196-206 | the result lies in [0, extent] when the extent is non-negative; an in-range coordinate is unchanged; below 0 goes to the far edge; beyond the far edge goes to 0 |
| ScreenWrap.WrapPoint | main.js:192-209 | the wrapped position is on screen, and an on-screen position is left where it is |
| ScreenWrap.WrapAxesIndependent | main.js:196-206 | the new x depends only on x and the width, the new y only on y and the height |
| ScreenWrap.WrapIdempotent | main.js:194-206 | wrapping an already wrapped position changes nothing |
| Entities.Without | main.js:377 | destroying an object removes exactly the group members with its identity and keeps the others; distinct identities stay distinct |
| Entities.WithoutMember | main.js:446 | destroying a member of a group with distinct identities shrinks it by exactly one |
| Entities.WithoutAppend | main.js:344-377 | adding the pieces before destroying the parent gives the same group as destroying first, because the pieces have new identities |
| Roles.Classify | main.js:302-332 | each role goes to body A if A qualifies, otherwise to body B if B qualifies, otherwise to neither; the asteroid role needs one of the five asteroid texture keys, the bullet role the key 'bullet', the ship role the ship's identity |
| Roles.AsteroidAndBulletAreDifferentBodies | main.js:302-326 | when both the asteroid and the bullet role are filled, different bodies fill them |
| Roles.ShipAndBulletExclusive | main.js:302-334 | when the ship's body carries the 'spaceship' texture, no pair has an asteroid, the ship and a bullet at once, so at most one branch of the handler runs |
| Splitting.ChildSize | main.js:350-360 | large gives medium, medium gives small, and small gives no pieces; each piece is exactly one size smaller |
| Splitting.Child | main.js:350-372 | a piece starts at its parent's position, one size smaller, with an asteroid texture and the given identity |
| Splitting.Children | main.js:343-375 | a large or medium asteroid yields exactly two pieces with consecutive new identities at its position, a smaller size each; any other tag yields none |
| Splitting.BulletPoints | main.js:394-448 | a bullet hit scores 40 on a large asteroid, 100 on a medium one, 100 on a small one and nothing on an untagged one |
| Splitting.WorthValues | main.js:394-448 | the points obtainable from an asteroid and its pieces are 100, 300 and 640, and the hits to clear it are 1, 3 and 7 |
| Splitting.ChildrenTotal | main.js:343-375 | the pieces of a split hold what their parent held, less the yield of the hit that split it |
| Splitting.TotalWithout | main.js:377 | destroying a member takes exactly its worth out of the field |
| Splitting.HitTakesOneYield | main.js:394-448 | destroying a field member and adding its pieces takes exactly one hit's yield out of the field |
| Safety.IsSafeToPlace | main.js:147-154 | the flag stays true exactly when every asteroid is at squared distance at least 150² from the point, and turns false exactly when some asteroid is closer |
| Safety.SafeWithout | main.js:149-153 | destroying asteroids never turns a safe centre unsafe |
| LivesDisplay.IconPositions | main.js:178-190 | exactly max(lives, 0) icons are drawn, and icon i is at (100 + 20·i, 100) |
| Game.WrapGroup | main.js:264 | every group member is moved by the wrap, in place, and nothing else about it changes; afterwards every member is on screen |
| Game.WrapKeepsGroup | main.js:218-222 | wrapping a group keeps its members well-formed and their identities distinct |
| Game.HitAccounting | main.js:334-448 | for an asteroid of the field, a bullet hit and a ship hit leave the same field; that field holds exactly one hit less, and exactly the bullet hit's points less |
| Game.OpeningFieldWorth | main.js:95-119 | a field of large asteroids holds 640 points and 7 hits per asteroid |
| Game.Scene.constructor | main.js:61-168 | score 0, three lives, game not over, eight large asteroids at the drawn positions, no bullets, the life icons drawn, and the ship placed at the centre exactly when it is safe, otherwise parked |
| Game.Scene.UpdateScore | main.js:170-171 | the score grows by the points given; every caller passes 0, 20, 50 or 100, so it never decreases |
| Game.Scene.UpdateLivesDisplay | main.js:178-190 | afterwards the icon row shows exactly the remaining lives |
| Game.Scene.PlaceShipWhenSafe | main.js:143-164 | the ship is placed, visible, at the centre exactly when no asteroid is within 150; otherwise nothing changes |
| Game.Scene.ResetShip | main.js:137-141 | the ship ends up visible at the centre when that is safe, and otherwise hidden at (-1000, -1000) |
| Game.Scene.GameOver | main.js:454-457 | the game-over flag is raised and the ship is destroyed |
| Game.Scene.FireBullet | main.js:273-295 | exactly one new bullet, with a new identity, joins the bullet group |
| Game.Scene.DestroyAsteroid | main.js:377 | `destroy()` on an asteroid: the asteroid group loses exactly the members with that identity (also used at main.js:395, 420 and 446) |
| Game.Scene.DestroyBullet | main.js:450 | `destroy()` on a bullet: the bullet group loses exactly the members with that identity (also what the 1000 ms timer at main.js:290-292 does) |
| Game.Scene.AddChild | main.js:362-373 | one iteration of a splitting loop: the next piece, with the next identity, is appended to the asteroid group and the identities stay distinct |
| Game.Scene.Strike | main.js:394-448 | for a member of the asteroid group: the group becomes the struck field, shrinking by one and growing by the pieces; the score grows by the bullet points of the asteroid's tag, exactly what the field loses in points; the field holds one hit fewer |
| Game.Scene.SplitScoring | main.js:397-443 | the two pieces join the group, and 20 (large) or 50 (medium) points are added per piece |
| Game.Scene.Split | main.js:344-374 | the two pieces join the group and nothing is scored |
| Game.Scene.BulletHit | main.js:388-451 | for an asteroid and a bullet of their groups: the asteroid group becomes the struck field, one smaller plus two pieces when the asteroid splits; the score grows by the bullet points, and score plus the field's points is unchanged; the field holds one hit fewer; the bullet group loses exactly that bullet |
| Game.Scene.LoseLife | main.js:335-336 | lives drop by exactly one and the icon row is redrawn to match |
| Game.Scene.Shatter | main.js:339-377 | for a member of the asteroid group: the group becomes the shattered field, one smaller plus the pieces; the field loses exactly the asteroid's bullet points (forfeited) and one hit |
| Game.Scene.Respawn | main.js:379-385 | with lives left the ship is reset (visible at the centre exactly when that is safe, otherwise parked) and the game goes on; on the last life the game is over, the ship destroyed and left where it was |
| Game.Scene.Wreck | main.js:339-385 | the shattered field with its accounting, followed by the reset or the end of the game |
| Game.Scene.ShipHit | main.js:334-386 | for a member of the asteroid group while the ship exists: lives drop by exactly one, the score is untouched, and the asteroid group becomes the shattered field, one smaller plus the pieces, losing the asteroid's points and one hit; with lives left the ship is reset and the game goes on, otherwise the game is over and the ship destroyed |
| Game.Scene.ReportedRoles | main.js:297-334 | for bodies of the current scene, the asteroid the handler hits is in the asteroid group, a bullet is in the bullet group, the ship still exists, and the ship branch and the bullet branch never both run |
| Game.Scene.OnCollision | main.js:297-452 | at most one branch runs; with no asteroid role, or with neither a bullet nor the ship, nothing changes; lives drop by one exactly on a ship hit; the score grows by the bullet points exactly on a bullet hit, so it never decreases; on a bullet hit the field becomes the struck field with its counts and score-plus-points conserved, and the bullet group loses that bullet; otherwise the bullets are untouched; on a ship hit the field becomes the shattered field with its counts and forfeited points, and the ship is reset or the game ends; otherwise the ship's position and visibility are untouched; once the game is over, it stays over |
| Game.Scene.Frame | main.js:211-265 | only the score, the groups, the next identity and the ship's position may change, and the score keeps its value; asteroids are always wrapped; while the game runs a fired bullet with the next identity joins the group, then bullets and ship are wrapped; after game over bullets and ship stay as they are and no identity is used |

## Left out

- Phaser configuration, asset preloading, the resize handler and the camera resize are engine and page plumbing. The window size is fixed when the scene is created.
- Sounds, the score and game-over texts, the particle emitter, the flame sprite and the console message are rendering and audio side effects.
- Random asteroid positions, angles and speeds, the do-while reroll of a zero velocity, and masses and air friction are random draws and floating-point trigonometry. The opening positions are a constructor parameter. New pieces are modelled by their size, texture and position only.
- Rotation and thrust from the arrow keys, and the bullet's starting velocity, are handled by the physics engine. The fire key and the muzzle position are parameters of `Frame`.
- The `setTimeout` retry of `placeShipWhenSafe` and the bullet's 1000 ms lifetime are asynchronous timers. A retry is a later call of `PlaceShipWhenSafe`, and an expired bullet is a call of `DestroyBullet`.
- Zeroing the ship's velocity and angular velocity after a reset is engine state.
- Collision detection and collision categories are engine work. The model starts from a reported pair of bodies.
- Safety.IsSafeToPlace: compares squared distances with 150², instead of Euclidean distance with 150. The two tests agree for every position.
- Game.Scene.OnCollision: handles one reported pair against the current scene. It requires an asteroid-textured body to be a member of the asteroid group, a bullet to be a member of the bullet group, and the ship (with its 'spaceship' texture, main.js:83) to be reported only while it exists. A pair that names a sprite destroyed by an earlier pair of the same engine step is not modelled.
- Game.Scene.Strike: the branch for an asteroid without a size tag (only the bullet is destroyed) cannot arise, because every asteroid the scene creates is tagged (main.js:117, 372, 415, 440).
- Game.Scene.UpdateScore: takes a natural number of points. `updateScore` accepts any number, but every caller passes 0, 20, 50 or 100.
