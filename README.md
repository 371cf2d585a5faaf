# Asteroids rule layer in Dafny

This project models the rules of four versions of one Asteroids game:

- `asteroids_game.py` and `asteroids_game.js`, a desktop game on the Arcade library and its JavaScript port;
- `asteroids_game2.py`, the same game served through Flask;
- `game.js`, a Phaser scene.

Each version keeps a round state: lives, score, level and a game-over flag. It also keeps a ship, a list of bullets and a list of rocks. Every frame, the game:

1. moves the sprites;
2. lets bullets destroy the rocks they touch, scoring one point per rock;
3. takes a life for every rock that touches the ship, and ends the game at zero lives;
4. goes up a level and spawns a larger batch of rocks when none are left.

Key presses steer, thrust, fire, and restart the game after it ends.

The model has these parts:

- `host_inputs.dfy` (`HostInputs`): the values the games take from their host. These are the sine and cosine of a heading, and the raw random numbers in [0, 1) that the spawning loops consume.
- `arcade_sprites.dfy` (`ArcadeSprites`): what the three Arcade versions share line for line.
  - The `Ship` class and its `update`.
  - A bullet's update: it moves, then is removed once it leaves the screen.
  - A rock's update: it moves, then runs one pass of the if/elif wrap chain with the margin `MAX_ROCK_RADIUS`.
- `arcade_collisions.dfy` (`ArcadeCollisions`): the two collision loops of `on_update`.
  - Each loop is specified by a recursive function (`Sweep`, `ShipSweep`).
  - Each loop is written as a method with a loop that is proved to compute that function (`BulletPhase`, `ShipPhase`).
- `arcade_round.dfy` (`ArcadeRound`): one tick, a key press, a key release and a reset, each as a function on the value `Round`.
  - This module also has the `random.uniform` spawning and the lemmas about these functions.
  - Three inputs stand for what the variants do differently. `rewrap` says whether the ship loop runs the wrap chain a second time. `batch` is the list of rocks the version's own spawning loop produced. The draw count covers the rest.
- `asteroids_game.dfy`, `asteroids_game_js.dfy`, `asteroids_game2.dfy`: one `Game` class per Arcade version.
  - The fields are the ones the source changes in place.
  - Each method is proved to leave `Snapshot()` equal to the spec function applied to the old snapshot, with that version's spawning and wrap.
- `phaser_game.dfy` (`PhaserGame`): `game.js`.
  - A `Scene` class holds the module-level variables.
  - There is one method per callback, each specified by a function on `SceneState`.

The model takes three things from the caller:

- The framework's collision tests for the current tick. `overlaps` says whether a bullet touches a rock; `shipHit` says whether a rock touches the ship. For Phaser, the caller passes the indices the collider reports.
- The trigonometry, as a `Heading` whose sine and cosine satisfy sin² + cos² = 1.
- The random numbers, as `RockDraw` values: five draws in [0, 1) per rock.

Removal is modelled as filtering over the list. A rock destroyed by an earlier bullet is no longer seen by later bullets. Arcade's `check_for_collision_with_list` behaves this way, because killed sprites leave the list.

Behaviour that the code has as written, modelled as written and shown by lemmas:

- **JavaScript comma ranges.** `asteroids_game.js` writes each range as `Math.random() * (lo, hi)`. The comma operator yields `hi`, so every spawned velocity is non-negative and a radius can be anywhere in [0, hi). See `JsRocksDifferFromUniform` and `JsBatchInRanges`.
- **Double bullet speed.** SPACE fires a bullet whose velocity is twice the heading velocity, because the constructor sets the vector and the handler adds it again. See `FiredBulletHasTwiceBulletSpeed`.
- **First tick levels up.** The constructors of `asteroids_game.py` and `asteroids_game.js` never spawn rocks, so the first tick goes to level 2 with 7 rocks. `FirstTickTakesTheBatch` shows this for any spawned batch. `FirstTickReachesLevelTwo` and `FirstJsTickReachesLevelTwo` apply it to the `random.uniform` and the JavaScript spawning.
- **One wrap pass.** `asteroids_game2.py` has no second wrap pass, so a rock can stay beyond the y margin after a tick. See `SinglePassLeavesRockOutside`. With the second pass, the other two Arcade versions leave every rock inside the margin after each tick that ends neither in game over nor in a level-up. See `TickRewrapKeepsRocksWithinMargin`. The game-over tick returns before the second pass, so the rocks it leaves may still be outside.
- **Game over is permanent.** `asteroids_game2.py` never clears its game-over flag. See `GameOverIsFinal`.
- **Lives can go negative.** In `game.js` the colliders keep running after the game ends, so lives can fall below zero. See `LivesGoNegativeAfterGameOver`.

## Model

| member | source | states |
|---|---|---|
| `ArcadeSprites.ShipStep` | asteroids_game.py:33-44 | The heading turns by exactly the turn rate. On each axis on its own, a ship moved below 0 comes back at the far edge (800 or 600), one moved beyond the far edge comes back at 0, and one still on the screen stays where the move left it. So the ship always ends inside [0, 800] × [0, 600]. Turn rate, thrust and lives are untouched. |
| `ArcadeSprites.Ship.constructor` | asteroids_game.py:24-31 | A new ship is at the screen centre, heading 0, at rest, with 3 lives. |
| `ArcadeSprites.Ship.Update` | asteroids_game.py:33-44 | The if/elif assignments change the ship exactly as the ship step does. |
| `ArcadeSprites.WrapAtEdge` | asteroids_game.py:37-44 | A coordinate below 0 goes to the far edge `size`, one beyond `size` goes to 0, and one in [0, size] is kept, so the result always lies in [0, size]. |
| `ArcadeSprites.UpdateBullets` | asteroids_game.py:56-60 | The bullet update never adds bullets, and every surviving bullet is on the screen. |
| `ArcadeSprites.UpdateBulletsKeepsExactlyOnScreen` | asteroids_game.py:56-60 | A bullet is in the updated list if and only if it is some old bullet moved by its velocity and landing on the screen. Bullets never wrap. |
| `ArcadeSprites.UpdateBulletsDistributes` | asteroids_game.py:56-60 | Updating a list is updating any split of it piece by piece and concatenating: survivors keep their order and nothing is duplicated. |
| `ArcadeSprites.UpdateOneBullet` | asteroids_game.py:56-60 | A lone bullet comes back moved by its velocity if its new centre is on the screen, and is killed otherwise. With `UpdateBulletsDistributes`, this fixes the whole list's result. |
| `ArcadeSprites.MoveBullet` | asteroids_game.py:56-58 | The move of one bullet by its velocity, which the bullet-update lemma above uses as the moved centre. |
| `ArcadeSprites.WrapRock` | asteroids_game.py:72-82 | One pass of the chain: x below −50 goes to 850, x beyond 850 goes to −50, and only when x is within the margin, y below −50 goes to 650 and y beyond 650 goes to −50. Exactly one coordinate changes at most, velocity and radius are kept, and a rock within the margin is unchanged. |
| `ArcadeSprites.WrapTwiceWithinMargin` | asteroids_game.js:188-196 | Two passes of the chain always bring a rock within the margin on both axes. |
| `ArcadeSprites.WrapOnceCanLeaveYOutside` | asteroids_game2.py:73-83 | One pass can leave y beyond the margin. Example: a rock at (-60, -60). |
| `ArcadeSprites.MoveRock` | asteroids_game.py:72-82 | Rock.update keeps velocity and radius, and a rock that lands within the margin is simply moved by its velocity. |
| `ArcadeSprites.UpdateRocks` | asteroids_game.py:115 | `rock_list.update()`: every rock moves and wraps once, in order, and none is removed. The tick lemmas below use it. |
| `ArcadeCollisions.HitsMissesPartition` | asteroids_game.py:117-122 | For one bullet, the rocks it hits and the rocks it misses together account for every rock. |
| `ArcadeCollisions.Sweep` | asteroids_game.py:117-124 | The bullet loop as a recursive function: a bullet touching live rocks is removed with all of them, one point each, and later bullets see only the rocks left. Its lemmas follow. |
| `ArcadeCollisions.SweepScoresRemovedRocks` | asteroids_game.py:117-124 | The bullet phase's score gain is exactly the number of rocks it removed, and is never negative. |
| `ArcadeCollisions.SweepLeavesUntouchedRocks` | asteroids_game.py:117-124 | After the bullet phase, the remaining rocks are exactly the rocks no bullet touches, in order. |
| `ArcadeCollisions.SweepRemovesOnlyScoringBullets` | asteroids_game.py:117-120 | No more bullets are lost than points are gained, and the kept bullets come from the list. |
| `ArcadeCollisions.SweepKeepsIdleBullets` | asteroids_game.py:117-120 | The kept bullets are, in order, exactly the bullets that touch none of the rocks still alive when their turn comes. A bullet with an empty hit list stays, and every bullet removed took at least one rock. |
| `ArcadeCollisions.BulletPhase` | asteroids_game.py:117-124 | The kill-and-score loop computes the bullet-phase result. The score rises by exactly the number of rocks removed. |
| `ArcadeCollisions.ShipSweep` | asteroids_game.py:126-142 | The rock loop as a recursive function: a rock touching the ship is removed and costs a life, the loop stops at 0 lives, and a spared rock is wrapped again when `rewrap` holds. Its lemmas follow. |
| `ArcadeCollisions.ShipSweepLives` | asteroids_game.py:126-134 | From at least one life, lives fall by one per rock removed and never below 0. The game ends exactly when lives reach 0. |
| `ArcadeCollisions.ShipSweepWithoutGameOver` | asteroids_game.py:126-142 | When the game does not end, the ship phase removes exactly the rocks touching the ship, one life each, and keeps the rest in order. |
| `ArcadeCollisions.SparedWithinMargin` | asteroids_game.js:188-196 | With the second pass, spared rocks lie within the margin whenever one more pass brings each rock there. |
| `ArcadeCollisions.ShipPhase` | asteroids_game.py:126-142 | The rock loop, including its early return on the last life and its optional second wrap pass, computes the ship-phase result. |
| `ArcadeRound.Uniform` | asteroids_game.py:147-151 | `random.uniform(lo, hi)` for a draw in [0, 1] lies in [lo, hi]. |
| `ArcadeRound.RockCount` | asteroids_game.py:146 | The level-up count ROCK_NUMBER_BASE + (L − 1)·ROCK_NUMBER_INCREMENT is odd, and at least 5 from level 1 on. |
| `ArcadeRound.UniformRock` | asteroids_game.py:147-152 | One rock drawn with `random.uniform` for level L lies in level L's ranges inside the width × height field. |
| `ArcadeRound.UniformBatch` | asteroids_game.py:146-153 | The batch of one spawning loop has exactly the loop's count of rocks. |
| `ArcadeRound.UniformBatchInRanges` | asteroids_game.py:146-153 | A batch has exactly its count of rocks. Every rock spawned at level L is on the field. Each velocity component is within ±(1 + 0.5·L). The radius is within 20 + 5·L ± 5. |
| `ArcadeRound.SpawnUniform` | asteroids_game.py:197-204 | The append loop runs to its count, NUM_ROCKS or the level-up count, and builds that batch, one rock per iteration from the next draw, in order. Surplus draws are unused. |
| `ArcadeRound.TickSpec` | asteroids_game.py:109-153 | on_update as a function of the round: nothing while over, else the first part, the ship phase, and a level-up with the batch when the game goes on and no rock is left. The lemmas below state its properties. |
| `ArcadeRound.MoveAndShootSpec` | asteroids_game.py:113-124 | The first part of a tick: ship step, bullet and rock updates, then the bullet phase with its score. |
| `ArcadeRound.TickWhileOverChangesNothing` | asteroids_game.py:110-112 | While the game is over, a tick leaves the whole round unchanged. |
| `ArcadeRound.TickScore` | asteroids_game.py:117-124 | In play, the score grows by exactly the number of moved rocks that some moved bullet touches, and never falls. |
| `ArcadeRound.TickKeepsValid` | asteroids_game.py:126-134 | A tick keeps lives in [0, 3] and keeps at least one life while in play. Level and score never fall. The game ends exactly when lives reach 0. |
| `ArcadeRound.TickGameOverSkipsLevelUp` | asteroids_game.js:178-201 | A tick that ends the game does so at 0 lives and returns before the level-up. The level stays. |
| `ArcadeRound.TickLevelUp` | asteroids_game.py:144-153 | The level changes only by +1, together with the new batch of rocks, and only when the game continues. A game still in play always has rocks. |
| `ArcadeRound.TickLevelsUpExactlyWhenCleared` | asteroids_game.py:126-153 | In play, the level goes up if and only if the ship phase leaves the game running with no rocks. Then the rocks are the new batch. Otherwise the rocks, lives and game-over flag are those the ship phase left. |
| `ArcadeRound.LevelUpSpawnsByTheFormula` | asteroids_game.py:144-153 | A level-up from L spawns exactly 5 + L·2 rocks, all in level L + 1's ranges inside the spawning field, at any level and with or without the second wrap pass. MAX_LEVEL plays no part. |
| `ArcadeRound.FirstTickTakesTheBatch` | asteroids_game.py:85-97 | A round that starts without rocks, as the constructors of asteroids_game.py and asteroids_game.js build it, goes on its first tick to level 2 with whatever batch is spawned, not over, score 0, 3 lives. |
| `ArcadeRound.FirstTickReachesLevelTwo` | asteroids_game.py:144-153 | In asteroids_game.py that first tick spawns exactly 7 rocks, all in level 2's ranges, and the game is not over, with score 0 and 3 lives. |
| `ArcadeRound.TickRewrapKeepsRocksWithinMargin` | asteroids_game.py:126-142 | With the second wrap pass, after a tick without game over or level-up, every rock lies within the margin on both axes. |
| `ArcadeRound.ResetSpec` | asteroids_game.py:191-204 | A reset gives 3 lives, level 1, score 0, no bullets and the new rocks. It keeps the game-over flag and the ship's position, heading and controls. |
| `ArcadeRound.ResetForgetsTheRound` | asteroids_game.js:279-323 | A reset does not depend on the round being reset, so newGame, restartGame and repeated restarts give the same values. |
| `ArcadeRound.FireBullet` | asteroids_game.py:169-174 | The bullet SPACE fires: at the ship's centre, with the heading velocity set by the constructor and added again by the handler. |
| `ArcadeRound.FiredBulletHasTwiceBulletSpeed` | asteroids_game.js:233-244 | A fired bullet starts at the ship's centre with twice the heading velocity, so its speed is 2 × BULLET_SPEED. |
| `ArcadeRound.KeyPressSpec` | asteroids_game.py:155-174 | on_key_press as a function of the round, branch for branch. The lemmas below state its properties. |
| `ArcadeRound.KeyReleaseSpec` | asteroids_game.py:176-180 | on_key_release as a function of the round. The lemmas below state its properties. |
| `ArcadeRound.KeyPressChangesOnlyItsControl` | asteroids_game.py:155-174 | LEFT/RIGHT change only the turn rate, to +5/−5. UP/DOWN change only the thrust, to ±MOVEMENT_SPEED. SPACE only appends one bullet. ENTER while over clears the flag and resets. Every other case changes nothing. |
| `ArcadeRound.MovementKeysIgnoreGameOver` | asteroids_game.js:220-245 | Movement keys and SPACE act the same whether or not the game is over. |
| `ArcadeRound.KeyReleaseZeroesItsControl` | asteroids_game.js:248-254 | Releasing LEFT/RIGHT zeroes only the turn rate, and releasing UP/DOWN zeroes only the thrust. Other keys change nothing. |
| `ArcadeRound.KeysKeepScore` | asteroids_game.js:219-254 | Key events change the score only through ENTER after game over, which resets it to 0. |
| `ArcadeRound.KeysKeepValid` | asteroids_game.py:155-180 | Key presses and releases keep the round valid. |
| `AsteroidsGame.Game.constructor` | asteroids_game.py:85-97 | A new game has a fresh ship, no bullets, no rocks, level 1, score 0, and is not over. |
| `AsteroidsGame.Game.Tick` | asteroids_game.py:109-153 | on_update changes the state exactly as one tick with the second wrap pass and uniform spawning, and keeps it valid. |
| `AsteroidsGame.Game.MoveAndShoot` | asteroids_game.py:113-124 | The three sprite updates followed by the bullet loop give the bullet-phase result on the moved sprites. |
| `AsteroidsGame.Game.KeyPress` | asteroids_game.py:155-174 | on_key_press changes the state exactly as the key-press function, and reports closing exactly for ESCAPE while over. |
| `AsteroidsGame.Game.KeyRelease` | asteroids_game.py:176-180 | on_key_release changes the ship exactly as the key-release function. |
| `AsteroidsGame.Game.NewGame` | asteroids_game.py:191-204 | new_game performs the reset with five level-1 rocks. |
| `AsteroidsGame.Game.RestartGame` | asteroids_game.py:206-219 | restart_game performs the same reset. |
| `AsteroidsGameJs.Scale` | asteroids_game.js:202-203 | `Math.random() * k` for a draw in [0, 1) and a positive k lies in [0, k). |
| `AsteroidsGameJs.JsRock` | asteroids_game.js:201-213 | One rock of the JavaScript loop: each value is a draw times the comma expression's second operand. Its ranges are proved below. |
| `AsteroidsGameJs.JsRockInRanges` | asteroids_game.js:201-215 | A rock of level L has its position in [0, 800) × [0, 600), velocity components in [0, 1 + 0.5·L) and radius in [0, 25 + 5·L). |
| `AsteroidsGameJs.JsBatchInRanges` | asteroids_game.js:285-299 | A batch has exactly its count of rocks. Every rock of a JavaScript batch lies in those ranges. |
| `AsteroidsGameJs.JsRocksDifferFromUniform` | asteroids_game.js:204-212 | The comma ranges differ from the intended uniform ones. A zero draw gives velocity 0 and radius 0, where `random.uniform` gives −(1 + 0.5·L); such a rock is outside the uniform ranges. |
| `AsteroidsGameJs.SpawnJs` | asteroids_game.js:285-299 | The JavaScript append loop runs to its count, NUM_ROCKS or the level-up count, and builds that batch, one rock per iteration from the next draw, in order. |
| `AsteroidsGameJs.FirstJsTickReachesLevelTwo` | asteroids_game.js:199-216 | The first tick of asteroids_game.js goes to level 2 with exactly 7 rocks in the JavaScript ranges of level 2, not over, score 0, 3 lives. |
| `AsteroidsGameJs.LevelUpSpawnsJsRocks` | asteroids_game.js:199-216 | A level-up from L spawns exactly 5 + L·2 rocks in the JavaScript ranges of level L + 1. |
| `AsteroidsGameJs.Game.constructor` | asteroids_game.js:107-120 | A new game has a fresh ship, no bullets, no rocks, level 1, score 0, and is not over. |
| `AsteroidsGameJs.Game.Tick` | asteroids_game.js:157-217 | onUpdate changes the state exactly as one tick with the second wrap pass and JavaScript spawning, and keeps it valid. |
| `AsteroidsGameJs.Game.MoveAndShoot` | asteroids_game.js:162-176 | The sprite updates followed by the bullet loop give the bullet-phase result on the moved sprites. |
| `AsteroidsGameJs.Game.KeyPress` | asteroids_game.js:219-246 | onKeyPress changes the state exactly as the key-press function, and reports closing exactly for ESCAPE while over. |
| `AsteroidsGameJs.Game.KeyRelease` | asteroids_game.js:248-254 | onKeyRelease changes the ship exactly as the key-release function. |
| `AsteroidsGameJs.Game.NewGame` | asteroids_game.js:279-300 | newGame performs the reset with five JavaScript level-1 rocks. |
| `AsteroidsGameJs.Game.RestartGame` | asteroids_game.js:302-323 | restartGame performs the same reset. |
| `AsteroidsGame2.GameOverIsFinal` | asteroids_game2.py:101-120 | Once over, no sequence of updates and new_game calls clears the flag. Updates alone leave the round unchanged. |
| `AsteroidsGame2.Apply` | asteroids_game2.py:101-153 | No event clears game over. An update while over changes nothing, and otherwise moves the level by at most one. new_game restarts level, score, bullets, rocks and lives, and keeps the game-over flag. |
| `AsteroidsGame2.Replay` | asteroids_game2.py:101-153 | Replaying no events leaves the round unchanged. Replaying a run is replaying all but its last event, then applying the last. |
| `AsteroidsGame2.SinglePassLeavesRockOutside` | asteroids_game2.py:134-142 | Without the second pass, a rock at (-60, -70) ends the tick at (850, -70), beyond the y margin. With the second pass it would end at (850, 650). |
| `AsteroidsGame2.LevelUpSpawnsInsideTheField` | asteroids_game2.py:144-153 | A level-up of this game from L spawns exactly 5 + L·2 rocks, each in level L + 1's ranges inside its own width × height, without the second wrap pass. |
| `AsteroidsGame2.Game.constructor` | asteroids_game2.py:86-99 | A new game has level 1, score 0, 3 lives, no bullets and is not over. Its five rocks come from new_game and lie in [0, width] × [0, height] and level 1's ranges. |
| `AsteroidsGame2.Game.Update` | asteroids_game2.py:117-153 | update changes the state exactly as one tick without the second wrap pass, with spawning inside width × height, and keeps it valid. |
| `AsteroidsGame2.Game.MoveAndShoot` | asteroids_game2.py:121-132 | The sprite updates followed by the bullet loop give the bullet-phase result on the moved sprites. |
| `AsteroidsGame2.Game.NewGame` | asteroids_game2.py:101-115 | new_game resets lives, level, score and both lists, spawns five rocks, and leaves the game-over flag as it was. |
| `PhaserGame.Between` | game.js:214-220 | `Phaser.Math.Between(min, max)` for a draw in [0, 1) is a whole number in [min, max]. |
| `PhaserGame.PhaserRock` | game.js:214-224 | One rock of spawnRocks: `Between` draws for position, velocity steps and radius; `setScale` leaves width and height at the texture's size. Its ranges are proved below. |
| `PhaserGame.PhaserRockInRanges` | game.js:213-225 | A spawned rock has a whole-pixel position on the screen, and velocity components that are multiples of 80 within ±80·(L + 1). Its whole radius is in [10 + 5·(L − 1), 50 + 5·(L − 1)]. |
| `PhaserGame.SpawnBatchInRanges` | game.js:212-226 | spawnRocks makes one rock per draw, each in its level's ranges, and every rock has the texture's unscaled width and height. |
| `PhaserGame.WrapAxis` | game.js:160-164 | A coordinate below −half goes to size + half, one beyond size + half goes to −half, and one in between is kept, so the result lies in [−half, size + half]. |
| `PhaserGame.WrapRock` | game.js:159-171 | x and y are wrapped independently, each with half the rock's own width or height as margin: below the margin it goes to the opposite margin, beyond it to the near one, within it stays. Velocity, radius and size are kept, and the rock ends within its margins. |
| `PhaserGame.WrapMarginIgnoresScale` | game.js:159-171 | The margin is half the frame, not half the drawn size: with a 100 × 100 texture a radius-20 rock at x = −30 stays, and one at x = −51 goes to 850. |
| `PhaserGame.UpdateSpec` | game.js:132-172 | update as a function of the scene: nothing while over, else steer and wrap every rock. Its lemma follows. |
| `PhaserGame.UpdateSteersAndWraps` | game.js:132-172 | While over, update changes nothing. In play it turns the heading by exactly −5 (LEFT, which wins) or +5 (RIGHT). It brings every rock within its margins, keeping its order and other fields, and changes nothing else. |
| `PhaserGame.ShootSpec` | game.js:174-186 | shootBullet as a function of the scene. Its lemma follows. |
| `PhaserGame.ShotAppendsOneBullet` | game.js:174-186 | While over, a shot does nothing. Otherwise it appends exactly one bullet, at the ship, with speed BULLET_SPEED. |
| `PhaserGame.LoseLifeSpec` | game.js:193-198 | loseLife as a function of the scene: one life fewer, and the flag when lives fall to 0 or less. |
| `PhaserGame.ShipHitRockSpec` | game.js:188-192 | shipHitRock as a function of the scene: that rock removed, then loseLife. Its lemmas follow. |
| `PhaserGame.ShipHitCostsOneLife` | game.js:188-198 | A ship hit destroys exactly that rock and costs one life. It ends the game exactly when lives fall to 0 or less, and never levels up. |
| `PhaserGame.LivesGoNegativeAfterGameOver` | game.js:193-198 | A ship hit after game over still takes a life: lives 0 become −1. |
| `PhaserGame.BulletHitRockSpec` | game.js:201-210 | bulletHitRock as a function of the scene: both removed, one point, and a level-up with spawning when no rock is left. Its lemma follows. |
| `PhaserGame.BulletHitScoresOne` | game.js:201-210 | A bullet hit scores exactly 1 and destroys that bullet. It destroys that rock, or, when it was the last one, levels up by one with a fresh batch. Lives and the flag are untouched. |
| `PhaserGame.GameOverSpec` | game.js:228-229 | gameOver as a function of the scene: only the flag is set. |
| `PhaserGame.ResetSpec` | game.js:247-255 | A reset gives 3 lives, level 1, score 0, not over, no bullets and the new rocks, and leaves the ship where it is. |
| `PhaserGame.ResetForgetsTheGame` | game.js:257-265 | A reset does not depend on the game before it, so repeating it gives the same state. |
| `PhaserGame.EveryRuleKeepsValid` | game.js:132-255 | Every callback keeps level ≥ 1, score ≥ 0 and lives ≤ 3, and keeps a life while in play. |
| `PhaserGame.Scene.constructor` | game.js:101-129 | create places the ship at the centre and runs newGame: 3 lives, level 1, score 0, and five rocks in level 1's ranges. |
| `PhaserGame.Scene.Update` | game.js:132-172 | The steering branches and the rock loop change the state exactly as the update function. |
| `PhaserGame.Scene.ShootBullet` | game.js:174-186 | shootBullet changes the state exactly as the shot function. |
| `PhaserGame.Scene.ShipHitRock` | game.js:188-192 | shipHitRock changes the state exactly as the ship-hit function. |
| `PhaserGame.Scene.LoseLife` | game.js:193-198 | loseLife takes one life and sets the flag when none is left. |
| `PhaserGame.Scene.BulletHitRock` | game.js:201-210 | bulletHitRock changes the state exactly as the bullet-hit function, spawning at the new level. |
| `PhaserGame.Scene.SpawnRocks` | game.js:212-226 | The loop appends exactly level·5 rocks, one per draw, each with the texture's unscaled size, and changes nothing else. |
| `PhaserGame.Scene.GameOver` | game.js:228-229 | gameOver sets the flag and changes nothing else. |
| `PhaserGame.Scene.NewGame` | game.js:247-255 | newGame performs the reset with five level-1 rocks. |
| `PhaserGame.Scene.RestartGame` | game.js:257-265 | restartGame performs the same reset. |

## Left out

- Rendering is not modelled: `on_draw`/`onDraw`, the game-over text, the HTML `render` of `asteroids_game2.py`, the HUD text, and the textures of `game.js`. The `setScale(radius / 100)` of a rock also resizes the Arcade physics body that the colliders test. The model takes collisions as caller-supplied indices, so this enters only through them. The wrap reads `rock.width` and `rock.height`, which stay the size of the 'asteroid' texture, so every rock carries that size, given as a parameter of the `Scene`.
- Audio is not modelled: every sound's `play`, `stop` and `pause`, and `on_close`/`onClose` with its two-second pause.
- Flask is not modelled: the app, its routes and `main` are network plumbing. The `dt`/`delta_time` argument is ignored, as in the source.
- Collision geometry is not modelled. Arcade's `check_for_collision[_with_list]` and Phaser's colliders become the caller's `overlaps`, `shipHit` and rock/bullet indices for the tick. Removal from a sprite list while iterating is modelled as filtering over the list.
- Trigonometry is not modelled. The `Heading` passed in is any point of the unit circle; it is not derived from the ship's angle in degrees.
- Random number generation is not modelled. The draws are inputs in [0, 1); the caller supplies as many as the loop consumes.
- Phaser physics is not modelled:
  - the ship velocity that UP/DOWN set through `velocityFromRotation`;
  - the integration of body velocities into positions;
  - `setCollideWorldBounds`;
  - Phaser's own normalisation of `angle`, which is kept here as an unbounded whole number of degrees;
  - when the colliders fire, which is decided by the caller.
- The ENTER and Q listeners that `gameOver` registers each time it runs are not modelled. ENTER leads to `RestartGame`, which is modelled; Q does nothing.
- `closeWindow`/`arcade.close_window` is not modelled; it is only reported as the `close` result of `KeyPress`.
- Numbers are exact reals and unbounded integers. Floating-point rounding is not modelled. The edge tests (`x < 0`, `x > 800`, `y < -50` and the like) compare rounded sums in the source, so a value that lands on an edge only after rounding may take the other branch there.
- Unused constants are left out: `MAX_LEVEL`, `MIN_ROCK_RADIUS` and the sprites' pixel widths.
- Nothing here corrects the source. Where its behaviour looks unintended, the code is followed and the behaviour is shown by a lemma, as listed above.
