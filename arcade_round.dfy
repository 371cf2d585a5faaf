/**
  The round of the arcade variants as a value, and what each game event does
  to it: one tick of on_update, a key press, a key release, and the reset of
  new_game / restart_game. The classes in asteroids_game.dfy,
  asteroids_game_js.dfy and asteroids_game2.dfy are proved to change their
  fields exactly as these functions say.
 */
module ArcadeRound {
  import opened HostInputs
  import opened ArcadeSprites
  import opened ArcadeCollisions

  const StartingLevel: int := 1
  const NumRocks: int := 5
  const RockVelocityBase: real := 1.0
  const RockVelocityIncrement: real := 0.5
  const RockRadiusBase: real := 20.0
  const RockRadiusIncrement: real := 5.0
  const RockNumberBase: int := 5
  const RockNumberIncrement: int := 2

  /** Everything a tick or an input event can change: the ship, both sprite lists, level, score and the game-over flag. */
  datatype Round = Round(ship: ShipState, bullets: seq<Bullet>, rocks: seq<Rock>, level: int, score: int, gameOver: bool)

  /** What every reachable round satisfies: lives in [0, 3], at least one unless the game is over. */
  predicate ValidRound(s: Round) {
    s.level >= StartingLevel && s.score >= 0 &&
    0 <= s.ship.lives <= StartingLives && (!s.gameOver ==> s.ship.lives >= 1)
  }

  // ---------------------------------------------------------------------
  // Spawning, with random.uniform

  /** random.uniform(lo, hi) for the draw u of random.random(): lo + (hi - lo) * u. */
  function Uniform(lo: real, hi: real, u: real): (v: real)
    ensures lo <= hi && 0.0 <= u <= 1.0 ==> lo <= v <= hi
  {
    ScaledDraw(hi - lo, u);
    lo + (hi - lo) * u
  }

  /** The speed bound of level L, ROCK_VELOCITY_BASE + L * ROCK_VELOCITY_INCREMENT. */
  function VelocityBound(level: int): real {
    RockVelocityBase + level as real * RockVelocityIncrement
  }

  /** The centre of level L's radius range, ROCK_RADIUS_BASE + L * ROCK_RADIUS_INCREMENT. */
  function RadiusCentre(level: int): real {
    RockRadiusBase + level as real * RockRadiusIncrement
  }

  /** How many rocks a level-up to level L spawns: ROCK_NUMBER_BASE + (L - 1) * ROCK_NUMBER_INCREMENT. */
  function RockCount(level: int): (n: int)
    ensures level >= StartingLevel ==> n >= RockNumberBase
    ensures n % 2 == 1
  {
    RockNumberBase + (level - 1) * RockNumberIncrement
  }

  /** A rock drawn for level L inside a width x height field; it lies in that level's spawning ranges. */
  function UniformRock(level: int, width: real, height: real, d: RockDraw): (r: Rock)
    ensures level >= StartingLevel && width >= 0.0 && height >= 0.0 && d.IsUnit() ==>
              InSpawnRanges(r, level, width, height)
  {
    Rock(Uniform(0.0, width, d.ux),
         Uniform(0.0, height, d.uy),
         Uniform(-RockVelocityBase - level as real * RockVelocityIncrement, VelocityBound(level), d.uvx),
         Uniform(-RockVelocityBase - level as real * RockVelocityIncrement, VelocityBound(level), d.uvy),
         Uniform(RadiusCentre(level) - 5.0, RadiusCentre(level) + 5.0, d.ur))
  }

  /** The ranges a rock spawned for level L lies in. */
  predicate InSpawnRanges(r: Rock, level: int, width: real, height: real) {
    0.0 <= r.x <= width && 0.0 <= r.y <= height &&
    -VelocityBound(level) <= r.vx <= VelocityBound(level) &&
    -VelocityBound(level) <= r.vy <= VelocityBound(level) &&
    RadiusCentre(level) - 5.0 <= r.radius <= RadiusCentre(level) + 5.0
  }

  /**
    The batch one spawning loop `for i in range(count)` appends: `count` rocks,
    the i-th drawn from the i-th draw of the supply.
   */
  function UniformBatch(level: int, count: nat, width: real, height: real, draws: seq<RockDraw>): (b: seq<Rock>)
    requires count <= |draws|
    ensures |b| == count
  {
    seq(count, i requires 0 <= i < count => UniformRock(level, width, height, draws[i]))
  }

  /** A batch has exactly `count` rocks, and every one lies in its level's ranges. */
  lemma UniformBatchInRanges(level: int, count: nat, width: real, height: real, draws: seq<RockDraw>)
    requires count <= |draws|
    requires level >= StartingLevel && width >= 0.0 && height >= 0.0 && AllUnit(draws)
    ensures |UniformBatch(level, count, width, height, draws)| == count
    ensures forall r <- UniformBatch(level, count, width, height, draws) :: InSpawnRanges(r, level, width, height)
  {
    forall r <- UniformBatch(level, count, width, height, draws)
      ensures InSpawnRanges(r, level, width, height)
    {
      var i :| 0 <= i < count && r == UniformBatch(level, count, width, height, draws)[i];
      assert draws[i].IsUnit();
    }
  }

  /**
    The spawning loop `for i in range(count)`: one rock per iteration, drawn
    from the next draw, appended in order.
   */
  method SpawnUniform(level: int, count: nat, width: real, height: real, draws: seq<RockDraw>) returns (batch: seq<Rock>)
    requires count <= |draws|
    ensures batch == UniformBatch(level, count, width, height, draws)
  {
    batch := [];
    var i := 0;
    while i < count
      invariant 0 <= i <= count
      invariant batch == UniformBatch(level, i, width, height, draws)
    {
      var d := draws[i];
      var rock := Rock(Uniform(0.0, width, d.ux),
                       Uniform(0.0, height, d.uy),
                       Uniform(-RockVelocityBase - level as real * RockVelocityIncrement, VelocityBound(level), d.uvx),
                       Uniform(-RockVelocityBase - level as real * RockVelocityIncrement, VelocityBound(level), d.uvy),
                       Uniform(RadiusCentre(level) - 5.0, RadiusCentre(level) + 5.0, d.ur));
      assert UniformBatch(level, i + 1, width, height, draws) == UniformBatch(level, i, width, height, draws) + [rock];
      batch := batch + [rock];
      i := i + 1;
    }
  }

  // ---------------------------------------------------------------------
  // One tick

  /**
    on_update: nothing while the game is over; otherwise move the ship, the
    bullets and the rocks, run the bullet phase and the ship phase, and, when
    the game did not just end and no rock is left, go up a level and add
    `batch`, the rocks the spawning loop draws for the new level. `rewrap` says
    whether the ship phase runs the wrap chain again on the rocks it spares.
   */
  function TickSpec(s: Round, h: Heading, overlaps: (Bullet, Rock) -> bool, shipHit: Rock -> bool,
                    rewrap: bool, batch: seq<Rock>): Round
  {
    if s.gameOver then s
    else
      var shot := MoveAndShootSpec(s, h, overlaps);
      var crash := ShipSweep(shot.rocks, shot.ship.lives, shipHit, rewrap);
      var played := shot.(ship := shot.ship.(lives := crash.lives), rocks := crash.rocks, gameOver := crash.over);
      if !crash.over && crash.rocks == [] then played.(level := s.level + 1, rocks := batch)
      else played
  }

  /**
    The first part of a tick: the ship, the bullets and the rocks update, then
    the bullet phase runs on the moved sprites and scores its points.
   */
  function MoveAndShootSpec(s: Round, h: Heading, overlaps: (Bullet, Rock) -> bool): Round {
    var sweep := Sweep(UpdateBullets(s.bullets), UpdateRocks(s.rocks), overlaps);
    s.(ship := ShipStep(s.ship, h), bullets := sweep.bullets, rocks := sweep.rocks, score := s.score + sweep.gain)
  }

  /** While the game is over a tick changes nothing. */
  lemma TickWhileOverChangesNothing(s: Round, h: Heading, overlaps: (Bullet, Rock) -> bool, shipHit: Rock -> bool,
                                    rewrap: bool, batch: seq<Rock>)
    requires s.gameOver
    ensures TickSpec(s, h, overlaps, shipHit, rewrap, batch) == s
  {
  }

  /** The number of rocks some bullet hits this tick: after both have moved, the rocks some bullet touches. */
  function RocksShot(s: Round, overlaps: (Bullet, Rock) -> bool): int {
    var rocks := UpdateRocks(s.rocks);
    |rocks| - |Untouched(rocks, UpdateBullets(s.bullets), overlaps)|
  }

  /**
    In play, the score grows by exactly the number of rocks shot this tick, and
    never falls.
   */
  lemma TickScore(s: Round, h: Heading, overlaps: (Bullet, Rock) -> bool, shipHit: Rock -> bool,
                  rewrap: bool, batch: seq<Rock>)
    requires !s.gameOver
    ensures var t := TickSpec(s, h, overlaps, shipHit, rewrap, batch);
            t.score == s.score + RocksShot(s, overlaps) && t.score >= s.score
  {
    var bullets, rocks := UpdateBullets(s.bullets), UpdateRocks(s.rocks);
    SweepScoresRemovedRocks(bullets, rocks, overlaps);
    SweepLeavesUntouchedRocks(bullets, rocks, overlaps);
  }

  /**
    A tick keeps a valid round valid: lives never drop below zero, the game
    ends exactly when they reach zero, and the level and score only grow.
   */
  lemma TickKeepsValid(s: Round, h: Heading, overlaps: (Bullet, Rock) -> bool, shipHit: Rock -> bool,
                       rewrap: bool, batch: seq<Rock>)
    requires ValidRound(s)
    ensures var t := TickSpec(s, h, overlaps, shipHit, rewrap, batch);
            ValidRound(t) && t.level >= s.level && t.score >= s.score
    ensures var t := TickSpec(s, h, overlaps, shipHit, rewrap, batch);
            !s.gameOver ==> (t.gameOver <==> t.ship.lives == 0)
  {
    if !s.gameOver {
      var ship := ShipStep(s.ship, h);
      var sweep := Sweep(UpdateBullets(s.bullets), UpdateRocks(s.rocks), overlaps);
      SweepScoresRemovedRocks(UpdateBullets(s.bullets), UpdateRocks(s.rocks), overlaps);
      ShipSweepLives(sweep.rocks, ship.lives, shipHit, rewrap);
    }
  }

  /**
    With the second wrap pass of the ship phase, every rock still in play after
    a tick that neither ends the game nor levels up lies within the margin of
    MAX_ROCK_RADIUS on both axes, even where one pass of the chain would have
    left y outside.
   */
  lemma TickRewrapKeepsRocksWithinMargin(s: Round, h: Heading, overlaps: (Bullet, Rock) -> bool, shipHit: Rock -> bool,
                                         batch: seq<Rock>)
    requires !s.gameOver
    ensures var t := TickSpec(s, h, overlaps, shipHit, true, batch);
            !t.gameOver && t.level == s.level ==> forall r <- t.rocks :: WithinMargin(r.x, r.y)
  {
    var bullets, rocks := UpdateBullets(s.bullets), UpdateRocks(s.rocks);
    var sweep := Sweep(bullets, rocks, overlaps);
    var crash := ShipSweep(sweep.rocks, ShipStep(s.ship, h).lives, shipHit, true);
    SweepLeavesUntouchedRocks(bullets, rocks, overlaps);
    UntouchedAreRocks(rocks, bullets, overlaps);
    forall q <- sweep.rocks
      ensures WithinMargin(WrapRock(q).x, WrapRock(q).y)
    {
      var i :| 0 <= i < |rocks| && q == rocks[i];
      var m := s.rocks[i].(x := s.rocks[i].x + s.rocks[i].vx, y := s.rocks[i].y + s.rocks[i].vy);
      assert q == WrapRock(m);
      WrapTwiceWithinMargin(m);
    }
    ShipSweepWithoutGameOver(sweep.rocks, ShipStep(s.ship, h).lives, shipHit, true);
    if !crash.over {
      SparedWithinMargin(sweep.rocks, shipHit);
    }
  }

  /**
    When a tick ends the game, it happens through the last life, and the tick
    returns before the level-up: the level stays.
   */
  lemma TickGameOverSkipsLevelUp(s: Round, h: Heading, overlaps: (Bullet, Rock) -> bool, shipHit: Rock -> bool,
                                 rewrap: bool, batch: seq<Rock>)
    requires ValidRound(s) && !s.gameOver
    ensures var t := TickSpec(s, h, overlaps, shipHit, rewrap, batch);
            t.gameOver ==> t.ship.lives == 0 && t.level == s.level
  {
    var ship := ShipStep(s.ship, h);
    var sweep := Sweep(UpdateBullets(s.bullets), UpdateRocks(s.rocks), overlaps);
    ShipSweepLives(sweep.rocks, ship.lives, shipHit, rewrap);
  }

  /**
    The level changes only by a level-up of exactly one, which replaces the
    (empty) rock list by the spawned batch; so, with a non-empty batch, a round
    still in play after a tick always has rocks.
   */
  lemma TickLevelUp(s: Round, h: Heading, overlaps: (Bullet, Rock) -> bool, shipHit: Rock -> bool,
                    rewrap: bool, batch: seq<Rock>)
    requires batch != []
    ensures var t := TickSpec(s, h, overlaps, shipHit, rewrap, batch);
            (t.level == s.level || (t.level == s.level + 1 && t.rocks == batch && !t.gameOver)) &&
            (!t.gameOver ==> t.rocks != [])
  {
  }

  /**
    The level goes up exactly when the ship phase leaves the game running with
    no rock on the field; otherwise the field is what the ship phase left and
    the game is over exactly when it said so.
   */
  lemma TickLevelsUpExactlyWhenCleared(s: Round, h: Heading, overlaps: (Bullet, Rock) -> bool, shipHit: Rock -> bool,
                                       rewrap: bool, batch: seq<Rock>)
    requires !s.gameOver
    ensures var crash := ShipSweep(MoveAndShootSpec(s, h, overlaps).rocks, ShipStep(s.ship, h).lives, shipHit, rewrap);
            var t := TickSpec(s, h, overlaps, shipHit, rewrap, batch);
            (t.level == s.level + 1 <==> !crash.over && crash.rocks == []) &&
            (t.level == s.level + 1 ==> t.rocks == batch && !t.gameOver) &&
            (t.level == s.level ==> t.rocks == crash.rocks && t.gameOver == crash.over && t.ship.lives == crash.lives)
  {
  }

  /**
    A level-up from level L spawns exactly RockCount(L + 1) rocks, each with
    its position inside the width x height field, its velocity components
    within ±(1 + 0.5(L + 1)) and its radius within 20 + 5(L + 1) ± 5. MAX_LEVEL
    plays no part: this holds at every level, with or without the second wrap
    pass.
   */
  lemma LevelUpSpawnsByTheFormula(s: Round, h: Heading, overlaps: (Bullet, Rock) -> bool, shipHit: Rock -> bool,
                                  rewrap: bool, width: real, height: real, draws: seq<RockDraw>)
    requires ValidRound(s) && |draws| >= RockCount(s.level + 1) && AllUnit(draws)
    requires width >= 0.0 && height >= 0.0
    ensures var t := TickSpec(s, h, overlaps, shipHit, rewrap,
                              UniformBatch(s.level + 1, RockCount(s.level + 1), width, height, draws));
            t.level != s.level ==>
              t.level == s.level + 1 && |t.rocks| == RockCount(t.level) &&
              forall r <- t.rocks :: InSpawnRanges(r, t.level, width, height)
  {
    var batch := UniformBatch(s.level + 1, RockCount(s.level + 1), width, height, draws);
    TickLevelUp(s, h, overlaps, shipHit, rewrap, batch);
    UniformBatchInRanges(s.level + 1, RockCount(s.level + 1), width, height, draws);
  }

  /**
    The round the constructors of asteroids_game.py and asteroids_game.js
    build: a new ship, no bullets, no rocks, level 1, score 0, not over.
   */
  function InitialRound(): Round {
    Round(ShipState(ScreenWidth / 2.0, ScreenHeight / 2.0, 0.0, 0.0, 0.0, StartingLives), [], [], StartingLevel, 0, false)
  }

  /**
    The first tick of a round that starts without rocks finds none, so it goes
    to level 2 and takes whatever batch the spawning loop draws for it.
   */
  lemma FirstTickTakesTheBatch(h: Heading, overlaps: (Bullet, Rock) -> bool, shipHit: Rock -> bool,
                               rewrap: bool, batch: seq<Rock>)
    ensures var t := TickSpec(InitialRound(), h, overlaps, shipHit, rewrap, batch);
            t.level == 2 && t.rocks == batch && !t.gameOver && t.score == 0 && t.ship.lives == StartingLives
  {
    var s := InitialRound();
    var bullets := UpdateBullets(s.bullets);
    assert UpdateRocks(s.rocks) == [];
    SweepScoresRemovedRocks(bullets, [], overlaps);
  }

  /**
    So the first tick of asteroids_game.py goes to level 2 with
    ROCK_NUMBER_BASE + ROCK_NUMBER_INCREMENT = 7 rocks drawn by random.uniform.
   */
  lemma FirstTickReachesLevelTwo(h: Heading, overlaps: (Bullet, Rock) -> bool, shipHit: Rock -> bool,
                                 draws: seq<RockDraw>)
    requires |draws| >= RockCount(StartingLevel + 1) && AllUnit(draws)
    ensures var t := TickSpec(InitialRound(), h, overlaps, shipHit, true,
                              UniformBatch(StartingLevel + 1, RockCount(StartingLevel + 1), ScreenWidth, ScreenHeight, draws));
            t.level == 2 && |t.rocks| == 7 && !t.gameOver && t.score == 0 && t.ship.lives == StartingLives &&
            forall r <- t.rocks :: InSpawnRanges(r, 2, ScreenWidth, ScreenHeight)
  {
    FirstTickTakesTheBatch(h, overlaps, shipHit, true,
                           UniformBatch(StartingLevel + 1, RockCount(StartingLevel + 1), ScreenWidth, ScreenHeight, draws));
    UniformBatchInRanges(StartingLevel + 1, RockCount(StartingLevel + 1), ScreenWidth, ScreenHeight, draws);
  }

  // ---------------------------------------------------------------------
  // Reset, key press, key release

  /**
    new_game / restart_game: three lives, level 1, score 0, no bullets, and the
    NUM_ROCKS rocks of `batch`; the ship's position, heading and controls and the
    game-over flag are left as they were.
   */
  function ResetSpec(s: Round, batch: seq<Rock>): (r: Round)
    ensures r.ship.lives == StartingLives && r.level == StartingLevel && r.score == 0
    ensures r.bullets == [] && r.rocks == batch && r.gameOver == s.gameOver
    ensures r.ship.(lives := s.ship.lives) == s.ship
  {
    Round(s.ship.(lives := StartingLives), [], batch, StartingLevel, 0, s.gameOver)
  }

  /** Resetting does not depend on the round before, so resetting twice is resetting once. */
  lemma ResetForgetsTheRound(s: Round, t: Round, batch: seq<Rock>)
    requires s.ship == t.ship && s.gameOver == t.gameOver
    ensures ResetSpec(s, batch) == ResetSpec(t, batch)
    ensures ResetSpec(ResetSpec(s, batch), batch) == ResetSpec(s, batch)
  {
  }

  datatype Key = Left | Right | Up | Down | Space | Enter | Escape | OtherKey

  /**
    The bullet SPACE fires: at the ship's centre, with the heading velocity the
    Bullet constructor sets and then the same vector added once more. `h` is the
    sine and cosine of the ship's angle.
   */
  function FireBullet(ship: ShipState, h: Heading): Bullet {
    var vx := -BulletSpeed * h.sin;
    var vy := BulletSpeed * h.cos;
    Bullet(ship.x, ship.y, vx + -BulletSpeed * h.sin, vy + BulletSpeed * h.cos)
  }

  /** A fired bullet moves at twice BULLET_SPEED along the heading, from the ship's centre. */
  lemma FiredBulletHasTwiceBulletSpeed(ship: ShipState, h: Heading)
    requires h.IsUnit()
    ensures var b := FireBullet(ship, h);
            b.x == ship.x && b.y == ship.y &&
            b.vx == 2.0 * (-BulletSpeed * h.sin) && b.vy == 2.0 * (BulletSpeed * h.cos) &&
            b.vx * b.vx + b.vy * b.vy == (2.0 * BulletSpeed) * (2.0 * BulletSpeed)
  {
    var b := FireBullet(ship, h);
    assert b.vx * b.vx == 256.0 * (h.sin * h.sin);
    assert b.vy * b.vy == 256.0 * (h.cos * h.cos);
  }

  /**
    on_key_press: while the game is over ENTER clears the flag and resets the
    round with `batch`, and ESCAPE closes the window (no change to the round);
    otherwise, and also while the game is over, the arrow keys set the turn
    rate or thrust and SPACE fires a bullet. Any other key does nothing.
   */
  function KeyPressSpec(s: Round, key: Key, h: Heading, batch: seq<Rock>): Round {
    if s.gameOver && key == Enter then ResetSpec(s.(gameOver := false), batch)
    else if s.gameOver && key == Escape then s
    else match key
      case Left => s.(ship := s.ship.(changeAngle := 5.0))
      case Right => s.(ship := s.ship.(changeAngle := -5.0))
      case Up => s.(ship := s.ship.(thrust := MovementSpeed))
      case Down => s.(ship := s.ship.(thrust := -MovementSpeed))
      case Space => s.(bullets := s.bullets + [FireBullet(s.ship, h)])
      case _ => s
  }

  /** on_key_release: LEFT/RIGHT zero the turn rate, UP/DOWN zero the thrust. */
  function KeyReleaseSpec(s: Round, key: Key): Round {
    if key == Left || key == Right then s.(ship := s.ship.(changeAngle := 0.0))
    else if key == Up || key == Down then s.(ship := s.ship.(thrust := 0.0))
    else s
  }

  /**
    A key press changes only what its branch names: a movement key only the
    turn rate or the thrust, SPACE only the bullet list (by one bullet at the
    end), ENTER while over everything a reset does, and every other case nothing.
   */
  lemma KeyPressChangesOnlyItsControl(s: Round, key: Key, h: Heading, batch: seq<Rock>)
    ensures var t := KeyPressSpec(s, key, h, batch);
            (key in {Left, Right} ==>
               t == s.(ship := s.ship.(changeAngle := t.ship.changeAngle)) &&
               t.ship.changeAngle == (if key == Left then 5.0 else -5.0)) &&
            (key in {Up, Down} ==>
               t == s.(ship := s.ship.(thrust := t.ship.thrust)) &&
               t.ship.thrust == (if key == Up then MovementSpeed else -MovementSpeed)) &&
            (key == Space ==>
               t == s.(bullets := t.bullets) && |t.bullets| == |s.bullets| + 1 &&
               t.bullets[..|s.bullets|] == s.bullets && t.bullets[|s.bullets|] == FireBullet(s.ship, h)) &&
            (key == Enter && s.gameOver ==> !t.gameOver && t == ResetSpec(s.(gameOver := false), batch)) &&
            (key in {Enter, Escape, OtherKey} && !(key == Enter && s.gameOver) ==> t == s)
  {
  }

  /**
    The game-over test guards only ENTER and ESCAPE: movement keys and SPACE act
    the same whether or not the game is over.
   */
  lemma MovementKeysIgnoreGameOver(s: Round, key: Key, h: Heading, batch: seq<Rock>)
    requires key !in {Enter, Escape}
    ensures KeyPressSpec(s.(gameOver := true), key, h, batch) == KeyPressSpec(s.(gameOver := false), key, h, batch).(gameOver := true)
  {
  }

  /** A key release changes only the turn rate (LEFT/RIGHT) or the thrust (UP/DOWN), setting it to 0. */
  lemma KeyReleaseZeroesItsControl(s: Round, key: Key)
    ensures var t := KeyReleaseSpec(s, key);
            (key in {Left, Right} ==> t == s.(ship := s.ship.(changeAngle := 0.0))) &&
            (key in {Up, Down} ==> t == s.(ship := s.ship.(thrust := 0.0))) &&
            (key !in {Left, Right, Up, Down} ==> t == s)
  {
  }

  /** Outside a tick, the score changes only by the reset to 0 that ENTER performs after a game over. */
  lemma KeysKeepScore(s: Round, key: Key, h: Heading, batch: seq<Rock>)
    ensures KeyReleaseSpec(s, key).score == s.score
    ensures var t := KeyPressSpec(s, key, h, batch);
            t.score == (if s.gameOver && key == Enter then 0 else s.score)
  {
  }

  /** Key events keep a valid round valid. */
  lemma KeysKeepValid(s: Round, key: Key, h: Heading, batch: seq<Rock>)
    requires ValidRound(s)
    ensures ValidRound(KeyPressSpec(s, key, h, batch)) && ValidRound(KeyReleaseSpec(s, key))
  {
  }
}
