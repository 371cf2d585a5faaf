/**
  asteroids_game.js: the same game as asteroids_game.py, line for line, except
  for its spawning loops. JavaScript has no random.uniform, and each
  `(lo, hi)` the loops multiply Math.random() by is a comma expression whose
  value is `hi` alone: every spawned coordinate, velocity and radius is
  Math.random() * hi. So rocks never start with a negative velocity, and a
  radius can be anything in [0, hi).
 */
module AsteroidsGameJs {
  import opened HostInputs
  import opened ArcadeSprites
  import opened ArcadeCollisions
  import opened ArcadeRound

  /** JavaScript's comma operator: evaluate both operands, yield the second. */
  function Comma(first: real, second: real): real {
    second
  }

  /** `Math.random() * k` for the draw u: a positive k scales into [0, k). */
  function Scale(u: real, k: real): (v: real)
    ensures 0.0 < k && 0.0 <= u < 1.0 ==> 0.0 <= v < k
  {
    ScaledDraw(k, u);
    u * k
  }

  /** One rock of the JavaScript spawning loops at level L: each value is a draw times the comma expression's value. */
  function JsRock(level: int, d: RockDraw): Rock {
    Rock(Scale(d.ux, ScreenWidth),
         Scale(d.uy, ScreenHeight),
         Scale(d.uvx, Comma(-RockVelocityBase - level as real * RockVelocityIncrement, VelocityBound(level))),
         Scale(d.uvy, Comma(-RockVelocityBase - level as real * RockVelocityIncrement, VelocityBound(level))),
         Scale(d.ur, Comma(RadiusCentre(level) - 5.0, RadiusCentre(level) + 5.0)))
  }

  /** The batch one spawning loop appends: `count` rocks, the i-th from the i-th draw. */
  function JsBatch(level: int, count: nat, draws: seq<RockDraw>): seq<Rock>
    requires count <= |draws|
  {
    seq(count, i requires 0 <= i < count => JsRock(level, draws[i]))
  }

  /** The ranges a JavaScript rock of level L lies in: every value from 0 up to, but not including, the range's upper end. */
  predicate InJsRanges(r: Rock, level: int) {
    0.0 <= r.x < ScreenWidth && 0.0 <= r.y < ScreenHeight &&
    0.0 <= r.vx < VelocityBound(level) && 0.0 <= r.vy < VelocityBound(level) &&
    0.0 <= r.radius < RadiusCentre(level) + 5.0
  }

  /** One JavaScript rock of level L lies in its level's ranges. */
  lemma JsRockInRanges(level: int, d: RockDraw)
    requires level >= StartingLevel && d.IsUnit()
    ensures InJsRanges(JsRock(level, d), level)
  {
    assert VelocityBound(level) > 0.0 && RadiusCentre(level) + 5.0 > 0.0;
  }

  /** Every rock of a JavaScript batch lies in its level's ranges. */
  lemma JsBatchInRanges(level: int, count: nat, draws: seq<RockDraw>)
    requires count <= |draws|
    requires level >= StartingLevel && AllUnit(draws)
    ensures |JsBatch(level, count, draws)| == count
    ensures forall r <- JsBatch(level, count, draws) :: InJsRanges(r, level)
  {
    forall i | 0 <= i < count
      ensures InJsRanges(JsBatch(level, count, draws)[i], level)
    {
      assert draws[i].IsUnit();
      JsRockInRanges(level, draws[i]);
    }
  }

  /**
    Against the ranges the constants describe: no JavaScript rock ever moves
    left or up, while random.uniform gives a negative velocity to any draw
    below one half; and the radius can fall below RadiusCentre(L) - 5, down to 0.
   */
  lemma JsRocksDifferFromUniform(level: int)
    requires level >= StartingLevel
    ensures var d := RockDraw(0.0, 0.0, 0.0, 0.0, 0.0);
            JsRock(level, d).vx == 0.0 && JsRock(level, d).radius == 0.0 &&
            UniformRock(level, ScreenWidth, ScreenHeight, d).vx == -VelocityBound(level) &&
            !InSpawnRanges(JsRock(level, d), level, ScreenWidth, ScreenHeight)
  {
  }

  /**
    The JavaScript spawning loop (`for (let i = 0; i < count; ++i)`): one rock
    per iteration, drawn from the next draw, appended in order.
   */
  method SpawnJs(level: int, count: nat, draws: seq<RockDraw>) returns (batch: seq<Rock>)
    requires count <= |draws|
    ensures batch == JsBatch(level, count, draws)
  {
    batch := [];
    var i := 0;
    while i < count
      invariant 0 <= i <= count
      invariant batch == JsBatch(level, i, draws)
    {
      var d := draws[i];
      var x := Scale(d.ux, ScreenWidth);
      var y := Scale(d.uy, ScreenHeight);
      var vx := Scale(d.uvx, Comma(-RockVelocityBase - level as real * RockVelocityIncrement, VelocityBound(level)));
      var vy := Scale(d.uvy, Comma(-RockVelocityBase - level as real * RockVelocityIncrement, VelocityBound(level)));
      var radius := Scale(d.ur, Comma(RadiusCentre(level) - 5.0, RadiusCentre(level) + 5.0));
      assert Rock(x, y, vx, vy, radius) == JsRock(level, d);
      batch := batch + [Rock(x, y, vx, vy, radius)];
      assert JsBatch(level, i + 1, draws) == JsBatch(level, i, draws) + [JsRock(level, d)];
      i := i + 1;
    }
  }

  /** A level-up from level L spawns RockCount(L + 1) rocks, all in the JavaScript ranges of level L + 1. */
  lemma LevelUpSpawnsJsRocks(s: Round, h: Heading, overlaps: (Bullet, Rock) -> bool, shipHit: Rock -> bool,
                             draws: seq<RockDraw>)
    requires ValidRound(s) && |draws| >= RockCount(s.level + 1) && AllUnit(draws)
    ensures var t := TickSpec(s, h, overlaps, shipHit, true, JsBatch(s.level + 1, RockCount(s.level + 1), draws));
            t.level != s.level ==>
              t.level == s.level + 1 && |t.rocks| == RockCount(t.level) &&
              forall r <- t.rocks :: InJsRanges(r, t.level)
  {
    TickLevelUp(s, h, overlaps, shipHit, true, JsBatch(s.level + 1, RockCount(s.level + 1), draws));
    JsBatchInRanges(s.level + 1, RockCount(s.level + 1), draws);
  }

  /** The first tick of asteroids_game.js likewise goes to level 2 with seven rocks, in the JavaScript ranges. */
  lemma FirstJsTickReachesLevelTwo(h: Heading, overlaps: (Bullet, Rock) -> bool, shipHit: Rock -> bool,
                                   draws: seq<RockDraw>)
    requires |draws| >= RockCount(StartingLevel + 1) && AllUnit(draws)
    ensures var t := TickSpec(InitialRound(), h, overlaps, shipHit, true,
                              JsBatch(StartingLevel + 1, RockCount(StartingLevel + 1), draws));
            t.level == 2 && |t.rocks| == 7 && !t.gameOver && t.score == 0 && t.ship.lives == StartingLives &&
            forall r <- t.rocks :: InJsRanges(r, 2)
  {
    FirstTickTakesTheBatch(h, overlaps, shipHit, true, JsBatch(StartingLevel + 1, RockCount(StartingLevel + 1), draws));
    JsBatchInRanges(StartingLevel + 1, RockCount(StartingLevel + 1), draws);
  }

  /** The Game window of asteroids_game.js, without its textures and sounds. */
  class Game {
    const ship: Ship
    var bullets: seq<Bullet>
    var rocks: seq<Rock>
    var level: int
    var score: int
    var gameOverFlag: bool

    function Snapshot(): Round
      reads this, ship
    {
      Round(ship.State(), bullets, rocks, level, score, gameOverFlag)
    }

    ghost predicate Valid()
      reads this, ship
    {
      ValidRound(Snapshot())
    }

    /** The constructor: a new ship, empty sprite lists, level 1, score 0, not over. */
    constructor ()
      ensures Valid() && fresh(ship)
      ensures Snapshot() == InitialRound()
    {
      ship := new Ship();
      bullets, rocks := [], [];
      level := StartingLevel;
      score := 0;
      gameOverFlag := false;
    }

    /**
      onUpdate. While the game is over it only draws the game-over text;
      otherwise as in asteroids_game.py, with the JavaScript spawning loop.
     */
    method Tick(h: Heading, overlaps: (Bullet, Rock) -> bool, shipHit: Rock -> bool, draws: seq<RockDraw>)
      requires Valid() && h.IsUnit()
      requires |draws| >= RockCount(level + 1) && AllUnit(draws)
      modifies this, ship
      ensures Valid()
      ensures Snapshot() == TickSpec(old(Snapshot()), h, overlaps, shipHit, true, JsBatch(old(level) + 1, RockCount(old(level) + 1), draws))
    {
      TickKeepsValid(Snapshot(), h, overlaps, shipHit, true, JsBatch(level + 1, RockCount(level + 1), draws));
      if gameOverFlag {
        return;
      }
      MoveAndShoot(h, overlaps);
      var lives, over;
      rocks, lives, over := ShipPhase(rocks, ship.lives, shipHit, true);
      ship.lives := lives;
      if over {
        gameOverFlag := true;
        return;
      }
      if |rocks| == 0 {
        level := level + 1;
        rocks := SpawnJs(level, RockCount(level), draws);
      }
    }

    /** The first part of onUpdate: every sprite list updates, then each bullet takes the rocks it overlaps. */
    method MoveAndShoot(h: Heading, overlaps: (Bullet, Rock) -> bool)
      modifies this, ship
      ensures Snapshot() == MoveAndShootSpec(old(Snapshot()), h, overlaps)
    {
      ship.Update(h);
      bullets := UpdateBullets(bullets);
      rocks := UpdateRocks(rocks);
      bullets, rocks, score := BulletPhase(bullets, rocks, overlaps, score);
    }

    /** onKeyPress; `close` reports the call to closeWindow(). */
    method KeyPress(key: Key, h: Heading, draws: seq<RockDraw>) returns (close: bool)
      requires Valid() && h.IsUnit()
      requires |draws| >= NumRocks && AllUnit(draws)
      modifies this, ship
      ensures Valid()
      ensures close <==> old(gameOverFlag) && key == Escape
      ensures Snapshot() == KeyPressSpec(old(Snapshot()), key, h, JsBatch(StartingLevel, NumRocks, draws))
    {
      close := false;
      KeysKeepValid(Snapshot(), key, h, JsBatch(StartingLevel, NumRocks, draws));
      if gameOverFlag && key == Enter {
        gameOverFlag := false;
        NewGame(draws);
      } else if gameOverFlag && key == Escape {
        close := true;
      } else if key == Left {
        ship.changeAngle := 5.0;
      } else if key == Right {
        ship.changeAngle := -5.0;
      } else if key == Up {
        ship.thrust := MovementSpeed;
      } else if key == Down {
        ship.thrust := -MovementSpeed;
      } else if key == Space {
        var bullet := Bullet(ship.x, ship.y, -BulletSpeed * h.sin, BulletSpeed * h.cos);
        bullet := bullet.(vx := bullet.vx + -BulletSpeed * h.sin, vy := bullet.vy + BulletSpeed * h.cos);
        bullets := bullets + [bullet];
      }
    }

    /** onKeyRelease. */
    method KeyRelease(key: Key)
      requires Valid()
      modifies ship
      ensures Valid()
      ensures Snapshot() == KeyReleaseSpec(old(Snapshot()), key)
    {
      if key == Left || key == Right {
        ship.changeAngle := 0.0;
      } else if key == Up || key == Down {
        ship.thrust := 0.0;
      }
    }

    /** newGame: reset lives, level, score and both lists, then spawn NUM_ROCKS rocks at level 1. */
    method NewGame(draws: seq<RockDraw>)
      requires |draws| >= NumRocks && AllUnit(draws)
      modifies this, ship
      ensures Snapshot() == ResetSpec(old(Snapshot()), JsBatch(StartingLevel, NumRocks, draws))
      ensures old(Valid()) ==> Valid()
    {
      ship.lives := StartingLives;
      level := StartingLevel;
      score := 0;
      rocks := [];
      bullets := [];
      rocks := SpawnJs(level, NumRocks, draws);
    }

    /** restartGame, a line-for-line copy of newGame. */
    method RestartGame(draws: seq<RockDraw>)
      requires |draws| >= NumRocks && AllUnit(draws)
      modifies this, ship
      ensures Snapshot() == ResetSpec(old(Snapshot()), JsBatch(StartingLevel, NumRocks, draws))
      ensures old(Valid()) ==> Valid()
    {
      NewGame(draws);
    }
  }
}
