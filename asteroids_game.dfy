/**
  asteroids_game.py: the Game window's state and its event handlers. The
  constructor leaves the rock list empty and never calls new_game, so the
  first tick of a fresh game already levels up.
 */
module AsteroidsGame {
  import opened HostInputs
  import opened ArcadeSprites
  import opened ArcadeCollisions
  import opened ArcadeRound

  /** The game window of asteroids_game.py, without its textures and sounds. */
  class Game {
    const ship: Ship
    var bullets: seq<Bullet>
    var rocks: seq<Rock>
    var level: int
    var score: int
    var gameOver: bool

    function Snapshot(): Round
      reads this, ship
    {
      Round(ship.State(), bullets, rocks, level, score, gameOver)
    }

    ghost predicate Valid()
      reads this, ship
    {
      ValidRound(Snapshot())
    }

    /** `__init__`: a new ship, empty sprite lists, level 1, score 0, not over. */
    constructor ()
      ensures Valid() && fresh(ship)
      ensures Snapshot() == InitialRound()
    {
      ship := new Ship();
      bullets, rocks := [], [];
      level := StartingLevel;
      score := 0;
      gameOver := false;
    }

    /**
      on_update. `h` is the sine and cosine of the ship's heading after this
      tick's turn; `overlaps` and `shipHit` are the library's collision tests
      for this tick; `draws` are the random numbers a level-up would consume.
     */
    method Tick(h: Heading, overlaps: (Bullet, Rock) -> bool, shipHit: Rock -> bool, draws: seq<RockDraw>)
      requires Valid() && h.IsUnit()
      requires |draws| >= RockCount(level + 1) && AllUnit(draws)
      modifies this, ship
      ensures Valid()
      ensures Snapshot() == TickSpec(old(Snapshot()), h, overlaps, shipHit, true,
                                     UniformBatch(old(level) + 1, RockCount(old(level) + 1), ScreenWidth, ScreenHeight, draws))
    {
      TickKeepsValid(Snapshot(), h, overlaps, shipHit, true, UniformBatch(level + 1, RockCount(level + 1), ScreenWidth, ScreenHeight, draws));
      if gameOver {
        return;
      }
      MoveAndShoot(h, overlaps);
      var lives, over;
      rocks, lives, over := ShipPhase(rocks, ship.lives, shipHit, true);
      ship.lives := lives;
      if over {
        gameOver := true;
        return;
      }
      if |rocks| == 0 {
        level := level + 1;
        rocks := SpawnUniform(level, RockCount(level), ScreenWidth, ScreenHeight, draws);
      }
    }

    /** The first part of on_update: every sprite list updates, then each bullet takes the rocks it overlaps. */
    method MoveAndShoot(h: Heading, overlaps: (Bullet, Rock) -> bool)
      modifies this, ship
      ensures Snapshot() == MoveAndShootSpec(old(Snapshot()), h, overlaps)
    {
      ship.Update(h);
      bullets := UpdateBullets(bullets);
      rocks := UpdateRocks(rocks);
      bullets, rocks, score := BulletPhase(bullets, rocks, overlaps, score);
    }

    /**
      on_key_press. `h` is the sine and cosine of the ship's angle; `draws` are
      the random numbers new_game would consume. `close` reports the call to
      arcade.close_window().
     */
    method KeyPress(key: Key, h: Heading, draws: seq<RockDraw>) returns (close: bool)
      requires Valid() && h.IsUnit()
      requires |draws| >= NumRocks && AllUnit(draws)
      modifies this, ship
      ensures Valid()
      ensures close <==> old(gameOver) && key == Escape
      ensures Snapshot() == KeyPressSpec(old(Snapshot()), key, h, UniformBatch(StartingLevel, NumRocks, ScreenWidth, ScreenHeight, draws))
    {
      close := false;
      KeysKeepValid(Snapshot(), key, h, UniformBatch(StartingLevel, NumRocks, ScreenWidth, ScreenHeight, draws));
      if gameOver && key == Enter {
        gameOver := false;
        NewGame(draws);
      } else if gameOver && key == Escape {
        close := true;
      } else if key == Left {
        ship.changeAngle := 5.0;
      } else if key == Right {
        ship.changeAngle := -5.0;
      } else if key == Up {
        ship.thrust := MovementSpeed;
      } else if key == Down {
        ship.thrust := -MovementSpeed;
      } else if key == Space {
        var bullet := Bullet(ship.x, ship.y, -BulletSpeed * h.sin, BulletSpeed * h.cos);
        bullet := bullet.(vx := bullet.vx + -BulletSpeed * h.sin, vy := bullet.vy + BulletSpeed * h.cos);
        bullets := bullets + [bullet];
      }
    }

    /** on_key_release. */
    method KeyRelease(key: Key)
      requires Valid()
      modifies ship
      ensures Valid()
      ensures Snapshot() == KeyReleaseSpec(old(Snapshot()), key)
    {
      if key == Left || key == Right {
        ship.changeAngle := 0.0;
      } else if key == Up || key == Down {
        ship.thrust := 0.0;
      }
    }

    /** new_game: reset lives, level, score and both lists, then spawn NUM_ROCKS rocks at level 1. */
    method NewGame(draws: seq<RockDraw>)
      requires |draws| >= NumRocks && AllUnit(draws)
      modifies this, ship
      ensures Snapshot() == ResetSpec(old(Snapshot()), UniformBatch(StartingLevel, NumRocks, ScreenWidth, ScreenHeight, draws))
      ensures old(Valid()) ==> Valid()
    {
      ship.lives := StartingLives;
      level := StartingLevel;
      score := 0;
      rocks := [];
      bullets := [];
      rocks := SpawnUniform(level, NumRocks, ScreenWidth, ScreenHeight, draws);
    }

    /** restart_game, a line-for-line copy of new_game. */
    method RestartGame(draws: seq<RockDraw>)
      requires |draws| >= NumRocks && AllUnit(draws)
      modifies this, ship
      ensures Snapshot() == ResetSpec(old(Snapshot()), UniformBatch(StartingLevel, NumRocks, ScreenWidth, ScreenHeight, draws))
      ensures old(Valid()) ==> Valid()
    {
      NewGame(draws);
    }
  }
}
