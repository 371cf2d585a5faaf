/**
  asteroids_game2.py: the Flask-served copy of the game. Its Game keeps its own
  width and height (used for spawning only; the sprites still wrap at the
  800 x 600 screen), calls new_game from its constructor, has no key handlers,
  and its update runs no second wrap pass over the rocks the ship spares.
  Nothing in it ever clears the game-over flag.
 */
module AsteroidsGame2 {
  import opened HostInputs
  import opened ArcadeSprites
  import opened ArcadeCollisions
  import opened ArcadeRound

  /** The two things that can happen to this game: an update, or a call of new_game. */
  datatype Event =
    | UpdateEvent(h: Heading, overlaps: (Bullet, Rock) -> bool, shipHit: Rock -> bool, batch: seq<Rock>)
    | NewGameEvent(batch: seq<Rock>)

  /**
    What one event does to the round. No event clears the game-over flag; an
    update while over changes nothing and otherwise moves the level by at most
    one; new_game restarts level, score and rocks but leaves the flag alone.
   */
  function Apply(s: Round, e: Event): (r: Round)
    ensures s.gameOver ==> r.gameOver
    ensures e.UpdateEvent? ==> (s.gameOver ==> r == s) && (r.level == s.level || r.level == s.level + 1)
    ensures e.NewGameEvent? ==>
              r.level == StartingLevel && r.score == 0 && r.bullets == [] && r.rocks == e.batch &&
              r.ship.lives == StartingLives && r.gameOver == s.gameOver
  {
    match e
    case UpdateEvent(h, overlaps, shipHit, batch) => TickSpec(s, h, overlaps, shipHit, false, batch)
    case NewGameEvent(batch) => ResetSpec(s, batch)
  }

  /**
    The round after a run of events, applied in order: no events leave the
    round as it is, and a longer run is the shorter one followed by its last
    event.
   */
  function Replay(s: Round, events: seq<Event>): (r: Round)
    ensures events == [] ==> r == s
    ensures events != [] ==> r == Apply(Replay(s, events[..|events| - 1]), events[|events| - 1])
    decreases |events|
  {
    if events == [] then s
    else
      var rest := events[1..];
      assert rest != [] ==> events[..|events| - 1][1..] == rest[..|rest| - 1];
      Replay(Apply(s, events[0]), rest)
  }

  /**
    Game over is final: once the flag is set, no run of updates and new games
    clears it, and updates alone leave the round exactly as it is.
   */
  lemma {:induction false} GameOverIsFinal(s: Round, events: seq<Event>)
    requires s.gameOver
    ensures Replay(s, events).gameOver
    ensures (forall e <- events :: e.UpdateEvent?) ==> Replay(s, events) == s
    decreases |events|
  {
    if events != [] {
      var t := Apply(s, events[0]);
      assert t.gameOver;
      GameOverIsFinal(t, events[1..]);
      if forall e <- events :: e.UpdateEvent? {
        assert events[0].UpdateEvent?;
        assert t == s;
        assert forall e <- events[1..] :: e.UpdateEvent?;
      }
    }
  }

  /**
    A single wrap pass: a rock beyond both the left and the top margin comes out
    of update with x wrapped but y still beyond the margin, where
    asteroids_game.py's second pass would also have wrapped y.
   */
  lemma SinglePassLeavesRockOutside(h: Heading, batch: seq<Rock>)
    ensures var s := Round(ShipState(400.0, 300.0, 0.0, 0.0, 0.0, 3), [], [Rock(-60.0, -70.0, 0.0, 0.0, 20.0)], 1, 0, false);
            var overlaps := (b: Bullet, r: Rock) => false;
            var shipHit := (r: Rock) => false;
            var once := TickSpec(s, h, overlaps, shipHit, false, batch);
            var twice := TickSpec(s, h, overlaps, shipHit, true, batch);
            once.rocks == [Rock(ScreenWidth + MaxRockRadius, -70.0, 0.0, 0.0, 20.0)] &&
            !WithinMargin(once.rocks[0].x, once.rocks[0].y) &&
            twice.rocks == [Rock(ScreenWidth + MaxRockRadius, ScreenHeight + MaxRockRadius, 0.0, 0.0, 20.0)]
  {
    var rock := Rock(-60.0, -70.0, 0.0, 0.0, 20.0);
    var moved := Rock(ScreenWidth + MaxRockRadius, -70.0, 0.0, 0.0, 20.0);
    var overlaps := (b: Bullet, r: Rock) => false;
    var shipHit := (r: Rock) => false;
    assert UpdateBullets([]) == [];
    assert UpdateRocks([rock]) == [moved];
    assert Sweep([], [moved], overlaps) == SweepResult([], [moved], 0);
    assert ShipSweep([moved][1..], 3, shipHit, false) == ShipResult([], 3, false);
    assert ShipSweep([moved], 3, shipHit, false) == ShipResult([moved], 3, false);
    assert ShipSweep([moved], 3, shipHit, true) == ShipResult([WrapRock(moved)], 3, false);
  }

  /**
    A level-up of this game spawns inside its own width x height: from level L,
    exactly RockCount(L + 1) rocks, each in level L + 1's ranges within that
    field, without any second wrap pass.
   */
  lemma LevelUpSpawnsInsideTheField(s: Round, h: Heading, overlaps: (Bullet, Rock) -> bool, shipHit: Rock -> bool,
                                    width: real, height: real, draws: seq<RockDraw>)
    requires ValidRound(s) && |draws| >= RockCount(s.level + 1) && AllUnit(draws)
    requires width >= 0.0 && height >= 0.0
    ensures var t := Apply(s, UpdateEvent(h, overlaps, shipHit, UniformBatch(s.level + 1, RockCount(s.level + 1), width, height, draws)));
            t.level != s.level ==>
              t.level == s.level + 1 && |t.rocks| == RockCount(t.level) &&
              forall r <- t.rocks :: InSpawnRanges(r, t.level, width, height)
  {
    LevelUpSpawnsByTheFormula(s, h, overlaps, shipHit, false, width, height, draws);
  }

  /** The Game of asteroids_game2.py, without its sounds and its HTML rendering. */
  class Game {
    const width: real
    const height: real
    const ship: Ship
    var bullets: seq<Bullet>
    var rocks: seq<Rock>
    var level: int
    var score: int
    var gameOverFlag: bool

    function Snapshot(): Round
      reads this, ship
    {
      Round(ship.State(), bullets, rocks, level, score, gameOverFlag)
    }

    ghost predicate Valid()
      reads this, ship
    {
      ValidRound(Snapshot())
    }

    /**
      `__init__` sets up a new ship and empty lists and then calls new_game,
      which spawns NUM_ROCKS level-1 rocks inside width x height.
     */
    constructor (width: real, height: real, draws: seq<RockDraw>)
      requires |draws| >= NumRocks && AllUnit(draws)
      ensures this.width == width && this.height == height && fresh(ship)
      ensures Valid()
      ensures Snapshot() == Round(ShipState(ScreenWidth / 2.0, ScreenHeight / 2.0, 0.0, 0.0, 0.0, StartingLives),
                                  [], UniformBatch(StartingLevel, NumRocks, width, height, draws), StartingLevel, 0, false)
      ensures width >= 0.0 && height >= 0.0 ==>
                forall r <- rocks :: InSpawnRanges(r, StartingLevel, width, height)
    {
      this.width := width;
      this.height := height;
      ship := new Ship();
      bullets, rocks := [], [];
      level := StartingLevel;
      score := 0;
      gameOverFlag := false;
      new;
      NewGame(draws);
      if width >= 0.0 && height >= 0.0 {
        UniformBatchInRanges(StartingLevel, NumRocks, width, height, draws);
      }
    }

    /**
      update(dt): as asteroids_game.py's on_update, but the ship phase only
      removes rocks, and a level-up spawns inside width x height. `dt` is never
      read.
     */
    method Update(h: Heading, overlaps: (Bullet, Rock) -> bool, shipHit: Rock -> bool, draws: seq<RockDraw>)
      requires Valid() && h.IsUnit()
      requires |draws| >= RockCount(level + 1) && AllUnit(draws)
      modifies this, ship
      ensures Valid()
      ensures Snapshot() == TickSpec(old(Snapshot()), h, overlaps, shipHit, false,
                                     UniformBatch(old(level) + 1, RockCount(old(level) + 1), width, height, draws))
    {
      TickKeepsValid(Snapshot(), h, overlaps, shipHit, false, UniformBatch(level + 1, RockCount(level + 1), width, height, draws));
      if gameOverFlag {
        return;
      }
      MoveAndShoot(h, overlaps);
      var lives, over;
      rocks, lives, over := ShipPhase(rocks, ship.lives, shipHit, false);
      ship.lives := lives;
      if over {
        gameOverFlag := true;
        return;
      }
      if |rocks| == 0 {
        level := level + 1;
        rocks := SpawnUniform(level, RockCount(level), width, height, draws);
      }
    }

    /** The first part of update: every sprite list updates, then each bullet takes the rocks it overlaps. */
    method MoveAndShoot(h: Heading, overlaps: (Bullet, Rock) -> bool)
      modifies this, ship
      ensures Snapshot() == MoveAndShootSpec(old(Snapshot()), h, overlaps)
    {
      ship.Update(h);
      bullets := UpdateBullets(bullets);
      rocks := UpdateRocks(rocks);
      bullets, rocks, score := BulletPhase(bullets, rocks, overlaps, score);
    }

    /** new_game: reset lives, level, score and both lists, then spawn NUM_ROCKS level-1 rocks; the game-over flag stays. */
    method NewGame(draws: seq<RockDraw>)
      requires |draws| >= NumRocks && AllUnit(draws)
      modifies this, ship
      ensures Snapshot() == ResetSpec(old(Snapshot()), UniformBatch(StartingLevel, NumRocks, width, height, draws))
      ensures old(Valid()) ==> Valid()
    {
      ship.lives := StartingLives;
      level := StartingLevel;
      score := 0;
      rocks := [];
      bullets := [];
      rocks := SpawnUniform(level, NumRocks, width, height, draws);
    }
  }
}
