/**
  game.js: the Phaser version. Its rules live in module-level variables
  (lives, level, score, gameover) that the scene's update and the physics
  callbacks change in place, and in two physics groups, the bullets and the
  rocks. Phaser decides when the callbacks run: here each callback is a method
  the caller invokes, naming the bullet and rock the collider reported.
 */
module PhaserGame {
  import opened HostInputs

  const ScreenWidth: real := 800.0
  const ScreenHeight: real := 600.0
  const MovementSpeed: int := 80
  const BulletSpeed: real := 300.0
  const StartingLives: int := 3
  const StartingLevel: int := 1
  const RocksPerLevel: int := 5

  /** A laser bolt: its position and the velocity given to its physics body. */
  datatype Bullet = Bullet(x: real, y: real, vx: real, vy: real)

  /**
    An asteroid: position, body velocity, the radius it was spawned with, and
    its width and height. Those are the size of the 'asteroid' frame: the
    sprite's scale of radius / 100 changes only how large it is drawn, not these.
   */
  datatype Rock = Rock(x: real, y: real, vx: real, vy: real, radius: int, width: real, height: real)

  /** The scene's rule state as a value. */
  datatype SceneState = SceneState(lives: int, level: int, score: int, gameover: bool,
                                   shipX: real, shipY: real, shipAngle: int,
                                   bullets: seq<Bullet>, rocks: seq<Rock>)

  /**
    What every reachable state satisfies: level and score never fall below
    their starting values, lives never exceed three, and a game still in play
    has a life left. Lives can fall below 0 once the game is over.
   */
  predicate ValidScene(s: SceneState) {
    s.level >= StartingLevel && s.score >= 0 && s.lives <= StartingLives &&
    (!s.gameover ==> s.lives >= 1)
  }

  // ---------------------------------------------------------------------
  // Random integers

  /**
    Phaser.Math.Between(min, max) for the draw u of Math.random():
    floor(u * (max - min + 1) + min).
   */
  function Between(min: int, max: int, u: real): (n: int)
    ensures min <= max && 0.0 <= u < 1.0 ==> min <= n <= max
  {
    ScaledDraw((max - min + 1) as real, u);
    (u * (max - min + 1) as real + min as real).Floor
  }

  // ---------------------------------------------------------------------
  // Spawning

  /** The radius range of level L: from 10 + (L - 1) * 5 to 50 + (L - 1) * 5. */
  function MinRadius(level: int): int {
    10 + (level - 1) * 5
  }

  function MaxRadius(level: int): int {
    50 + (level - 1) * 5
  }

  /**
    One rock of spawnRocks at level L, for an 'asteroid' texture of the given
    size. setScale(radius / 100) leaves the rock's width and height at the
    texture's size.
   */
  function PhaserRock(level: int, textureWidth: real, textureHeight: real, d: RockDraw): Rock {
    Rock(Between(0, ScreenWidth.Floor, d.ux) as real,
         Between(0, ScreenHeight.Floor, d.uy) as real,
         (Between(-level - 1, level + 1, d.uvx) * MovementSpeed) as real,
         (Between(-level - 1, level + 1, d.uvy) * MovementSpeed) as real,
         Between(MinRadius(level), MaxRadius(level), d.ur),
         textureWidth,
         textureHeight)
  }

  /** The rocks one call of spawnRocks creates, one per draw. */
  function SpawnBatch(level: int, textureWidth: real, textureHeight: real, draws: seq<RockDraw>): seq<Rock> {
    seq(|draws|, i requires 0 <= i < |draws| => PhaserRock(level, textureWidth, textureHeight, draws[i]))
  }

  /** A whole number that is a multiple of MOVEMENT_SPEED. */
  predicate SpeedStep(v: real) {
    v.Floor as real == v && v.Floor % MovementSpeed == 0
  }

  /**
    The ranges a rock spawned at level L lies in: a whole-pixel position on
    the screen, each velocity component MOVEMENT_SPEED times a whole number in
    [-(L + 1), L + 1], and a whole radius in [MinRadius(L), MaxRadius(L)].
   */
  predicate InPhaserRanges(r: Rock, level: int) {
    r.x.Floor as real == r.x && r.y.Floor as real == r.y &&
    0.0 <= r.x <= ScreenWidth && 0.0 <= r.y <= ScreenHeight &&
    SpeedStep(r.vx) && SpeedStep(r.vy) &&
    -((level + 1) * MovementSpeed) as real <= r.vx <= ((level + 1) * MovementSpeed) as real &&
    -((level + 1) * MovementSpeed) as real <= r.vy <= ((level + 1) * MovementSpeed) as real &&
    MinRadius(level) <= r.radius <= MaxRadius(level)
  }

  /** A velocity component MOVEMENT_SPEED * n with |n| <= L + 1 is a whole step within the level's bound. */
  lemma SpeedWithinBound(n: int, level: int)
    requires -level - 1 <= n <= level + 1
    ensures SpeedStep((n * MovementSpeed) as real)
    ensures -((level + 1) * MovementSpeed) as real <= (n * MovementSpeed) as real <= ((level + 1) * MovementSpeed) as real
  {
    assert ((n * MovementSpeed) as real).Floor == n * MovementSpeed;
  }

  /** One spawned rock lies in its level's ranges. */
  lemma PhaserRockInRanges(level: int, textureWidth: real, textureHeight: real, d: RockDraw)
    requires level >= StartingLevel && d.IsUnit()
    ensures InPhaserRanges(PhaserRock(level, textureWidth, textureHeight, d), level)
  {
    SpeedWithinBound(Between(-level - 1, level + 1, d.uvx), level);
    SpeedWithinBound(Between(-level - 1, level + 1, d.uvy), level);
  }

  /** spawnRocks at level L creates exactly one rock per draw, each in the ranges of level L. */
  lemma SpawnBatchInRanges(level: int, textureWidth: real, textureHeight: real, draws: seq<RockDraw>)
    requires level >= StartingLevel && AllUnit(draws)
    ensures |SpawnBatch(level, textureWidth, textureHeight, draws)| == |draws|
    ensures forall r <- SpawnBatch(level, textureWidth, textureHeight, draws) :: InPhaserRanges(r, level)
    ensures forall r <- SpawnBatch(level, textureWidth, textureHeight, draws) ::
              r.width == textureWidth && r.height == textureHeight
  {
    forall i | 0 <= i < |draws|
      ensures InPhaserRanges(SpawnBatch(level, textureWidth, textureHeight, draws)[i], level)
    {
      assert draws[i].IsUnit();
      PhaserRockInRanges(level, textureWidth, textureHeight, draws[i]);
    }
  }

  // ---------------------------------------------------------------------
  // update: steering and the rock wrap

  /**
    One axis of a rock's wrap: beyond the margin of half its size on one side,
    it moves to the margin on the other side.
   */
  function WrapAxis(v: real, half: real, size: real): (w: real)
    ensures 0.0 <= half && 0.0 <= size ==> -half <= w <= size + half
    ensures -half <= v <= size + half ==> w == v
    ensures v < -half ==> w == size + half
    ensures 0.0 <= half && 0.0 <= size && v > size + half ==> w == -half
  {
    if v < -half then size + half
    else if v > size + half then -half
    else v
  }

  /** The margins of a rock: half its width around x, half its height around y. */
  predicate WithinMargins(r: Rock) {
    -r.width / 2.0 <= r.x <= ScreenWidth + r.width / 2.0 &&
    -r.height / 2.0 <= r.y <= ScreenHeight + r.height / 2.0
  }

  /** The wrap of one rock: the x chain and the y chain run one after the other, each on its own axis. */
  function WrapRock(r: Rock): (w: Rock)
    ensures w.vx == r.vx && w.vy == r.vy && w.radius == r.radius && w.width == r.width && w.height == r.height
    ensures 0.0 <= r.width && 0.0 <= r.height ==> WithinMargins(w)
    ensures WithinMargins(r) ==> w == r
    ensures r.x < -r.width / 2.0 ==> w.x == ScreenWidth + r.width / 2.0
    ensures 0.0 <= r.width && r.x > ScreenWidth + r.width / 2.0 ==> w.x == -r.width / 2.0
    ensures -r.width / 2.0 <= r.x <= ScreenWidth + r.width / 2.0 ==> w.x == r.x
    ensures r.y < -r.height / 2.0 ==> w.y == ScreenHeight + r.height / 2.0
    ensures 0.0 <= r.height && r.y > ScreenHeight + r.height / 2.0 ==> w.y == -r.height / 2.0
    ensures -r.height / 2.0 <= r.y <= ScreenHeight + r.height / 2.0 ==> w.y == r.y
  {
    r.(x := WrapAxis(r.x, r.width / 2.0, ScreenWidth), y := WrapAxis(r.y, r.height / 2.0, ScreenHeight))
  }

  /**
    The margin is half the frame, whatever the radius: with a 100 x 100
    texture, a rock of radius 20 (drawn 20 pixels wide) at x = -30 is still
    within its margin of 50 and stays where it is, while one at x = -51 moves
    to 850.
   */
  lemma WrapMarginIgnoresScale()
    ensures WrapRock(Rock(-30.0, 300.0, 0.0, 0.0, 20, 100.0, 100.0)).x == -30.0
    ensures WrapRock(Rock(-51.0, 300.0, 0.0, 0.0, 20, 100.0, 100.0)).x == 850.0
  {
  }

  function WrapAll(rocks: seq<Rock>): seq<Rock> {
    seq(|rocks|, i requires 0 <= i < |rocks| => WrapRock(rocks[i]))
  }

  /** The new heading: LEFT turns 5 degrees one way, else RIGHT 5 degrees the other. */
  function Steer(angle: int, leftDown: bool, rightDown: bool): int {
    if leftDown then angle - 5 else if rightDown then angle + 5 else angle
  }

  /**
    update: nothing once the game is over; otherwise steer, then wrap every
    rock. The up and down keys set the ship's body velocity, which Phaser's
    physics then integrates; neither is part of this state.
   */
  function UpdateSpec(s: SceneState, leftDown: bool, rightDown: bool): SceneState {
    if s.gameover then s
    else s.(shipAngle := Steer(s.shipAngle, leftDown, rightDown), rocks := WrapAll(s.rocks))
  }

  /**
    While the game is over update changes nothing. In play it changes only the
    heading, by exactly 5 degrees, LEFT winning when both are held, and the
    rock positions; every rock keeps its place in the group, and ends within
    its margins.
   */
  lemma UpdateSteersAndWraps(s: SceneState, leftDown: bool, rightDown: bool)
    requires forall r <- s.rocks :: 0.0 <= r.width && 0.0 <= r.height
    ensures s.gameover ==> UpdateSpec(s, leftDown, rightDown) == s
    ensures var t := UpdateSpec(s, leftDown, rightDown);
            !s.gameover ==>
              t.(shipAngle := s.shipAngle, rocks := s.rocks) == s &&
              t.shipAngle == s.shipAngle + (if leftDown then -5 else if rightDown then 5 else 0) &&
              |t.rocks| == |s.rocks| &&
              forall i :: 0 <= i < |s.rocks| ==>
                WithinMargins(t.rocks[i]) &&
                t.rocks[i].(x := s.rocks[i].x, y := s.rocks[i].y) == s.rocks[i] &&
                (WithinMargins(s.rocks[i]) ==> t.rocks[i] == s.rocks[i])
  {
    if !s.gameover {
      var t := UpdateSpec(s, leftDown, rightDown);
      forall i | 0 <= i < |s.rocks|
        ensures WithinMargins(t.rocks[i])
      {
        assert s.rocks[i] in s.rocks;
      }
    }
  }

  // ---------------------------------------------------------------------
  // The callbacks

  /** shootBullet: nothing once over; otherwise one bolt at the ship, flying at BULLET_SPEED along `h`. */
  function ShootSpec(s: SceneState, h: Heading): SceneState {
    if s.gameover then s
    else s.(bullets := s.bullets + [Bullet(s.shipX, s.shipY, h.cos * BulletSpeed, h.sin * BulletSpeed)])
  }

  /**
    A shot in play appends exactly one bullet, at the ship's position, whose
    speed is BULLET_SPEED, and changes nothing else; once over, a shot does
    nothing.
   */
  lemma ShotAppendsOneBullet(s: SceneState, h: Heading)
    requires h.IsUnit()
    ensures var t := ShootSpec(s, h);
            (s.gameover ==> t == s) &&
            (!s.gameover ==>
               t == s.(bullets := t.bullets) && |t.bullets| == |s.bullets| + 1 && t.bullets[..|s.bullets|] == s.bullets &&
               var b := t.bullets[|s.bullets|];
               b.x == s.shipX && b.y == s.shipY && b.vx * b.vx + b.vy * b.vy == BulletSpeed * BulletSpeed)
  {
    var b := Bullet(s.shipX, s.shipY, h.cos * BulletSpeed, h.sin * BulletSpeed);
    assert b.vx * b.vx == (h.cos * h.cos) * (BulletSpeed * BulletSpeed);
    assert b.vy * b.vy == (h.sin * h.sin) * (BulletSpeed * BulletSpeed);
  }

  /** The group after one member is destroyed. */
  function Remove<T>(xs: seq<T>, i: int): (r: seq<T>)
    requires 0 <= i < |xs|
    ensures |r| == |xs| - 1
    ensures forall j :: 0 <= j < i ==> r[j] == xs[j]
    ensures forall j :: i <= j < |r| ==> r[j] == xs[j + 1]
  {
    xs[..i] + xs[i + 1..]
  }

  /** loseLife: one life fewer, and gameOver() when none is left. */
  function LoseLifeSpec(s: SceneState): SceneState {
    var t := s.(lives := s.lives - 1);
    if t.lives <= 0 then t.(gameover := true) else t
  }

  /** shipHitRock: the rock is destroyed and a life lost. */
  function ShipHitRockSpec(s: SceneState, ri: int): SceneState
    requires 0 <= ri < |s.rocks|
  {
    LoseLifeSpec(s.(rocks := Remove(s.rocks, ri)))
  }

  /**
    A ship hit destroys exactly that rock and costs exactly one life; in play
    it ends the game exactly when that was the last life. It never levels up,
    not even when it destroys the last rock.
   */
  lemma ShipHitCostsOneLife(s: SceneState, ri: int)
    requires 0 <= ri < |s.rocks|
    ensures var t := ShipHitRockSpec(s, ri);
            t.lives == s.lives - 1 && t.rocks == Remove(s.rocks, ri) &&
            t.level == s.level && t.score == s.score && t.bullets == s.bullets &&
            (t.gameover <==> s.gameover || s.lives <= 1)
  {
  }

  /**
    Nothing stops the colliders once the game is over: a further ship hit
    still runs loseLife, so lives go below zero.
   */
  lemma LivesGoNegativeAfterGameOver()
    ensures var s := SceneState(0, 1, 0, true, 400.0, 300.0, 0, [], [Rock(400.0, 300.0, 0.0, 0.0, 10, 10.0, 10.0)]);
            ShipHitRockSpec(s, 0).lives == -1 && ShipHitRockSpec(s, 0).gameover
  {
  }

  /**
    bulletHitRock: both are destroyed and the score goes up by one; when that
    leaves no active rock, the level goes up and spawnRocks adds `batch`.
   */
  function BulletHitRockSpec(s: SceneState, bi: int, ri: int, batch: seq<Rock>): SceneState
    requires 0 <= bi < |s.bullets| && 0 <= ri < |s.rocks|
  {
    var t := s.(bullets := Remove(s.bullets, bi), rocks := Remove(s.rocks, ri), score := s.score + 1);
    if t.rocks == [] then t.(level := s.level + 1, rocks := batch) else t
  }

  /**
    A bullet hit scores exactly one, destroys exactly that bullet, and either
    destroys exactly that rock or, when it was the last one, levels up by one
    and brings in the new batch. It changes neither lives nor the game-over flag.
   */
  lemma BulletHitScoresOne(s: SceneState, bi: int, ri: int, batch: seq<Rock>)
    requires 0 <= bi < |s.bullets| && 0 <= ri < |s.rocks|
    ensures var t := BulletHitRockSpec(s, bi, ri, batch);
            t.score == s.score + 1 && t.bullets == Remove(s.bullets, bi) &&
            t.lives == s.lives && t.gameover == s.gameover &&
            (|s.rocks| > 1 ==> t.level == s.level && t.rocks == Remove(s.rocks, ri)) &&
            (|s.rocks| == 1 ==> t.level == s.level + 1 && t.rocks == batch)
  {
  }

  /** gameOver: only the flag is part of the rules; the rest is display and sound. */
  function GameOverSpec(s: SceneState): SceneState {
    s.(gameover := true)
  }

  /**
    newGame and restartGame: three lives, level 1, score 0, not over, both
    groups emptied, then spawnRocks at level 1. The ship is left where it is.
   */
  function ResetSpec(s: SceneState, batch: seq<Rock>): (r: SceneState)
    ensures r.lives == StartingLives && r.level == StartingLevel && r.score == 0 && !r.gameover
    ensures r.bullets == [] && r.rocks == batch
    ensures r.shipX == s.shipX && r.shipY == s.shipY && r.shipAngle == s.shipAngle
  {
    SceneState(StartingLives, StartingLevel, 0, false, s.shipX, s.shipY, s.shipAngle, [], batch)
  }

  /**
    A reset depends on nothing but the ship's place and the draws: resetting
    again with the same draws gives the same state, however the game went in
    between.
   */
  lemma ResetForgetsTheGame(s: SceneState, t: SceneState, batch: seq<Rock>)
    requires s.shipX == t.shipX && s.shipY == t.shipY && s.shipAngle == t.shipAngle
    ensures ResetSpec(s, batch) == ResetSpec(t, batch)
    ensures ResetSpec(ResetSpec(s, batch), batch) == ResetSpec(s, batch)
  {
  }

  /** Every rule of the scene keeps a valid state valid. */
  lemma EveryRuleKeepsValid(s: SceneState, leftDown: bool, rightDown: bool, h: Heading, bi: int, ri: int, batch: seq<Rock>)
    requires ValidScene(s)
    ensures ValidScene(UpdateSpec(s, leftDown, rightDown)) && ValidScene(ShootSpec(s, h))
    ensures ValidScene(LoseLifeSpec(s)) && ValidScene(GameOverSpec(s)) && ValidScene(ResetSpec(s, batch))
    ensures 0 <= ri < |s.rocks| ==> ValidScene(ShipHitRockSpec(s, ri))
    ensures 0 <= bi < |s.bullets| && 0 <= ri < |s.rocks| ==> ValidScene(BulletHitRockSpec(s, bi, ri, batch))
  {
  }

  // ---------------------------------------------------------------------
  // The scene

  /** The rule state of game.js's scene. */
  class Scene {
    /** The size of the asteroid texture, which each rock's scale multiplies. */
    const textureWidth: real
    const textureHeight: real
    var lives: int
    var level: int
    var score: int
    var gameover: bool
    var shipX: real
    var shipY: real
    var shipAngle: int
    var bullets: seq<Bullet>
    var rocks: seq<Rock>

    function Snapshot(): SceneState
      reads this
    {
      SceneState(lives, level, score, gameover, shipX, shipY, shipAngle, bullets, rocks)
    }

    ghost predicate Valid()
      reads this
    {
      ValidScene(Snapshot())
    }

    /** create: the ship at the centre of the screen, then newGame. */
    constructor (textureWidth: real, textureHeight: real, draws: seq<RockDraw>)
      requires |draws| == RocksPerLevel * StartingLevel && AllUnit(draws)
      ensures this.textureWidth == textureWidth && this.textureHeight == textureHeight
      ensures Valid()
      ensures Snapshot() == SceneState(StartingLives, StartingLevel, 0, false, ScreenWidth / 2.0, ScreenHeight / 2.0, 0,
                                       [], SpawnBatch(StartingLevel, textureWidth, textureHeight, draws))
      ensures |rocks| == RocksPerLevel && forall r <- rocks :: InPhaserRanges(r, StartingLevel)
    {
      this.textureWidth := textureWidth;
      this.textureHeight := textureHeight;
      lives, level, score, gameover := StartingLives, StartingLevel, 0, false;
      shipX, shipY, shipAngle := ScreenWidth / 2.0, ScreenHeight / 2.0, 0;
      bullets, rocks := [], [];
      new;
      NewGame(draws);
      SpawnBatchInRanges(StartingLevel, textureWidth, textureHeight, draws);
    }

    /** update, with whether LEFT and RIGHT are held down. */
    method Update(leftDown: bool, rightDown: bool)
      requires Valid()
      modifies this
      ensures Valid()
      ensures Snapshot() == UpdateSpec(old(Snapshot()), leftDown, rightDown)
    {
      if gameover {
        return;
      }
      if leftDown {
        shipAngle := shipAngle - 5;
      } else if rightDown {
        shipAngle := shipAngle + 5;
      }
      var i := 0;
      while i < |rocks|
        invariant 0 <= i <= |rocks| == |old(rocks)|
        invariant forall j :: 0 <= j < i ==> rocks[j] == WrapRock(old(rocks)[j])
        invariant forall j :: i <= j < |rocks| ==> rocks[j] == old(rocks)[j]
        invariant Snapshot() == old(Snapshot()).(shipAngle := Steer(old(shipAngle), leftDown, rightDown), rocks := rocks)
      {
        var rock := rocks[i];
        if rock.x < -rock.width / 2.0 {
          rock := rock.(x := ScreenWidth + rock.width / 2.0);
        } else if rock.x > ScreenWidth + rock.width / 2.0 {
          rock := rock.(x := -rock.width / 2.0);
        }
        if rock.y < -rock.height / 2.0 {
          rock := rock.(y := ScreenHeight + rock.height / 2.0);
        } else if rock.y > ScreenHeight + rock.height / 2.0 {
          rock := rock.(y := -rock.height / 2.0);
        }
        assert rock == WrapRock(old(rocks)[i]);
        rocks := rocks[i := rock];
        i := i + 1;
      }
      assert rocks == WrapAll(old(rocks));
    }

    /** shootBullet, with `h` the cosine and sine of the ship's angle minus 90 degrees. */
    method ShootBullet(h: Heading)
      requires Valid()
      modifies this
      ensures Valid()
      ensures Snapshot() == ShootSpec(old(Snapshot()), h)
    {
      if gameover {
        return;
      }
      var velocityX := h.cos * BulletSpeed;
      var velocityY := h.sin * BulletSpeed;
      bullets := bullets + [Bullet(shipX, shipY, velocityX, velocityY)];
    }

    /** shipHitRock, for the rock at index `ri` of the group. */
    method ShipHitRock(ri: int)
      requires Valid() && 0 <= ri < |rocks|
      modifies this
      ensures Valid()
      ensures Snapshot() == ShipHitRockSpec(old(Snapshot()), ri)
    {
      rocks := rocks[..ri] + rocks[ri + 1..];
      LoseLife();
    }

    /** loseLife. */
    method LoseLife()
      requires Valid()
      modifies this
      ensures Valid()
      ensures Snapshot() == LoseLifeSpec(old(Snapshot()))
    {
      lives := lives - 1;
      if lives <= 0 {
        GameOver();
      }
    }

    /**
      bulletHitRock, for the bullet at `bi` and the rock at `ri`; `draws` feed
      the spawnRocks call a last rock triggers.
     */
    method BulletHitRock(bi: int, ri: int, draws: seq<RockDraw>)
      requires Valid() && 0 <= bi < |bullets| && 0 <= ri < |rocks|
      requires |rocks| == 1 ==> |draws| == RocksPerLevel * (level + 1)
      modifies this
      ensures Valid()
      ensures Snapshot() == BulletHitRockSpec(old(Snapshot()), bi, ri, SpawnBatch(old(level) + 1, textureWidth, textureHeight, draws))
    {
      bullets := bullets[..bi] + bullets[bi + 1..];
      rocks := rocks[..ri] + rocks[ri + 1..];
      score := score + 1;
      if |rocks| == 0 {
        level := level + 1;
        SpawnRocks(draws);
      }
    }

    /** spawnRocks: level * 5 new rocks added to the group, one per draw. */
    method SpawnRocks(draws: seq<RockDraw>)
      requires |draws| == RocksPerLevel * level
      modifies this
      ensures Snapshot() == old(Snapshot()).(rocks := old(rocks) + SpawnBatch(level, textureWidth, textureHeight, draws))
    {
      var i := 0;
      while i < level * RocksPerLevel
        invariant 0 <= i <= |draws|
        invariant Snapshot() == old(Snapshot()).(rocks := old(rocks) + SpawnBatch(level, textureWidth, textureHeight, draws[..i]))
      {
        var d := draws[i];
        var x := Between(0, ScreenWidth.Floor, d.ux);
        var y := Between(0, ScreenHeight.Floor, d.uy);
        var velocityX := Between(-level - 1, level + 1, d.uvx) * MovementSpeed;
        var velocityY := Between(-level - 1, level + 1, d.uvy) * MovementSpeed;
        var radius := Between(MinRadius(level), MaxRadius(level), d.ur);
        // rocks.create(x, y, 'asteroid') then rock.setScale(radius / 100): the frame size stays
        var rock := Rock(x as real, y as real, velocityX as real, velocityY as real, radius, textureWidth, textureHeight);
        assert rock == PhaserRock(level, textureWidth, textureHeight, d);
        assert SpawnBatch(level, textureWidth, textureHeight, draws[..i + 1]) ==
               SpawnBatch(level, textureWidth, textureHeight, draws[..i]) + [rock];
        rocks := rocks + [rock];
        i := i + 1;
      }
      assert draws[..i] == draws;
    }

    /** gameOver: sets the flag. */
    method GameOver()
      modifies this
      ensures Snapshot() == GameOverSpec(old(Snapshot()))
    {
      gameover := true;
    }

    /** newGame. */
    method NewGame(draws: seq<RockDraw>)
      requires |draws| == RocksPerLevel * StartingLevel
      modifies this
      ensures Valid()
      ensures Snapshot() == ResetSpec(old(Snapshot()), SpawnBatch(StartingLevel, textureWidth, textureHeight, draws))
    {
      lives := StartingLives;
      level := StartingLevel;
      score := 0;
      gameover := false;
      rocks := [];
      bullets := [];
      SpawnRocks(draws);
    }

    /** restartGame: the same resets as newGame, then the game-over screen is hidden and the music restarted. */
    method RestartGame(draws: seq<RockDraw>)
      requires |draws| == RocksPerLevel * StartingLevel
      modifies this
      ensures Valid()
      ensures Snapshot() == ResetSpec(old(Snapshot()), SpawnBatch(StartingLevel, textureWidth, textureHeight, draws))
    {
      lives := StartingLives;
      level := StartingLevel;
      score := 0;
      gameover := false;
      rocks := [];
      bullets := [];
      SpawnRocks(draws);
    }
  }
}
