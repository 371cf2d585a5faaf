/**
  The three sprites of the arcade-library variants (asteroids_game.py,
  asteroids_game.js and asteroids_game2.py carry the same Ship, Bullet and Rock
  classes line for line) and what one call of each sprite's `update` does.
 */
module ArcadeSprites {
  import opened HostInputs

  const ScreenWidth: real := 800.0
  const ScreenHeight: real := 600.0
  const MovementSpeed: real := 5.0
  const BulletSpeed: real := 8.0
  const MaxRockRadius: real := 50.0
  const StartingLives: int := 3

  /** A bullet: its centre and its velocity per tick. */
  datatype Bullet = Bullet(x: real, y: real, vx: real, vy: real)

  /** A rock: its centre, its velocity per tick and its radius (the sprite is 2 * radius wide and high). */
  datatype Rock = Rock(x: real, y: real, vx: real, vy: real, radius: real)

  /** The ship's fields as a value. */
  datatype ShipState = ShipState(x: real, y: real, angle: real, changeAngle: real, thrust: real, lives: int)

  /**
    One axis of the ship's wrap-around: a coordinate below 0 jumps to the far
    edge, one beyond the far edge jumps to 0, one on the screen stays.
   */
  function WrapAtEdge(v: real, size: real): (r: real)
    ensures 0.0 <= size ==> 0.0 <= r <= size
    ensures 0.0 <= v <= size ==> r == v
    ensures v < 0.0 ==> r == size
    ensures 0.0 <= size && v > size ==> r == 0.0
  {
    if v < 0.0 then size else if v > size then 0.0 else v
  }

  /**
    Ship.update: turn by `changeAngle`, move by `thrust` along the new heading
    (whose sine and cosine are `h`), then wrap each axis on its own, exactly at
    the screen edge: a ship that left by one edge comes back at the opposite
    one. Whatever the displacement, the ship ends on the screen.
   */
  function ShipStep(s: ShipState, h: Heading): (r: ShipState)
    ensures r.angle == s.angle + s.changeAngle
    ensures 0.0 <= r.x <= ScreenWidth && 0.0 <= r.y <= ScreenHeight
    ensures var mx := s.x + -s.thrust * h.sin;
            (0.0 <= mx <= ScreenWidth ==> r.x == mx) &&
            (mx < 0.0 ==> r.x == ScreenWidth) && (mx > ScreenWidth ==> r.x == 0.0)
    ensures var my := s.y + s.thrust * h.cos;
            (0.0 <= my <= ScreenHeight ==> r.y == my) &&
            (my < 0.0 ==> r.y == ScreenHeight) && (my > ScreenHeight ==> r.y == 0.0)
    ensures r.changeAngle == s.changeAngle && r.thrust == s.thrust && r.lives == s.lives
  {
    var angle := s.angle + s.changeAngle;
    s.(angle := angle,
       x := WrapAtEdge(s.x + -s.thrust * h.sin, ScreenWidth),
       y := WrapAtEdge(s.y + s.thrust * h.cos, ScreenHeight))
  }

  /** The player's ship, whose fields the game and its own update change in place. */
  class Ship {
    var x: real
    var y: real
    var angle: real
    var changeAngle: real
    var thrust: real
    var lives: int

    function State(): ShipState
      reads this
    {
      ShipState(x, y, angle, changeAngle, thrust, lives)
    }

    /** A new ship sits at the centre of the screen, pointing up, at rest, with three lives. */
    constructor ()
      ensures State() == ShipState(ScreenWidth / 2.0, ScreenHeight / 2.0, 0.0, 0.0, 0.0, StartingLives)
    {
      x, y := ScreenWidth / 2.0, ScreenHeight / 2.0;
      angle, changeAngle, thrust := 0.0, 0.0, 0.0;
      lives := StartingLives;
    }

    /** `h` is the sine and cosine of the heading after this call's turn. */
    method Update(h: Heading)
      modifies this
      ensures State() == ShipStep(old(State()), h)
    {
      angle := angle + changeAngle;
      x := x + -thrust * h.sin;
      y := y + thrust * h.cos;
      if x < 0.0 {
        x := ScreenWidth;
      } else if x > ScreenWidth {
        x := 0.0;
      }
      if y < 0.0 {
        y := ScreenHeight;
      } else if y > ScreenHeight {
        y := 0.0;
      }
    }
  }

  predicate OnScreen(x: real, y: real) {
    0.0 <= x <= ScreenWidth && 0.0 <= y <= ScreenHeight
  }

  function MoveBullet(b: Bullet): Bullet {
    b.(x := b.x + b.vx, y := b.y + b.vy)
  }

  /**
    bullet_list.update(): every bullet moves by its velocity, and one whose new
    centre is off the screen is killed; bullets never wrap.
   */
  function UpdateBullets(bs: seq<Bullet>): (r: seq<Bullet>)
    ensures |r| <= |bs|
    ensures forall b <- r :: OnScreen(b.x, b.y)
  {
    if bs == [] then []
    else
      var m := MoveBullet(bs[0]);
      (if OnScreen(m.x, m.y) then [m] else []) + UpdateBullets(bs[1..])
  }

  /** A bullet survives its update exactly when its moved centre is on the screen, and it keeps that centre. */
  lemma {:induction false} UpdateBulletsKeepsExactlyOnScreen(bs: seq<Bullet>, b: Bullet)
    ensures b in UpdateBullets(bs) <==>
              exists i :: 0 <= i < |bs| && b == MoveBullet(bs[i]) && OnScreen(b.x, b.y)
  {
    if bs != [] {
      UpdateBulletsKeepsExactlyOnScreen(bs[1..], b);
      if b in UpdateBullets(bs[1..]) {
        var i :| 0 <= i < |bs[1..]| && b == MoveBullet(bs[1..][i]) && OnScreen(b.x, b.y);
        assert b == MoveBullet(bs[i + 1]);
      }
      if exists i :: 0 <= i < |bs| && b == MoveBullet(bs[i]) && OnScreen(b.x, b.y) {
        var i :| 0 <= i < |bs| && b == MoveBullet(bs[i]) && OnScreen(b.x, b.y);
        if i > 0 {
          assert b == MoveBullet(bs[1..][i - 1]);
        }
      }
    }
  }

  /** Updating two runs of bullets one after the other is updating them together: survivors keep their order. */
  lemma {:induction false} UpdateBulletsDistributes(a: seq<Bullet>, b: seq<Bullet>)
    ensures UpdateBullets(a + b) == UpdateBullets(a) + UpdateBullets(b)
  {
    if a != [] {
      assert (a + b)[0] == a[0];
      assert (a + b)[1..] == a[1..] + b;
      UpdateBulletsDistributes(a[1..], b);
    } else {
      assert a + b == b;
    }
  }

  /** A single bullet survives, moved, exactly when its moved centre is on the screen. */
  lemma UpdateOneBullet(b: Bullet)
    ensures UpdateBullets([b]) == if OnScreen(MoveBullet(b).x, MoveBullet(b).y) then [MoveBullet(b)] else []
  {
    assert [b][1..] == [];
  }

  predicate WithinMargin(x: real, y: real) {
    -MaxRockRadius <= x <= ScreenWidth + MaxRockRadius && -MaxRockRadius <= y <= ScreenHeight + MaxRockRadius
  }

  /**
    The rocks' if/elif wrap chain: the first coordinate found beyond the
    margin of MAX_ROCK_RADIUS is moved to the opposite margin, and nothing else.
    So a stray x is corrected and y left alone; only an x within the margin lets
    the chain correct y.
   */
  function WrapRock(r: Rock): (w: Rock)
    ensures w.vx == r.vx && w.vy == r.vy && w.radius == r.radius
    ensures w.x == r.x || w.y == r.y
    ensures !(-MaxRockRadius <= r.x <= ScreenWidth + MaxRockRadius) ==>
              -MaxRockRadius <= w.x <= ScreenWidth + MaxRockRadius && w.y == r.y
    ensures -MaxRockRadius <= r.x <= ScreenWidth + MaxRockRadius ==>
              w.x == r.x && -MaxRockRadius <= w.y <= ScreenHeight + MaxRockRadius
    ensures WithinMargin(r.x, r.y) ==> w == r
    ensures r.x < -MaxRockRadius ==> w == r.(x := ScreenWidth + MaxRockRadius)
    ensures r.x > ScreenWidth + MaxRockRadius ==> w == r.(x := -MaxRockRadius)
    ensures -MaxRockRadius <= r.x <= ScreenWidth + MaxRockRadius && r.y < -MaxRockRadius ==>
              w == r.(y := ScreenHeight + MaxRockRadius)
    ensures -MaxRockRadius <= r.x <= ScreenWidth + MaxRockRadius && r.y > ScreenHeight + MaxRockRadius ==>
              w == r.(y := -MaxRockRadius)
  {
    if r.x < -MaxRockRadius then r.(x := ScreenWidth + MaxRockRadius)
    else if r.x > ScreenWidth + MaxRockRadius then r.(x := -MaxRockRadius)
    else if r.y < -MaxRockRadius then r.(y := ScreenHeight + MaxRockRadius)
    else if r.y > ScreenHeight + MaxRockRadius then r.(y := -MaxRockRadius)
    else r
  }

  /** Two passes of the chain always bring a rock within the margins. */
  lemma WrapTwiceWithinMargin(r: Rock)
    ensures var w := WrapRock(WrapRock(r)); WithinMargin(w.x, w.y)
  {
  }

  /** One pass need not: a rock beyond both the left and the top margin keeps its stray y. */
  lemma WrapOnceCanLeaveYOutside()
    ensures var w := WrapRock(Rock(-60.0, -60.0, 0.0, 0.0, 20.0));
            w.x == ScreenWidth + MaxRockRadius && !WithinMargin(w.x, w.y)
  {
  }

  /**
    Rock.update: move by the velocity, then one pass of the wrap chain. A rock
    that lands within the margin is simply moved; velocity and radius never
    change.
   */
  function MoveRock(r: Rock): (m: Rock)
    ensures m.vx == r.vx && m.vy == r.vy && m.radius == r.radius
    ensures WithinMargin(r.x + r.vx, r.y + r.vy) ==> m.x == r.x + r.vx && m.y == r.y + r.vy
  {
    WrapRock(r.(x := r.x + r.vx, y := r.y + r.vy))
  }

  /** rock_list.update(): every rock moves and wraps; no rock is removed. */
  function UpdateRocks(rs: seq<Rock>): seq<Rock> {
    seq(|rs|, i requires 0 <= i < |rs| => MoveRock(rs[i]))
  }
}
