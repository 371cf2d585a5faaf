/**
  The two collision phases of a tick in the arcade variants
  (asteroids_game.py:117-142, asteroids_game.js:166-197,
  asteroids_game2.py:125-142).

  The library's collision test is a relation the caller supplies for the tick:
  `overlaps(b, r)` says bullet b touches rock r, `shipHit(r)` says rock r
  touches the ship. Positions do not change during a phase, so these are fixed
  for the tick. Killing a sprite removes it from its list at once, so later
  collision tests see only the sprites still alive; iteration is over a
  snapshot of the list.
 */
module ArcadeCollisions {
  import opened ArcadeSprites

  // ---------------------------------------------------------------------
  // Bullet phase

  /** The rocks of `rocks` that bullet `b` touches, in list order (check_for_collision_with_list). */
  function Hits(b: Bullet, rocks: seq<Rock>, overlaps: (Bullet, Rock) -> bool): seq<Rock> {
    if rocks == [] then []
    else (if overlaps(b, rocks[0]) then [rocks[0]] else []) + Hits(b, rocks[1..], overlaps)
  }

  /** The rocks of `rocks` that bullet `b` does not touch, in list order. */
  function Misses(b: Bullet, rocks: seq<Rock>, overlaps: (Bullet, Rock) -> bool): seq<Rock> {
    if rocks == [] then []
    else (if overlaps(b, rocks[0]) then [] else [rocks[0]]) + Misses(b, rocks[1..], overlaps)
  }

  lemma {:induction false} HitsMissesPartition(b: Bullet, rocks: seq<Rock>, overlaps: (Bullet, Rock) -> bool)
    ensures |Hits(b, rocks, overlaps)| + |Misses(b, rocks, overlaps)| == |rocks|
  {
    if rocks != [] {
      HitsMissesPartition(b, rocks[1..], overlaps);
    }
  }

  /** What the bullet phase leaves: the surviving bullets, the surviving rocks, and the points scored. */
  datatype SweepResult = SweepResult(bullets: seq<Bullet>, rocks: seq<Rock>, gain: int)

  /**
    The bullet loop, bullet by bullet: a bullet that touches at least one live
    rock is killed together with every live rock it touches, and each of those
    rocks scores one point; a bullet that touches none is kept.
   */
  function Sweep(bullets: seq<Bullet>, rocks: seq<Rock>, overlaps: (Bullet, Rock) -> bool): SweepResult
    decreases |bullets|
  {
    if bullets == [] then SweepResult([], rocks, 0)
    else
      var hits := Hits(bullets[0], rocks, overlaps);
      var rest := Sweep(bullets[1..], Misses(bullets[0], rocks, overlaps), overlaps);
      if |hits| > 0 then rest.(gain := |hits| + rest.gain)
      else rest.(bullets := [bullets[0]] + rest.bullets)
  }

  /** The points scored are exactly the number of rocks removed. */
  lemma {:induction false} SweepScoresRemovedRocks(bullets: seq<Bullet>, rocks: seq<Rock>, overlaps: (Bullet, Rock) -> bool)
    ensures var r := Sweep(bullets, rocks, overlaps);
            0 <= r.gain && r.gain == |rocks| - |r.rocks|
    decreases |bullets|
  {
    if bullets != [] {
      HitsMissesPartition(bullets[0], rocks, overlaps);
      SweepScoresRemovedRocks(bullets[1..], Misses(bullets[0], rocks, overlaps), overlaps);
    }
  }

  /** Some bullet of `bullets` touches rock `r`. */
  predicate HitByAny(bullets: seq<Bullet>, r: Rock, overlaps: (Bullet, Rock) -> bool) {
    exists i :: 0 <= i < |bullets| && overlaps(bullets[i], r)
  }

  /** The rocks no bullet touches, in list order: a reference description of the phase's surviving rocks. */
  function Untouched(rocks: seq<Rock>, bullets: seq<Bullet>, overlaps: (Bullet, Rock) -> bool): seq<Rock> {
    if rocks == [] then []
    else (if HitByAny(bullets, rocks[0], overlaps) then [] else [rocks[0]]) + Untouched(rocks[1..], bullets, overlaps)
  }

  lemma {:induction false} UntouchedAfterMisses(b: Bullet, bullets: seq<Bullet>, rocks: seq<Rock>, overlaps: (Bullet, Rock) -> bool)
    ensures Untouched(Misses(b, rocks, overlaps), bullets, overlaps) == Untouched(rocks, [b] + bullets, overlaps)
  {
    if rocks != [] {
      UntouchedAfterMisses(b, bullets, rocks[1..], overlaps);
      var r := rocks[0];
      var tail := Misses(b, rocks[1..], overlaps);
      if !overlaps(b, r) {
        assert Misses(b, rocks, overlaps) == [r] + tail;
        assert ([r] + tail)[0] == r && ([r] + tail)[1..] == tail;
      } else {
        assert Misses(b, rocks, overlaps) == tail;
      }
      if HitByAny([b] + bullets, r, overlaps) {
        if !overlaps(b, r) {
          var i :| 0 <= i < |[b] + bullets| && overlaps(([b] + bullets)[i], r);
          assert overlaps(bullets[i - 1], r);
          assert HitByAny(bullets, r, overlaps);
          assert Untouched([r] + tail, bullets, overlaps) == Untouched(tail, bullets, overlaps);
        }
      } else {
        assert !overlaps(([b] + bullets)[0], r);
        forall i | 0 <= i < |bullets| ensures !overlaps(bullets[i], r) {
          assert bullets[i] == ([b] + bullets)[i + 1];
        }
        assert Untouched([r] + tail, bullets, overlaps) == [r] + Untouched(tail, bullets, overlaps);
      }
    }
  }

  /**
    A rock survives the bullet phase exactly when no bullet touches it: a rock
    touched by several bullets is taken by the first of them, and a rock no
    bullet touches is left as it was.
   */
  lemma {:induction false} SweepLeavesUntouchedRocks(bullets: seq<Bullet>, rocks: seq<Rock>, overlaps: (Bullet, Rock) -> bool)
    ensures Sweep(bullets, rocks, overlaps).rocks == Untouched(rocks, bullets, overlaps)
    decreases |bullets|
  {
    if bullets == [] {
      UntouchedOfNone(rocks, overlaps);
    } else {
      SweepLeavesUntouchedRocks(bullets[1..], Misses(bullets[0], rocks, overlaps), overlaps);
      UntouchedAfterMisses(bullets[0], bullets[1..], rocks, overlaps);
      assert [bullets[0]] + bullets[1..] == bullets;
    }
  }

  /** Every rock that survives the bullets was a rock of the list. */
  lemma {:induction false} UntouchedAreRocks(rocks: seq<Rock>, bullets: seq<Bullet>, overlaps: (Bullet, Rock) -> bool)
    ensures forall r <- Untouched(rocks, bullets, overlaps) :: r in rocks
  {
    if rocks != [] {
      UntouchedAreRocks(rocks[1..], bullets, overlaps);
      forall r <- Untouched(rocks, bullets, overlaps) ensures r in rocks {
        if r != rocks[0] {
          assert r in Untouched(rocks[1..], bullets, overlaps);
          assert r in rocks[1..];
        }
      }
    }
  }

  lemma {:induction false} UntouchedOfNone(rocks: seq<Rock>, overlaps: (Bullet, Rock) -> bool)
    ensures Untouched(rocks, [], overlaps) == rocks
  {
    if rocks != [] {
      UntouchedOfNone(rocks[1..], overlaps);
    }
  }

  /**
    Every bullet the phase removes took at least one rock with it, so no more
    bullets than points are lost; the bullets kept are bullets of the list,
    in their order, unchanged.
   */
  lemma {:induction false} SweepRemovesOnlyScoringBullets(bullets: seq<Bullet>, rocks: seq<Rock>, overlaps: (Bullet, Rock) -> bool)
    ensures var r := Sweep(bullets, rocks, overlaps);
            |bullets| - |r.bullets| <= r.gain && forall b <- r.bullets :: b in bullets
    decreases |bullets|
  {
    if bullets != [] {
      SweepRemovesOnlyScoringBullets(bullets[1..], Misses(bullets[0], rocks, overlaps), overlaps);
      var rest := Sweep(bullets[1..], Misses(bullets[0], rocks, overlaps), overlaps);
      forall b <- rest.bullets ensures b in bullets {
        assert b in bullets[1..];
      }
    }
  }

  /** Bullet `b` touches some rock of `live`. */
  predicate TouchesAny(b: Bullet, live: seq<Rock>, overlaps: (Bullet, Rock) -> bool) {
    exists j :: 0 <= j < |live| && overlaps(b, live[j])
  }

  /**
    A reference description of the bullets the phase keeps, from index i on:
    bullet i is kept exactly when it touches none of the rocks that the
    bullets before it left alive, in list order.
   */
  function IdleFrom(bullets: seq<Bullet>, rocks: seq<Rock>, overlaps: (Bullet, Rock) -> bool, i: nat): seq<Bullet>
    requires i <= |bullets|
    decreases |bullets| - i
  {
    if i == |bullets| then []
    else (if TouchesAny(bullets[i], Untouched(rocks, bullets[..i], overlaps), overlaps) then [] else [bullets[i]])
         + IdleFrom(bullets, rocks, overlaps, i + 1)
  }

  lemma {:induction false} HitsNonEmptyIffTouches(b: Bullet, rocks: seq<Rock>, overlaps: (Bullet, Rock) -> bool)
    ensures |Hits(b, rocks, overlaps)| > 0 <==> TouchesAny(b, rocks, overlaps)
  {
    if rocks != [] {
      HitsNonEmptyIffTouches(b, rocks[1..], overlaps);
      if TouchesAny(b, rocks[1..], overlaps) {
        var j :| 0 <= j < |rocks[1..]| && overlaps(b, rocks[1..][j]);
        assert overlaps(b, rocks[j + 1]);
      }
      if TouchesAny(b, rocks, overlaps) && !overlaps(b, rocks[0]) {
        var j :| 0 <= j < |rocks| && overlaps(b, rocks[j]);
        assert overlaps(b, rocks[1..][j - 1]);
      }
    }
  }

  /** The rocks that survive one more bullet are those of the survivors it misses. */
  lemma {:induction false} UntouchedByOneMore(rocks: seq<Rock>, bullets: seq<Bullet>, b: Bullet, overlaps: (Bullet, Rock) -> bool)
    ensures Untouched(rocks, bullets + [b], overlaps) == Misses(b, Untouched(rocks, bullets, overlaps), overlaps)
  {
    if rocks != [] {
      UntouchedByOneMore(rocks[1..], bullets, b, overlaps);
      var r := rocks[0];
      var more := bullets + [b];
      assert HitByAny(more, r, overlaps) <==> HitByAny(bullets, r, overlaps) || overlaps(b, r) by {
        if HitByAny(more, r, overlaps) {
          var i :| 0 <= i < |more| && overlaps(more[i], r);
          if i < |bullets| {
            assert more[i] == bullets[i];
          }
        }
        if HitByAny(bullets, r, overlaps) {
          var i :| 0 <= i < |bullets| && overlaps(bullets[i], r);
          assert more[i] == bullets[i];
        }
        if overlaps(b, r) {
          assert more[|bullets|] == b;
        }
      }
      var tail := Untouched(rocks[1..], bullets, overlaps);
      if !HitByAny(bullets, r, overlaps) {
        assert Untouched(rocks, bullets, overlaps) == [r] + tail;
        assert ([r] + tail)[0] == r && ([r] + tail)[1..] == tail;
        assert Misses(b, [r] + tail, overlaps) == (if overlaps(b, r) then [] else [r]) + Misses(b, tail, overlaps);
      } else {
        assert Untouched(rocks, bullets, overlaps) == tail;
      }
    }
  }

  lemma {:induction false} SweepKeepsIdleFrom(bullets: seq<Bullet>, rocks: seq<Rock>, overlaps: (Bullet, Rock) -> bool, i: nat)
    requires i <= |bullets|
    ensures Sweep(bullets[i..], Untouched(rocks, bullets[..i], overlaps), overlaps).bullets == IdleFrom(bullets, rocks, overlaps, i)
    decreases |bullets| - i
  {
    if i < |bullets| {
      var live := Untouched(rocks, bullets[..i], overlaps);
      assert bullets[i..][0] == bullets[i] && bullets[i..][1..] == bullets[i + 1..];
      assert bullets[..i + 1] == bullets[..i] + [bullets[i]];
      UntouchedByOneMore(rocks, bullets[..i], bullets[i], overlaps);
      HitsNonEmptyIffTouches(bullets[i], live, overlaps);
      SweepKeepsIdleFrom(bullets, rocks, overlaps, i + 1);
    }
  }

  /**
    The bullets the phase keeps are, in order, exactly those that touch none
    of the rocks still alive when their turn comes: a bullet whose hit list is
    empty stays, and every bullet removed took at least one rock.
   */
  lemma SweepKeepsIdleBullets(bullets: seq<Bullet>, rocks: seq<Rock>, overlaps: (Bullet, Rock) -> bool)
    ensures Sweep(bullets, rocks, overlaps).bullets == IdleFrom(bullets, rocks, overlaps, 0)
  {
    SweepKeepsIdleFrom(bullets, rocks, overlaps, 0);
    UntouchedOfNone(rocks, overlaps);
    assert bullets[0..] == bullets && bullets[..0] == [];
  }

  /**
    The bullet loop of on_update as written: for each bullet of the snapshot,
    ask which live rocks it touches; if any, kill the bullet, kill those rocks
    and add one to the score per rock.
   */
  method BulletPhase(bullets: seq<Bullet>, rocks: seq<Rock>, overlaps: (Bullet, Rock) -> bool, score: int)
    returns (kept: seq<Bullet>, left: seq<Rock>, newScore: int)
    ensures kept == Sweep(bullets, rocks, overlaps).bullets
    ensures left == Sweep(bullets, rocks, overlaps).rocks
    ensures newScore == score + Sweep(bullets, rocks, overlaps).gain
    ensures newScore - score == |rocks| - |left|
  {
    kept, left, newScore := [], rocks, score;
    var i := 0;
    while i < |bullets|
      invariant 0 <= i <= |bullets|
      invariant var rest := Sweep(bullets[i..], left, overlaps);
                Sweep(bullets, rocks, overlaps) == SweepResult(kept + rest.bullets, rest.rocks, newScore - score + rest.gain)
    {
      var bullet := bullets[i];
      assert bullets[i..][1..] == bullets[i + 1..];
      var hits := Hits(bullet, left, overlaps);
      if |hits| > 0 {
        // bullet.kill(); then each listed rock is killed and scores one point
        newScore := newScore + |hits|;
        left := Misses(bullet, left, overlaps);
      } else {
        assert kept + ([bullet] + Sweep(bullets[i + 1..], Misses(bullet, left, overlaps), overlaps).bullets)
            == (kept + [bullet]) + Sweep(bullets[i + 1..], Misses(bullet, left, overlaps), overlaps).bullets;
        kept := kept + [bullet];
        left := Misses(bullet, left, overlaps);
      }
      i := i + 1;
    }
    SweepScoresRemovedRocks(bullets, rocks, overlaps);
  }

  // ---------------------------------------------------------------------
  // Ship phase

  /** What the ship phase leaves: the rocks, the ship's lives, and whether the game ended. */
  datatype ShipResult = ShipResult(rocks: seq<Rock>, lives: int, over: bool)

  /**
    The rock loop, rock by rock: a rock touching the ship is removed and costs a
    life; when lives reach 0 or less the game ends and the loop stops at once,
    leaving the rocks after it as they were. A rock not touching the ship is
    kept, passed through the wrap chain once more when `rewrap` holds.
   */
  function ShipSweep(rocks: seq<Rock>, lives: int, shipHit: Rock -> bool, rewrap: bool): ShipResult
    decreases |rocks|
  {
    if rocks == [] then ShipResult([], lives, false)
    else if shipHit(rocks[0]) then
      if lives - 1 <= 0 then ShipResult(rocks[1..], lives - 1, true)
      else ShipSweep(rocks[1..], lives - 1, shipHit, rewrap)
    else
      var rest := ShipSweep(rocks[1..], lives, shipHit, rewrap);
      rest.(rocks := [if rewrap then WrapRock(rocks[0]) else rocks[0]] + rest.rocks)
  }

  /**
    From a positive count, lives drop by one per rock removed and never below
    zero, and the game ends exactly when they reach zero.
   */
  lemma {:induction false} ShipSweepLives(rocks: seq<Rock>, lives: int, shipHit: Rock -> bool, rewrap: bool)
    requires lives >= 1
    ensures var r := ShipSweep(rocks, lives, shipHit, rewrap);
            r.lives == lives - (|rocks| - |r.rocks|) && 0 <= r.lives <= lives && (r.over <==> r.lives == 0)
    decreases |rocks|
  {
    if rocks != [] {
      if shipHit(rocks[0]) {
        if lives - 1 > 0 {
          ShipSweepLives(rocks[1..], lives - 1, shipHit, rewrap);
        }
      } else {
        ShipSweepLives(rocks[1..], lives, shipHit, rewrap);
      }
    }
  }

  /** The rocks not touching the ship, each passed once more through the chain when `rewrap` holds. */
  function Spared(rocks: seq<Rock>, shipHit: Rock -> bool, rewrap: bool): seq<Rock> {
    if rocks == [] then []
    else (if shipHit(rocks[0]) then [] else [if rewrap then WrapRock(rocks[0]) else rocks[0]])
         + Spared(rocks[1..], shipHit, rewrap)
  }

  /** How many rocks of `rocks` touch the ship. */
  function Contacts(rocks: seq<Rock>, shipHit: Rock -> bool): nat {
    if rocks == [] then 0 else (if shipHit(rocks[0]) then 1 else 0) + Contacts(rocks[1..], shipHit)
  }

  /**
    When the game does not end, the phase removes exactly the rocks touching the
    ship, one life each, and keeps (and re-wraps) the rest in order.
   */
  lemma {:induction false} ShipSweepWithoutGameOver(rocks: seq<Rock>, lives: int, shipHit: Rock -> bool, rewrap: bool)
    ensures var r := ShipSweep(rocks, lives, shipHit, rewrap);
            !r.over ==> r.rocks == Spared(rocks, shipHit, rewrap) && r.lives == lives - Contacts(rocks, shipHit)
    decreases |rocks|
  {
    if rocks != [] {
      if shipHit(rocks[0]) {
        if lives - 1 > 0 {
          ShipSweepWithoutGameOver(rocks[1..], lives - 1, shipHit, rewrap);
        }
      } else {
        ShipSweepWithoutGameOver(rocks[1..], lives, shipHit, rewrap);
      }
    }
  }

  /**
    With the second pass, every spared rock has been through the chain once
    more: if one more pass brings each rock of the list within the margins,
    every spared rock lies within them.
   */
  lemma {:induction false} SparedWithinMargin(rocks: seq<Rock>, shipHit: Rock -> bool)
    requires forall q <- rocks :: WithinMargin(WrapRock(q).x, WrapRock(q).y)
    ensures forall r <- Spared(rocks, shipHit, true) :: WithinMargin(r.x, r.y)
  {
    if rocks != [] {
      assert forall q <- rocks[1..] :: q in rocks;
      SparedWithinMargin(rocks[1..], shipHit);
    }
  }

  /**
    The rock loop of on_update as written: kill a rock touching the ship and
    take a life, returning as soon as lives reach 0; otherwise (when the variant
    has it) run the elif wrap chain on the rock again.
   */
  method ShipPhase(rocks: seq<Rock>, lives: int, shipHit: Rock -> bool, rewrap: bool)
    returns (left: seq<Rock>, newLives: int, over: bool)
    ensures ShipResult(left, newLives, over) == ShipSweep(rocks, lives, shipHit, rewrap)
  {
    left, newLives, over := [], lives, false;
    var i := 0;
    while i < |rocks|
      invariant 0 <= i <= |rocks|
      invariant var rest := ShipSweep(rocks[i..], newLives, shipHit, rewrap);
                ShipSweep(rocks, lives, shipHit, rewrap) == rest.(rocks := left + rest.rocks)
    {
      var rock := rocks[i];
      assert rocks[i..][1..] == rocks[i + 1..];
      if shipHit(rock) {
        newLives := newLives - 1;
        if newLives <= 0 {
          over := true;
          left := left + rocks[i + 1..];
          return;
        }
      } else {
        var w := if rewrap then WrapRock(rock) else rock;
        assert left + ([w] + ShipSweep(rocks[i + 1..], newLives, shipHit, rewrap).rocks)
            == (left + [w]) + ShipSweep(rocks[i + 1..], newLives, shipHit, rewrap).rocks;
        left := left + [w];
      }
      i := i + 1;
    }
  }
}
