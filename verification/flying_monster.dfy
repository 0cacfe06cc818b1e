/**
 * The flying monster's patrol: it flies 0.8 per frame in its current
 * direction and turns around at 200 either side of where it spawned, while
 * bobbing up and down around its spawn height; it hits the player on a strict
 * overlap of the two boxes.  The sine that drives the bobbing is a foreign
 * call, so each frame receives its value as the parameter `wave`.
 */
module Patrol {
  const SPEED: real := 0.8
  const PATROL_DISTANCE: real := 200.0
  const AMPLITUDE: real := 40.0
  const WIDTH: real := 30.0
  const HEIGHT: real := 25.0

  /** x and y are the top-left corner; direction is 1 for right and -1 for left. */
  datatype Monster = Monster(x: real, y: real, baseY: real, startX: real, direction: int, animationTime: real)

  /** A box of the player, top-left corner and size. */
  datatype Box = Box(x: real, y: real, width: real, height: real)

  /** The patrol invariant: inside 200 of the spawn x, heading left or right. */
  predicate InPatrol(m: Monster)
  {
    m.startX - PATROL_DISTANCE <= m.x <= m.startX + PATROL_DISTANCE && (m.direction == 1 || m.direction == -1)
  }

  /** The constructor: spawned at (x, y), which fixes both the patrol centre and the hover height, heading right. */
  function Spawn(x: real, y: real): (m: Monster)
    ensures m.startX == m.x == x && m.baseY == m.y == y
    ensures InPatrol(m) && m.direction == 1
  {
    Monster(x, y, y, x, 1, 0.0)
  }

  /**
   * update: move 0.8 in the current direction, clamp to the patrol bounds and
   * turn around on an overshoot, then hover at baseY + wave * 40, where
   * `wave` is the frame's sin(2 * animationTime).
   */
  function Update(m: Monster, wave: real): (r: Monster)
    requires -1.0 <= wave <= 1.0
    ensures r.startX == m.startX && r.baseY == m.baseY
    ensures (m.direction == 1 || m.direction == -1) ==> (r.direction == 1 || r.direction == -1)
    ensures InPatrol(m) ==> InPatrol(r)
    ensures var moved := m.x + SPEED * m.direction as real;
            && (moved > m.startX + PATROL_DISTANCE ==> r.x == m.startX + PATROL_DISTANCE && r.direction == -1)
            && (moved < m.startX - PATROL_DISTANCE ==> r.x == m.startX - PATROL_DISTANCE && r.direction == 1)
            && (m.startX - PATROL_DISTANCE <= moved <= m.startX + PATROL_DISTANCE ==> r.x == moved && r.direction == m.direction)
    ensures m.baseY - AMPLITUDE <= r.y <= m.baseY + AMPLITUDE
  {
    var time := m.animationTime + 0.05;
    var moved := m.x + SPEED * m.direction as real;
    var (x, direction) :=
      if moved > m.startX + PATROL_DISTANCE then (m.startX + PATROL_DISTANCE, -1)
      else if moved < m.startX - PATROL_DISTANCE then (m.startX - PATROL_DISTANCE, 1)
      else (moved, m.direction);
    Monster(x, m.baseY + wave * AMPLITUDE, m.baseY, m.startX, direction, time)
  }

  predicate AllWaves(waves: seq<real>)
  {
    forall i :: 0 <= i < |waves| ==> -1.0 <= waves[i] <= 1.0
  }

  /** One update per frame, with the frames' sine values in order. */
  function Frames(m: Monster, waves: seq<real>): (r: Monster)
    requires AllWaves(waves)
    ensures r.startX == m.startX && r.baseY == m.baseY
    decreases |waves|
  {
    if |waves| == 0 then m else Frames(Update(m, waves[0]), waves[1..])
  }

  /** The patrol invariant holds after any number of frames. */
  lemma {:induction false} FramesKeepPatrol(m: Monster, waves: seq<real>)
    requires AllWaves(waves) && InPatrol(m)
    ensures InPatrol(Frames(m, waves))
    decreases |waves|
  {
    if |waves| > 0 {
      FramesKeepPatrol(Update(m, waves[0]), waves[1..]);
    }
  }

  /** Heading right with room to spare, the monster advances exactly 0.8 per frame. */
  lemma {:induction false} WalkRight(m: Monster, waves: seq<real>)
    requires AllWaves(waves) && m.direction == 1
    requires m.startX - PATROL_DISTANCE <= m.x
    requires m.x + SPEED * |waves| as real <= m.startX + PATROL_DISTANCE
    ensures Frames(m, waves).x == m.x + SPEED * |waves| as real
    ensures Frames(m, waves).direction == 1
    decreases |waves|
  {
    if |waves| > 0 {
      var next := Update(m, waves[0]);
      assert next.x == m.x + SPEED;
      WalkRight(next, waves[1..]);
    }
  }

  /** Frames split at any point. */
  lemma {:induction false} FramesAppend(m: Monster, first: seq<real>, second: seq<real>)
    requires AllWaves(first) && AllWaves(second)
    ensures AllWaves(first + second)
    ensures Frames(m, first + second) == Frames(Frames(m, first), second)
    decreases |first|
  {
    if |first| == 0 {
      assert first + second == second;
    } else {
      assert (first + second)[0] == first[0];
      assert (first + second)[1..] == first[1..] + second;
      FramesAppend(Update(m, first[0]), first[1..], second);
    }
  }

  /**
   * From its spawn the monster flies right for 250 frames, reaching exactly
   * startX + 200, and on the 251st frame it overshoots, is clamped back to
   * startX + 200 and turns left.
   */
  lemma FirstTurn(x: real, y: real, waves: seq<real>)
    requires AllWaves(waves) && |waves| == 251
    ensures Frames(Spawn(x, y), waves[..250]).x == x + PATROL_DISTANCE
    ensures Frames(Spawn(x, y), waves).x == x + PATROL_DISTANCE
    ensures Frames(Spawn(x, y), waves).direction == -1
  {
    var m := Spawn(x, y);
    var first, last := waves[..250], waves[250..];
    WalkRight(m, first);
    FramesAppend(m, first, last);
    assert first + last == waves;
    var mid := Frames(m, first);
    assert last == [waves[250]] && last[1..] == [];
    assert Frames(mid, last) == Update(mid, waves[250]);
  }

  /** checkCollision: the player's box and the monster's 30 x 25 box overlap strictly. */
  predicate CheckCollision(m: Monster, player: Box)
  {
    && player.x < m.x + WIDTH
    && player.x + player.width > m.x
    && player.y < m.y + HEIGHT
    && player.y + player.height > m.y
  }

  /** The monster's own box. */
  function BoxOf(m: Monster): Box { Box(m.x, m.y, WIDTH, HEIGHT) }

  /** A point strictly inside a box. */
  predicate Interior(b: Box, px: real, py: real)
  {
    b.x < px < b.x + b.width && b.y < py < b.y + b.height
  }

  /** For a player of positive size, a collision is exactly a point strictly inside both boxes. */
  lemma CollisionIsSharedInterior(m: Monster, player: Box)
    requires player.width > 0.0 && player.height > 0.0
    ensures CheckCollision(m, player) <==>
            exists px: real, py: real :: Interior(BoxOf(m), px, py) && Interior(player, px, py)
  {
    if CheckCollision(m, player) {
      var lox := if player.x > m.x then player.x else m.x;
      var hix := if player.x + player.width < m.x + WIDTH then player.x + player.width else m.x + WIDTH;
      var loy := if player.y > m.y then player.y else m.y;
      var hiy := if player.y + player.height < m.y + HEIGHT then player.y + player.height else m.y + HEIGHT;
      var px, py := (lox + hix) / 2.0, (loy + hiy) / 2.0;
      assert Interior(BoxOf(m), px, py) && Interior(player, px, py);
    }
  }

  /** Boxes that only touch along an edge do not collide. */
  lemma TouchingIsNoCollision(m: Monster, player: Box)
    requires || player.x + player.width == m.x
             || player.x == m.x + WIDTH
             || player.y + player.height == m.y
             || player.y == m.y + HEIGHT
    ensures !CheckCollision(m, player)
  {
  }
}
