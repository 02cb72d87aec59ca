/** The entities of the Pong game and one step function per game system,
    each applied to a single entity, with the properties the systems keep.

    The play field spans `y` in [-360, 360]; the ball and the paddles are
    clamped into it. Positions, velocities and times are reals. */
module Pong {
  import opened Geometry

  /** Which player a paddle belongs to. */
  datatype Side = Left | Right

  /** A paddle entity: its `Paddle` component (the side), the translation of
      its transform (only `x` and `y` matter) and the size of its sprite. */
  datatype Paddle = Paddle(side: Side, pos: Vec2, size: Vec2)

  /** The ball entity: the translation of its transform, the velocity held by
      its `Ball` component and the size of its sprite. */
  datatype Ball = Ball(pos: Vec2, vel: Vec2, size: Vec2)

  /** Whether each of the four keys the game polls is held this frame:
      W and S move the left paddle, Up and Down the right one. */
  datatype Keyboard = Keyboard(w: bool, s: bool, up: bool, down: bool)

  /** Half the height of the play field: the walls are at y = -360 and y = 360. */
  const FieldHalfHeight: real := 360.0
  /** Paddle speed in units per second. */
  const PaddleSpeed: real := 128.0
  /** The longest frame time the ball integrates over, in seconds. */
  const MaxElapsed: real := 0.2

  /** The entities spawned at startup. */
  const PaddleOffset: real := 512.0
  const PaddleSize: Vec2 := Vec2(30.0, 120.0)
  const BallSize: Vec2 := Vec2(8.0, 8.0)
  const ServeVelocity: Vec2 := Vec2(128.0, 128.0)
  const LeftPaddle: Paddle := Paddle(Left, Vec2(-PaddleOffset, 0.0), PaddleSize)
  const RightPaddle: Paddle := Paddle(Right, Vec2(PaddleOffset, 0.0), PaddleSize)
  const ServeBall: Ball := Ball(Vec2(0.0, 0.0), ServeVelocity, BallSize)

  predicate InField(y: real)
  {
    -FieldHalfHeight <= y <= FieldHalfHeight
  }

  /* ---------------------------------------------------------------------
     Wall bounce
     --------------------------------------------------------------------- */

  /** One ball through the wall bounce system: below the bottom wall the
      ball is put back on it and, if still heading down, its vertical
      velocity is negated; then the same for the top wall. */
  function WallBounce(b: Ball): (r: Ball)
    ensures InField(r.pos.y)
    ensures r.pos.x == b.pos.x && r.vel.x == b.vel.x && r.size == b.size
    ensures Abs(r.vel.y) == Abs(b.vel.y)
    ensures b.pos.y < -FieldHalfHeight ==> r.pos.y == -FieldHalfHeight && r.vel.y >= 0.0
    ensures b.pos.y > FieldHalfHeight ==> r.pos.y == FieldHalfHeight && r.vel.y <= 0.0
    ensures InField(b.pos.y) ==> r == b
  {
    var bottom :=
      if b.pos.y < -FieldHalfHeight then
        b.(pos := b.pos.(y := -FieldHalfHeight),
           vel := if b.vel.y < 0.0 then b.vel.(y := -b.vel.y) else b.vel)
      else b;
    if bottom.pos.y > FieldHalfHeight then
      bottom.(pos := bottom.pos.(y := FieldHalfHeight),
              vel := if bottom.vel.y > 0.0 then bottom.vel.(y := -bottom.vel.y) else bottom.vel)
    else bottom
  }

  /** The sign guard makes the wall bounce idempotent: a ball already on a
      wall and heading back into the field is not reflected a second time. */
  lemma WallBounceIdempotent(b: Ball)
    ensures WallBounce(WallBounce(b)) == WallBounce(b)
  {
  }

  /** A moving ball pushed past a wall comes back heading into the field. */
  lemma WallBounceReflects(b: Ball)
    requires b.vel.y != 0.0
    ensures b.pos.y < -FieldHalfHeight ==> WallBounce(b).vel.y == Abs(b.vel.y) > 0.0
    ensures b.pos.y > FieldHalfHeight ==> WallBounce(b).vel.y == -Abs(b.vel.y) < 0.0
  {
  }

  /* ---------------------------------------------------------------------
     Paddle bounce
     --------------------------------------------------------------------- */

  /** The ball's box overlaps the paddle's box. This is the box test of the
      game engine's `collide`, which returns a collision exactly when the two
      boxes (centre plus or minus half the size) overlap. */
  predicate Touches(b: Ball, p: Paddle)
  {
    Overlaps(b.pos, b.size, p.pos, p.size)
  }

  /** The ball checked against one paddle: on contact with the left paddle a
      ball moving left is sent right, on contact with the right paddle a ball
      moving right is sent left; a ball already moving away is left alone. */
  function BounceOff(b: Ball, p: Paddle): (r: Ball)
    ensures r.pos == b.pos && r.size == b.size && r.vel.y == b.vel.y
    ensures Abs(r.vel.x) == Abs(b.vel.x)
    ensures !Touches(b, p) ==> r == b
    ensures Touches(b, p) && p.side == Left ==> r.vel.x == Abs(b.vel.x)
    ensures Touches(b, p) && p.side == Right ==> r.vel.x == -Abs(b.vel.x)
  {
    if !Touches(b, p) then b
    else
      match p.side
      case Left => if b.vel.x < 0.0 then b.(vel := b.vel.(x := -b.vel.x)) else b
      case Right => if b.vel.x > 0.0 then b.(vel := b.vel.(x := -b.vel.x)) else b
  }

  /** Checking the same paddle twice changes nothing more: the guard keeps a
      ball that stays inside a paddle from flipping back and forth. */
  lemma BounceOffIdempotent(b: Ball, p: Paddle)
    ensures BounceOff(BounceOff(b, p), p) == BounceOff(b, p)
  {
  }

  /** The ball checked against every paddle in turn, in the order given.
      However many paddles the ball touches, the paddle bounce only ever
      negates the horizontal velocity: position, size and vertical velocity
      are untouched and the horizontal speed is kept. */
  function BounceAll(b: Ball, ps: seq<Paddle>): (r: Ball)
    ensures r.pos == b.pos && r.size == b.size && r.vel.y == b.vel.y
    ensures Abs(r.vel.x) == Abs(b.vel.x)
  {
    if ps == [] then b
    else BounceOff(BounceAll(b, ps[..|ps| - 1]), ps[|ps| - 1])
  }

  /** A ball that touches no paddle leaves the paddle bounce unchanged. */
  lemma {:induction false} BounceAllNoContact(b: Ball, ps: seq<Paddle>)
    requires forall j :: 0 <= j < |ps| ==> !Touches(b, ps[j])
    ensures BounceAll(b, ps) == b
  {
    if ps != [] {
      BounceAllNoContact(b, ps[..|ps| - 1]);
    }
  }

  /** A ball that touches exactly one paddle gets that paddle's bounce,
      wherever that paddle stands in the iteration order. */
  lemma {:induction false} BounceAllSingleContact(b: Ball, ps: seq<Paddle>, k: nat)
    requires k < |ps| && Touches(b, ps[k])
    requires forall j :: 0 <= j < |ps| && j != k ==> !Touches(b, ps[j])
    ensures BounceAll(b, ps) == BounceOff(b, ps[k])
  {
    var n := |ps| - 1;
    var init := ps[..n];
    if k == n {
      BounceAllNoContact(b, init);
    } else {
      BounceAllSingleContact(b, init, k);
      assert !Touches(BounceOff(b, ps[k]), ps[n]) by {
        assert !Touches(b, ps[n]);
      }
    }
  }

  /** A paddle placed as at startup on the left, at any height. */
  predicate SetupLeft(p: Paddle)
  {
    p.side == Left && p.pos.x == -PaddleOffset && p.size == PaddleSize
  }

  /** A paddle placed as at startup on the right, at any height. */
  predicate SetupRight(p: Paddle)
  {
    p.side == Right && p.pos.x == PaddleOffset && p.size == PaddleSize
  }

  /** With the startup sizes and horizontal positions the two paddles are
      too far apart for the ball to touch both at once. */
  lemma SetupPaddlesExclusive(b: Ball, left: Paddle, right: Paddle)
    requires b.size == BallSize && SetupLeft(left) && SetupRight(right)
    ensures !(Touches(b, left) && Touches(b, right))
  {
  }

  /** In the game as set up, the paddle bounce is the bounce off the one
      paddle the ball may touch, so the iteration order does not matter and
      running the system twice changes nothing more. */
  lemma SetupPaddleBounce(b: Ball, ps: seq<Paddle>)
    requires b.size == BallSize
    requires |ps| == 2 && SetupLeft(ps[0]) && SetupRight(ps[1])
    ensures BounceAll(b, ps) == if Touches(b, ps[0]) then BounceOff(b, ps[0]) else BounceOff(b, ps[1])
    ensures BounceAll(BounceAll(b, ps), ps) == BounceAll(b, ps)
  {
    SetupPaddlesExclusive(b, ps[0], ps[1]);
    var r := BounceAll(b, ps);
    if Touches(b, ps[0]) {
      BounceAllSingleContact(b, ps, 0);
      BounceAllSingleContact(r, ps, 0);
    } else if Touches(b, ps[1]) {
      BounceAllSingleContact(b, ps, 1);
      BounceAllSingleContact(r, ps, 1);
    } else {
      BounceAllNoContact(b, ps);
    }
  }

  /* ---------------------------------------------------------------------
     Ball move
     --------------------------------------------------------------------- */

  /** The time the ball integrates over: the frame time, capped at 0.2 s. */
  function Elapsed(dt: real): (e: real)
    ensures e <= MaxElapsed
    ensures dt <= MaxElapsed ==> e == dt
    ensures MaxElapsed <= dt ==> e == MaxElapsed
    ensures 0.0 <= dt ==> 0.0 <= e
  {
    Min(MaxElapsed, dt)
  }

  /** One ball through the move system: it travels its velocity times the
      frame time, the frame time capped at 0.2 s. */
  function BallMove(b: Ball, dt: real): (r: Ball)
    ensures r.vel == b.vel && r.size == b.size
    ensures 0.0 <= dt <= MaxElapsed ==>
      r.pos == Vec2(b.pos.x + b.vel.x * dt, b.pos.y + b.vel.y * dt)
    ensures MaxElapsed <= dt ==>
      r.pos == Vec2(b.pos.x + b.vel.x * MaxElapsed, b.pos.y + b.vel.y * MaxElapsed)
  {
    var e := Elapsed(dt);
    b.(pos := Vec2(b.pos.x + b.vel.x * e, b.pos.y + b.vel.y * e))
  }

  lemma MulNonNegative(a: real, b: real)
    requires 0.0 <= a && 0.0 <= b
    ensures 0.0 <= a * b
  {
  }

  /** A displacement `v * e` over a capped time `e` is at most `|v| * 0.2`. */
  lemma CappedDisplacement(v: real, e: real)
    requires 0.0 <= e <= MaxElapsed
    ensures Abs(v * e) <= Abs(v) * MaxElapsed
  {
    if v < 0.0 {
      MulNonNegative(-v, e);
      MulNonNegative(-v, MaxElapsed - e);
      assert Abs(v * e) == -v * e;
    } else {
      MulNonNegative(v, e);
      MulNonNegative(v, MaxElapsed - e);
      assert Abs(v * e) == v * e;
    }
  }

  /** The frame-time cap bounds how far the ball can travel in one frame,
      however long the frame was: at most its speed on each axis times 0.2 s,
      and always in the direction of its velocity. */
  lemma BallMoveBounded(b: Ball, dt: real)
    requires 0.0 <= dt
    ensures Abs(BallMove(b, dt).pos.x - b.pos.x) <= Abs(b.vel.x) * MaxElapsed
    ensures Abs(BallMove(b, dt).pos.y - b.pos.y) <= Abs(b.vel.y) * MaxElapsed
    ensures 0.0 <= b.vel.x ==> b.pos.x <= BallMove(b, dt).pos.x
    ensures b.vel.x <= 0.0 ==> BallMove(b, dt).pos.x <= b.pos.x
    ensures 0.0 <= b.vel.y ==> b.pos.y <= BallMove(b, dt).pos.y
    ensures b.vel.y <= 0.0 ==> BallMove(b, dt).pos.y <= b.pos.y
  {
    var e := Elapsed(dt);
    assert BallMove(b, dt).pos.x - b.pos.x == b.vel.x * e;
    assert BallMove(b, dt).pos.y - b.pos.y == b.vel.y * e;
    CappedDisplacement(b.vel.x, e);
    CappedDisplacement(b.vel.y, e);
  }

  /** A ball moving right at 128 units/s: a 0.1 s frame moves it 12.8 units,
      while a 0.5 s or a 1 s frame is capped at 0.2 s and moves it 25.6. */
  lemma BallMoveExamples(b: Ball)
    requires b.vel == Vec2(128.0, 0.0)
    ensures BallMove(b, 0.1).pos == Vec2(b.pos.x + 12.8, b.pos.y)
    ensures BallMove(b, 0.5).pos == Vec2(b.pos.x + 25.6, b.pos.y)
    ensures BallMove(b, 1.0).pos == Vec2(b.pos.x + 25.6, b.pos.y)
  {
  }

  /* ---------------------------------------------------------------------
     Paddle move
     --------------------------------------------------------------------- */

  /** The key that moves a paddle of the given side up. */
  function UpKey(side: Side, kb: Keyboard): bool
  {
    match side
    case Left => kb.w
    case Right => kb.up
  }

  /** The key that moves a paddle of the given side down. */
  function DownKey(side: Side, kb: Keyboard): bool
  {
    match side
    case Left => kb.s
    case Right => kb.down
  }

  /** The direction a paddle is driven: up-only gives +1, down-only gives -1,
      both keys or neither give 0. */
  function Movement(side: Side, kb: Keyboard): (m: real)
    ensures m == 1.0 || m == 0.0 || m == -1.0
    ensures m == 1.0 <==> UpKey(side, kb) && !DownKey(side, kb)
    ensures m == -1.0 <==> DownKey(side, kb) && !UpKey(side, kb)
    ensures m == 0.0 <==> UpKey(side, kb) == DownKey(side, kb)
  {
    (if UpKey(side, kb) then 1.0 else 0.0) - (if DownKey(side, kb) then 1.0 else 0.0)
  }

  /** One paddle through the move system: it travels `128 * dt` in the
      driven direction (the frame time is not capped here) and is then
      clamped into the field. */
  function PaddleMove(p: Paddle, kb: Keyboard, dt: real): (r: Paddle)
    ensures InField(r.pos.y)
    ensures r.side == p.side && r.pos.x == p.pos.x && r.size == p.size
    ensures Movement(p.side, kb) == 0.0 && InField(p.pos.y) ==> r == p
    ensures Movement(p.side, kb) == 1.0 && 0.0 <= dt && InField(p.pos.y) ==>
      r.pos.y == Min(FieldHalfHeight, p.pos.y + PaddleSpeed * dt)
    ensures Movement(p.side, kb) == -1.0 && 0.0 <= dt && InField(p.pos.y) ==>
      r.pos.y == Max(-FieldHalfHeight, p.pos.y - PaddleSpeed * dt)
  {
    var y := p.pos.y + PaddleSpeed * Movement(p.side, kb) * dt;
    p.(pos := p.pos.(y := Clamp(y, -FieldHalfHeight, FieldHalfHeight)))
  }

  /** The paddle after one frame per entry of `dts`, the keys held throughout. */
  function Drive(p: Paddle, kb: Keyboard, dts: seq<real>): Paddle
    decreases |dts|
  {
    if dts == [] then p else Drive(PaddleMove(p, kb, dts[0]), kb, dts[1..])
  }

  /** The sum of the frame times. */
  function Total(dts: seq<real>): real
  {
    if dts == [] then 0.0 else dts[0] + Total(dts[1..])
  }

  predicate NonNegative(dts: seq<real>)
  {
    forall i :: 0 <= i < |dts| ==> 0.0 <= dts[i]
  }

  lemma {:induction false} TotalNonNegative(dts: seq<real>)
    requires NonNegative(dts)
    ensures 0.0 <= Total(dts)
  {
    if dts != [] {
      TotalNonNegative(dts[1..]);
    }
  }

  /** Holding only the up key for a run of frames moves an in-field paddle
      up by `128 * total time`, stopping at the top wall. */
  lemma {:induction false} DriveUp(p: Paddle, kb: Keyboard, dts: seq<real>)
    requires InField(p.pos.y) && NonNegative(dts) && Movement(p.side, kb) == 1.0
    ensures Drive(p, kb, dts).pos.y == Min(FieldHalfHeight, p.pos.y + PaddleSpeed * Total(dts))
    decreases |dts|
  {
    if dts != [] {
      var q := PaddleMove(p, kb, dts[0]);
      assert NonNegative(dts[1..]);
      TotalNonNegative(dts[1..]);
      DriveUp(q, kb, dts[1..]);
    }
  }

  /** Holding only the down key for a run of frames moves an in-field paddle
      down by `128 * total time`, stopping at the bottom wall. */
  lemma {:induction false} DriveDown(p: Paddle, kb: Keyboard, dts: seq<real>)
    requires InField(p.pos.y) && NonNegative(dts) && Movement(p.side, kb) == -1.0
    ensures Drive(p, kb, dts).pos.y == Max(-FieldHalfHeight, p.pos.y - PaddleSpeed * Total(dts))
    decreases |dts|
  {
    if dts != [] {
      var q := PaddleMove(p, kb, dts[0]);
      assert NonNegative(dts[1..]);
      TotalNonNegative(dts[1..]);
      DriveDown(q, kb, dts[1..]);
    }
  }

  /** Holding both keys or neither leaves an in-field paddle where it is,
      however many frames pass. */
  lemma {:induction false} DriveIdle(p: Paddle, kb: Keyboard, dts: seq<real>)
    requires InField(p.pos.y) && Movement(p.side, kb) == 0.0
    ensures Drive(p, kb, dts) == p
    decreases |dts|
  {
    if dts != [] {
      DriveIdle(PaddleMove(p, kb, dts[0]), kb, dts[1..]);
    }
  }

  /** A paddle driven up never passes the top wall, never moves down, and
      sits exactly on the top wall once the frames add up to the distance. */
  lemma HeldUpSaturates(p: Paddle, kb: Keyboard, dts: seq<real>)
    requires InField(p.pos.y) && NonNegative(dts)
    requires UpKey(p.side, kb) && !DownKey(p.side, kb)
    ensures p.pos.y <= Drive(p, kb, dts).pos.y <= FieldHalfHeight
    ensures PaddleSpeed * Total(dts) >= FieldHalfHeight - p.pos.y ==>
      Drive(p, kb, dts).pos.y == FieldHalfHeight
  {
    DriveUp(p, kb, dts);
    TotalNonNegative(dts);
  }
}
