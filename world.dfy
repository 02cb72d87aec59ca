/** The running game: the entities spawned at startup, held in arrays that
    the four game systems loop over and update in place. */
module Game {
  import opened Geometry
  import opened Pong

  /** The body of the paddle move system for one paddle: the movement is
      built up from the side's two keys, the paddle travels
      `128 * movement * dt` and is clamped into the field. */
  method StepPaddle(paddle: Paddle, kb: Keyboard, dt: real) returns (moved: Paddle)
    ensures moved == PaddleMove(paddle, kb, dt)
  {
    var movement := 0.0;
    match paddle.side {
      case Left =>
        if kb.w {
          movement := movement + 1.0;
        }
        if kb.s {
          movement := movement - 1.0;
        }
      case Right =>
        if kb.up {
          movement := movement + 1.0;
        }
        if kb.down {
          movement := movement - 1.0;
        }
    }
    assert movement == Movement(paddle.side, kb);
    var y := paddle.pos.y + PaddleSpeed * movement * dt;
    y := Clamp(y, -FieldHalfHeight, FieldHalfHeight);
    moved := paddle.(pos := paddle.pos.(y := y));
  }

  class World {
    /** The entities that carry a `Ball` component (startup spawns one). */
    const balls: array<Ball>
    /** The entities that carry a `Paddle` component (startup spawns two). */
    const paddles: array<Paddle>

    /** The world as startup leaves it and every system keeps it: one ball of
        the startup size whose velocity has no zero component, and the left
        and right paddles in their startup columns, inside the field. */
    ghost predicate Valid()
      reads balls, paddles
    {
      && balls.Length == 1
      && balls[0].size == BallSize
      && balls[0].vel.x != 0.0 && balls[0].vel.y != 0.0
      && paddles.Length == 2
      && SetupLeft(paddles[0]) && InField(paddles[0].pos.y)
      && SetupRight(paddles[1]) && InField(paddles[1].pos.y)
    }

    /** Startup: the two paddles at x = -512 and x = 512, the ball at the
        centre serving up and to the right. */
    constructor ()
      ensures Valid()
      ensures fresh(balls) && fresh(paddles)
      ensures balls[..] == [ServeBall]
      ensures paddles[..] == [LeftPaddle, RightPaddle]
    {
      var bs := new Ball[1];
      bs[0] := ServeBall;
      var ps := new Paddle[2];
      ps[0] := LeftPaddle;
      ps[1] := RightPaddle;
      balls, paddles := bs, ps;
    }

    /** Keeps every ball between the walls, reflecting one that crossed a
        wall while still heading into it. */
    method WallBounceSystem()
      requires Valid()
      modifies balls
      ensures Valid()
      ensures forall i :: 0 <= i < balls.Length ==> balls[i] == WallBounce(old(balls[i]))
      ensures forall i :: 0 <= i < balls.Length ==> InField(balls[i].pos.y)
    {
      for i := 0 to balls.Length
        invariant forall k :: 0 <= k < i ==> balls[k] == WallBounce(old(balls[k]))
        invariant forall k :: i <= k < balls.Length ==> balls[k] == old(balls[k])
      {
        var ball := balls[i];
        if ball.pos.y < -FieldHalfHeight {
          ball := ball.(pos := ball.pos.(y := -FieldHalfHeight));
          if ball.vel.y < 0.0 {
            ball := ball.(vel := ball.vel.(y := -ball.vel.y));
          }
        }
        if ball.pos.y > FieldHalfHeight {
          ball := ball.(pos := ball.pos.(y := FieldHalfHeight));
          if ball.vel.y > 0.0 {
            ball := ball.(vel := ball.vel.(y := -ball.vel.y));
          }
        }
        balls[i] := ball;
      }
    }

    /** Checks every ball against every paddle and reflects it off each
        paddle it overlaps while moving towards that paddle's side. */
    method PaddleBounceSystem()
      requires Valid()
      modifies balls
      ensures Valid()
      ensures forall i :: 0 <= i < balls.Length ==> balls[i] == BounceAll(old(balls[i]), paddles[..])
      ensures balls[0] ==
        if Touches(old(balls[0]), paddles[0]) then BounceOff(old(balls[0]), paddles[0])
        else BounceOff(old(balls[0]), paddles[1])
    {
      for i := 0 to balls.Length
        invariant forall k :: 0 <= k < i ==> balls[k] == BounceAll(old(balls[k]), paddles[..])
        invariant forall k :: i <= k < balls.Length ==> balls[k] == old(balls[k])
      {
        var ball := balls[i];
        for j := 0 to paddles.Length
          invariant ball == BounceAll(balls[i], paddles[..j])
        {
          var paddle := paddles[j];
          if Overlaps(ball.pos, ball.size, paddle.pos, paddle.size) {
            match paddle.side {
              case Left =>
                if ball.vel.x < 0.0 {
                  ball := ball.(vel := ball.vel.(x := -ball.vel.x));
                }
              case Right =>
                if ball.vel.x > 0.0 {
                  ball := ball.(vel := ball.vel.(x := -ball.vel.x));
                }
            }
          }
          assert paddles[..j + 1][..j] == paddles[..j];
        }
        assert paddles[..paddles.Length] == paddles[..];
        balls[i] := ball;
      }
      SetupPaddleBounce(old(balls[0]), paddles[..]);
    }

    /** Moves every ball by its velocity times the frame time, the frame
        time capped at 0.2 s. */
    method BallMoveSystem(dt: real)
      requires Valid()
      modifies balls
      ensures Valid()
      ensures forall i :: 0 <= i < balls.Length ==> balls[i] == BallMove(old(balls[i]), dt)
    {
      var elapsed := Min(MaxElapsed, dt);
      assert elapsed == Elapsed(dt);
      for i := 0 to balls.Length
        invariant forall k :: 0 <= k < i ==> balls[k] == BallMove(old(balls[k]), dt)
        invariant forall k :: i <= k < balls.Length ==> balls[k] == old(balls[k])
      {
        var ball := balls[i];
        ball := ball.(pos := ball.pos.(x := ball.pos.x + ball.vel.x * elapsed));
        ball := ball.(pos := ball.pos.(y := ball.pos.y + ball.vel.y * elapsed));
        assert ball == BallMove(balls[i], dt);
        balls[i] := ball;
      }
    }

    /** Moves every paddle up or down as its player's keys say, then clamps
        it into the field. */
    method PaddleMoveSystem(kb: Keyboard, dt: real)
      requires Valid()
      modifies paddles
      ensures Valid()
      ensures forall i :: 0 <= i < paddles.Length ==> paddles[i] == PaddleMove(old(paddles[i]), kb, dt)
    {
      for i := 0 to paddles.Length
        invariant forall k :: 0 <= k < i ==> paddles[k] == PaddleMove(old(paddles[k]), kb, dt)
        invariant forall k :: i <= k < paddles.Length ==> paddles[k] == old(paddles[k])
      {
        var paddle := StepPaddle(paddles[i], kb, dt);
        paddles[i] := paddle;
      }
    }

    /** One frame with the systems in the order the application registers
        them: wall bounce, paddle bounce, ball move, paddle move. */
    method Frame(kb: Keyboard, dt: real)
      requires Valid()
      modifies balls, paddles
      ensures Valid()
      ensures balls[0] == BallMove(BounceAll(WallBounce(old(balls[0])), old(paddles[..])), dt)
      ensures paddles[0] == PaddleMove(old(paddles[0]), kb, dt)
      ensures paddles[1] == PaddleMove(old(paddles[1]), kb, dt)
    {
      WallBounceSystem();
      PaddleBounceSystem();
      BallMoveSystem(dt);
      PaddleMoveSystem(kb, dt);
    }
  }
}
