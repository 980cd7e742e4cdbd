/** The box: fixed length and height, and the one ball it owns
    (src/simulation/Box.java). */
module Boxes {
  import opened Tuples
  import opened Balls

  /** The placement guard of placeBall: the whole ball lies inside the box,
      which is only possible in a box at least one diameter wide and high. */
  predicate Inside(length: int, height: int, radius: int, p: Tuple<real>)
    ensures Inside(length, height, radius, p) ==> 2 * radius <= length && 2 * radius <= height
  {
    && radius as real <= p.x <= (length - radius) as real
    && radius as real <= p.y <= (height - radius) as real
  }

  /** The constructor's placement: random.nextInt(length - 2 * radius) + radius
      on each axis, for draws rx and ry in [0, bound), lies inside the box. */
  lemma InitialPlacementInside(length: int, height: int, radius: int, rx: int, ry: int)
    requires 0 <= rx < length - 2 * radius && 0 <= ry < height - 2 * radius
    ensures Inside(length, height, radius, Tuple((rx + radius) as real, (ry + radius) as real))
    ensures radius <= rx + radius <= length - radius - 1
    ensures radius <= ry + radius <= height - radius - 1
  {
  }

  class Box {
    const length: int
    const height: int
    /** The owned ball; the reference never changes. */
    const ball: Ball

    /** The box invariant: the ball's speed is in range and the ball is inside. */
    ghost predicate Valid()
      reads this, ball
    {
      ball.Valid() && Inside(length, height, ball.radius, ball.position)
    }

    /** randomX and randomY are the two random.nextInt draws, each below its
        bound length - 2 * ballRadius (resp. height - 2 * ballRadius); nextInt
        throws unless that bound is positive. */
    constructor (length: int, height: int, ballRadius: int, randomX: int, randomY: int)
      requires 0 <= randomX < length - 2 * ballRadius
      requires 0 <= randomY < height - 2 * ballRadius
      ensures this.length == length && this.height == height
      ensures fresh(ball) && ball.radius == ballRadius
      ensures ball.position == Tuple((randomX + ballRadius) as real, (randomY + ballRadius) as real)
      ensures ball.Speed() == Tuple(0.0, 0.0)
      ensures Valid()
    {
      this.length := length;
      this.height := height;
      ball := new Ball(ballRadius, (randomX + ballRadius) as real, (randomY + ballRadius) as real);
    }

    /** Has exactly Ball.SetSpeed's accept-or-reject behaviour. */
    method SetBallSpeed(x: real, y: real)
      modifies ball`speedX, ball`speedY
      ensures SpeedAccepted(x, y) ==> ball.speedX == x && ball.speedY == y
      ensures !SpeedAccepted(x, y) ==> ball.Speed() == old(ball.Speed())
      ensures ball.Speed() == GuardedSpeed(old(ball.Speed()), x, y)
      ensures ball.position == old(ball.position)
      ensures old(Valid()) ==> Valid()
    {
      ball.SetSpeed(x, y);
    }

    predicate BallMovesInPositiveXDirection()
      reads ball
    {
      ball.MovesInPositiveXDirection()
    }

    predicate BallMovesInPositiveYDirection()
      reads ball
    {
      ball.MovesInPositiveYDirection()
    }

    predicate BallMovesInNegativeXDirection()
      reads ball
    {
      ball.MovesInNegativeXDirection()
    }

    predicate BallMovesInNegativeYDirection()
      reads ball
    {
      ball.MovesInNegativeYDirection()
    }

    function GetBallSpeedInXDirection(): real
      reads ball
    {
      ball.GetSpeedInXDirection()
    }

    function GetBallSpeedInYDirection(): real
      reads ball
    {
      ball.GetSpeedInYDirection()
    }

    function GetLength(): int { length }

    function GetHeight(): int { height }

    function GetBallX(): real
      reads ball
    {
      ball.GetXPosition()
    }

    predicate IsBallInactive()
      reads ball
    {
      ball.IsInactive()
    }

    function GetBallY(): real
      reads ball
    {
      ball.GetYPosition()
    }

    /** Moves the ball to (x, y) when the whole ball fits there, and otherwise
        keeps the previous position; nothing is clamped. */
    method PlaceBall(x: real, y: real)
      modifies ball`position
      ensures Inside(length, height, ball.radius, Tuple(x, y)) ==> ball.position == Tuple(x, y)
      ensures !Inside(length, height, ball.radius, Tuple(x, y)) ==> ball.position == old(ball.position)
      ensures ball.Speed() == old(ball.Speed())
      ensures old(Valid()) ==> Valid()
    {
      if x >= ball.GetRadius() as real && x <= (length - ball.GetRadius()) as real
        && y >= ball.GetRadius() as real
        && y <= (height - ball.GetRadius()) as real
      {
        ball.SetPosition(x, y);
      }
    }

    function GetBallRadius(): int { ball.GetRadius() }
  }
}
