/** The ball: a fixed radius, a speed pair and a position pair
    (src/simulation/Ball.java). Doubles are modelled as reals. */
module Balls {
  import opened Tuples

  /** Dead zone of the activity and direction predicates. */
  const Threshold: real := 0.0001

  function Abs(r: real): real { if r < 0.0 then -r else r }

  /** The guard of setSpeed: each component must lie in [-1, 1]. */
  predicate SpeedAccepted(x: real, y: real) {
    Abs(x) <= 1.0 && Abs(y) <= 1.0
  }

  /** The speed a ball has after setSpeed(x, y), when it had speed current:
      the request as a whole or the current speed as a whole, and in range
      exactly when the request was or the current speed already was. */
  function GuardedSpeed(current: Tuple<real>, x: real, y: real): (r: Tuple<real>)
    ensures r == Tuple(x, y) || r == current
    ensures SpeedAccepted(r.x, r.y) <==> SpeedAccepted(x, y) || SpeedAccepted(current.x, current.y)
  {
    if SpeedAccepted(x, y) then Tuple(x, y) else current
  }

  /** Squared Euclidean norm of a speed pair. */
  function SqNorm(v: Tuple<real>): real { v.x * v.x + v.y * v.y }

  /** isInactive, with the comparison against the square root taken on squares;
      an inactive speed is below the threshold on each axis. */
  predicate Inactive(v: Tuple<real>)
    ensures Inactive(v) ==> Abs(v.x) < Threshold && Abs(v.y) < Threshold
  {
    SqNorm(v) < Threshold * Threshold
  }

  /** movesInPositiveXDirection / movesInPositiveYDirection on one component. */
  predicate MovesPositive(c: real) {
    Threshold < c
  }

  /** movesInNegativeXDirection / movesInNegativeYDirection on one component,
      with the source's two conjuncts. */
  predicate MovesNegative(c: real) {
    c < 0.0 && c < -Threshold
  }

  /** setSpeed replaces both components exactly when both are in range, and
      otherwise keeps both; a ball whose speed was in range stays in range. */
  lemma SetSpeedGuard(current: Tuple<real>, x: real, y: real)
    ensures SpeedAccepted(x, y) ==> GuardedSpeed(current, x, y) == Tuple(x, y)
    ensures !SpeedAccepted(x, y) ==> GuardedSpeed(current, x, y) == current
    ensures SpeedAccepted(current.x, current.y) ==>
              SpeedAccepted(GuardedSpeed(current, x, y).x, GuardedSpeed(current, x, y).y)
  {
  }

  /** The source's test, 0.0001 > sqrt(|vx|*|vx| + |vy|*|vy|), agrees with
      Inactive for any square root. */
  lemma {:induction false} InactiveMatchesSqrt(v: Tuple<real>, m: real)
    requires 0.0 <= m && m * m == Abs(v.x) * Abs(v.x) + Abs(v.y) * Abs(v.y)
    ensures Inactive(v) <==> Threshold > m
  {
    assert Abs(v.x) * Abs(v.x) == v.x * v.x;
    assert Abs(v.y) * Abs(v.y) == v.y * v.y;
    assert m * m == SqNorm(v);
    if m < Threshold {
      calc {
        SqNorm(v);
        == m * m;
        <= m * Threshold;
        < Threshold * Threshold;
      }
    } else {
      assert Threshold * Threshold <= m * Threshold;
      assert m * Threshold <= m * m;
    }
  }

  /** The direction predicates are the plain threshold tests; the two of one
      axis exclude each other and both fail inside the dead zone. */
  lemma DirectionDeadZone(c: real)
    ensures MovesPositive(c) <==> c > Threshold
    ensures MovesNegative(c) <==> c < -Threshold
    ensures !(MovesPositive(c) && MovesNegative(c))
    ensures Abs(c) <= Threshold ==> !MovesPositive(c) && !MovesNegative(c)
  {
  }

  /** A component whose square is below Threshold squared lies in the dead zone. */
  lemma SmallSquareInDeadZone(c: real)
    requires c * c < Threshold * Threshold
    ensures Abs(c) < Threshold
  {
  }

  /** An inactive ball moves in none of the four directions. */
  lemma {:induction false} InactiveHasNoDirection(v: Tuple<real>)
    requires Inactive(v)
    ensures !MovesPositive(v.x) && !MovesNegative(v.x)
    ensures !MovesPositive(v.y) && !MovesNegative(v.y)
  {
    assert v.x * v.x <= SqNorm(v) && v.y * v.y <= SqNorm(v);
    SmallSquareInDeadZone(v.x);
    SmallSquareInDeadZone(v.y);
  }

  class Ball {
    /** The radius, fixed at construction. */
    const radius: int
    var speedX: real
    var speedY: real
    /** The position, replaced only as a whole pair. */
    var position: Tuple<real>

    /** Every reachable ball has both speed components in [-1, 1]. */
    ghost predicate Valid()
      reads this
    {
      SpeedAccepted(speedX, speedY)
    }

    /** A new ball at rest (doubles default to 0.0) at the given position. */
    constructor (radius: int, xPosition: real, yPosition: real)
      ensures this.radius == radius
      ensures position == Tuple(xPosition, yPosition)
      ensures speedX == 0.0 && speedY == 0.0
      ensures Valid()
    {
      this.radius := radius;
      position := Tuple(xPosition, yPosition);
      speedX, speedY := 0.0, 0.0;
    }

    function Speed(): Tuple<real>
      reads this
    {
      Tuple(speedX, speedY)
    }

    /** Sets both components when both are in [-1, 1]; otherwise does nothing. */
    method SetSpeed(x: real, y: real)
      modifies this`speedX, this`speedY
      ensures SpeedAccepted(x, y) ==> speedX == x && speedY == y
      ensures !SpeedAccepted(x, y) ==> speedX == old(speedX) && speedY == old(speedY)
      ensures Speed() == GuardedSpeed(old(Speed()), x, y)
      ensures old(Valid()) ==> Valid()
      ensures position == old(position)
    {
      if Abs(x) <= 1.0 && Abs(y) <= 1.0 {
        speedX := x;
        speedY := y;
      }
    }

    predicate IsInactive()
      reads this
    {
      Inactive(Speed())
    }

    predicate MovesInPositiveXDirection()
      reads this
    {
      MovesPositive(speedX)
    }

    predicate MovesInPositiveYDirection()
      reads this
    {
      MovesPositive(speedY)
    }

    predicate MovesInNegativeXDirection()
      reads this
    {
      MovesNegative(speedX)
    }

    predicate MovesInNegativeYDirection()
      reads this
    {
      MovesNegative(speedY)
    }

    function GetRadius(): int { radius }

    function GetSpeedInXDirection(): real
      reads this
    {
      speedX
    }

    function GetSpeedInYDirection(): real
      reads this
    {
      speedY
    }

    /** Replaces the position pair as a whole. */
    method SetPosition(x: real, y: real)
      modifies this`position
      ensures position == Tuple(x, y)
      ensures GetXPosition() == x && GetYPosition() == y
      ensures speedX == old(speedX) && speedY == old(speedY)
    {
      position := Tuple(x, y);
    }

    function GetXPosition(): real
      reads this
    {
      position.GetX()
    }

    function GetYPosition(): real
      reads this
    {
      position.GetY()
    }
  }
}
