/** The stepper and observer registry of src/simulation/MovementSimulator.java. */
module Movement {
  import opened Tuples
  import opened Balls
  import opened Boxes

  /** Factor applied to a speed component reversed at a wall. */
  const Damping: real := 0.95
  /** Speed magnitude lost to rolling friction per sub-step. */
  const FrictionLoss: real := 0.0001
  /** The refresh time set by the constructor. */
  const RefreshBaseline: int := 10

  // ---------------------------------------------------------------------
  // Observers and notifications
  // ---------------------------------------------------------------------

  /** Observers are opaque handles, compared by identity. */
  type ObserverId = nat

  datatype Signal = BallIsActive | BallIsInactive

  /** One callback invocation: observer.notifyBallIsActive() or
      observer.notifyBallIsInactive(). */
  datatype Notification = Notification(observer: ObserverId, signal: Signal)

  /** The callbacks made when every observer of obs is notified, in order. */
  function Broadcast(obs: seq<ObserverId>, signal: Signal): (r: seq<Notification>)
    ensures |r| == |obs|
    ensures forall n :: n in r ==> n.signal == signal && n.observer in obs
  {
    if obs == [] then [] else [Notification(obs[0], signal)] + Broadcast(obs[1..], signal)
  }

  /** Every registered observer is called exactly once per registration, in
      registration order. */
  lemma {:induction false} BroadcastInOrder(obs: seq<ObserverId>, signal: Signal)
    ensures |Broadcast(obs, signal)| == |obs|
    ensures forall k :: 0 <= k < |obs| ==> Broadcast(obs, signal)[k] == Notification(obs[k], signal)
  {
    if obs != [] {
      BroadcastInOrder(obs[1..], signal);
      forall k | 0 < k < |obs|
        ensures Broadcast(obs, signal)[k] == Notification(obs[k], signal)
      {
        assert Broadcast(obs, signal)[k] == Broadcast(obs[1..], signal)[k - 1];
      }
    }
  }

  /** Notifying one more observer appends its callback at the end. */
  lemma {:induction false} BroadcastAppend(obs: seq<ObserverId>, o: ObserverId, signal: Signal)
    ensures Broadcast(obs + [o], signal) == Broadcast(obs, signal) + [Notification(o, signal)]
  {
    if obs != [] {
      assert (obs + [o])[1..] == obs[1..] + [o];
      BroadcastAppend(obs[1..], o, signal);
    }
  }

  /** ArrayList.remove(Object): drops the first occurrence of o, if any. */
  function RemoveFirst(s: seq<ObserverId>, o: ObserverId): (r: seq<ObserverId>)
    ensures |r| == if o in s then |s| - 1 else |s|
    ensures forall x :: x in r ==> x in s
  {
    if s == [] then []
    else if s[0] == o then s[1..]
    else [s[0]] + RemoveFirst(s[1..], o)
  }

  /** The position of the first occurrence of o in s. */
  function FirstIndex(s: seq<ObserverId>, o: ObserverId): (k: nat)
    requires o in s
    ensures k < |s| && s[k] == o && o !in s[..k]
  {
    if s[0] == o then 0
    else
      var k := 1 + FirstIndex(s[1..], o);
      assert s[..k] == [s[0]] + s[1..][..k - 1];
      k
  }

  /** unregisterObserver of an observer that is not registered is a no-op. */
  lemma {:induction false} RemoveFirstAbsent(s: seq<ObserverId>, o: ObserverId)
    requires o !in s
    ensures RemoveFirst(s, o) == s
  {
    if s != [] {
      RemoveFirstAbsent(s[1..], o);
      assert s == [s[0]] + s[1..];
    }
  }

  /** unregisterObserver of a registered observer removes exactly its first
      occurrence and keeps the others in order. */
  lemma {:induction false} RemoveFirstAt(s: seq<ObserverId>, o: ObserverId)
    requires o in s
    ensures RemoveFirst(s, o) == s[..FirstIndex(s, o)] + s[FirstIndex(s, o) + 1..]
  {
    if s[0] != o {
      var k := FirstIndex(s, o);
      RemoveFirstAt(s[1..], o);
      assert s[..k] == [s[0]] + s[1..][..k - 1];
      assert s[k + 1..] == s[1..][k..];
    }
  }

  /** Removing the first occurrence takes exactly one copy of o out of the
      registry, if there is one. */
  lemma {:induction false} RemoveFirstMultiset(s: seq<ObserverId>, o: ObserverId)
    ensures multiset(RemoveFirst(s, o)) == multiset(s) - multiset{o}
  {
    if s != [] {
      assert s == [s[0]] + s[1..];
      if s[0] != o {
        RemoveFirstMultiset(s[1..], o);
      }
    }
  }

  // ---------------------------------------------------------------------
  // Speed updates
  // ---------------------------------------------------------------------

  /** The square root Math.sqrt computes, as a property of a function. */
  ghost predicate IsSqrt(sqrt: real -> real) {
    forall s: real :: 0.0 <= s ==> 0.0 <= sqrt(s) && sqrt(s) * sqrt(s) == s
  }

  /** A reversed and damped speed component: (-1) * c * 0.95. */
  function Inverted(c: real): (r: real)
    ensures Abs(r) == Damping * Abs(c)
    ensures c < 0.0 ==> 0.0 < r
    ensures 0.0 < c ==> r < 0.0
  {
    (-1.0) * c * Damping
  }

  /** invertAndSlowSpeedInXDirection, through setBallSpeed's guard: the Y
      component is kept, and a speed in range has its X component reversed
      and damped. */
  function InvertX(v: Tuple<real>): (r: Tuple<real>)
    ensures r.y == v.y
    ensures SpeedAccepted(v.x, v.y) ==> r.x == Inverted(v.x) && Abs(r.x) <= Abs(v.x)
  {
    GuardedSpeed(v, Inverted(v.x), v.y)
  }

  /** invertAndSlowSpeedInYDirection, through setBallSpeed's guard: the X
      component is kept, and a speed in range has its Y component reversed
      and damped. */
  function InvertY(v: Tuple<real>): (r: Tuple<real>)
    ensures r.x == v.x
    ensures SpeedAccepted(v.x, v.y) ==> r.y == Inverted(v.y) && Abs(r.y) <= Abs(v.y)
  {
    GuardedSpeed(v, v.x, Inverted(v.y))
  }

  /** For a speed in range the guard never rejects an inversion: the axis is
      reversed and damped, the other axis is untouched. */
  lemma InvertAccepted(v: Tuple<real>)
    requires SpeedAccepted(v.x, v.y)
    ensures InvertX(v) == Tuple(Inverted(v.x), v.y)
    ensures InvertY(v) == Tuple(v.x, Inverted(v.y))
    ensures SpeedAccepted(InvertX(v).x, InvertX(v).y)
    ensures SpeedAccepted(InvertY(v).x, InvertY(v).y)
  {
  }

  /** rollingFriction for speed v whose magnitude Math.sqrt gave as m. At m = 0
      the source divides 0 by 0; every component is NaN, Math.abs(NaN) <= 1 is
      false, and setSpeed keeps the speed. The result is the old speed or the
      old speed scaled by the single factor (m - 0.0001) / m, and it is in
      range when the old speed was. */
  function Friction(v: Tuple<real>, m: real): (r: Tuple<real>)
    ensures SpeedAccepted(v.x, v.y) ==> SpeedAccepted(r.x, r.y)
  {
    if m == 0.0 then v
    else
      GuardedSpeed(v, (v.x / m) * (m - FrictionLoss), (v.y / m) * (m - FrictionLoss))
  }

  lemma AbsMul(a: real, b: real)
    ensures Abs(a * b) == Abs(a) * Abs(b)
  {
  }

  lemma MulMonotone(a: real, b: real, k: real)
    requires a <= b && 0.0 <= k
    ensures a * k <= b * k
  {
  }

  lemma NonPositiveFactor(x: real, y: real)
    requires 0.0 < y && x * y <= 0.0
    ensures x <= 0.0
  {
  }

  lemma DivScale(x: real, m: real, n: real)
    requires m != 0.0
    ensures (x / m) * n == x * (n / m)
  {
  }

  /** Friction at m != 0 is setSpeed applied to the rescaled components x, y. */
  lemma FrictionAt(v: Tuple<real>, m: real, x: real, y: real)
    requires m != 0.0
    requires x == (v.x / m) * (m - FrictionLoss) && y == (v.y / m) * (m - FrictionLoss)
    ensures Friction(v, m) == GuardedSpeed(v, x, y)
  {
  }

  /** The factor rollingFriction scales both components by, for magnitude m. */
  function FrictionFactor(m: real): real
    requires m != 0.0
  {
    (m - FrictionLoss) / m
  }

  /** The friction factor times m gives the new magnitude, and the factor lies
      strictly between 0 and 1 when m > 0.0001. */
  lemma FrictionFactorBounds(m: real)
    requires 0.0 < m
    ensures FrictionFactor(m) * m == m - FrictionLoss
    ensures FrictionLoss < m ==> 0.0 < FrictionFactor(m) < 1.0
  {
  }

  /** A component is bounded by the magnitude it contributes to. */
  lemma ComponentBelowMagnitude(c: real, m: real)
    requires 0.0 <= m && c * c <= m * m
    ensures Abs(c) <= m
  {
    var a := Abs(c);
    assert a * a == c * c;
    assert (a - m) * (a + m) == a * a - m * m;
    if 0.0 < a + m {
      NonPositiveFactor(a - m, a + m);
    }
  }

  /** A component scaled by f, with f * m = m - FrictionLoss, stays in range. */
  lemma ScaledComponentInRange(c: real, m: real, f: real)
    requires Abs(c) <= 1.0 && 0.0 < m && c * c <= m * m && f * m == m - FrictionLoss
    ensures Abs(c * f) <= 1.0
  {
    var a, g := Abs(c), Abs(f);
    AbsMul(c, f);
    AbsMul(f, m);
    assert g * m == Abs(m - FrictionLoss);
    ComponentBelowMagnitude(c, m);
    if 2.0 * m >= FrictionLoss {
      assert (g - 1.0) * m == g * m - m;
      NonPositiveFactor(g - 1.0, m);
      MulMonotone(g, 1.0, a);
      assert a * g <= a;
    } else {
      MulMonotone(a, m, g);
      assert a * g <= FrictionLoss - m;
    }
  }

  /** When the rescaled components are in range, friction is scaling by the factor. */
  lemma FrictionScaled(v: Tuple<real>, m: real)
    requires m != 0.0
    requires SpeedAccepted(v.x * FrictionFactor(m), v.y * FrictionFactor(m))
    ensures Friction(v, m) == Tuple(v.x * FrictionFactor(m), v.y * FrictionFactor(m))
  {
    DivScale(v.x, m, m - FrictionLoss);
    DivScale(v.y, m, m - FrictionLoss);
    FrictionAt(v, m, v.x * FrictionFactor(m), v.y * FrictionFactor(m));
  }

  /** Scaling both components by f scales the squared norm by f * f. */
  lemma ScaledSqNorm(v: Tuple<real>, f: real, m: real, n: real)
    requires m * m == SqNorm(v) && f * m == n
    ensures SqNorm(Tuple(v.x * f, v.y * f)) == n * n
  {
    calc {
      SqNorm(Tuple(v.x * f, v.y * f));
      == (v.x * f) * (v.x * f) + (v.y * f) * (v.y * f);
      == (f * f) * (v.x * v.x + v.y * v.y);
      == (f * f) * (m * m);
      == (f * m) * (f * m);
      == n * n;
    }
  }

  /** For a speed in range with magnitude m > 0, the rescaled components are in range. */
  lemma FrictionAccepted(v: Tuple<real>, m: real)
    requires SpeedAccepted(v.x, v.y)
    requires 0.0 < m && m * m == SqNorm(v)
    ensures SpeedAccepted(v.x * FrictionFactor(m), v.y * FrictionFactor(m))
  {
    FrictionFactorBounds(m);
    assert v.x * v.x <= m * m && v.y * v.y <= m * m;
    ScaledComponentInRange(v.x, m, FrictionFactor(m));
    ScaledComponentInRange(v.y, m, FrictionFactor(m));
  }

  /** Scaling by the friction factor turns magnitude m into m - 0.0001. */
  lemma FrictionMagnitude(v: Tuple<real>, m: real)
    requires 0.0 < m && m * m == SqNorm(v)
    ensures SqNorm(Tuple(v.x * FrictionFactor(m), v.y * FrictionFactor(m))) == (m - FrictionLoss) * (m - FrictionLoss)
  {
    FrictionFactorBounds(m);
    ScaledSqNorm(v, FrictionFactor(m), m, m - FrictionLoss);
  }

  /** For a speed in range with true magnitude m > 0, friction is never
      rejected: both components are scaled by (m - 0.0001) / m, the new
      magnitude is |m - 0.0001|, and for m > 0.0001 the heading is kept. */
  lemma {:induction false} FrictionRescales(v: Tuple<real>, m: real)
    requires SpeedAccepted(v.x, v.y)
    requires 0.0 < m && m * m == SqNorm(v)
    ensures Friction(v, m) == Tuple(v.x * FrictionFactor(m), v.y * FrictionFactor(m))
    ensures SqNorm(Friction(v, m)) == (m - FrictionLoss) * (m - FrictionLoss)
    ensures FrictionLoss < m ==> 0.0 < FrictionFactor(m) < 1.0
  {
    FrictionFactorBounds(m);
    FrictionAccepted(v, m);
    FrictionScaled(v, m);
    FrictionMagnitude(v, m);
  }

  /** rollingFriction with m = Math.sqrt(vx * vx + vy * vy): a ball at rest
      keeps its speed, any other speed in range is rescaled along its heading
      to magnitude |m - 0.0001|. */
  lemma {:induction false} FrictionUnderSqrt(sqrt: real -> real, v: Tuple<real>, m: real)
    requires IsSqrt(sqrt) && SpeedAccepted(v.x, v.y) && m == sqrt(SqNorm(v))
    ensures 0.0 <= m && m * m == SqNorm(v)
    ensures SqNorm(v) == 0.0 ==> Friction(v, m) == v
    ensures SqNorm(v) != 0.0 ==> Friction(v, m) == Tuple(v.x * FrictionFactor(m), v.y * FrictionFactor(m))
    ensures SqNorm(v) != 0.0 ==> SqNorm(Friction(v, m)) == (m - FrictionLoss) * (m - FrictionLoss)
  {
    assert 0.0 <= v.x * v.x && 0.0 <= v.y * v.y;
    assert 0.0 <= m && m * m == SqNorm(v);
    if m != 0.0 {
      FrictionRescales(v, m);
    }
  }

  /** The friction factor is negative below the threshold. */
  lemma FrictionFactorNegative(m: real)
    requires 0.0 < m < FrictionLoss
    ensures FrictionFactor(m) < 0.0
  {
    FrictionFactorBounds(m);
    NonPositiveFactor(FrictionFactor(m), m);
  }

  /** Below the threshold, 0 < m < 0.0001, friction reverses the heading: both
      components are scaled by one negative factor, and the new magnitude is
      0.0001 - m. */
  lemma {:induction false} FrictionBelowThreshold(v: Tuple<real>, m: real)
    requires SpeedAccepted(v.x, v.y)
    requires 0.0 < m < FrictionLoss && m * m == SqNorm(v)
    ensures FrictionFactor(m) < 0.0
    ensures Friction(v, m) == Tuple(v.x * FrictionFactor(m), v.y * FrictionFactor(m))
    ensures SqNorm(Friction(v, m)) == (FrictionLoss - m) * (FrictionLoss - m)
  {
    FrictionFactorNegative(m);
    FrictionRescales(v, m);
  }

  /** A concrete reversal: speed (0.00003, 0.00004) has magnitude 0.00005 and
      comes out of friction as (-0.00003, -0.00004). */
  lemma FrictionReversalExample()
    ensures Friction(Tuple(0.00003, 0.00004), 0.00005) == Tuple(-0.00003, -0.00004)
  {
    FrictionScaled(Tuple(0.00003, 0.00004), 0.00005);
  }

  /** setRandomBallSpeed, for draws positiveX, positiveY (random.nextBoolean)
      and magnitudeX, magnitudeY (Math.random). */
  function RandomSpeed(positiveX: bool, magnitudeX: real, positiveY: bool, magnitudeY: real): (r: Tuple<real>)
    requires 0.0 <= magnitudeX < 1.0 && 0.0 <= magnitudeY < 1.0
    ensures SpeedAccepted(r.x, r.y)
    ensures Abs(r.x) == magnitudeX && Abs(r.y) == magnitudeY
    ensures (positiveX ==> 0.0 <= r.x) && (!positiveX ==> r.x <= 0.0)
    ensures (positiveY ==> 0.0 <= r.y) && (!positiveY ==> r.y <= 0.0)
  {
    Tuple(if positiveX then magnitudeX else magnitudeX * (-1.0),
          if positiveY then magnitudeY else magnitudeY * (-1.0))
  }

  // ---------------------------------------------------------------------
  // The sub-step loop of calculatePhysicalData
  // ---------------------------------------------------------------------

  /** The fixed dimensions the stepper reads from the box. */
  datatype Dims = Dims(length: int, height: int, radius: int)

  /** Which wall, if any, one axis hits in a sub-step. */
  datatype Wall = Clear | Low | High

  /** The wall test of one axis: the tentative coordinate crosses the low
      wall while the ball moves negative, or the high wall extent - radius
      while it moves positive. */
  function WallHit(tentative: real, c: real, radius: int, extent: int): (w: Wall)
    ensures w == Low ==> tentative < radius as real && c < -Threshold
    ensures w == High ==> tentative > (extent - radius) as real && c > Threshold
    ensures w == Clear ==> !(tentative < radius as real && MovesNegative(c))
    ensures (!(tentative < radius as real && MovesNegative(c))
             && tentative > (extent - radius) as real && MovesPositive(c)) ==> w == High
  {
    if tentative < radius as real && MovesNegative(c) then Low
    else if tentative > (extent - radius) as real && MovesPositive(c) then High
    else Clear
  }

  /** The coordinate after the wall test: snapped to the wall that was hit,
      which lies in [radius, extent - radius] whenever the ball fits. */
  function Snapped(w: Wall, tentative: real, radius: int, extent: int): (r: real)
    ensures w == Clear ==> r == tentative
    ensures w != Clear && 2 * radius <= extent ==> radius as real <= r <= (extent - radius) as real
  {
    match w
    case Low => radius as real
    case High => (extent - radius) as real
    case Clear => tentative
  }

  datatype SubStepResult = SubStepResult(pos: Tuple<real>, speed: Tuple<real>, hit: bool)

  /** One pass of the loop body up to the early-return test: X first, then Y
      with the speed as the X test left it. */
  function SubStep(d: Dims, pos: Tuple<real>, v: Tuple<real>): (r: SubStepResult)
    ensures !r.hit ==> r.pos == Tuple(pos.x + v.x, pos.y + v.y) && r.speed == v
    ensures SpeedAccepted(v.x, v.y) ==> SpeedAccepted(r.speed.x, r.speed.y)
  {
    var tentativeX := pos.x + v.x;
    var wx := WallHit(tentativeX, v.x, d.radius, d.length);
    var v1 := if wx == Clear then v else InvertX(v);
    var tentativeY := pos.y + v1.y;
    var wy := WallHit(tentativeY, v1.y, d.radius, d.height);
    var v2 := if wy == Clear then v1 else InvertY(v1);
    SubStepResult(Tuple(Snapped(wx, tentativeX, d.radius, d.length), Snapped(wy, tentativeY, d.radius, d.height)),
                  v2, wx != Clear || wy != Clear)
  }

  /** A low wall hit snaps exactly to radius, a high one exactly to
      extent - radius, and an axis without a hit advances by exactly its
      speed component; a hit axis is reversed and damped, the other kept. */
  lemma SubStepWalls(d: Dims, pos: Tuple<real>, v: Tuple<real>)
    requires SpeedAccepted(v.x, v.y)
    ensures var r := SubStep(d, pos, v);
      && var lowX := pos.x + v.x < d.radius as real && MovesNegative(v.x);
      && var highX := !lowX && pos.x + v.x > (d.length - d.radius) as real && MovesPositive(v.x);
      && var lowY := pos.y + v.y < d.radius as real && MovesNegative(v.y);
      && var highY := !lowY && pos.y + v.y > (d.height - d.radius) as real && MovesPositive(v.y);
      && (lowX ==> r.pos.x == d.radius as real)
      && (highX ==> r.pos.x == (d.length - d.radius) as real)
      && (!lowX && !highX ==> r.pos.x == pos.x + v.x)
      && (lowY ==> r.pos.y == d.radius as real)
      && (highY ==> r.pos.y == (d.height - d.radius) as real)
      && (!lowY && !highY ==> r.pos.y == pos.y + v.y)
      && r.speed.x == (if lowX || highX then Inverted(v.x) else v.x)
      && r.speed.y == (if lowY || highY then Inverted(v.y) else v.y)
      && (r.hit <==> lowX || highX || lowY || highY)
      && SpeedAccepted(r.speed.x, r.speed.y)
  {
    InvertAccepted(v);
    InvertAccepted(InvertX(v));
  }

  /** The outcome of calculatePhysicalData: all sub-steps ran, or the loop
      returned early at sub-step step. */
  datatype Outcome = Completed | TruncatedAt(step: int)

  datatype Calculation = Calculation(pos: Tuple<real>, speed: Tuple<real>, outcome: Outcome)

  /** The sub-steps i..refresh of calculatePhysicalData, from position pos and
      speed v, with collided the collisionOccurred flag so far. An early
      return happens at a sub-step in i..refresh, and only for an active ball. */
  function Run(d: Dims, sqrt: real -> real, pos: Tuple<real>, v: Tuple<real>, collided: bool,
               i: int, refresh: int): (r: Calculation)
    ensures r.outcome.TruncatedAt? ==> i <= r.outcome.step <= refresh
    ensures r.outcome.TruncatedAt? ==> !Inactive(r.speed)
    decreases refresh - i
  {
    if refresh < i then Calculation(pos, v, Completed)
    else
      var s := SubStep(d, pos, v);
      var c := collided || s.hit;
      if c && !Inactive(s.speed) then Calculation(s.pos, s.speed, TruncatedAt(i))
      else Run(d, sqrt, s.pos, Friction(s.speed, sqrt(SqNorm(s.speed))), c, i + 1, refresh)
  }

  /** SubStep assembled from its X half and its Y half. */
  lemma SubStepHalves(d: Dims, pos: Tuple<real>, v: Tuple<real>,
                      px: real, hx: bool, v1: Tuple<real>, py: real, hy: bool, v2: Tuple<real>)
    requires var wx := WallHit(pos.x + v.x, v.x, d.radius, d.length);
      && hx == (wx != Clear) && px == Snapped(wx, pos.x + v.x, d.radius, d.length)
      && v1 == (if hx then InvertX(v) else v)
    requires var wy := WallHit(pos.y + v1.y, v1.y, d.radius, d.height);
      && hy == (wy != Clear) && py == Snapped(wy, pos.y + v1.y, d.radius, d.height)
      && v2 == (if hy then InvertY(v1) else v1)
    ensures SubStep(d, pos, v) == SubStepResult(Tuple(px, py), v2, hx || hy)
  {
  }

  /** One unfolding of Run at a sub-step that is still to run. */
  lemma RunStep(d: Dims, sqrt: real -> real, pos: Tuple<real>, v: Tuple<real>, collided: bool,
                i: int, refresh: int)
    requires i <= refresh
    ensures var s := SubStep(d, pos, v);
      var c := collided || s.hit;
      Run(d, sqrt, pos, v, collided, i, refresh)
        == if c && !Inactive(s.speed) then Calculation(s.pos, s.speed, TruncatedAt(i))
           else Run(d, sqrt, s.pos, Friction(s.speed, sqrt(SqNorm(s.speed))), c, i + 1, refresh)
  {
  }

  /** The ball touches a wall: some coordinate is exactly the snap value of a
      low or high wall. */
  predicate OnWall(d: Dims, p: Tuple<real>) {
    || p.x == d.radius as real || p.x == (d.length - d.radius) as real
    || p.y == d.radius as real || p.y == (d.height - d.radius) as real
  }

  /** Reversing and damping a component never increases its square. */
  lemma InvertedSquare(c: real)
    ensures Inverted(c) * Inverted(c) <= c * c
  {
    assert Inverted(c) * Inverted(c) == (Damping * Damping) * (c * c);
  }

  /** An inversion of a speed in range never speeds the ball up. */
  lemma InvertNoFaster(v: Tuple<real>)
    requires SpeedAccepted(v.x, v.y)
    ensures SqNorm(InvertX(v)) <= SqNorm(v) && SqNorm(InvertY(v)) <= SqNorm(v)
  {
    InvertAccepted(v);
    InvertedSquare(v.x);
    InvertedSquare(v.y);
  }

  /** A sub-step never speeds the ball up. */
  lemma {:induction false} SubStepSlows(d: Dims, pos: Tuple<real>, v: Tuple<real>)
    requires SpeedAccepted(v.x, v.y)
    ensures SqNorm(SubStep(d, pos, v).speed) <= SqNorm(v)
  {
    InvertAccepted(v);
    InvertNoFaster(v);
    InvertNoFaster(InvertX(v));
  }

  /** A sub-step with a wall hit leaves the ball on a wall. */
  lemma {:induction false} SubStepHitOnWall(d: Dims, pos: Tuple<real>, v: Tuple<real>)
    requires SpeedAccepted(v.x, v.y)
    ensures SubStep(d, pos, v).hit ==> OnWall(d, SubStep(d, pos, v).pos)
  {
    SubStepWalls(d, pos, v);
  }

  /** Friction at the square-root magnitude keeps an inactive ball inactive. */
  lemma {:induction false} FrictionKeepsInactive(sqrt: real -> real, v: Tuple<real>, m: real)
    requires IsSqrt(sqrt) && SpeedAccepted(v.x, v.y) && m == sqrt(SqNorm(v))
    requires Inactive(v)
    ensures Inactive(Friction(v, m))
  {
    FrictionUnderSqrt(sqrt, v, m);
    if SqNorm(v) != 0.0 {
      assert 0.0 < m;
      if FrictionLoss <= m {
        MulMonotone(FrictionLoss, m, FrictionLoss);
        MulMonotone(FrictionLoss, m, m);
        assert false;
      }
      var e := FrictionLoss - m;
      assert 0.0 < e < FrictionLoss;
      assert (m - FrictionLoss) * (m - FrictionLoss) == e * e;
      MulMonotone(e, FrictionLoss, e);
      MulMonotone(e, FrictionLoss, FrictionLoss);
    }
  }

  /** An early return of the sub-step loop happens only at the very sub-step
      whose wall hit leaves the ball active, so the returned position is on a
      wall. collided ==> Inactive(v) holds at the start (collided is false)
      and is kept: after a hit that leaves the ball inactive, sub-steps and
      friction never make it active again. */
  lemma {:induction false} TruncatedOnWall(d: Dims, sqrt: real -> real, pos: Tuple<real>, v: Tuple<real>,
                                           collided: bool, i: int, refresh: int)
    requires IsSqrt(sqrt) && SpeedAccepted(v.x, v.y) && (collided ==> Inactive(v))
    ensures Run(d, sqrt, pos, v, collided, i, refresh).outcome.TruncatedAt? ==>
              OnWall(d, Run(d, sqrt, pos, v, collided, i, refresh).pos)
    decreases refresh - i
  {
    if i <= refresh {
      RunStep(d, sqrt, pos, v, collided, i, refresh);
      var s := SubStep(d, pos, v);
      var c := collided || s.hit;
      SubStepSlows(d, pos, v);
      SubStepHitOnWall(d, pos, v);
      if !(c && !Inactive(s.speed)) {
        var w := Friction(s.speed, sqrt(SqNorm(s.speed)));
        if c {
          FrictionKeepsInactive(sqrt, s.speed, sqrt(SqNorm(s.speed)));
        }
        TruncatedOnWall(d, sqrt, s.pos, w, c, i + 1, refresh);
      }
    }
  }

  // ---------------------------------------------------------------------
  // The simulator
  // ---------------------------------------------------------------------

  class MovementSimulator {
    const box: Box
    /** Math.sqrt. */
    const sqrt: real -> real
    var refreshTime: int
    /** The registered observers, in registration order. */
    var observers: seq<ObserverId>
    /** Every callback made to an observer so far, oldest first. */
    var trace: seq<Notification>
    /** physicalCalculation != null: startMovement has launched the loop. */
    var started: bool
    var simulationIsActive: bool
    /** The refresh time startMovement saved before launching the loop. */
    var oldRefreshTime: int

    /** Between ticks the box invariant holds and the refresh time is the
        baseline; once started, the saved refresh time is the baseline too. */
    ghost predicate Valid()
      reads this, box, box.ball
    {
      && box.Valid()
      && IsSqrt(sqrt)
      && refreshTime == RefreshBaseline
      && (started ==> oldRefreshTime == RefreshBaseline)
    }

    /** randomX and randomY are the box constructor's random draws. */
    constructor (length: int, height: int, ballRadius: int, randomX: int, randomY: int,
                 sqrt: real -> real)
      requires 0 <= randomX < length - 2 * ballRadius
      requires 0 <= randomY < height - 2 * ballRadius
      requires IsSqrt(sqrt)
      ensures Valid() && fresh(box) && fresh(box.ball)
      ensures box.length == length && box.height == height && box.ball.radius == ballRadius
      ensures box.ball.position == Tuple((randomX + ballRadius) as real, (randomY + ballRadius) as real)
      ensures observers == [] && trace == [] && !started
    {
      box := new Box(length, height, ballRadius, randomX, randomY);
      this.sqrt := sqrt;
      observers := [];
      trace := [];
      refreshTime := 10;
      started := false;
      simulationIsActive := false;
      oldRefreshTime := 0;
    }

    function Dimensions(): Dims {
      Dims(box.length, box.height, box.ball.radius)
    }

    /** What calculatePhysicalData computes from the current state. */
    function PendingCalculation(): Calculation
      reads this, box.ball
    {
      Run(Dimensions(), sqrt, box.ball.position, box.ball.Speed(), false, 1, refreshTime)
    }

    /** From a valid state, calculatePhysicalData returns early only with the
        ball on a wall (CalculatePhysicalData returns this calculation). */
    lemma PendingTruncationOnWall()
      requires Valid()
      ensures PendingCalculation().outcome.TruncatedAt? ==> OnWall(Dimensions(), PendingCalculation().pos)
    {
      TruncatedOnWall(Dimensions(), sqrt, box.ball.position, box.ball.Speed(), false, 1, refreshTime);
    }

    /** Appends the observer at the end of the list. */
    method RegisterObserver(observer: ObserverId)
      modifies this`observers
      ensures observers == old(observers) + [observer]
    {
      observers := observers + [observer];
    }

    /** Removes the first occurrence of the observer, if any. */
    method UnregisterObserver(observer: ObserverId)
      modifies this`observers
      ensures observers == RemoveFirst(old(observers), observer)
    {
      observers := RemoveFirst(observers, observer);
    }

    function GetBallX(): real
      reads box.ball
    {
      box.GetBallX()
    }

    function GetBallY(): real
      reads box.ball
    {
      box.GetBallY()
    }

    function GetBallRadius(): int {
      box.GetBallRadius()
    }

    method SetRandomBallSpeed(positiveX: bool, magnitudeX: real, positiveY: bool, magnitudeY: real)
      requires 0.0 <= magnitudeX < 1.0 && 0.0 <= magnitudeY < 1.0
      modifies box.ball`speedX, box.ball`speedY
      ensures box.ball.Speed() == RandomSpeed(positiveX, magnitudeX, positiveY, magnitudeY)
      ensures box.ball.position == old(box.ball.position)
      ensures old(box.Valid()) ==> box.Valid()
    {
      var newSpeedX := magnitudeX;
      if !positiveX {
        newSpeedX := newSpeedX * (-1.0);
      }
      var newSpeedY := magnitudeY;
      if !positiveY {
        newSpeedY := newSpeedY * (-1.0);
      }
      box.SetBallSpeed(newSpeedX, newSpeedY);
    }

    /** Calls notifyBallIsActive on every observer, in order. */
    method NotifyBallIsActive()
      modifies this`trace
      ensures trace == old(trace) + Broadcast(observers, BallIsActive)
    {
      var i := 0;
      while i < |observers|
        invariant 0 <= i <= |observers|
        invariant trace == old(trace) + Broadcast(observers[..i], BallIsActive)
      {
        trace := trace + [Notification(observers[i], BallIsActive)];
        BroadcastAppend(observers[..i], observers[i], BallIsActive);
        assert observers[..i + 1] == observers[..i] + [observers[i]];
        i := i + 1;
      }
      assert observers[..i] == observers;
    }

    /** Calls notifyBallIsInactive on every observer, in order. */
    method NotifyBallIsInactive()
      modifies this`trace
      ensures trace == old(trace) + Broadcast(observers, BallIsInactive)
    {
      var i := 0;
      while i < |observers|
        invariant 0 <= i <= |observers|
        invariant trace == old(trace) + Broadcast(observers[..i], BallIsInactive)
      {
        trace := trace + [Notification(observers[i], BallIsInactive)];
        BroadcastAppend(observers[..i], observers[i], BallIsInactive);
        assert observers[..i + 1] == observers[..i] + [observers[i]];
        i := i + 1;
      }
      assert observers[..i] == observers;
    }

    method InvertAndSlowSpeedInXDirection()
      modifies box.ball`speedX, box.ball`speedY
      ensures box.ball.Speed() == InvertX(old(box.ball.Speed()))
      ensures old(box.ball.Valid()) ==> box.ball.Speed() == Tuple(Inverted(old(box.ball.speedX)), old(box.ball.speedY))
      ensures box.ball.position == old(box.ball.position)
      ensures old(box.Valid()) ==> box.Valid()
    {
      var invertedSlowedSpeedX := (-1.0) * box.GetBallSpeedInXDirection() * 0.95;
      box.SetBallSpeed(invertedSlowedSpeedX, box.GetBallSpeedInYDirection());
    }

    method InvertAndSlowSpeedInYDirection()
      modifies box.ball`speedX, box.ball`speedY
      ensures box.ball.Speed() == InvertY(old(box.ball.Speed()))
      ensures old(box.ball.Valid()) ==> box.ball.Speed() == Tuple(old(box.ball.speedX), Inverted(old(box.ball.speedY)))
      ensures box.ball.position == old(box.ball.position)
      ensures old(box.Valid()) ==> box.Valid()
    {
      var invertedSlowedSpeedY := (-1.0) * box.GetBallSpeedInYDirection() * 0.95;
      box.SetBallSpeed(box.GetBallSpeedInXDirection(), invertedSlowedSpeedY);
    }

    /** Slows the ball by 0.0001 along its heading (see FrictionRescales). */
    method RollingFriction()
      modifies box.ball`speedX, box.ball`speedY
      ensures box.ball.Speed() == old(Friction(box.ball.Speed(), sqrt(SqNorm(box.ball.Speed()))))
      ensures box.ball.position == old(box.ball.position)
      ensures old(box.Valid()) ==> box.Valid()
    {
      ghost var v := box.ball.Speed();
      var newSpeedInXDirection := box.GetBallSpeedInXDirection();
      var newSpeedInYDirection := box.GetBallSpeedInYDirection();
      var oldVectorMagnitude := sqrt(newSpeedInXDirection * newSpeedInXDirection
                                     + newSpeedInYDirection * newSpeedInYDirection);
      assert newSpeedInXDirection * newSpeedInXDirection
             + newSpeedInYDirection * newSpeedInYDirection == SqNorm(v);
      if oldVectorMagnitude != 0.0 {
        var newVectorMagnitude := oldVectorMagnitude - 0.0001;
        newSpeedInXDirection := (newSpeedInXDirection / oldVectorMagnitude) * newVectorMagnitude;
        newSpeedInYDirection := (newSpeedInYDirection / oldVectorMagnitude) * newVectorMagnitude;
        assert newSpeedInXDirection == (v.x / oldVectorMagnitude) * (oldVectorMagnitude - FrictionLoss);
        assert newSpeedInYDirection == (v.y / oldVectorMagnitude) * (oldVectorMagnitude - FrictionLoss);
        assert Friction(v, oldVectorMagnitude) == GuardedSpeed(v, newSpeedInXDirection, newSpeedInYDirection);
        box.SetBallSpeed(newSpeedInXDirection, newSpeedInYDirection);
      }
      // At magnitude 0 both new components are NaN, which setBallSpeed rejects.
    }

    /** The X half of a sub-step: the wall test on newX + speedX and, on a hit,
        the inversion of the X speed and the snap to the wall. */
    method CollideInXDirection(newX: real) returns (tentativeX: real, hit: bool)
      modifies box.ball`speedX, box.ball`speedY
      ensures var w := WallHit(newX + old(box.ball.speedX), old(box.ball.speedX), box.ball.radius, box.length);
        && hit == (w != Clear)
        && tentativeX == Snapped(w, newX + old(box.ball.speedX), box.ball.radius, box.length)
        && box.ball.Speed() == (if hit then InvertX(old(box.ball.Speed())) else old(box.ball.Speed()))
      ensures box.ball.position == old(box.ball.position)
      ensures old(box.Valid()) ==> box.Valid()
    {
      hit := false;
      tentativeX := newX + box.GetBallSpeedInXDirection();
      if tentativeX < box.GetBallRadius() as real && box.BallMovesInNegativeXDirection() {
        InvertAndSlowSpeedInXDirection();
        hit := true;
        tentativeX := box.GetBallRadius() as real;
      } else if tentativeX > (box.GetLength() - box.GetBallRadius()) as real
                && box.BallMovesInPositiveXDirection() {
        InvertAndSlowSpeedInXDirection();
        hit := true;
        tentativeX := (box.GetLength() - box.GetBallRadius()) as real;
      }
    }

    /** The Y half of a sub-step, as CollideInXDirection against the height. */
    method CollideInYDirection(newY: real) returns (tentativeY: real, hit: bool)
      modifies box.ball`speedX, box.ball`speedY
      ensures var w := WallHit(newY + old(box.ball.speedY), old(box.ball.speedY), box.ball.radius, box.height);
        && hit == (w != Clear)
        && tentativeY == Snapped(w, newY + old(box.ball.speedY), box.ball.radius, box.height)
        && box.ball.Speed() == (if hit then InvertY(old(box.ball.Speed())) else old(box.ball.Speed()))
      ensures box.ball.position == old(box.ball.position)
      ensures old(box.Valid()) ==> box.Valid()
    {
      hit := false;
      tentativeY := newY + box.GetBallSpeedInYDirection();
      if tentativeY < box.GetBallRadius() as real && box.BallMovesInNegativeYDirection() {
        InvertAndSlowSpeedInYDirection();
        hit := true;
        tentativeY := box.GetBallRadius() as real;
      } else if tentativeY > (box.GetHeight() - box.GetBallRadius()) as real
                && box.BallMovesInPositiveYDirection() {
        InvertAndSlowSpeedInYDirection();
        hit := true;
        tentativeY := (box.GetHeight() - box.GetBallRadius()) as real;
      }
    }

    /** Runs at most refreshTime sub-steps from the ball's position; on an early
        return at sub-step i the refresh time becomes i. */
    method CalculatePhysicalData() returns (newLocation: Tuple<real>)
      modifies this`refreshTime, box.ball`speedX, box.ball`speedY
      ensures var c := old(PendingCalculation());
        && newLocation == c.pos
        && box.ball.Speed() == c.speed
        && refreshTime == (if c.outcome.TruncatedAt? then c.outcome.step else old(refreshTime))
      ensures refreshTime != old(refreshTime) ==> 1 <= refreshTime <= old(refreshTime)
      ensures box.ball.position == old(box.ball.position)
      ensures old(box.Valid()) ==> box.Valid()
    {
      var d := Dimensions();
      ghost var target := PendingCalculation();
      var newX := box.GetBallX();
      var newY := box.GetBallY();
      var collisionOccurred := false;
      var i := 1;
      while i <= refreshTime
        invariant 1 <= i
        invariant refreshTime == old(refreshTime)
        invariant box.ball.position == old(box.ball.position)
        invariant old(box.Valid()) ==> box.Valid()
        invariant Run(d, sqrt, Tuple(newX, newY), box.ball.Speed(), collisionOccurred, i, refreshTime) == target
        decreases refreshTime - i
      {
        ghost var pos, v, collided := Tuple(newX, newY), box.ball.Speed(), collisionOccurred;
        RunStep(d, sqrt, pos, v, collided, i, refreshTime);
        var tentativeX, hitX := CollideInXDirection(newX);
        ghost var v1 := box.ball.Speed();
        var tentativeY, hitY := CollideInYDirection(newY);
        SubStepHalves(d, pos, v, tentativeX, hitX, v1, tentativeY, hitY, box.ball.Speed());
        if hitX || hitY {
          collisionOccurred := true;
        }
        newX := tentativeX;
        newY := tentativeY;
        assert SubStep(d, pos, v) == SubStepResult(Tuple(newX, newY), box.ball.Speed(), hitX || hitY);

        if collisionOccurred && !box.IsBallInactive() {
          refreshTime := i;
          return Tuple(newX, newY);
        } else {
          RollingFriction();
        }
        i := i + 1;
      }
      return Tuple(newX, newY);
    }

    /** The part of startMovement before the thread is launched; a second call
        does nothing. magnitudeX and magnitudeY are the Math.random draws. */
    method StartMovement(positiveX: bool, magnitudeX: real, positiveY: bool, magnitudeY: real)
      requires Valid()
      requires 0.0 <= magnitudeX < 1.0 && 0.0 <= magnitudeY < 1.0
      modifies this, box.ball
      ensures Valid() && started
      ensures observers == old(observers) && box.ball.position == old(box.ball.position)
      ensures old(started) ==> trace == old(trace) && box.ball.Speed() == old(box.ball.Speed())
                                && oldRefreshTime == old(oldRefreshTime)
                                && simulationIsActive == old(simulationIsActive)
      ensures !old(started) ==> && simulationIsActive
                                && oldRefreshTime == RefreshBaseline
                                && box.ball.Speed() == RandomSpeed(positiveX, magnitudeX, positiveY, magnitudeY)
                                && trace == old(trace) + Broadcast(observers, BallIsActive)
    {
      if !started {
        simulationIsActive := true;
        oldRefreshTime := refreshTime;
        SetRandomBallSpeed(positiveX, magnitudeX, positiveY, magnitudeY);
        NotifyBallIsActive();
        started := true;
      }
    }

    /** The first part of a pass of the physics thread's loop, without the
        sleep: compute the next position, restore the refresh time, and commit
        the position through placeBall. */
    method Advance()
      requires Valid() && started
      modifies this`refreshTime, box.ball`speedX, box.ball`speedY, box.ball`position
      ensures Valid()
      ensures var c := old(PendingCalculation());
        && box.ball.Speed() == c.speed
        && (Inside(box.length, box.height, box.ball.radius, c.pos) ==> box.ball.position == c.pos)
        && (!Inside(box.length, box.height, box.ball.radius, c.pos) ==> box.ball.position == old(box.ball.position))
    {
      var newLocation := CalculatePhysicalData();
      if refreshTime != oldRefreshTime {
        refreshTime := oldRefreshTime;
      }
      box.PlaceBall(newLocation.GetX(), newLocation.GetY());
    }

    /** One pass of the physics thread's loop, without the sleeps: compute the
        next position, restore the refresh time, commit through placeBall, and
        if the ball is then inactive, notify, re-randomise and notify again.
        magnitudeX and magnitudeY are the Math.random draws after the rest. */
    method Tick(positiveX: bool, magnitudeX: real, positiveY: bool, magnitudeY: real)
      requires Valid() && started
      requires 0.0 <= magnitudeX < 1.0 && 0.0 <= magnitudeY < 1.0
      modifies this`refreshTime, this`trace, box.ball`speedX, box.ball`speedY, box.ball`position
      ensures Valid() && started
      ensures refreshTime == RefreshBaseline
      ensures var c := old(PendingCalculation());
        && (Inside(box.length, box.height, box.ball.radius, c.pos) ==> box.ball.position == c.pos)
        && (!Inside(box.length, box.height, box.ball.radius, c.pos) ==> box.ball.position == old(box.ball.position))
      ensures var c := old(PendingCalculation());
        && (Inactive(c.speed) ==>
              && box.ball.Speed() == RandomSpeed(positiveX, magnitudeX, positiveY, magnitudeY)
              && trace == old(trace) + Broadcast(observers, BallIsInactive) + Broadcast(observers, BallIsActive))
        && (!Inactive(c.speed) ==> box.ball.Speed() == c.speed && trace == old(trace))
    {
      ghost var c := PendingCalculation();
      Advance();
      ghost var placed := box.ball.position;
      assert box.ball.Speed() == c.speed;
      RelaunchIfInactive(positiveX, magnitudeX, positiveY, magnitudeY);
      assert box.ball.position == placed;
    }

    /** The end of a pass of the physics thread's loop, without the random
        pause: an inactive ball is reported, re-randomised and reported as
        active again; an active ball is left alone. */
    method RelaunchIfInactive(positiveX: bool, magnitudeX: real, positiveY: bool, magnitudeY: real)
      requires 0.0 <= magnitudeX < 1.0 && 0.0 <= magnitudeY < 1.0
      modifies this`trace, box.ball`speedX, box.ball`speedY
      ensures box.ball.position == old(box.ball.position)
      ensures old(Valid()) ==> Valid()
      ensures old(Inactive(box.ball.Speed())) ==>
                && box.ball.Speed() == RandomSpeed(positiveX, magnitudeX, positiveY, magnitudeY)
                && trace == old(trace) + Broadcast(observers, BallIsInactive) + Broadcast(observers, BallIsActive)
      ensures !old(Inactive(box.ball.Speed())) ==> box.ball.Speed() == old(box.ball.Speed()) && trace == old(trace)
    {
      if box.IsBallInactive() {
        NotifyBallIsInactive();
        SetRandomBallSpeed(positiveX, magnitudeX, positiveY, magnitudeY);
        NotifyBallIsActive();
      }
    }
  }
}
