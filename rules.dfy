/**
 * The arithmetic rules of GameScene: the horizontal velocity the paddle
 * gives the ball (hitPlayer), the velocity of a serve (the callback that
 * resetBall schedules) and the clamp that keeps the paddle inside the
 * world when the pointer moves.
 *
 * Math.random() is never called here: each rule that uses it takes the
 * drawn number as a parameter `rnd` in [0, 1).
 */
module Rules {

  /** The vertical serve speed at level 1 (the field initialBallSpeed). */
  const InitialBallSpeed: int := 350
  /** How much faster each level serves. */
  const SpeedPerLevel: int := 35
  /** The horizontal speed of a serve, to the left or to the right. */
  const ServeSpeedX: real := 150.0
  /** The range the pointer handler clamps the paddle's x into. */
  const PaddleMinX: real := 50.0
  const PaddleMaxX: real := 750.0

  datatype Velocity = Velocity(vx: real, vy: real)

  /** A number Math.random() can return. */
  predicate IsRandom(rnd: real) {
    0.0 <= rnd < 1.0
  }

  /**
   * The horizontal velocity hitPlayer sets when the ball at x `ballX`
   * meets the paddle at x `paddleX`: the farther from the paddle's centre,
   * the harder the ball is steered to that side; a dead-centre hit gets a
   * small random push to the right.
   */
  function PaddleBounceVx(ballX: real, paddleX: real, rnd: real): (vx: real)
    requires IsRandom(rnd)
    ensures ballX < paddleX ==> vx < 0.0
    ensures ballX > paddleX ==> vx > 0.0
    ensures ballX != paddleX ==> vx == 10.0 * (ballX - paddleX)
    ensures ballX == paddleX ==> 2.0 <= vx < 10.0
  {
    if ballX < paddleX then
      var diff := paddleX - ballX;
      -10.0 * diff
    else if ballX > paddleX then
      var diff := ballX - paddleX;
      10.0 * diff
    else
      2.0 + rnd * 8.0
  }

  /** Hits at the same distance on either side of the paddle are steered symmetrically. */
  lemma PaddleBounceMirrors(paddleX: real, d: real, rnd: real)
    requires IsRandom(rnd) && d > 0.0
    ensures PaddleBounceVx(paddleX - d, paddleX, rnd) == -PaddleBounceVx(paddleX + d, paddleX, rnd)
  {
  }

  /** Away from the dead centre, a ball farther right is steered strictly more to the right. */
  lemma PaddleBounceMonotonic(b1: real, b2: real, paddleX: real, rnd: real)
    requires IsRandom(rnd) && b1 < b2 && b1 != paddleX && b2 != paddleX
    ensures PaddleBounceVx(b1, paddleX, rnd) < PaddleBounceVx(b2, paddleX, rnd)
  {
  }

  /** The vertical speed of a serve at `level`. */
  function ServeSpeed(level: int): (speed: int)
    ensures level >= 1 ==> speed >= InitialBallSpeed
  {
    InitialBallSpeed + (level - 1) * SpeedPerLevel
  }

  /**
   * The velocity the serve callback sets: left when the drawn number is
   * below one half, right otherwise, and always upward.
   */
  function ServeVelocity(level: int, rnd: real): (v: Velocity)
    requires IsRandom(rnd)
    ensures v.vx == -ServeSpeedX || v.vx == ServeSpeedX
    ensures v.vx < 0.0 <==> rnd < 0.5
    ensures level >= 1 ==> v.vy <= -(InitialBallSpeed as real) < 0.0
  {
    var initialVelocityX := if rnd < 0.5 then -ServeSpeedX else ServeSpeedX;
    Velocity(initialVelocityX, -(ServeSpeed(level) as real))
  }

  /** At level 1 the ball is served upward at the initial speed, whatever the direction. */
  lemma ServeAtFirstLevel(rnd: real)
    requires IsRandom(rnd)
    ensures ServeVelocity(1, rnd).vy == -350.0
  {
  }

  /** Each level serves exactly 35 faster than the one before. */
  lemma ServeStepPerLevel(level: int, rnd: real)
    requires IsRandom(rnd)
    ensures ServeVelocity(level + 1, rnd).vy == ServeVelocity(level, rnd).vy - 35.0
  {
  }

  /** The serve's upward speed strictly increases with the level; its direction does not depend on it. */
  lemma ServeFasterAtHigherLevel(l1: int, l2: int, rnd: real)
    requires IsRandom(rnd) && l1 < l2
    ensures ServeVelocity(l2, rnd).vy < ServeVelocity(l1, rnd).vy
    ensures ServeVelocity(l2, rnd).vx == ServeVelocity(l1, rnd).vx
  {
  }

  function Min(a: real, b: real): real { if a <= b then a else b }
  function Max(a: real, b: real): real { if a >= b then a else b }
  function Abs(a: real): real { if a < 0.0 then -a else a }

  /** Phaser.Math.Clamp: the value bounded below by `lo` and above by `hi`. */
  function Clamp(value: real, lo: real, hi: real): (r: real)
    ensures lo <= hi ==> lo <= r <= hi
    ensures lo <= value <= hi ==> r == value
  {
    Max(lo, Min(hi, value))
  }

  /** Of all points in [lo, hi], the clamped value is one nearest to the input. */
  lemma ClampIsNearest(value: real, lo: real, hi: real, y: real)
    requires lo <= y <= hi
    ensures Abs(Clamp(value, lo, hi) - value) <= Abs(y - value)
  {
  }

  /** Where the pointermove handler puts the paddle when the pointer is at `pointerX`. */
  function PaddleX(pointerX: real): (x: real)
    ensures PaddleMinX <= x <= PaddleMaxX
    ensures pointerX < PaddleMinX ==> x == PaddleMinX
    ensures pointerX > PaddleMaxX ==> x == PaddleMaxX
    ensures PaddleMinX <= pointerX <= PaddleMaxX ==> x == pointerX
  {
    Clamp(pointerX, PaddleMinX, PaddleMaxX)
  }

  /** Clamping twice is clamping once, and a farther-right pointer never moves the paddle left. */
  lemma PaddleXIdempotentMonotonic(p: real, q: real)
    ensures PaddleX(PaddleX(p)) == PaddleX(p)
    ensures p <= q ==> PaddleX(p) <= PaddleX(q)
  {
  }
}
