/**
 * GameScene's rule state: the counters score, level and lives, the brick
 * field, the ball, the paddle's x, and the delayed calls still pending.
 *
 * The engine's collision callbacks and per-frame update become methods the
 * engine is assumed to call (HitPlayer, HitBrick, Update); its velocity
 * integration becomes MoveBall; the two kinds of time.delayedCall become
 * counters of pending calls, fired by FireServe and FireRestart.
 */
module Game {
  import opened Rules
  import opened BrickField

  /** Where createBall puts the ball and resetBall brings it back to. */
  const CentreX: real := 400.0
  const CentreY: real := 300.0
  /** Where createPlayer puts the paddle. */
  const PaddleStartX: real := 400.0
  /** update loses a life while the ball is below this y. */
  const BottomBound: real := 600.0
  const BrickPoints: int := 10
  const LevelBonus: int := 1000
  const StartLives: int := 3
  /** The least a cleared level scores: 40 bricks at 10 points, plus the bonus. */
  const LevelClearScore: int := 1400

  /**
   * Serving: a serve is scheduled and no restart; InPlay: nothing
   * scheduled; Over: the game is over and the restart is scheduled.
   */
  datatype Phase = Serving | InPlay | Over

  class GameScene {
    var score: int
    var level: int
    var lives: int
    /** The children of the static brick group, in creation order. */
    var bricks: seq<Brick>
    var ballX: real
    var ballY: real
    var ballVX: real
    var ballVY: real
    var paddleX: real
    /** Serve callbacks scheduled by resetBall that have not fired yet. */
    var pendingServes: nat
    /** Restart callbacks scheduled by gameOver that have not fired yet. */
    var pendingRestarts: nat
    /** Set by physics.pause(); the scene's update keeps running. */
    var physicsPaused: bool
    /** The ball's 'isDead' data, written by gameOver and read nowhere. */
    var ballIsDead: bool

    /**
     * What every event keeps: the grid never changes shape and always has
     * an active brick (a clear re-enables all of them at once), the level
     * never drops below 1, lives never rise above 3 (they can fall below
     * 0), and the score is a multiple of 10 that pays for every level
     * cleared and every brick hit in the current one.
     */
    ghost predicate Valid()
      reads this
    {
      && OnGrid(bricks)
      && CountActive(bricks) > 0
      && level >= 1
      && lives <= StartLives
      && score % BrickPoints == 0
      && score >= LevelClearScore * (level - 1) + BrickPoints * (|bricks| - CountActive(bricks))
      && PaddleMinX <= paddleX <= PaddleMaxX
    }

    ghost predicate BallAtCentre()
      reads this
    {
      ballX == CentreX && ballY == CentreY && ballVX == 0.0 && ballVY == 0.0
    }

    function CurrentPhase(): (p: Phase)
      reads this
      ensures p == Over <==> pendingRestarts > 0
      ensures p == Serving <==> pendingRestarts == 0 && pendingServes > 0
    {
      if pendingRestarts > 0 then Over
      else if pendingServes > 0 then Serving
      else InPlay
    }

    /** The constructor's counters, then create(). */
    constructor ()
      ensures Valid()
      ensures score == 0 && level == 1 && lives == StartLives
      ensures AllActive(bricks)
      ensures BallAtCentre() && paddleX == PaddleStartX
      ensures pendingServes == 1 && pendingRestarts == 0
      ensures !physicsPaused && !ballIsDead
      ensures CurrentPhase() == Serving
    {
      score, level, lives := 0, 1, StartLives;
      bricks := [];
      ballX, ballY, ballVX, ballVY, paddleX := 0.0, 0.0, 0.0, 0.0, 0.0;
      pendingServes, pendingRestarts := 0, 0;
      physicsPaused, ballIsDead := false, false;
      new;
      Create();
    }

    /**
     * create(): a new paddle, a new ball at the centre, a full brick
     * field, then resetBall. It runs only with the counters at their
     * starting values.
     */
    method Create()
      requires score == 0 && level == 1 && lives == StartLives
      modifies this
      ensures Valid() && AllActive(bricks)
      ensures score == 0 && level == 1 && lives == StartLives
      ensures BallAtCentre() && paddleX == PaddleStartX && !ballIsDead
      ensures pendingServes == old(pendingServes) + 1 && pendingRestarts == old(pendingRestarts)
      ensures physicsPaused == old(physicsPaused)
    {
      paddleX := PaddleStartX;
      ballX, ballY, ballVX, ballVY := CentreX, CentreY, 0.0, 0.0;
      ballIsDead := false;
      bricks := CreateBricks();
      CountAllActive(bricks);
      ResetBall();
    }

    /** update(): a ball below the bottom bound costs a life, on every frame it stays there. */
    method Update()
      requires Valid()
      modifies this
      ensures Valid()
      ensures old(ballY) <= BottomBound ==> unchanged(this)
      ensures old(ballY) > BottomBound ==> LostLife()
    {
      if ballY > BottomBound {
        LoseLife();
      }
    }

    /** The pointermove handler: the paddle follows the pointer, clamped into [50, 750]. */
    method PointerMove(pointerX: real)
      requires Valid()
      modifies this`paddleX
      ensures Valid()
      ensures paddleX == PaddleX(pointerX)
    {
      paddleX := PaddleX(pointerX);
    }

    /** The engine's velocity integration, reported as the ball's new position. */
    method MoveBall(x: real, y: real)
      requires Valid()
      modifies this`ballX, this`ballY
      ensures Valid()
      ensures ballX == x && ballY == y
    {
      ballX, ballY := x, y;
    }

    /** hitPlayer: only the ball's horizontal velocity changes. */
    method HitPlayer(rnd: real)
      requires Valid() && IsRandom(rnd)
      modifies this`ballVX
      ensures Valid()
      ensures ballX < paddleX ==> ballVX == -10.0 * (paddleX - ballX) < 0.0
      ensures ballX > paddleX ==> ballVX == 10.0 * (ballX - paddleX) > 0.0
      ensures ballX == paddleX ==> 2.0 <= ballVX < 10.0
      ensures ballVX == PaddleBounceVx(ballX, paddleX, rnd)
    {
      ballVX := PaddleBounceVx(ballX, paddleX, rnd);
    }

    /**
     * hitBrick: the brick's body is disabled and 10 points are scored,
     * with no check that the brick was still active; when no active brick
     * remains, the level is cleared.
     */
    method HitBrick(i: nat)
      requires Valid() && i < |bricks|
      modifies this
      ensures Valid()
      ensures lives == old(lives) && paddleX == old(paddleX)
      ensures pendingRestarts == old(pendingRestarts)
      ensures physicsPaused == old(physicsPaused) && ballIsDead == old(ballIsDead)
      ensures old(bricks[i].active) && old(CountActive(bricks)) == 1 <==> level == old(level) + 1
      ensures level == old(level) ==>
        && bricks == Deactivate(old(bricks), i)
        && !bricks[i].active
        && (forall j :: 0 <= j < |bricks| && j != i ==> bricks[j] == old(bricks)[j])
        && CountActive(bricks) == old(CountActive(bricks)) - (if old(bricks[i].active) then 1 else 0)
        && score == old(score) + BrickPoints
        && ballX == old(ballX) && ballY == old(ballY) && ballVX == old(ballVX) && ballVY == old(ballVY)
        && pendingServes == old(pendingServes)
      ensures level != old(level) ==>
        && level == old(level) + 1
        && score == old(score) + BrickPoints + LevelBonus
        && bricks == Reactivate(old(bricks))
        && AllActive(bricks) && CountActive(bricks) == Rows * Cols
        && BallAtCentre()
        && pendingServes == old(pendingServes) + 1
    {
      CountAfterDeactivate(bricks, i);
      ghost var before := bricks;
      bricks := Deactivate(bricks, i);
      score := score + BrickPoints;
      if CountActive(bricks) == 0 {
        LevelUp();
        assert bricks == Reactivate(before);
      }
    }

    /** resetBall: the ball back at the centre, at rest, and a serve scheduled. */
    method ResetBall()
      modifies this`ballX, this`ballY, this`ballVX, this`ballVY, this`pendingServes
      ensures BallAtCentre()
      ensures pendingServes == old(pendingServes) + 1
    {
      ballX, ballY := CentreX, CentreY;
      ballVX, ballVY := 0.0, 0.0;
      pendingServes := pendingServes + 1;
    }

    /** The serve callback resetBall scheduled: the ball leaves upward, to a random side. */
    method FireServe(rnd: real)
      requires Valid() && pendingServes > 0 && IsRandom(rnd)
      modifies this`ballVX, this`ballVY, this`pendingServes
      ensures Valid()
      ensures ballVX == -ServeSpeedX || ballVX == ServeSpeedX
      ensures ballVX < 0.0 <==> rnd < 0.5
      ensures ballVY == -(ServeSpeed(level) as real) < 0.0
      ensures pendingServes == old(pendingServes) - 1
    {
      var v := ServeVelocity(level, rnd);
      ballVX, ballVY := v.vx, v.vy;
      pendingServes := pendingServes - 1;
    }

    /** What loseLife does: one life fewer; the game ends when exactly none remain, otherwise the ball is served again. */
    twostate predicate LostLife()
      reads this
    {
      && lives == old(lives) - 1
      && score == old(score) && level == old(level) && bricks == old(bricks)
      && paddleX == old(paddleX)
      && (lives == 0 ==>
            && physicsPaused && ballIsDead
            && pendingRestarts == old(pendingRestarts) + 1
            && pendingServes == old(pendingServes)
            && ballX == old(ballX) && ballY == old(ballY) && ballVX == old(ballVX) && ballVY == old(ballVY))
      && (lives != 0 ==>
            && physicsPaused == old(physicsPaused) && ballIsDead == old(ballIsDead)
            && pendingRestarts == old(pendingRestarts)
            && pendingServes == old(pendingServes) + 1
            && BallAtCentre())
    }

    /** loseLife: no floor on lives, so a call after the game is over takes them below 0. */
    method LoseLife()
      requires Valid()
      modifies this
      ensures Valid()
      ensures LostLife()
    {
      lives := lives - 1;
      if lives == 0 {
        GameOver();
      } else {
        ResetBall();
      }
    }

    /**
     * levelUp: one level up, the 1000 bonus, the ball reset, and every
     * brick's body enabled again in place.
     */
    method LevelUp()
      requires OnGrid(bricks)
      modifies this
      ensures level == old(level) + 1 && score == old(score) + LevelBonus
      ensures bricks == Reactivate(old(bricks))
      ensures OnGrid(bricks) && AllActive(bricks) && CountActive(bricks) == Rows * Cols
      ensures BallAtCentre() && pendingServes == old(pendingServes) + 1
      ensures lives == old(lives) && paddleX == old(paddleX) && pendingRestarts == old(pendingRestarts)
      ensures physicsPaused == old(physicsPaused) && ballIsDead == old(ballIsDead)
    {
      level := level + 1;
      score := score + LevelBonus;
      ResetBall();
      var i := 0;
      while i < |bricks|
        invariant 0 <= i <= |bricks| == |old(bricks)|
        invariant forall j :: 0 <= j < i ==> bricks[j] == old(bricks)[j].(active := true)
        invariant forall j :: i <= j < |bricks| ==> bricks[j] == old(bricks)[j]
        invariant level == old(level) + 1 && score == old(score) + LevelBonus
        invariant BallAtCentre() && pendingServes == old(pendingServes) + 1
        invariant lives == old(lives) && paddleX == old(paddleX) && pendingRestarts == old(pendingRestarts)
        invariant physicsPaused == old(physicsPaused) && ballIsDead == old(ballIsDead)
      {
        bricks := bricks[i := bricks[i].(active := true)];
        i := i + 1;
      }
      ReactivateRestoresField(old(bricks));
    }

    /** gameOver: physics paused, the ball marked dead, a restart scheduled; the ball is left where it is. */
    method GameOver()
      modifies this`physicsPaused, this`ballIsDead, this`pendingRestarts
      ensures physicsPaused && ballIsDead
      ensures pendingRestarts == old(pendingRestarts) + 1
    {
      physicsPaused := true;
      ballIsDead := true;
      pendingRestarts := pendingRestarts + 1;
    }

    /**
     * The restart callback gameOver scheduled: the counters back to their
     * starting values, then scene.restart(), which drops the scene's
     * pending delayed calls, rebuilds its physics world (unpaused) and
     * runs create() again.
     */
    method FireRestart()
      requires Valid() && pendingRestarts > 0
      modifies this
      ensures Valid()
      ensures score == 0 && level == 1 && lives == StartLives
      ensures AllActive(bricks)
      ensures BallAtCentre() && paddleX == PaddleStartX
      ensures pendingServes == 1 && pendingRestarts == 0
      ensures !physicsPaused && !ballIsDead
      ensures CurrentPhase() == Serving
    {
      score := 0;
      level := 1;
      lives := StartLives;
      pendingServes, pendingRestarts := 0, 0;
      physicsPaused := false;
      Create();
    }
  }
}
