/**
 * Whole games played against GameScene's contracts: what a caller can
 * conclude about a run of events from the methods' specifications alone.
 */
module Scenarios {
  import opened Rules
  import opened BrickField
  import opened Game

  /**
   * A fresh game, served, whose 40 bricks are hit once each, in any order:
   * 400 points for the bricks and 1000 for the clear, the second level, a
   * full field again and one serve pending.
   */
  method ClearFirstLevel(order: seq<nat>) returns (score: int, level: int, lives: int, allActive: bool, phase: Phase)
    requires |order| == Rows * Cols
    requires forall k :: 0 <= k < |order| ==> order[k] < Rows * Cols
    requires forall k, l :: 0 <= k < l < |order| ==> order[k] != order[l]
    ensures score == 40 * BrickPoints + LevelBonus == 1400
    ensures level == 2 && lives == 3
    ensures allActive
    ensures phase == Serving
  {
    var g := new GameScene();
    g.FireServe(0.25);
    var k := 0;
    while k < Rows * Cols - 1
      invariant 0 <= k <= Rows * Cols - 1
      invariant g.Valid() && |g.bricks| == Rows * Cols
      invariant g.score == BrickPoints * k && g.level == 1 && g.lives == StartLives
      invariant forall j :: 0 <= j < |g.bricks| ==> g.bricks[j].active == (j !in order[..k])
      invariant CountActive(g.bricks) == Rows * Cols - k
      invariant g.pendingServes == 0 && g.pendingRestarts == 0
    {
      assert order[k] !in order[..k];
      g.HitBrick(order[k]);
      assert order[..k + 1] == order[..k] + [order[k]];
      k := k + 1;
    }
    assert order[k] !in order[..k];
    g.HitBrick(order[k]);
    allActive := forall j :: 0 <= j < |g.bricks| ==> g.bricks[j].active;
    score, level, lives, phase := g.score, g.level, g.lives, g.CurrentPhase();
  }

  /**
   * Three balls lost in a row end the game, but the ball is left below the
   * bottom bound, so the very next frame loses a fourth life: lives reach
   * -1 and a serve is scheduled while the restart is still pending. When
   * the restart fires, the counters are back to 0, 1 and 3.
   */
  method LivesGoNegative() returns (livesAfterGameOver: int, servesDuringGameOver: nat, phase: Phase,
                                    score: int, level: int, lives: int)
    ensures livesAfterGameOver == -1
    ensures servesDuringGameOver == 1
    ensures phase == Serving
    ensures score == 0 && level == 1 && lives == 3
  {
    var g := new GameScene();
    var lost := 0;
    while lost < StartLives
      invariant 0 <= lost <= StartLives
      invariant g.Valid() && g.lives == StartLives - lost && g.score == 0 && g.level == 1
      invariant lost < StartLives ==> g.pendingRestarts == 0 && g.pendingServes == 1
      invariant lost == StartLives ==> g.pendingRestarts == 1 && g.pendingServes == 0 && g.ballY > BottomBound
    {
      g.FireServe(0.75);
      g.MoveBall(400.0, 601.0);
      g.Update();
      lost := lost + 1;
    }
    g.Update();
    livesAfterGameOver, servesDuringGameOver := g.lives, g.pendingServes;
    g.FireServe(0.1);
    g.FireRestart();
    score, level, lives, phase := g.score, g.level, g.lives, g.CurrentPhase();
  }

  /**
   * hitBrick has no guard against a brick that is already disabled: a
   * second report of the same brick scores again without clearing
   * anything: brick 0 is off, every other brick is still on.
   */
  method SameBrickTwice() returns (score: int, level: int, active: nat, off: bool, others: bool)
    ensures score == 2 * BrickPoints
    ensures level == 1
    ensures active == Rows * Cols - 1
    ensures off && others
  {
    var g := new GameScene();
    g.FireServe(0.5);
    CountAllActive(g.bricks);
    CountAfterDeactivate(g.bricks, 0);
    g.HitBrick(0);
    CountAfterDeactivate(g.bricks, 0);
    g.HitBrick(0);
    score, level, active := g.score, g.level, CountActive(g.bricks);
    off := !g.bricks[0].active;
    others := forall j :: 1 <= j < |g.bricks| ==> g.bricks[j].active;
  }
}
