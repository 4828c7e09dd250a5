/** Client code that drives a Game through short sessions and checks, from
    the method contracts alone, what the player sees. */
module Scenarios {
  import opened Grid
  import opened Body
  import opened SnakeGame

  /** A fresh game moving right steps from (10,10) to (11,10) and keeps its
      length; pressing Left meanwhile is refused as a reversal. */
  method PlainMove() {
    var g := new Game(0);
    assert [Pos(15, 15)][0] !in [Spawn];
    g.StartGame([Pos(15, 15)]);
    assert g.snake == [Pos(10, 10)] && g.food == Pos(15, 15);
    g.KeyDown("ArrowLeft");
    assert g.direction == Right;
    g.Update([]);
    assert g.snake == [Pos(11, 10)] && g.score == 0 && g.gameRunning;
  }

  /** Food right in front of the head: one tick eats it, the snake grows to
      two segments, the score becomes 10 and the high score follows. */
  method EatFood() {
    var g := new Game(0);
    assert [Pos(11, 10)][0] !in [Spawn];
    g.StartGame([Pos(11, 10)]);
    assert g.food == Pos(11, 10);
    assert [Pos(11, 10), Pos(3, 4)][1] !in [g.NextHead()] + g.snake;
    g.Update([Pos(11, 10), Pos(3, 4)]);
    assert g.snake == [Pos(11, 10), Pos(10, 10)];
    assert g.score == 10 && g.highScore == 10;
    assert g.food == Pos(3, 4);
  }

  /** Up then Left between two ticks turns a one-segment snake around:
      the next tick moves it left. */
  method ReverseBetweenTicks() {
    var g := new Game(7);
    assert [Pos(0, 0)][0] !in [Spawn];
    g.StartGame([Pos(0, 0)]);
    g.KeyDown("ArrowUp");
    assert g.direction == Up;
    g.KeyDown("ArrowLeft");
    assert g.direction == Left;
    assert g.NextHead() == Pos(9, 10) && g.food == Pos(0, 0);
    assert !g.Collides() && !g.Eats();
    g.Update([]);
    assert g.snake == [Pos(9, 10)] && g.highScore == 7;
  }

  /** A paused game ignores both the keys and the tick. */
  method PauseIgnoresInput() {
    var g := new Game(7);
    assert [Pos(0, 0)][0] !in [Spawn];
    g.StartGame([Pos(0, 0)]);
    g.TogglePause();
    assert g.gamePaused;
    g.KeyDown("ArrowDown");
    assert g.direction == Right;
    g.Update([]);
    assert g.snake == [Pos(10, 10)] && g.gamePaused;
    g.TogglePause();
    assert !g.gamePaused && g.gameRunning;
  }

  /** Running right along row 10 reaches the last column after nine ticks;
      the tenth hits the wall and stops the game with the snake in place. */
  method WallCollision() {
    var g := new Game(0);
    assert [Pos(0, 0)][0] !in [Spawn];
    g.StartGame([Pos(0, 0)]);
    var n := 0;
    while n < 9
      invariant 0 <= n <= 9
      invariant g.Valid() && g.gameRunning && !g.gamePaused
      invariant g.snake == [Pos(10 + n, 10)] && g.direction == Right
      invariant g.food == Pos(0, 0)
    {
      g.Update([]);
      n := n + 1;
    }
    g.Update([]);
    assert !g.gameRunning && g.snake == [Pos(19, 10)];
    g.KeyDown("ArrowUp");
    g.Update([]);
    assert g.direction == Right && g.snake == [Pos(19, 10)];
  }

  /** The speed index stops at both ends of the table, and the buttons'
      disabled flags say so. */
  method SpeedBounds() {
    var g := new Game(0);
    g.DecreaseSpeed();
    g.DecreaseSpeed();
    assert g.currentSpeedIndex == 0 && g.slowerDisabled;
    g.DecreaseSpeed();
    assert g.currentSpeedIndex == 0;
    g.IncreaseSpeed();
    assert g.currentSpeedIndex == 1 && !g.slowerDisabled && !g.fasterDisabled;
  }
}
