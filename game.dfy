/** The game-state machine: the state the page keeps between timer ticks and
    key presses, and one method per operation that changes it. Drawing, the
    DOM, timers and local storage are outside this module; a tick is an
    explicit call of Update, and the random cells the game would draw are
    passed in as a stream. */
module SnakeGame {
  import opened Grid
  import opened Body

  /** One entry of the speed table: the tick interval in milliseconds and
      the label shown to the player. */
  datatype SpeedLevel = SpeedLevel(delay: nat, name: string)

  const SpeedLevels: seq<SpeedLevel> := [
    SpeedLevel(250, "Very Slow"),
    SpeedLevel(200, "Slow"),
    SpeedLevel(150, "Normal"),
    SpeedLevel(100, "Fast"),
    SpeedLevel(50, "Very Fast")
  ]

  /** The speed a fresh page starts at, "Normal". */
  const InitialSpeedIndex: int := 2

  /** Points for one piece of food. */
  const FoodReward: nat := 10

  /** Where a new game puts its one-segment snake. */
  const Spawn: Pos := Pos(10, 10)

  /** Where the food sits before the first game starts. */
  const InitialFood: Pos := Pos(15, 15)

  function Max(a: int, b: int): int {
    if a < b then b else a
  }

  /** The direction after an arrow key: a vertical key is taken only while
      moving horizontally and a horizontal key only while moving vertically;
      every other key leaves the direction alone. The test is against the
      current direction, not the last move the snake made. */
  function Turn(direction: Pos, key: string): (r: Pos)
    ensures r != direction <==>
              ((key == "ArrowUp" || key == "ArrowDown") && direction.y == 0)
              || ((key == "ArrowLeft" || key == "ArrowRight") && direction.x == 0)
    ensures r != direction ==> IsUnit(r) && (r.x == 0 ==> direction.y == 0) && (r.y == 0 ==> direction.x == 0)
    ensures IsUnit(direction) ==> IsUnit(r) && r != Opposite(direction)
  {
    match key
    case "ArrowUp" => if direction.y == 0 then Up else direction
    case "ArrowDown" => if direction.y == 0 then Down else direction
    case "ArrowLeft" => if direction.x == 0 then Left else direction
    case "ArrowRight" => if direction.x == 0 then Right else direction
    case _ => direction
  }

  /** Two presses between ticks can turn the snake around, whatever unit
      direction it moves in: the first key turns it sideways, the second
      is then tested against that sideways direction and taken, so the
      next tick moves opposite to the last one. */
  lemma AnyUnitCanReverse(d: Pos)
    requires IsUnit(d)
    ensures exists k1: string, k2: string :: Turn(Turn(d, k1), k2) == Opposite(d)
  {
    if d == Right {
      assert Turn(Turn(d, "ArrowUp"), "ArrowLeft") == Opposite(d);
    } else if d == Left {
      assert Turn(Turn(d, "ArrowUp"), "ArrowRight") == Opposite(d);
    } else if d == Up {
      assert Turn(Turn(d, "ArrowLeft"), "ArrowDown") == Opposite(d);
    } else {
      assert Turn(Turn(d, "ArrowLeft"), "ArrowUp") == Opposite(d);
    }
  }

  /** A later entry of the speed table ticks faster. */
  lemma FasterLevelsTickSooner(i: int, j: int)
    requires 0 <= i < j < |SpeedLevels|
    ensures SpeedLevels[j].delay < SpeedLevels[i].delay
  {
  }

  class Game {
    var snake: seq<Pos>
    var direction: Pos
    var food: Pos
    var score: nat
    var highScore: nat
    var gameRunning: bool
    var gamePaused: bool
    var currentSpeedIndex: int
    /** The "faster" and "slower" buttons' disabled flags. */
    var fasterDisabled: bool
    var slowerDisabled: bool

    /** What every reachable state satisfies. */
    ghost predicate Valid()
      reads this
    {
      WellFormed(snake)
      && IsUnit(direction)
      && InBounds(food) && food !in snake
      && score == FoodReward * (|snake| - 1)
      && score <= highScore
      && (gamePaused ==> gameRunning)
      && 0 <= currentSpeedIndex < |SpeedLevels|
      && fasterDisabled == (currentSpeedIndex >= |SpeedLevels| - 1)
      && slowerDisabled == (currentSpeedIndex <= 0)
    }

    /** The cell the head moves into on the next tick. */
    function NextHead(): Pos
      reads this
      requires |snake| > 0
    {
      Add(snake[0], direction)
    }

    /** The next tick would hit a wall or a segment, the tail included. */
    predicate Collides()
      reads this
      requires |snake| > 0
    {
      !InBounds(NextHead()) || NextHead() in snake
    }

    /** The next tick moves the snake and lands on the food. */
    predicate Eats()
      reads this
      requires |snake| > 0
    {
      gameRunning && !gamePaused && !Collides() && NextHead() == food
    }

    /** The page's initial state; `storedHighScore` is the high score read
        back from storage. */
    constructor (storedHighScore: nat)
      ensures Valid()
      ensures snake == [Spawn] && direction == Right && food == InitialFood
      ensures score == 0 && highScore == storedHighScore
      ensures !gameRunning && !gamePaused
      ensures currentSpeedIndex == InitialSpeedIndex
    {
      snake := [Spawn];
      direction := Right;
      food := InitialFood;
      score := 0;
      gameRunning := false;
      gamePaused := false;
      currentSpeedIndex := InitialSpeedIndex;
      highScore := storedHighScore;
      new;
      UpdateGameSpeed();
    }

    /** Recomputes the speed buttons' disabled flags from the speed index. */
    method UpdateGameSpeed()
      modifies this`fasterDisabled, this`slowerDisabled
      ensures fasterDisabled == (currentSpeedIndex >= |SpeedLevels| - 1)
      ensures slowerDisabled == (currentSpeedIndex <= 0)
    {
      fasterDisabled := currentSpeedIndex >= |SpeedLevels| - 1;
      slowerDisabled := currentSpeedIndex <= 0;
    }

    /** Places the food at the first cell of the random stream that is off
        the snake; each rejected draw is a retry of the sampling. */
    method GenerateFood(draws: seq<Pos>)
      requires HasFree(draws, snake)
      modifies this`food
      ensures food == draws[FirstFreeAt(draws, snake)]
      ensures food in draws && food !in snake
    {
      var i := 0;
      while true
        invariant 0 <= i <= FirstFreeAt(draws, snake)
        decreases FirstFreeAt(draws, snake) - i
      {
        food := draws[i];
        var hit := Contains(snake, food);
        if !hit {
          return;
        }
        i := i + 1;
      }
    }

    /** One tick of the game. */
    method Update(draws: seq<Pos>)
      requires Valid()
      requires Eats() ==> OnGrid(draws) && HasFree(draws, [NextHead()] + snake)
      modifies this
      ensures Valid()
      ensures direction == old(direction) && currentSpeedIndex == old(currentSpeedIndex)
      ensures fasterDisabled == old(fasterDisabled) && slowerDisabled == old(slowerDisabled)
      // Stopped or paused: nothing happens.
      ensures !old(gameRunning) || old(gamePaused) ==> unchanged(this)
      // A collision ends the game and moves nothing.
      ensures old(gameRunning) && !old(gamePaused) && old(Collides()) ==>
                !gameRunning && !gamePaused
                && snake == old(snake) && food == old(food)
                && score == old(score) && highScore == old(highScore)
      // Eating: the snake grows by its new head and the tail stays.
      ensures old(Eats()) ==>
                gameRunning && !gamePaused
                && snake == [old(NextHead())] + old(snake)
                && score == old(score) + FoodReward
                && highScore == Max(old(highScore), score)
                && food == draws[FirstFreeAt(draws, snake)] && food !in snake
      // A plain move: the new head is prepended and the tail dropped.
      ensures old(gameRunning) && !old(gamePaused) && !old(Collides()) && !old(Eats()) ==>
                gameRunning && !gamePaused
                && snake == [old(NextHead())] + old(snake)[..|old(snake)| - 1]
                && food == old(food) && score == old(score) && highScore == old(highScore)
    {
      if !gameRunning || gamePaused {
        return;
      }
      var head := Add(snake[0], direction);
      if head.x < 0 || head.x >= GridCount || head.y < 0 || head.y >= GridCount {
        GameOver();
        return;
      }
      var hit := Contains(snake, head);
      if hit {
        GameOver();
        return;
      }
      ghost var before := snake;
      assert Adjacent(head, before[0]);
      snake := [head] + snake;
      if head == food {
        score := score + FoodReward;
        GenerateFood(draws);
        if score > highScore {
          highScore := score;
        }
        GrowKeepsWellFormed(before, head);
        assert InBounds(food) by {
          var k := FirstFreeAt(draws, snake);
        }
      } else {
        snake := snake[..|snake| - 1];
        MoveKeepsWellFormed(before, head);
      }
    }

    /** Stops the game; the snake, score and food stay as they were. */
    method GameOver()
      requires Valid()
      modifies this`gameRunning, this`gamePaused
      ensures Valid()
      ensures !gameRunning && !gamePaused
    {
      gameRunning := false;
      gamePaused := false;
    }

    /** Starts a new game unless one is running; the speed index and the
        high score carry over. */
    method StartGame(draws: seq<Pos>)
      requires Valid()
      requires !gameRunning ==> OnGrid(draws) && HasFree(draws, [Spawn])
      modifies this
      ensures Valid()
      ensures old(gameRunning) ==> unchanged(this)
      ensures !old(gameRunning) ==>
                snake == [Spawn] && direction == Right && score == 0
                && gameRunning && !gamePaused
                && food == draws[FirstFreeAt(draws, [Spawn])]
                && highScore == old(highScore)
                && currentSpeedIndex == old(currentSpeedIndex)
                && fasterDisabled == old(fasterDisabled)
                && slowerDisabled == old(slowerDisabled)
    {
      if gameRunning {
        return;
      }
      snake := [Spawn];
      direction := Right;
      score := 0;
      gamePaused := false;
      GenerateFood(draws);
      gameRunning := true;
      UpdateGameSpeed();
      assert InBounds(food) by {
        var k := FirstFreeAt(draws, snake);
      }
    }

    /** The restart button: hides the game-over panel and starts a game. */
    method RestartGame(draws: seq<Pos>)
      requires Valid()
      requires !gameRunning ==> OnGrid(draws) && HasFree(draws, [Spawn])
      modifies this
      ensures Valid()
      ensures old(gameRunning) ==> unchanged(this)
      ensures !old(gameRunning) ==>
                snake == [Spawn] && direction == Right && score == 0
                && gameRunning && !gamePaused
                && food == draws[FirstFreeAt(draws, [Spawn])]
                && highScore == old(highScore)
                && currentSpeedIndex == old(currentSpeedIndex)
    {
      StartGame(draws);
    }

    /** Pauses or resumes a running game; does nothing otherwise. */
    method TogglePause()
      requires Valid()
      modifies this`gamePaused
      ensures Valid()
      ensures gamePaused == if old(gameRunning) then !old(gamePaused) else old(gamePaused)
    {
      if !gameRunning {
        return;
      }
      gamePaused := !gamePaused;
    }

    /** Moves one step up the speed table unless already at its top. */
    method IncreaseSpeed()
      requires Valid()
      modifies this`currentSpeedIndex, this`fasterDisabled, this`slowerDisabled
      ensures Valid()
      ensures currentSpeedIndex ==
                if old(currentSpeedIndex) < |SpeedLevels| - 1
                then old(currentSpeedIndex) + 1 else old(currentSpeedIndex)
      ensures old(currentSpeedIndex) < |SpeedLevels| - 1 ==> Delay() < old(Delay())
    {
      if currentSpeedIndex < |SpeedLevels| - 1 {
        currentSpeedIndex := currentSpeedIndex + 1;
        UpdateGameSpeed();
        FasterLevelsTickSooner(currentSpeedIndex - 1, currentSpeedIndex);
      }
    }

    /** Moves one step down the speed table unless already at its bottom. */
    method DecreaseSpeed()
      requires Valid()
      modifies this`currentSpeedIndex, this`fasterDisabled, this`slowerDisabled
      ensures Valid()
      ensures currentSpeedIndex ==
                if old(currentSpeedIndex) > 0
                then old(currentSpeedIndex) - 1 else old(currentSpeedIndex)
      ensures old(currentSpeedIndex) > 0 ==> old(Delay()) < Delay()
    {
      if currentSpeedIndex > 0 {
        currentSpeedIndex := currentSpeedIndex - 1;
        UpdateGameSpeed();
        FasterLevelsTickSooner(currentSpeedIndex, currentSpeedIndex + 1);
      }
    }

    /** The interval the timer ticks at, in milliseconds. */
    function Delay(): (d: nat)
      reads this
      requires Valid()
      ensures 50 <= d <= 250
    {
      SpeedLevels[currentSpeedIndex].delay
    }

    /** The key handler: ignored unless a game is running and not paused. */
    method KeyDown(key: string)
      requires Valid()
      modifies this`direction
      ensures Valid()
      ensures direction ==
                if old(gameRunning) && !old(gamePaused)
                then Turn(old(direction), key) else old(direction)
    {
      if !gameRunning || gamePaused {
        return;
      }
      direction := Turn(direction, key);
    }
  }
}
