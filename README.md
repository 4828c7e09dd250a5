# Snake game state machine in Dafny

A model of the game logic of a browser snake game (`Snake/script.js`): a
snake of head-first grid cells moves one cell per timer tick on a 20 x 20
grid (canvas 400 px / cell 20 px), dies on walls and on its own body, grows
by one segment and scores 10 points per piece of food, and the player can
steer with the arrow keys, pause, restart and change the tick speed over a
five-level table.

Files:

- `grid.dfy` (module `Grid`): cells and direction vectors (`Pos`), the grid
  constants, bounds, the four unit vectors, adjacency.
- `body.dfy` (module `Body`): the shape every reachable snake has
  (`WellFormed`: non-empty, on the grid, no repeated cell, consecutive cells
  one unit step apart), the self-collision scan `Contains`, the food
  rejection-sampling specification `FirstFreeAt`, and the lemmas that a
  tick keeps the body well formed.
- `game.dfy` (module `SnakeGame`): class `Game` holding the page's mutable
  state (`snake`, `direction`, `food`, `score`, `highScore`, `gameRunning`,
  `gamePaused`, `currentSpeedIndex`, and the faster/slower buttons' disabled
  flags), with one method per operation, the object invariant `Valid()`
  they all preserve, the speed table and the key-to-direction rule `Turn`.
- `scenarios.dfy` (module `Scenarios`): client methods that play short
  sessions against the contracts (a plain move, eating, reversing with two
  key presses between ticks, pausing, running into the right wall, the
  speed bounds).

`Valid()` is the invariant of every reachable state: the snake is well
formed, the direction is a unit vector, the food is on the grid and on no
segment, `score == 10 * (|snake| - 1)`, `score <= highScore`, a paused game
is a running one, the speed index is inside the table and each disabled
flag is true exactly at its end of the table.

Randomness: `Math.random` is replaced by a supplied stream `draws` of
on-grid cells. The recursive retry of food placement becomes a loop over
that stream that keeps the first draw off the snake; the precondition
`HasFree` (some draw is off the snake) stands for the recursion ending.

Behaviour of the code worth knowing:

- The run state is two flags, so a game not yet started and a game that
  has ended are the same state (`!gameRunning && !gamePaused`).
- Each key press is tested against the current `direction` field only, so
  two presses between ticks (Up then Left while moving right) reverse the
  snake, from any of the four directions. `AnyUnitCanReverse` and
  `Scenarios.ReverseBetweenTicks` show it, and `Turn` only promises "never
  the opposite of the current direction".
- The self-collision test runs over every current segment, the tail
  included, so moving into the cell the tail is about to leave ends the
  game (`Collides` in `Update`'s contract).

## Model

| member | source | states |
|---|---|---|
| Body.Contains | Snake/script.js:105-111 | the scan over the segments reports a hit exactly when the cell is one of the segments, the tail included |
| Body.FirstFreeAt | Snake/script.js:43-56 | rejection sampling keeps a draw that is off the snake, and every earlier draw it rejected was on the snake |
| Body.GrowKeepsWellFormed | Snake/script.js:113-126 | prepending an adjacent, on-grid, free head while keeping the tail leaves the snake non-empty, on the grid, free of repeats and connected |
| Body.DropTailKeepsWellFormed | Snake/script.js:127-129 | popping the tail of a snake of two or more segments keeps it well formed |
| Body.MoveKeepsWellFormed | Snake/script.js:113-129 | a move without food (prepend head, pop tail) keeps the length and keeps the snake well formed |
| SnakeGame.Turn | Snake/script.js:216-237 | the direction changes exactly when Up/Down is pressed with a zero vertical component or Left/Right with a zero horizontal component; the new direction is then a unit vector perpendicular to the old; a unit direction stays a unit vector and never becomes its own opposite |
| SnakeGame.AnyUnitCanReverse | Snake/script.js:213-237 | for every unit direction there are two key presses that, taken one after the other, turn it into its opposite |
| SnakeGame.FasterLevelsTickSooner | Snake/script.js:20-26 | each later entry of the speed table has a strictly shorter tick interval |
| SnakeGame.Game.constructor | Snake/script.js:27-40 | the page starts with snake [(10,10)], direction right, food (15,15), score 0, not running, not paused, speed index 2, the stored high score, and a state satisfying the invariant |
| SnakeGame.Game.UpdateGameSpeed | Snake/script.js:146-148 | the faster button is disabled exactly at the last speed level and the slower button exactly at the first |
| SnakeGame.Game.GenerateFood | Snake/script.js:43-56 | the food becomes the first draw of the random stream that is on no segment |
| SnakeGame.Game.Update | Snake/script.js:90-130 | stopped or paused: nothing changes; a wall or any segment (tail included) in the way: the game stops and snake, food, score and high score stay; food ahead: the head is prepended, the tail kept, score +10, high score the max of old high score and new score, new food on no segment including the new head; otherwise the head is prepended and the tail dropped with food and scores unchanged; direction and speed never change; the invariant is kept |
| SnakeGame.Game.GameOver | Snake/script.js:196-198 | the game is neither running nor paused afterwards and nothing else changes |
| SnakeGame.Game.StartGame | Snake/script.js:168-185 | a no-op while running; otherwise snake [(10,10)], direction right, score 0, not paused, food the first free draw, running, with speed index and high score carried over and the invariant kept |
| SnakeGame.Game.RestartGame | Snake/script.js:207-210 | behaves as starting a game: a no-op while running, otherwise the same fresh state |
| SnakeGame.Game.TogglePause | Snake/script.js:188-193 | flips the paused flag only while running, keeping the invariant |
| SnakeGame.Game.IncreaseSpeed | Snake/script.js:152-157 | the speed index goes up by exactly one below the top level and stays at the top level; flags follow; when the index moves, the tick interval gets strictly shorter |
| SnakeGame.Game.DecreaseSpeed | Snake/script.js:160-165 | the speed index goes down by exactly one above level 0 and stays at level 0; flags follow; when the index moves, the tick interval gets strictly longer |
| SnakeGame.Game.Delay | Snake/script.js:142 | the tick interval in use is between 50 and 250 ms |
| SnakeGame.Game.KeyDown | Snake/script.js:213-238 | a no-op unless running and not paused; otherwise the direction becomes `Turn` of the current direction and the key; the invariant (unit direction) is kept |

## Left out

- Drawing (`drawRect`, `drawSnake`, `drawFood`, `draw`, `gameStep`'s paint): rendering only, no game state.
- DOM lookups, text labels, the game-over panel and button captions: user-interface side effects; only the two disabled flags are kept.
- Timers (`gameLoop`, `setInterval`, `clearInterval`, the re-arming in `updateGameSpeed`): a tick is an explicit call of `Update`, and `Delay` gives the interval the timer would use.
- Local storage: the high score is read once as a constructor argument and its write is not modelled; the string-to-number coercion of the stored value is ignored.
- Randomness: the uniform distribution of `Math.random` is not modelled; draws are a supplied sequence of on-grid cells.
- SnakeGame.Game.GenerateFood: requires a free cell among the supplied draws (`HasFree`), so the model excludes the full grid. There the source's `generateFood` calls itself at Snake/script.js:52 until the call stack overflows and `update` throws: the new head is already prepended (line 113) and the score already raised by 10 (line 117), the food is left on a segment (lines 44-47), the high-score update (lines 122-126) is skipped, and the still-running timer's next tick ends the game because every neighbour of the head is a wall or a segment. Update, StartGame and RestartGame carry the same requirement when they place food.
- Event-listener registration: each listener body is a method (`KeyDown` takes the key's name).
