# Snake game simulation, modelled in Dafny

This project models the simulation core of a terminal snake game: the
`SnakeGameViewModel` of `src/game.rs`. The snake moves on a bounded 50 x 50
grid. It eats food (the *dot*) and loses when its head leaves the grid or runs
into its body. The game speeds up as the score grows, and the player can
trigger a temporary boost. The model covers the view model's state and every
operation that changes it:

- `new` and `reset_game`, which build a fresh board;
- the four direction moves `up`, `down`, `left` and `right`, with their
  no-reversal guard;
- `update_game`: collision first, then food capture, then a plain move, and
  in every case the boost countdown;
- `get_random_point_from_set`, `boost` and `same_direction`;
- the key dispatch inside `handle_events`.

Files:

- `grid.dfy` (module `Grid`): cells, the board `AllCells()`, and the proof
  that the board has 2500 cells.
- `rules.dfy` (module `Rules`): a `Board` value that mirrors the view model's
  fields. Each operation is a function or relation on boards. The module
  holds the invariant `Stable` and the lemmas that every operation keeps it.
- `game.dfy` (module `Game`): the class `SnakeGameViewModel`. Its fields are
  those of the Rust struct: the `VecDeque` becomes a `seq`, the `HashSet`
  becomes a `set`. Each Rust method becomes a Dafny method that updates the
  fields in place. Each method is proved to produce the board the rules give.
  The constructor and `ResetGame` establish `Valid()`, which is `Stable` of
  the fields, and the direction moves, `Go`, `Boost`, `SameDirection` and
  `HandleEvents` keep it. `UpdateGame`, its countdown step `TickBoost` and
  `GetRandomPointFromSet` do not mention `Valid()`: the direction moves prove
  it after calling `UpdateGame`, with `UpdatePreservesStable`. The module also holds
  the nested loops that fill `available_spaces` (`FreeCells`) and the key
  dispatch (`Decode`, `HandleEvents`).

What `Stable` says holds in every reachable state:

- `|snake| == score` and `score <= 2500`;
- the state is `Won` exactly when the score is 2500;
- `boost_turns <= 300`;
- the tick interval equals
  `100 - 4*(min(score,30)/5) - score/100 - (boost_turns > 0 ? 50 : 0)`.
  So it is always at least 1, and the unsigned subtractions never underflow;
- the snake's cells are distinct, on the grid, and never available;
- the dot is on the grid and never available;
- up to score 50 the dot is not on the body, and at least `2498 - score`
  cells are available, so a capture below 50 always finds a new dot;
- unless the game is lost, the head is on the grid. At scores 1 to 50 the
  head is also the front of the deque.

The head, the body, the dot and `available_spaces` do not partition the
grid:

- the deque holds the head cell itself;
- at score 0 a plain move puts the head cell back into `available_spaces`;
- the starting head cell is in no collection until the snake passes over it
  again;
- above score 50 a plain move leaves the body and `available_spaces` alone.

So no partition is claimed. `PlainMoveShape` states the score-0 and
above-50 behaviour as the code has it.

## Model

| member | source | states |
|---|---|---|
| `Grid.AllCellsSize` | src/game.rs:56-63 | the grid the loops scan has exactly 50 x 50 = 2500 cells |
| `Grid.AllButTwoSize` | src/game.rs:56-63 | removing two distinct grid cells (head and dot) leaves 2498 |
| `Grid.AllCellsInBounds` | src/game.rs:57-58 | a cell is on the grid exactly when both coordinates are in [0, 50) |
| `Game.FreeCells` | src/game.rs:56-63 | the nested x/y loops collect exactly the grid cells other than the head and the dot; `reset_game` repeats the same loops at src/game.rs:153-160 |
| `Rules.InitialStable` | src/game.rs:37-75 | a fresh board (head != dot, both on the grid, empty snake, score 0, speed 100, no boost, Playing) satisfies the invariant and has 2498 available cells |
| `Game.SnakeGameViewModel.constructor` | src/game.rs:37-75 | `new` with its random head, dot and direction passed in: the fields are the fresh board and `Valid()` holds |
| `Game.SnakeGameViewModel.ResetGame` | src/game.rs:132-170 | `reset_game` replaces every field with the fresh board for the given head, dot and direction, from any state |
| `Rules.Boosted` | src/game.rs:171-176 | boost fires exactly when the speed is above 50, no boost runs and the score is positive; then it sets 300 turns and takes exactly 50 off the speed, otherwise it changes nothing; no other field ever changes, and the speed never rises |
| `Game.SnakeGameViewModel.Boost` | src/game.rs:171-176 | `boost` produces `Boosted` of the old board and keeps the invariant |
| `Rules.BoostPreservesStable` | src/game.rs:171-176 | boost keeps the invariant, including the speed formula and `boost_turns <= 300` |
| `Rules.BoostNeedsOnlyScore` | src/game.rs:172 | on a stable board with no boost running the speed is above 50, so boost starts exactly when the score is positive |
| `Game.SnakeGameViewModel.GetRandomPointFromSet` | src/game.rs:231-238 | returns None exactly when no cell is available, otherwise an available cell |
| `Rules.RedrawnFacts` | src/game.rs:204-208 | with some cell free, the new dot is one of them and the free set becomes exactly the old one minus that cell (one fewer); with none free (`None`), the dot stays where it was and the free set stays empty |
| `Game.SnakeGameViewModel.UpdateGame` | src/game.rs:178-230 | `update_game` turns the board into one related by `Updated`: collision, else capture, else plain move, then the countdown; it asks only that the unsigned speed can absorb a capture's drop |
| `Game.SnakeGameViewModel.TickBoost` | src/game.rs:220-229 | the countdown: 1 goes to 0 and gives the 50 ms back, 2..=300 goes down by one, anything else stays |
| `Rules.UpdatePreservesStable` | src/game.rs:178-230 | from any board ready for `update_game` (invariant holds, Playing), every result the rules allow is stable |
| `Rules.CollisionKeepsBoard` | src/game.rs:180-185 | a collision (head on the body or off the grid) sets Lost and leaves body, score, dot and available cells unchanged; only the countdown still runs |
| `Rules.CaptureGrows` | src/game.rs:186-209 | a capture raises the score by exactly 1 and pushes the head onto the front of the body, with no other body cell moving; at 2500 the game is Won and the dot stays, otherwise it stays Playing and the new dot was available before, or stays put when nothing was available; in every case the free cells afterwards are exactly the old ones minus the new dot |
| `Rules.CaptureStable` | src/game.rs:186-209 | a capture keeps the invariant, including that below score 50 a new dot is always found |
| `Rules.PlainMoveShape` | src/game.rs:210-219 | a plain move at score 1..50 pushes the head and pops the tail, and the tail cell becomes available; at score 0 the deque stays empty and the head cell is added to the available cells; above 50 body and available cells are untouched |
| `Rules.PlainMoveStable` | src/game.rs:210-219 | a plain move keeps the invariant |
| `Rules.CaptureFollowsSchedule` | src/game.rs:192-200 | the speed match (4 ms off at scores 5, 10, ..., 30, else 1 ms off at each multiple of 100) moves the speed exactly one step along the closed-form schedule |
| `Rules.SpeedBounds` | src/game.rs:193-198 | the schedule runs 100 -> 76 at score 30 -> 51 at score 2500, stays in [51, 100] without a boost and at least 1 with one |
| `Rules.CaptureSpeedSafe` | src/game.rs:195-198 | on a board ready for `update_game` the speed exceeds the next capture's drop, so the unsigned subtraction cannot underflow |
| `Rules.StableSpeedInRange` | src/game.rs:171-176 | on every stable board the speed is in [1, 100], and it is above 50 whenever no boost runs |
| `Rules.CountdownKeepsSchedule` | src/game.rs:220-229 | the countdown leaves 0 at 0 and otherwise takes one turn off, keeps `boost_turns` within 300, and keeps the speed on the schedule by giving the 50 ms back exactly when the boost ends |
| `Rules.Neighbour` | src/game.rs:243-246 | a move shifts the head by exactly one cell along one axis: Up raises y, Down lowers y, Right raises x, Left lowers x, and the other coordinate stays |
| `Rules.NeighbourReversed` | src/game.rs:240 | stepping in the opposite direction undoes a step, which is what the no-reversal guard prevents |
| `Game.SnakeGameViewModel.Up` | src/game.rs:239-248 | `up` is a no-op unless Playing and unless heading Down; otherwise it sets Up, moves the head to y+1 and resolves through `update_game`; keeps the invariant |
| `Game.SnakeGameViewModel.Down` | src/game.rs:249-259 | `down`: the same with y-1, refused while heading Up |
| `Game.SnakeGameViewModel.Right` | src/game.rs:260-270 | `right`: the same with x+1, refused while heading Left |
| `Game.SnakeGameViewModel.Left` | src/game.rs:271-281 | `left`: the same with x-1, refused while heading Right |
| `Game.SnakeGameViewModel.Go` | src/game.rs:86-105 | the direction arms of the key match: the move chosen by `d` is `up`, `down`, `left` or `right`, related to the old board by `Moved`, and the invariant is kept |
| `Rules.MovePreservesStable` | src/game.rs:239-281 | every direction move, accepted or refused, keeps the invariant |
| `Game.SnakeGameViewModel.SameDirection` | src/game.rs:282-292 | `same_direction` is a no-op unless Playing; while Playing it always steps the head in the current direction and resolves |
| `Rules.KeptDirectionSteps` | src/game.rs:286-291 | continuing in the current direction is never refused as a reversal |
| `Rules.NoMoveAfterLoss` | src/game.rs:86-89 | a move requested once the game is lost changes nothing, so the second half of a Ctrl double move after a losing first half is a no-op |
| `Rules.Toggled` | src/game.rs:106-113 | space swaps Playing and Paused and leaves Won and Lost alone |
| `Rules.TogglePreservesStable` | src/game.rs:106-113 | the pause toggle keeps the invariant |
| `Game.Decode` | src/game.rs:81-123 | 'q' quits under any modifiers; 'n' and Enter ask for a new game; the arrows and h/j/k/l steer, twice exactly when the modifiers are Control alone; space and only space toggles pause; 'b' and only 'b' boosts; so every remaining key is ignored |
| `Game.ControlOnlyDoubles` | src/game.rs:86-105 | Control changes only the direction keys, and only by doubling the move |
| `Game.SnakeGameViewModel.HandleEvents` | src/game.rs:77-131 | one event applied: a timeout runs `same_direction`; 'n'/Enter reset only outside Playing; a Control move is two moves in a row; space toggles pause; 'b' boosts; returns true exactly for 'q'; keeps the invariant |

## Left out

- Terminal I/O in `handle_events` (`event::poll` and `event::read`): the poll
  result is the input `Event` (`Timeout`, a key `Press`, or `Unhandled` for a
  key release or any non-key event). The speed is plain data, not a timeout.
- Randomness (`thread_rng`): `new`, `reset_game` and `HandleEvents` take the
  starting head, dot and direction as parameters. They require the head and
  the dot to be distinct cells on the grid, which is what the re-draw loop
  guarantees.
- `Game.SnakeGameViewModel.GetRandomPointFromSet`: does not model the uniform
  choice or the hash set's iteration order; it promises only some available
  cell.
- `Game.SnakeGameViewModel.UpdateGame`: the speed `match` is written as one
  subtraction of `CaptureDrop`, a function with the same two guarded arms.
- The `Display` implementations (src/game.rs:294-318) are debug formatting
  only.
- src/screen.rs (drawing), src/app.rs (terminal setup and the draw/poll loop)
  and src/main.rs (entry point) are not part of this model.
- Fixed-width integers (`i16` cells, `u32` score, `u16` boost turns, `u64`
  speed) are unbounded `int`/`nat`. The invariant shows they stay in range:
  the head within [-1, 50], score at most 2500, boost turns at most 300, and
  speed at least 1 with no underflow.
- Direction methods, `Boost`, `SameDirection` and `HandleEvents` require
  `Valid()`, the class invariant that the constructor establishes and every
  method keeps. `UpdateGame` is private in the source and called only from
  the direction moves.
