# Snake board simulation in Dafny

This project models the game simulation of the Snake panel `Board`. The Java
class keeps the snake in two `int` arrays `x` and `y` of capacity `ALL_DOTS`
(3600). Index 0 is the head. It also keeps the length `dots`, the apple
position, four direction flags and the `inGame` flag.

A Swing timer calls `actionPerformed` on each tick. That method runs
`checkApple`, then `checkCollision`, then `move`. A key listener
(`TAdapter.keyPressed`) sets the direction flags.

Here the state is an immutable `Board` value, and each Java method is a
function from one state to the next:

- `board.dfy` (module `Board`) holds the constants, the state, `InitGame`,
  `LocateApple`, `CheckApple`, `Move`, `CheckCollision` and `ActionPerformed`.
  The loops of `move` and `checkCollision` are written as the recursive
  functions `ShiftDown` and `ScanSelf`. Each performs the same accesses to
  each array in the same order as its loop, and their contracts state what
  the loops achieve.
- `keys.dfy` (module `KeyInput`) holds the key listener and its properties.
- `ticks.dfy` (module `Ticks`) holds lemmas about a single tick and about
  apple placement.
- `session.dfy` (module `Session`) holds the invariant of every reachable
  state. It also defines `Replay`, which applies any interleaving of ticks and
  key presses, and proves properties of whole runs.

`Math.random()` is replaced by the two draws `rx` and `ry`. Each lies in
`[0, RAND_POS)`, which is the range of `(int) (Math.random() * RAND_POS)`.

Three behaviours of the code are easy to misread:

- Reversal is checked against the live flags, not against the direction of the
  last tick. So Up then Left, pressed between two ticks while heading right,
  reverses the snake (`KeyInput.TwoKeysReverse`).
- The self-collision loop also compares the head with index `dots`, one past
  the logical tail. On a tick without an apple that slot holds the cell the
  tail most recently vacated (Java's default 0 until the first tick that eats
  no apple). On the eating tick `checkApple` has already grown `dots`, so the
  loop reads a slot that `move` has never written. That slot still holds
  Java's default 0. So eating an apple at (0, 0) with a grown length of at
  least 5 ends the game (`Session.EatAtOriginEnds`). An eating tick only
  copies a (0, 0) past-tail slot one slot further out
  (`Session.EatingKeepsPastTailZero`). So a later tick that eats nothing, with
  the head at (0, 0), can also end the game against that slot
  (`Session.QuietTickAtOriginEnds`).
- The tick that detects a collision still moves the snake.

`ArrayIndexOutOfBoundsException` is modelled as an outcome. If `checkApple`
grows `dots` to `ALL_DOTS`, the collision loop reads `x[dots]` and throws.
`ActionPerformed` then returns `OutOfBounds` with the state at the throw.

Because `RAND_POS` is `B_WIDTH / DOT_SIZE - 1`, the apple never appears in the
last column or the last row (`Ticks.AppleNeverInLastLine`).

## Model

| member | source | states |
|---|---|---|
| `Board.InitGame` | Board.java:82-91 | the start state has length 3 with segments (50,50), (40,50), (30,50), all other slots 0, heading right, game running, apple at the drawn cell |
| `Board.LocateApple` | Board.java:180-187 | the apple lands on a grid-aligned cell in [0, 580] on both axes, given by the two draws; nothing else changes |
| `Board.CheckApple` | Board.java:131-137 | head on apple: length grows by exactly one and the apple is re-placed; otherwise the state is unchanged |
| `Board.ShiftDown` | Board.java:141-144 | after the tail-to-head loop, slot k holds the old slot k-1 for 1 <= k <= dots; slot 0 and the slots above dots keep their values |
| `Board.Move` | Board.java:139-161 | segments 1..dots take their predecessors' cells; slots above dots are unchanged; with one flag set, the head moves one cell along that heading's axis; length, apple and flags are unchanged |
| `Board.ScanSelf` | Board.java:165-169 | the loop clears `alive` exactly when some index 5..dots shares the head's cell |
| `Board.CheckCollision` | Board.java:163-173 | `inGame` stays true iff it was true, the head is on the board and no segment 5..dots is on the head's cell; nothing else changes |
| `Board.ActionPerformed` | Board.java:189-198 | game over: state unchanged; `inGame` never becomes true; throws exactly when the grown length reaches ALL_DOTS, leaving the arrays as they were |
| `KeyInput.KeyPressed` | Board.java:200-229 | only flags change; exactly-one-flag is preserved; the reverse key, the current key and other keys change nothing; any other arrow key becomes the heading |
| `KeyInput.ArrowTurnsUnlessReverse` | Board.java:206-228 | an arrow key becomes the heading iff it is not the reverse of the current heading; otherwise every flag is kept |
| `KeyInput.TwoKeysReverse` | Board.java:206-228 | heading right, Up then Left leaves the snake heading left |
| `Ticks.TickEffect` | Board.java:190-195 | a running, non-throwing tick: the length grows first; the collision verdict uses the pre-move head against segments 5..grown length; then the shift and the head step |
| `Ticks.EatingTickGrows` | Board.java:131-144 | on the eating tick the length grows by one, the apple is re-placed, the new last segment (index old `dots`) holds the old tail, and the cell in the old slot `dots` moves to the slot just past the new tail |
| `Ticks.FatalTickStillMoves` | Board.java:191-194 | with the head off the board, the tick ends the game and still advances the head one cell |
| `Ticks.OneCellOutsideIsWall` | Board.java:171-173 | a head at x = 600 or x = -10 ends the game |
| `Ticks.NeckIsExempt` | Board.java:165-169 | boards that differ only in segments 1..4 get the same collision verdict |
| `Ticks.AppleCells` | Board.java:180-187 | a cell can receive the apple iff it is grid-aligned with both coordinates in [0, 580] |
| `Ticks.AppleNeverInLastLine` | Board.java:24 | the apple is never at x = 590 or y = 590 |
| `Session.InitGameInv` | Board.java:82-91 | the start state satisfies the invariant |
| `Session.KeyPressedInv` | Board.java:206-228 | a key press keeps the invariant |
| `Session.ActionPerformedInv` | Board.java:190-195 | a tick that does not throw keeps the invariant: one heading, 3 <= dots < ALL_DOTS, coordinates on the grid and within two cells of the board, apple on an apple cell |
| `Session.InvFitsInt` | Board.java:141-159 | in a reachable state every stored value, and every value the next tick computes, fits in a 32-bit `int` |
| `Session.ReplayInv` | Board.java:189-229 | every interleaving of ticks and key presses that does not throw ends in a state satisfying the invariant |
| `Session.ReplayInGameMonotone` | Board.java:166-173 | along any run `inGame` only goes from true to false |
| `Session.GameOverIsFinal` | Board.java:191-195 | after game over no run throws or changes the segments, the length, the apple or `inGame`; only the flags can change |
| `Session.GameOverTicksIdle` | Board.java:191-195 | after game over any number of ticks leaves the whole state unchanged |
| `Session.InitGameStaleZero` | Board.java:28-29 | at the start every slot past index `dots` holds Java's default 0 |
| `Session.ActionPerformedStaleZero` | Board.java:190-195 | a tick that does not throw keeps every slot past index `dots` at 0 |
| `Session.ReplayStaleZero` | Board.java:189-229 | every run that does not throw ends with every slot past index `dots` at 0 |
| `Session.EatAtOriginEnds` | Board.java:131-169 | a running snake that eats an apple at (0, 0) with a grown length of at least 5 ends the game on that tick, because the collision loop compares the head with an unwritten slot holding (0, 0) |
| `Session.EatingKeepsPastTailZero` | Board.java:131-144 | an eating tick that starts with (0, 0) in the slot past the tail ends with (0, 0) in the slot past the new tail |
| `Session.QuietTickAtOriginEnds` | Board.java:163-169 | a tick that eats nothing, with length at least 5, the head at (0, 0) and (0, 0) in the slot past the tail, ends the game |
| `Session.FiveQuietTicks` | Board.java:84-89 | from the start state, five ticks with no key and no apple on the path leave a running length-3 snake with its head at (100, 50) |

## Left out

- Rendering is not modelled: `paintComponent`, `doDrawing`, `gameOver`, fonts, `Toolkit.sync` and `repaint`. This is AWT/Swing output with no simulation logic.
- Image handling is not modelled: `loadImages` and `resizeImage`. These are file I/O and library image scaling.
- The `javax.swing.Timer` is not modelled: its creation in `initGame`, the `DELAY` period, its start, and its stop in `checkCollision`. Ticks are the `Timer` events of `Session.Replay`. After game over those ticks do nothing, which matches a stopped timer.
- `KeyEvent` decoding is not modelled. Keys are the `Key` datatype: an arrow or any other key.
- Event-thread scheduling is not modelled. Ticks and key presses are atomic steps in an arbitrary order.
- The floating-point `Math.random() * RAND_POS` cast is not modelled. It is replaced by an integer draw in `[0, RAND_POS)`.
- Board.Move: coordinates are unbounded integers, not 32-bit `int`s, so wrap-around on `x[0] += DOT_SIZE` is not modelled. `Session.InvFitsInt` proves that reachable states never come near the 32-bit limits.
- Board.CheckApple: `dots++` is unbounded, not 32-bit. In reachable states `dots` stays below `ALL_DOTS`.
- Session.Replay: a run stops at the first `ArrayIndexOutOfBoundsException`. In the program, Swing reports the exception and keeps firing the timer; those later ticks are not modelled.
