# Snake game state machine in Dafny

A model of the game logic of a small SFML snake game (`main.cpp`). The snake moves on a
fixed 48 × 27 grid. It has a head, a body of segments nearest-first, a current direction, a
FIFO queue of turns pressed faster than the tick rate, and a `moved` flag. The game also
holds a process-wide game-over flag and one apple.

- A **tick** moves the snake. It takes the oldest queued turn, or the current direction if
  nothing is queued. Each body segment steps into the place of the one ahead of it and the
  head moves one cell. Then come the self-collision check and the apple check. Last, the
  head is wrapped round the grid edges.
- A **key press** (W/A/S/D or the arrow keys) asks for a heading. The heading is refused if
  it reverses the current direction. This test uses the enum's integer values: Up = 1,
  Down = -1, Left = 2, Right = -2, None = 0. Two headings are opposite when their values
  sum to zero. When a turn is already pending, or the snake already turned since the last
  tick, the old direction is queued before the new one is adopted.
- The **main loop** runs a tick only while the game is not over.

Files and modules:

- `grid.dfy`, module `Grid`: positions, headings, their codes and unit moves, and the
  wrap-around.
- `rules.dfy`, module `Rules`: the game state as a datatype. Each C++ function becomes a
  function on it (`Move`, `Death`, `Eat`, `Tick`, `Step`, `Press`). Their contracts state
  what each step promises.
- `session.dfy`, module `Session`: the main loop as a run over a sequence of events (key
  presses and elapsed tick intervals). Its lemmas hold for every run: grid bounds, game
  over is final, the body never shrinks, and no None direction after the first accepted
  key. It also holds the turn-buffer scenarios.
- `game.dfy`, module `SnakeGame`: class `Game`, with the program's fields and in-place
  methods. `MoveSnake` shifts the body with the downward loop of the source. `CheckDeath`
  walks the body. `Tick` rewrites one head coordinate. Each method is proved to produce
  exactly the state the matching `Rules` function gives.
- `findings.dfy`, module `Findings`: two behaviours of the code as written that work
  against the game's own rules (the snake never reverses into its neck; the head meets
  what lies on the cell it reaches), each with a concrete state, a corrected rule, and
  that rule's property proved for the correction.

The random generator becomes a parameter. `roll` is the cell the generator would return if
the apple is eaten on that tick. The class methods require it to lie on the grid, because
the generator draws each coordinate from `[0, ROWS-1]` and `[0, COLS-1]`.

Two choices of the code that the model keeps as written:

- When the apple is eaten, the new segment copies `body.front()` after the shift. That is
  the segment next to the head, which holds the old head's cell. When there is no body,
  the code copies the moved (pre-wrap) head, which is the apple's cell. A copy of the tail
  would be the other natural choice. `Session.GrownSegmentIsOverwritten` shows that the
  choice makes no difference once the game goes on: the next shift drops the appended
  cell whatever it held. The exception is a snake that dies on the tick it eats: the game
  stops there, and the final body keeps the copied cell.
- The death and apple checks run on the head before wrap-around (see Findings).

## Model

| member | source | states |
|---|---|---|
| `Grid.Position.Equals` | main.cpp:38-40 | comparing coordinates field by field is exactly equality of positions |
| `Grid.Position.Apply` | main.cpp:33-36 | the result differs from the start by exactly the offset, coordinate by coordinate |
| `Grid.Code` | main.cpp:43 | the enum value is 0 exactly for None and lies in [-2, 2] |
| `Grid.Opposite` | main.cpp:43 | reference reversal: None exactly for None, never the heading itself |
| `Grid.Unit` | main.cpp:107-127 | None gives the zero vector, every real heading a vector of length one |
| `Grid.CodeSumZeroIffOpposite` | main.cpp:159-202 | for a real heading b, code(a) + code(b) = 0 iff b is the reverse of a (both directions) |
| `Grid.OppositeUndoesMove` | main.cpp:107-127 | a move then a move in the reverse heading returns to the start cell |
| `Grid.Wrap` | main.cpp:147-154 | leaves a grid cell alone; brings any cell one unit move off the grid back on; changes at most one coordinate |
| `Grid.UnitMoveStaysNear` | main.cpp:146-154 | a unit move from the grid lands where the wrap chain corrects it back onto the grid |
| `Grid.WrapCorrectsOneCoordinateOnly` | main.cpp:147-154 | a cell off two edges at once keeps one coordinate out of range (the first branch wins) |
| `Rules.Initial` | main.cpp:261-262 | the start state is on the grid, head not on the apple, no body, nothing queued, heading None, game not over |
| `Rules.Shifted` | main.cpp:129-135 | the body keeps its length, the new first segment is the old head, and each later segment takes the cell of the one ahead |
| `Rules.Move` | main.cpp:94-138 | moved is cleared; the queue loses exactly its front when non-empty; the head moves by the unit vector of the queue front or else the direction; the body is shifted; nothing else changes |
| `Rules.Death` | main.cpp:70-75 | game over afterwards iff it was over or some segment has the head's cell; nothing else changes |
| `Rules.Eat` | main.cpp:77-91 | on the apple: one segment appended, copying the front segment or the head, apple moved to the roll; otherwise nothing changes; nothing else changes either way |
| `Rules.WrapHead` | main.cpp:146-154 | only the head changes, to its wrapped cell |
| `Rules.Tick` | main.cpp:140-155 | head ends on the wrapped unit move and stays on the grid if it was there; body grows by one iff the pre-wrap head is the apple; the old part of the body is the shifted body and the appended cell is the old head, or the moved head when there was no body; the apple is kept unless eaten, when it becomes the roll; game over iff it was over or the pre-wrap head meets a shifted segment; queue popped, direction kept, moved cleared; well-formedness is kept |
| `Rules.Step` | main.cpp:283-286 | when the game is over the state is left exactly as it was; otherwise one tick runs |
| `Rules.KeyDirection` | main.cpp:161-201 | W and the up arrow ask for Up, A and the left arrow for Left, S and the down arrow for Down, D and the right arrow for Right; exactly the other keys ask for nothing |
| `Rules.Candidate` | main.cpp:159-202 | the key's heading is taken iff the key is mapped and its heading is not the reverse of the current direction; otherwise None |
| `Rules.Press` | main.cpp:157-212 | a refused or unmapped key changes nothing; an accepted one becomes the direction and sets moved; the queue grows by one iff it was non-empty or moved was set, by appending the old direction; the queue keeps its old turns in order; head, body, apple and game over are untouched |
| `Session.RunKeepsWellFormed` | main.cpp:264-286 | along any run with on-grid rolls, head, apple and every segment stay on the grid |
| `Session.GameOverIsFinal` | main.cpp:283-286 | once game over, every later run keeps it set, makes no move, and leaves head, body and apple unchanged |
| `Session.Handle` | main.cpp:270-286 | one pass of the main loop: a polled key press is `Press`, an elapsed interval is the gated `Step` |
| `Session.Run` | main.cpp:264-286 | along any sequence of events, game over is never cleared and the body never loses a segment |
| `Session.InitialClean` | main.cpp:261-262 | the start state has an empty queue free of None, so it satisfies the clean-queue invariant |
| `Session.PressesOnlySteer` | main.cpp:157-212 | key presses alone never move the snake, change its body or apple, or touch game over |
| `Session.HandleKeepsClean` | main.cpp:204-211 | one event keeps the queue free of None and a real direction whenever a turn is pending or was taken |
| `Session.RunKeepsClean` | main.cpp:204-211 | every run keeps that invariant |
| `Session.AcceptedKeySettles` | main.cpp:204-211 | after an accepted key, neither the direction nor any queued turn is None |
| `Session.HandleKeepsSettled` | main.cpp:204-211 | one event keeps direction and queue free of None |
| `Session.SettledIsFinal` | main.cpp:204-211 | after an accepted key, no run brings None back into the direction or the queue, and every later tick moves by a real heading |
| `Session.QueuedTurnsAreTakenInOrder` | main.cpp:100-105 | from a fresh tick, Up then Left make the next tick move Up and the one after move Left, with Left kept as the direction |
| `Session.ReversalIsRefused` | main.cpp:168-191 | Up then Down between ticks: Down is refused and the next tick moves Up |
| `Session.GrownSegmentIsOverwritten` | main.cpp:80-86 | the appended segment is dropped: the body after the next shift does not depend on the copied cell |
| `SnakeGame.Game.constructor` | main.cpp:56-59 | the snake starts at the given cell and heading with no body, nothing queued, moved and game over false |
| `SnakeGame.Game.NewGame` | main.cpp:261-262 | a fresh game in the start state of main |
| `SnakeGame.Game.MoveSnake` | main.cpp:94-138 | the in-place shift loop and head move leave exactly the state `Rules.Move` gives |
| `SnakeGame.Game.CheckDeath` | main.cpp:70-75 | walking the body sets game over iff it was set or the head is on a segment; no other field changes |
| `SnakeGame.Game.CheckApple` | main.cpp:77-91 | the in-place push and apple overwrite leave exactly the state `Rules.Eat` gives |
| `SnakeGame.Game.Tick` | main.cpp:140-155 | the three calls and the in-place bound check leave exactly the state `Rules.Tick` gives, and keep head, apple and segments on the grid |
| `SnakeGame.Game.KeyPressed` | main.cpp:157-212 | the in-place key handling leaves exactly the state `Rules.Press` gives; the queue grows by at most one |
| `SnakeGame.Game.Step` | main.cpp:283-286 | after game over the object is unchanged; otherwise it has ticked |
| `Findings.LostTurnFirstTick` | main.cpp:94-105 | as written, the first tick of the scenario takes Up from the queue and clears moved while Left is still unmade |
| `Findings.LostTurnSecondTick` | main.cpp:207-211 | as written, Down then replaces the unmade Left without queuing it, and the next tick ends the game |
| `Findings.LostTurnReversesSnake` | main.cpp:94-105 | as written, the keys Up, Left, tick, Down, tick make the moves Up then Down, a reversal, and end the game |
| `Findings.MoveKeepingTurn` | main.cpp:94-105 | corrected moveSnake: it differs from moveSnake only in moved, and a heading that no tick has made yet keeps moved set |
| `Findings.TickKeepingTurn` | main.cpp:140-155 | corrected Tick: it differs from Tick only in moved, and a heading that no tick has made yet keeps moved set |
| `Findings.InitialTurnChain` | main.cpp:261 | the start state satisfies the turn-chain invariant |
| `Findings.PressKeepsTurnChain` | main.cpp:204-211 | a key press keeps the turn-chain invariant |
| `Findings.TickKeepsTurnChain` | main.cpp:94-105 | a corrected tick keeps the invariant and never moves in the reverse of the previous move |
| `Findings.CorrectedTurnsNeverReverse` | main.cpp:94-105 | with the correction, across any run, no move is the reverse of the move before it |
| `Findings.CorrectedKeepsQueuedTurn` | main.cpp:100-105 | with the correction, the same keys make the moves Up then Left and the snake lives |
| `Findings.TickWrapFirst` | main.cpp:140-155 | corrected tick: the body grows iff the head ends the tick on the apple; game over iff it ends on a shifted segment; grid bounds kept |
| `Findings.WrappedArrivalMissesApple` | main.cpp:142-154 | as written, a head that crosses the left edge onto the apple ends the tick on it uneaten, and the next tick leaves it uneaten |
| `Findings.WrappedArrivalMissesCollision` | main.cpp:142-154 | as written, a head that crosses an edge onto its body ends the tick there and the game goes on; with the wrap first it ends |

## Left out

- `drawGraphics` (main.cpp:214-251) is SFML rendering. The model has no output.
- The window, event polling and `sf::Event` in `main` (main.cpp:256-281) are left out. A
  key event is reduced to the `Key` enumeration, and the loop to a sequence of `Event`s.
- Frame timing (`sf::Clock`, the float `timer`, `SPEED`) is left out. Only the
  `!gameOver` gate of a tick is modelled. Any interleaving of key presses and ticks is allowed.
- `getRandomIntInRange` and `srand` are left out. Each tick carries an arbitrary `roll`,
  which must lie on the grid where the program's range guarantees it. No claim is made
  about uniformity.
- The pixel sizes `SCALE`, `width` and `height` are rendering only.
- C++ `int` overflow is not modelled. Every coordinate stays within one cell of the
  grid, so it cannot occur.
- The global `gameOver` is a field of the state and of the class, not a process-wide
  variable.

## Findings

`SnakeGame.Game`, `Rules.Tick` and the `Session` lemmas model the program as written. The
corrected members below are proposed replacements. Their properties are proved next to the
as-written counterexamples.

| source | as written | input that shows it | evidently intended | confidence | as-written member | corrected member |
|---|---|---|---|---|---|---|
| main.cpp:95 | moveSnake clears `moved` on every tick, also when it took its heading from the queue, so a later key press replaces the still-unmade direction without queuing it | head (10,10), body (9,10),(8,10), moving Right, nothing queued; keys Up, Left, a tick, Down, a tick | the queued Left is made on the second tick and no move reverses the one before it | high, not executed | `Findings.LostTurnReversesSnake` | `Findings.CorrectedTurnsNeverReverse` |
| main.cpp:142-154 | the apple check looks at the head before wrap-around, so arriving on the apple across an edge does not eat it | head (0,5), no body, moving Left, apple (47,5) | the apple is eaten when the head ends the tick on it | medium, not executed | `Findings.WrappedArrivalMissesApple` | `Findings.TickWrapFirst` |
| main.cpp:142-154 | the death check looks at the head before wrap-around, so a head crossing an edge onto its body survives | head (0,5) moving Left, body (1,5),(1,6),(0,6),(47,6),(47,5),(47,4) | the game ends when the head ends the tick on a segment | medium, not executed | `Findings.WrappedArrivalMissesCollision` | `Findings.TickWrapFirst` |
