# peg-solitaire board model

A Dafny model of the board state machine of `peg-solitaire.c`, a terminal
peg-solitaire game. The board is a 9×9 grid of pegs (`'o'`), empty holes
(`'.'`) and off-board cells (`' '`). It also holds a cursor, a "peg picked
up" flag and the cell the last peg must end on. The program writes out one
movement rule, `moveUp`. It gets the other three directions by turning the
whole board a quarter turn 1, 2 or 3 times, calling `moveUp`, and turning it
back 3, 2 or 1 times. `gameEnded` uses the same trick to count jumps in all
four directions.

The modules follow that structure:

- `State` (state.dfy): cells, positions, the board, and the sets of pegs and
  off-board cells. It also defines `Playable`, the invariant the game keeps:
  the cursor is on a playable cell, and a picked-up peg is under the cursor.
- `Rotation` (rotation.dfy): `rotateBoard` as a pure quarter turn, and the
  program's in-place 4-cycle loop proved equal to it.
- `Moves` (moves.dfy): `select`, `moveUp` as written, and the three rotating
  wrappers. `Move(b, d)` states the rule directly for any direction. Each
  wrapper's own contract says it is that rule in its own direction.
- `Status` (status.dfy): `won`, `validMovesUp` and `gameEnded` as loops in
  the program's scan order.
- `Layouts` (layouts.dfy): the five layout tables and `initialize`.
- `Play` (play.dfy): any sequence of operations started from `initialize`.
  The board invariants hold throughout.

Notes on the code:

- `moveLeft` turns the board once before `moveUp`; `moveRight` turns it
  three times. One quarter turn sends the content of (x, y) to (8-y, x), so
  "left" becomes "up". The cursor formula `-(y-n/2)+n/2` equals `n-1-y` only
  because n is odd.
- `initialize` always puts the cursor on (4, 4). The winning cell is (4, 4),
  except for layout 0 (French), where it is (4, 5). In the French layout the
  starting hole is (4, 3), not the centre.

## Model

| member | source | states |
|---|---|---|
| Rotation.RotPos | peg-solitaire.c:79-83 | The cursor formula around the centre n/2 is the quarter turn (x, y) -> (n-1-y, x), and it keeps the cursor inside the grid |
| Rotation.RotateGrid | peg-solitaire.c:67-78 | After a quarter turn, cell (n-1-y, x) holds what cell (x, y) held; the result is again a 9×9 grid |
| Rotation.Rotate | peg-solitaire.c:67-84 | The cursor moves with the content, so the cell under the cursor is unchanged; `selected` and `win` are untouched; a playable board stays playable |
| Rotation.RotateCellSets | peg-solitaire.c:67-78 | The pegs and the off-board cells of the turned grid are exactly the turned pegs and off-board cells |
| Rotation.RotateCounts | peg-solitaire.c:67-78 | A quarter turn keeps the number of pegs and of off-board cells, so the turns inside the moves and `gameEnded` never change a count |
| Rotation.FourTurns | peg-solitaire.c:67-84 | Four quarter turns give back the same grid and cursor |
| Rotation.RotatePut | peg-solitaire.c:67-78 | Writing a cell and then turning equals turning and then writing the turned cell |
| Rotation.Cycle | peg-solitaire.c:72-76 | One step of the inner loop moves four cells of a ring around a 4-cycle and leaves every other cell alone |
| Rotation.CycleStep | peg-solitaire.c:71-77 | Each step of the inner loop finishes one more column of the current ring |
| Rotation.RotateInPlace | peg-solitaire.c:70-78 | The in-place ring-by-ring 4-cycle loop computes exactly the quarter turn |
| Moves.Opposite | peg-solitaire.c:119-123 | The direction helper used by `WalkBack`: a step in a direction followed by a step in its opposite returns to the start |
| Moves.Turn | peg-solitaire.c:127-155 | After a quarter turn, a step in d is a step in Turn(d): left becomes up, down becomes left, right becomes down, up becomes right |
| Moves.Jump | peg-solitaire.c:114-116 | A jump changes only the three cells of the jump: the start and the jumped cell become holes, the landing cell a peg |
| Moves.Move | peg-solitaire.c:100-125 | The rule in any direction: a move that cannot be made changes nothing; the winning cell never changes |
| Moves.Select | peg-solitaire.c:86-98 | Succeeds iff a peg is under the cursor, and then flips `selected`; grid, cursor and winning cell never change |
| Moves.MoveUp | peg-solitaire.c:100-125 | With a peg picked up: succeeds iff y ≥ 2 and the cells at y, y-1, y-2 are peg, peg, hole; then those three cells become hole, hole, peg, all other cells keep their content, the cursor goes to y-2 and the peg is put down. Without: succeeds iff y ≥ 1 and cell y-1 is on the board; then only `cursor.y` decreases by one. A failure changes nothing |
| Moves.TurnJump | peg-solitaire.c:109-118 | A jump or a cursor step is possible on the turned grid in the turned direction iff it is possible on the original, and the turned jump result is the jump on the turned grid |
| Moves.TurnMove | peg-solitaire.c:127-155 | Moving in d and then turning gives the same board as turning and then moving in Turn(d), with the same success flag |
| Moves.MoveUpIsMove | peg-solitaire.c:100-125 | `moveUp` is the general rule applied upwards |
| Moves.MoveLeft | peg-solitaire.c:127-135 | `moveLeft` (one quarter turn, `moveUp`, three quarter turns) is the rule along -x: a jump needs x ≥ 2, a hole at x-2 and a peg at x-1, and it lands the cursor on x-2. A walk lands on x-1. A failed move leaves the board identical, despite the four quarter turns |
| Moves.MoveDown | peg-solitaire.c:137-145 | `moveDown` (two quarter turns, `moveUp`, two quarter turns) is the rule along +y: a jump needs y ≤ 6, a hole at y+2 and a peg at y+1, and it lands the cursor on y+2. A walk lands on y+1. A failed move leaves the board identical |
| Moves.MoveRight | peg-solitaire.c:147-155 | `moveRight` (three quarter turns, `moveUp`, one quarter turn) is the rule along +x: a jump needs x ≤ 6, a hole at x+2 and a peg at x+1, and it lands the cursor on x+2. A walk lands on x+1. A failed move leaves the board identical |
| Moves.JumpPegs | peg-solitaire.c:114-116 | After a jump, the pegs are the old pegs minus the starting and jumped cells, plus the landing cell |
| Moves.JumpRemovesOnePeg | peg-solitaire.c:114-116 | A jump lowers the peg count by exactly one |
| Moves.MovePegCount | peg-solitaire.c:109-124 | A successful jump removes one peg; a cursor walk or a failed move keeps the peg count |
| Moves.MoveKeepsOffBoard | peg-solitaire.c:110-116 | No move writes an off-board cell or creates one |
| Moves.MoveKeepsPlayable | peg-solitaire.c:109-123 | A move keeps the cursor on a playable cell, and a picked-up peg under the cursor |
| Moves.WalkBack | peg-solitaire.c:119-123 | Walking the cursor one cell and back gives the original board |
| Moves.SelectTwice | peg-solitaire.c:95-97 | Picking a peg up and putting it down again gives the original board |
| Moves.SelectKeepsPlayable | peg-solitaire.c:95-96 | `select` only sets the flag on a peg, so the board stays playable |
| Status.PegsStep | peg-solitaire.c:162-170 | Each cell of the `won` scan adds one to the count iff it holds a peg, and that peg joins the pegs seen so far |
| Status.Won | peg-solitaire.c:157-172 | The column-by-column count-and-remember scan returns true iff the set of pegs is exactly the winning cell |
| Status.UpSitesStep | peg-solitaire.c:179-183 | Each cell of the scan adds one to the count iff a peg can jump up from it |
| Status.ValidMovesUp | peg-solitaire.c:174-189 | The count is the number of cells from which a peg can jump up; it is zero iff no peg can jump up |
| Status.StuckUpMeansMoveUpFails | peg-solitaire.c:174-189 | No upward jump exists iff `moveUp` with a peg picked up fails from every cursor position |
| Status.Quarter | peg-solitaire.c:193-196 | The k-th count of `gameEnded` looks at the direction that k quarter turns make up: up, left, down, right |
| Status.StuckTurn | peg-solitaire.c:193-196 | No jump exists in the turned direction on the turned grid iff no jump exists in the original direction |
| Status.StuckTurns | peg-solitaire.c:193-196 | The same holds after k quarter turns |
| Status.StuckEverywhere | peg-solitaire.c:193-197 | The four orientations together cover every direction |
| Status.GameEnded | peg-solitaire.c:191-198 | The board comes back unchanged after its four turns, and the result is true iff no peg can jump in any direction |
| Status.StuckMeansNoMove | peg-solitaire.c:191-198 | The game has ended iff no move with a peg picked up can succeed, from any cursor position, in any direction |
| Layouts.Layout | peg-solitaire.c:202-252 | Each of the five layout tables has nine rows of eighteen characters |
| Layouts.Initialize | peg-solitaire.c:200-266 | The fresh board is playable with nothing picked up, and the cursor is on (4, 4). The winning cell is (4, 5) for layout 0 and (4, 4) otherwise, and it is on the board. Cell (x, y) comes from row y, character 2x of the table |
| Layouts.OneStartHole | peg-solitaire.c:202-251 | A fresh board has exactly one empty hole: (4, 3) for the French layout, the centre (4, 4) for the other four |
| Layouts.TableHole | peg-solitaire.c:202-251 | The only '.' in each layout table is at the starting hole |
| Play.ApplyIsMove | peg-solitaire.c:100-155 | Each of the four movement operations is the one move rule in its direction |
| Play.ApplyKeeps | peg-solitaire.c:86-155 | Any operation keeps the board playable. It keeps the off-board cells and the winning cell, removes exactly one peg when it jumps, and changes nothing when it fails |
| Play.RunKeeps | peg-solitaire.c:86-155 | Over any sequence of operations the board stays playable. The off-board cells and the winning cell stay put, and the peg count drops by exactly the number of successful jumps |
| Play.GameInvariant | peg-solitaire.c:200-266 | Every board reached from `initialize` is playable, has the starting off-board cells, and has no more pegs than the start |

## Left out

- `drawBoard`: terminal output only. Its peg count is for display.
- `setBufferedInput` and `signal_callback_handler`: terminal modes, signal handling and process exit.
- `main`: argument parsing into a layout index, key-code dispatch, and the quit and restart prompts are I/O. After every successful operation, `main` checks `won` first and then `gameEnded`. That check order is not modelled. `Play.Command` only names the operations the loop can apply.
- The `int8_t` widths: coordinates, counts and the cursor are mathematical integers. The grid side is fixed at 9. The sum in `gameEnded` is unbounded, so its theoretical `int8_t` wrap-around is not modelled.
- The `size` field is always 9, so it is the constant `State.N`. The cursor formula of `rotateBoard` matches the grid rotation only for odd sizes, and even sizes are not modelled.
- Layout indices outside 0..4 read past the C table. `Layouts.Initialize` requires 0 ≤ layout < 5.
- Layouts.Initialize: the peg total of each layout (32 for English) is not stated. Counting the cells of a literal table is costly to prove, while `Layouts.OneStartHole` already fixes the one empty hole.
- The variable `last` in `won` is uninitialised in C. It is read only when exactly one peg was counted, so the model gives it an arbitrary starting value.
- The count of `validMovesUp` is an unbounded integer. Its C `int8_t` cannot overflow, because a 9×9 grid has at most 63 upward jump sites.
