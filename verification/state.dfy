/** The board of the peg-solitaire game: a square grid of cells indexed
    `grid[x][y]` (column first, like the C `field[x][y]`), a cursor, the
    cell on which the last peg must end, and the "peg picked up" flag. */
module State {

  /** Side of the square storage grid (`SIZE` in the C program). */
  const N: int := 9

  /** A cell is a peg `'o'`, an empty hole `'.'` or off the board `' '`. */
  datatype Cell = Peg | Empty | Off

  datatype Pos = Pos(x: int, y: int)

  type Grid = seq<seq<Cell>>

  datatype Board = Board(grid: Grid, cursor: Pos, win: Pos, selected: bool)

  predicate InBounds(p: Pos) {
    0 <= p.x < N && 0 <= p.y < N
  }

  predicate WellFormedGrid(g: Grid) {
    |g| == N && forall x :: 0 <= x < N ==> |g[x]| == N
  }

  /** What the C code silently relies on: a 9x9 grid and a cursor inside it. */
  predicate WellFormed(b: Board) {
    WellFormedGrid(b.grid) && InBounds(b.cursor)
  }

  function At(g: Grid, p: Pos): Cell
    requires WellFormedGrid(g) && InBounds(p)
  {
    g[p.x][p.y]
  }

  /** Writes one cell; every other cell keeps its content. */
  function Put(g: Grid, p: Pos, v: Cell): (r: Grid)
    requires WellFormedGrid(g) && InBounds(p)
    ensures WellFormedGrid(r)
    ensures At(r, p) == v
    ensures forall q :: InBounds(q) && q != p ==> At(r, q) == At(g, q)
  {
    g[p.x := g[p.x][p.y := v]]
  }

  /** Every coordinate of the grid. */
  function AllCells(): (s: set<Pos>)
    ensures forall p :: p in s <==> InBounds(p)
  {
    var s := set x, y | 0 <= x < N && 0 <= y < N :: Pos(x, y);
    assert forall p | InBounds(p) :: p == Pos(p.x, p.y) && p in s;
    s
  }

  /** The positions holding a peg. */
  function Pegs(g: Grid): set<Pos>
    requires WellFormedGrid(g)
  {
    set p | p in AllCells() && At(g, p) == Peg
  }

  /** The positions that are off the board. */
  function Offs(g: Grid): set<Pos>
    requires WellFormedGrid(g)
  {
    set p | p in AllCells() && At(g, p) == Off
  }

  /** The invariant every board the game produces keeps: the cursor rests on
      a playable cell, and a picked-up peg is the one under the cursor. */
  predicate Playable(b: Board) {
    && WellFormed(b)
    && At(b.grid, b.cursor) != Off
    && (b.selected ==> At(b.grid, b.cursor) == Peg)
  }

  lemma SingletonSet(s: set<Pos>, e: Pos)
    requires e in s && |s| == 1
    ensures s == {e}
  {
    var rest := s - {e};
    assert s == rest + {e};
    assert rest == {};
  }
}
