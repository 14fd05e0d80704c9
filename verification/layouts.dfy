/** The five starting layouts of `initialize` and the board they produce.
    Each layout is given as in the program: nine text rows, one per `y`,
    where the cell at column `x` is the character at index `2 * x`. */
module Layouts {
  import opened State

  function French(): seq<string> {
    [ "                  ",
      "      o o o       ",
      "    o o o o o     ",
      "  o o o . o o o   ",
      "  o o o o o o o   ",
      "  o o o o o o o   ",
      "    o o o o o     ",
      "      o o o       ",
      "                  "
    ]
  }

  function German(): seq<string> {
    [ "      o o o       ",
      "      o o o       ",
      "      o o o       ",
      "o o o o o o o o o ",
      "o o o o . o o o o ",
      "o o o o o o o o o ",
      "      o o o       ",
      "      o o o       ",
      "      o o o       "
    ]
  }

  function Asymmetric(): seq<string> {
    [ "      o o o       ",
      "      o o o       ",
      "      o o o       ",
      "  o o o o o o o o ",
      "  o o o . o o o o ",
      "  o o o o o o o o ",
      "      o o o       ",
      "      o o o       ",
      "                  "
    ]
  }

  function English(): seq<string> {
    [ "                  ",
      "      o o o       ",
      "      o o o       ",
      "  o o o o o o o   ",
      "  o o o . o o o   ",
      "  o o o o o o o   ",
      "      o o o       ",
      "      o o o       ",
      "                  "
    ]
  }

  function Diamond(): seq<string> {
    [ "        o         ",
      "      o o o       ",
      "    o o o o o     ",
      "  o o o o o o o   ",
      "o o o o . o o o o ",
      "  o o o o o o o   ",
      "    o o o o o     ",
      "      o o o       ",
      "        o         "
    ]
  }

  /** The layout table, indexed like the program's `configuration`. */
  function Layout(layout: int): (rows: seq<string>)
    requires 0 <= layout < 5
    ensures |rows| == N && forall y :: 0 <= y < N ==> |rows[y]| == 2 * N
  {
    match layout
    case 0 => French()
    case 1 => German()
    case 2 => Asymmetric()
    case 3 => English()
    case 4 => Diamond()
  }

  /** The cell a layout character stands for. */
  function CellOf(c: char): Cell {
    if c == 'o' then Peg else if c == '.' then Empty else Off
  }

  /** The one empty hole of a fresh board: the centre, except in the French
      layout, where it is one row higher. */
  function StartHole(layout: int): Pos {
    Pos(N / 2, if layout == 0 then N / 2 - 1 else N / 2)
  }

  /** `initialize`: the grid is read from the layout table, transposed so
      that the table's rows are the `y` coordinate; the cursor starts in the
      centre with nothing picked up. The last peg must end on the centre,
      except for the French layout, whose winning cell is one row lower. */
  function Initialize(layout: int): (b: Board)
    requires 0 <= layout < 5
    ensures WellFormed(b) && Playable(b) && !b.selected
    ensures b.cursor == Pos(N / 2, N / 2)
    ensures b.win == Pos(N / 2, if layout == 0 then N / 2 + 1 else N / 2)
    ensures InBounds(b.win) && At(b.grid, b.win) != Off
    ensures forall x, y :: 0 <= x < N && 0 <= y < N ==>
      At(b.grid, Pos(x, y)) == CellOf(Layout(layout)[y][2 * x])
  {
    var rows := Layout(layout);
    var grid := seq(N, x requires 0 <= x < N => seq(N, y requires 0 <= y < N => CellOf(rows[y][2 * x])));
    Board(grid, Pos(N / 2, N / 2), Pos(N / 2, if layout == 0 then N / 2 + 1 else N / 2), false)
  }

  /** A fresh board has exactly one empty hole. */
  lemma OneStartHole(layout: int)
    requires 0 <= layout < 5
    ensures At(Initialize(layout).grid, StartHole(layout)) == Empty
    ensures forall p :: InBounds(p) && p != StartHole(layout) ==> At(Initialize(layout).grid, p) != Empty
  {
    var g := Initialize(layout).grid;
    var h := StartHole(layout);
    forall p | InBounds(p) && p != h
      ensures At(g, p) != Empty
    {
      TableHole(layout, p.x, p.y);
    }
  }

  /** The only '.' of a layout table is at the starting hole. */
  lemma TableHole(layout: int, x: int, y: int)
    requires 0 <= layout < 5 && 0 <= x < N && 0 <= y < N
    requires Pos(x, y) != StartHole(layout)
    ensures Layout(layout)[y][2 * x] != '.'
  {
    var k := 2 * x;
    assert k == 0 || k == 2 || k == 4 || k == 6 || k == 8 || k == 10 || k == 12 || k == 14 || k == 16;
  }
}
