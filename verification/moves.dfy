/** The moves of the game. `Move` states the rule once for any of the four
    directions; `MoveUp` is the program's one hand-written rule, and
    `MoveLeft`, `MoveDown` and `MoveRight` reach it through quarter turns of
    the whole board. The lemmas show the two agree in every direction. */
module Moves {
  import opened State
  import opened Rotation

  datatype Dir = Up | Left | Down | Right

  /** The neighbouring position in direction `d`; `y` grows downwards. */
  function Step(p: Pos, d: Dir): Pos {
    match d
    case Up => Pos(p.x, p.y - 1)
    case Left => Pos(p.x - 1, p.y)
    case Down => Pos(p.x, p.y + 1)
    case Right => Pos(p.x + 1, p.y)
  }

  /** The direction that undoes a step in `d`. */
  function Opposite(d: Dir): (r: Dir)
    ensures forall p :: Step(Step(p, d), r) == p
  {
    match d
    case Up => Down
    case Left => Right
    case Down => Up
    case Right => Left
  }

  /** The direction a step in `d` takes after a quarter turn of the board. */
  function Turn(d: Dir): (r: Dir)
    ensures forall p :: RotPos(Step(p, d)) == Step(RotPos(p), r)
  {
    match d
    case Up => Right
    case Right => Down
    case Down => Left
    case Left => Up
  }

  /** A peg on `p` can jump in direction `d`: the neighbour holds a peg and
      the cell beyond it is an empty hole, all inside the grid. */
  predicate CanJump(g: Grid, p: Pos, d: Dir)
    requires WellFormedGrid(g)
  {
    var over := Step(p, d);
    var to := Step(over, d);
    && InBounds(p) && InBounds(over) && InBounds(to)
    && At(g, p) == Peg && At(g, over) == Peg && At(g, to) == Empty
  }

  /** The cursor can walk from `p` in direction `d`: it stays on the board. */
  predicate CanStep(g: Grid, p: Pos, d: Dir)
    requires WellFormedGrid(g)
  {
    InBounds(Step(p, d)) && At(g, Step(p, d)) != Off
  }

  /** The grid after the peg on `p` jumps in direction `d`: only the three
      cells of the jump change, and they end as hole, hole, peg. */
  function Jump(g: Grid, p: Pos, d: Dir): (r: Grid)
    requires WellFormedGrid(g) && CanJump(g, p, d)
    ensures WellFormedGrid(r)
    ensures At(r, p) == Empty && At(r, Step(p, d)) == Empty && At(r, Step(Step(p, d), d)) == Peg
    ensures forall q :: InBounds(q) && q != p && q != Step(p, d) && q != Step(Step(p, d), d) ==>
      At(r, q) == At(g, q)
  {
    var over := Step(p, d);
    var to := Step(over, d);
    Put(Put(Put(g, to, Peg), over, Empty), p, Empty)
  }

  /** The move rule in direction `d`, stated directly: with a peg picked up
      it jumps and puts the peg down; otherwise the cursor walks one cell.
      A move that cannot be made changes nothing. */
  function Move(b: Board, d: Dir): (res: (bool, Board))
    requires WellFormed(b)
    ensures WellFormed(res.1) && res.1.win == b.win
    ensures !res.0 ==> res.1 == b
  {
    var c := b.cursor;
    if b.selected then
      if CanJump(b.grid, c, d) then
        (true, b.(grid := Jump(b.grid, c, d), cursor := Step(Step(c, d), d), selected := false))
      else
        (false, b)
    else if CanStep(b.grid, c, d) then
      (true, b.(cursor := Step(c, d)))
    else
      (false, b)
  }

  /** `select`: only a peg can be picked up or put down. */
  function Select(b: Board): (res: (bool, Board))
    requires WellFormed(b)
    ensures res.0 <==> At(b.grid, b.cursor) == Peg
    ensures res.1.grid == b.grid && res.1.cursor == b.cursor && res.1.win == b.win
    ensures res.1.selected <==> (res.0 != b.selected)
  {
    var field := b.grid;
    var c := b.cursor;
    if field[c.x][c.y] != Peg then (false, b)
    else (true, b.(selected := !b.selected))
  }

  /** `moveUp`, the one movement rule the program writes out. */
  function MoveUp(b: Board): (res: (bool, Board))
    requires WellFormed(b)
    ensures WellFormed(res.1) && res.1.win == b.win
    ensures !res.0 ==> res.1 == b
    ensures b.selected ==>
      (res.0 <==> b.cursor.y >= 2
                  && At(b.grid, Pos(b.cursor.x, b.cursor.y - 2)) == Empty
                  && At(b.grid, Pos(b.cursor.x, b.cursor.y - 1)) == Peg
                  && At(b.grid, b.cursor) == Peg)
    ensures b.selected && res.0 ==>
      && res.1.cursor == Pos(b.cursor.x, b.cursor.y - 2) && !res.1.selected
      && At(res.1.grid, Pos(b.cursor.x, b.cursor.y - 2)) == Peg
      && At(res.1.grid, Pos(b.cursor.x, b.cursor.y - 1)) == Empty
      && At(res.1.grid, b.cursor) == Empty
      && (forall q :: InBounds(q) && q.x != b.cursor.x ==> At(res.1.grid, q) == At(b.grid, q))
      && (forall q :: InBounds(q) && q.y < b.cursor.y - 2 ==> At(res.1.grid, q) == At(b.grid, q))
      && (forall q :: InBounds(q) && q.y > b.cursor.y ==> At(res.1.grid, q) == At(b.grid, q))
    ensures !b.selected ==>
      (res.0 <==> b.cursor.y >= 1 && At(b.grid, Pos(b.cursor.x, b.cursor.y - 1)) != Off)
    ensures !b.selected && res.0 ==> res.1 == b.(cursor := Pos(b.cursor.x, b.cursor.y - 1))
  {
    var x, y := b.cursor.x, b.cursor.y;
    var field := b.grid;
    if b.selected then
      if y < 2 then (false, b)
      else if field[x][y - 2] != Empty then (false, b)
      else if field[x][y - 1] != Peg then (false, b)
      else if field[x][y] != Peg then (false, b)
      else
        var g1 := Put(field, Pos(x, y - 2), Peg);
        var g2 := Put(g1, Pos(x, y - 1), Empty);
        var g3 := Put(g2, Pos(x, y), Empty);
        (true, b.(grid := g3, cursor := Pos(x, y - 2), selected := false))
    else
      if y < 1 then (false, b)
      else if field[x][y - 1] == Off then (false, b)
      else (true, b.(cursor := Pos(x, y - 1)))
  }

  /** `moveLeft`: one quarter turn, `moveUp`, three more quarter turns. It
      is the rule along -x, and a move it cannot make leaves the board
      exactly as it was, although the board was turned four times. */
  function MoveLeft(b: Board): (res: (bool, Board))
    requires WellFormed(b)
    ensures WellFormed(res.1)
    ensures res == Move(b, Left)
    ensures !res.0 ==> res.1 == b
    ensures b.selected ==>
      (res.0 <==> b.cursor.x >= 2
                  && At(b.grid, Pos(b.cursor.x - 2, b.cursor.y)) == Empty
                  && At(b.grid, Pos(b.cursor.x - 1, b.cursor.y)) == Peg
                  && At(b.grid, b.cursor) == Peg)
    ensures res.0 ==>
      res.1.cursor == Pos(b.cursor.x - (if b.selected then 2 else 1), b.cursor.y)
  {
    LeftByTurns(b);
    LeftRule(b);
    var up := MoveUp(Rotate(b));
    (up.0, Rotate(Rotate(Rotate(up.1))))
  }

  /** `moveDown`: two quarter turns, `moveUp`, two more quarter turns. It is
      the rule along +y. */
  function MoveDown(b: Board): (res: (bool, Board))
    requires WellFormed(b)
    ensures WellFormed(res.1)
    ensures res == Move(b, Down)
    ensures !res.0 ==> res.1 == b
    ensures b.selected ==>
      (res.0 <==> b.cursor.y <= N - 3
                  && At(b.grid, Pos(b.cursor.x, b.cursor.y + 2)) == Empty
                  && At(b.grid, Pos(b.cursor.x, b.cursor.y + 1)) == Peg
                  && At(b.grid, b.cursor) == Peg)
    ensures res.0 ==>
      res.1.cursor == Pos(b.cursor.x, b.cursor.y + (if b.selected then 2 else 1))
  {
    DownByTurns(b);
    DownRule(b);
    var up := MoveUp(Rotate(Rotate(b)));
    (up.0, Rotate(Rotate(up.1)))
  }

  /** `moveRight`: three quarter turns, `moveUp`, one more quarter turn. It
      is the rule along +x. */
  function MoveRight(b: Board): (res: (bool, Board))
    requires WellFormed(b)
    ensures WellFormed(res.1)
    ensures res == Move(b, Right)
    ensures !res.0 ==> res.1 == b
    ensures b.selected ==>
      (res.0 <==> b.cursor.x <= N - 3
                  && At(b.grid, Pos(b.cursor.x + 2, b.cursor.y)) == Empty
                  && At(b.grid, Pos(b.cursor.x + 1, b.cursor.y)) == Peg
                  && At(b.grid, b.cursor) == Peg)
    ensures res.0 ==>
      res.1.cursor == Pos(b.cursor.x + (if b.selected then 2 else 1), b.cursor.y)
  {
    RightByTurns(b);
    RightRule(b);
    var up := MoveUp(Rotate(Rotate(Rotate(b))));
    (up.0, Rotate(up.1))
  }

  // ---------------------------------------------------------------------
  // The rule commutes with a quarter turn.

  lemma TurnJump(g: Grid, p: Pos, d: Dir)
    requires WellFormedGrid(g)
    ensures CanJump(RotateGrid(g), RotPos(p), Turn(d)) <==> CanJump(g, p, d)
    ensures CanStep(RotateGrid(g), RotPos(p), Turn(d)) <==> CanStep(g, p, d)
    ensures CanJump(g, p, d) ==>
      RotateGrid(Jump(g, p, d)) == Jump(RotateGrid(g), RotPos(p), Turn(d))
  {
    var over := Step(p, d);
    var to := Step(over, d);
    assert RotPos(over) == Step(RotPos(p), Turn(d));
    assert RotPos(to) == Step(RotPos(over), Turn(d));
    if CanJump(g, p, d) {
      var g1 := Put(g, to, Peg);
      var g2 := Put(g1, over, Empty);
      RotatePut(g, to, Peg);
      RotatePut(g1, over, Empty);
      RotatePut(g2, p, Empty);
    }
  }

  /** Moving in `d` and then turning the board is turning the board and then
      moving in the turned direction. */
  lemma TurnMove(b: Board, d: Dir)
    requires WellFormed(b)
    ensures Move(Rotate(b), Turn(d)) == (Move(b, d).0, Rotate(Move(b, d).1))
  {
    TurnJump(b.grid, b.cursor, d);
    assert RotPos(Step(b.cursor, d)) == Step(RotPos(b.cursor), Turn(d));
    assert RotPos(Step(Step(b.cursor, d), d)) == Step(RotPos(Step(b.cursor, d)), Turn(d));
  }

  /** `moveUp` is the rule applied upwards. */
  lemma MoveUpIsMove(b: Board)
    requires WellFormed(b)
    ensures MoveUp(b) == Move(b, Up)
  {
  }

  /** The rule along -x in coordinates. */
  lemma LeftRule(b: Board)
    requires WellFormed(b)
    ensures b.selected ==>
      (Move(b, Left).0 <==> b.cursor.x >= 2
                            && At(b.grid, Pos(b.cursor.x - 2, b.cursor.y)) == Empty
                            && At(b.grid, Pos(b.cursor.x - 1, b.cursor.y)) == Peg
                            && At(b.grid, b.cursor) == Peg)
    ensures Move(b, Left).0 ==>
      Move(b, Left).1.cursor == Pos(b.cursor.x - (if b.selected then 2 else 1), b.cursor.y)
  {
  }

  /** The rule along +y in coordinates. */
  lemma DownRule(b: Board)
    requires WellFormed(b)
    ensures b.selected ==>
      (Move(b, Down).0 <==> b.cursor.y <= N - 3
                            && At(b.grid, Pos(b.cursor.x, b.cursor.y + 2)) == Empty
                            && At(b.grid, Pos(b.cursor.x, b.cursor.y + 1)) == Peg
                            && At(b.grid, b.cursor) == Peg)
    ensures Move(b, Down).0 ==>
      Move(b, Down).1.cursor == Pos(b.cursor.x, b.cursor.y + (if b.selected then 2 else 1))
  {
  }

  /** The rule along +x in coordinates. */
  lemma RightRule(b: Board)
    requires WellFormed(b)
    ensures b.selected ==>
      (Move(b, Right).0 <==> b.cursor.x <= N - 3
                             && At(b.grid, Pos(b.cursor.x + 2, b.cursor.y)) == Empty
                             && At(b.grid, Pos(b.cursor.x + 1, b.cursor.y)) == Peg
                             && At(b.grid, b.cursor) == Peg)
    ensures Move(b, Right).0 ==>
      Move(b, Right).1.cursor == Pos(b.cursor.x + (if b.selected then 2 else 1), b.cursor.y)
  {
  }

  /** The rule along -x is `moveUp` conjugated by one quarter turn; a move
      that cannot be made gives the board back after four turns. */
  lemma LeftByTurns(b: Board)
    requires WellFormed(b)
    ensures (MoveUp(Rotate(b)).0, Rotate(Rotate(Rotate(MoveUp(Rotate(b)).1)))) == Move(b, Left)
  {
    var m := Move(b, Left);
    MoveUpIsMove(Rotate(b));
    TurnMove(b, Left);
    FourTurns(m.1);
  }

  /** The rule along +y is `moveUp` conjugated by two quarter turns. */
  lemma DownByTurns(b: Board)
    requires WellFormed(b)
    ensures (MoveUp(Rotate(Rotate(b))).0, Rotate(Rotate(MoveUp(Rotate(Rotate(b))).1))) == Move(b, Down)
  {
    var m := Move(b, Down);
    var r1 := Rotate(b);
    var r2 := Rotate(r1);
    TurnMove(b, Down);
    assert Move(r1, Left) == (m.0, Rotate(m.1));
    TurnMove(r1, Left);
    assert Move(r2, Up) == (m.0, Rotate(Rotate(m.1)));
    MoveUpIsMove(r2);
    assert MoveUp(r2) == (m.0, Rotate(Rotate(m.1)));
    FourTurns(m.1);
  }

  /** The rule along +x is `moveUp` conjugated by three quarter turns. */
  lemma RightByTurns(b: Board)
    requires WellFormed(b)
    ensures (MoveUp(Rotate(Rotate(Rotate(b)))).0, Rotate(MoveUp(Rotate(Rotate(Rotate(b)))).1)) == Move(b, Right)
  {
    var m := Move(b, Right);
    var r1 := Rotate(b);
    var r2 := Rotate(r1);
    var r3 := Rotate(r2);
    TurnMove(b, Right);
    assert Move(r1, Down) == (m.0, Rotate(m.1));
    TurnMove(r1, Down);
    assert Move(r2, Left) == (m.0, Rotate(Rotate(m.1)));
    TurnMove(r2, Left);
    assert Move(r3, Up) == (m.0, Rotate(Rotate(Rotate(m.1))));
    MoveUpIsMove(r3);
    FourTurns(m.1);
  }

  // ---------------------------------------------------------------------
  // What a move does to the pegs, the board shape and the invariant.

  /** A jump takes the pegs off its first two cells and puts one on the third. */
  lemma JumpPegs(g: Grid, p: Pos, d: Dir)
    requires WellFormedGrid(g) && CanJump(g, p, d)
    ensures Pegs(Jump(g, p, d)) == Pegs(g) - {p, Step(p, d)} + {Step(Step(p, d), d)}
  {
  }

  /** A jump removes exactly one peg: the jumped one. */
  lemma JumpRemovesOnePeg(g: Grid, p: Pos, d: Dir)
    requires WellFormedGrid(g) && CanJump(g, p, d)
    ensures |Pegs(Jump(g, p, d))| == |Pegs(g)| - 1
  {
    JumpPegs(g, p, d);
    var s := Pegs(g);
    var over := Step(p, d);
    var to := Step(over, d);
    var rest := s - {p, over};
    assert s == rest + {p, over};
    assert |s| == |rest| + 2;
    assert to !in rest;
  }

  /** A successful jump takes one peg off the board; walking the cursor or a
      refused move keeps every peg. */
  lemma MovePegCount(b: Board, d: Dir)
    requires WellFormed(b)
    ensures |Pegs(Move(b, d).1.grid)| == |Pegs(b.grid)| - (if b.selected && Move(b, d).0 then 1 else 0)
  {
    if b.selected && CanJump(b.grid, b.cursor, d) {
      JumpRemovesOnePeg(b.grid, b.cursor, d);
    }
  }

  /** A move never writes an off-board cell, nor makes one. */
  lemma MoveKeepsOffBoard(b: Board, d: Dir)
    requires WellFormed(b)
    ensures Offs(Move(b, d).1.grid) == Offs(b.grid)
  {
  }

  /** A move keeps the cursor on a playable cell and a picked-up peg under
      the cursor. */
  lemma MoveKeepsPlayable(b: Board, d: Dir)
    requires Playable(b)
    ensures Playable(Move(b, d).1)
  {
  }

  /** Walking the cursor one cell and back returns to the same board. */
  lemma WalkBack(b: Board, d: Dir)
    requires Playable(b) && !b.selected && Move(b, d).0
    ensures Move(Move(b, d).1, Opposite(d)) == (true, b)
  {
  }

  /** Picking a peg up and putting it down again changes nothing. */
  lemma SelectTwice(b: Board)
    requires WellFormed(b) && Select(b).0
    ensures Select(Select(b).1) == (true, b)
  {
  }

  /** Selecting keeps the invariant: only a peg under the cursor is picked up. */
  lemma SelectKeepsPlayable(b: Board)
    requires Playable(b)
    ensures Playable(Select(b).1)
  {
  }
}
