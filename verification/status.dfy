/** The end-of-game tests: `won` (one peg left, on the winning cell) and
    `gameEnded` (no jump left in any direction), the latter built from
    `validMovesUp` and quarter turns like the move operations. */
module Status {
  import opened State
  import opened Rotation
  import opened Moves

  /** The pegs the scan of `won` has passed when it reaches column `x`, row `y`. */
  function PegsBefore(g: Grid, x: int, y: int): set<Pos>
    requires WellFormedGrid(g)
  {
    set p | p in AllCells() && At(g, p) == Peg && (p.x < x || (p.x == x && p.y < y))
  }

  lemma PegsSet(g: Grid, x: int, y: int)
    requires WellFormedGrid(g) && 0 <= x < N && 0 <= y < N
    ensures Pos(x, y) !in PegsBefore(g, x, y)
    ensures PegsBefore(g, x, y + 1) ==
      PegsBefore(g, x, y) + (if g[x][y] == Peg then {Pos(x, y)} else {})
  {
  }

  /** Each cell of the scan adds one to the count iff it holds a peg. */
  lemma PegsStep(g: Grid, x: int, y: int)
    requires WellFormedGrid(g) && 0 <= x < N && 0 <= y < N
    ensures PegsBefore(g, x, y) <= PegsBefore(g, x, y + 1)
    ensures |PegsBefore(g, x, y + 1)| == |PegsBefore(g, x, y)| + (if g[x][y] == Peg then 1 else 0)
    ensures g[x][y] == Peg ==> Pos(x, y) in PegsBefore(g, x, y + 1)
  {
    PegsSet(g, x, y);
  }

  lemma PegsColumnDone(g: Grid, x: int)
    requires WellFormedGrid(g) && 0 <= x < N
    ensures PegsBefore(g, x, N) == PegsBefore(g, x + 1, 0)
  {
  }

  lemma PegsAll(g: Grid)
    requires WellFormedGrid(g)
    ensures PegsBefore(g, N, 0) == Pegs(g)
  {
  }

  /** `won`: scans the grid column by column, counting pegs and remembering
      the last one seen. */
  method Won(b: Board) returns (won: bool)
    requires WellFormedGrid(b.grid)
    ensures won <==> Pegs(b.grid) == {b.win}
  {
    var g := b.grid;
    var count := 0;
    var last := Pos(0, 0);
    var x := 0;
    while x < N
      invariant 0 <= x <= N
      invariant count == |PegsBefore(g, x, 0)|
      invariant count > 0 ==> last in PegsBefore(g, x, 0)
    {
      var y := 0;
      while y < N
        invariant 0 <= y <= N
        invariant count == |PegsBefore(g, x, y)|
        invariant count > 0 ==> last in PegsBefore(g, x, y)
      {
        PegsStep(g, x, y);
        if g[x][y] == Peg {
          count := count + 1;
          last := Pos(x, y);
        }
        y := y + 1;
      }
      PegsColumnDone(g, x);
      x := x + 1;
    }
    PegsAll(g);
    if count == 1 {
      SingletonSet(Pegs(g), last);
    }
    won := count == 1 && last.x == b.win.x && last.y == b.win.y;
  }

  /** The cells from which a peg can jump in direction `d`. */
  function JumpSites(g: Grid, d: Dir): set<Pos>
    requires WellFormedGrid(g)
  {
    set p | p in AllCells() && CanJump(g, p, d)
  }

  /** No peg can jump in direction `d`. */
  ghost predicate Stuck(g: Grid, d: Dir)
    requires WellFormedGrid(g)
  {
    forall p :: !CanJump(g, p, d)
  }

  /** The upward jump sites the scan of `validMovesUp` has passed when it
      reaches column `x`, row `y` (rows are scanned bottom to top). */
  function UpSitesBefore(g: Grid, x: int, y: int): set<Pos>
    requires WellFormedGrid(g)
  {
    set p | p in AllCells() && CanJump(g, p, Up) && (p.x < x || (p.x == x && p.y > y))
  }

  lemma UpSitesSet(g: Grid, x: int, y: int)
    requires WellFormedGrid(g) && 0 <= x < N && 2 <= y < N
    ensures CanJump(g, Pos(x, y), Up) <==>
      g[x][y] == Peg && g[x][y - 1] == Peg && g[x][y - 2] == Empty
    ensures Pos(x, y) !in UpSitesBefore(g, x, y)
    ensures UpSitesBefore(g, x, y - 1) ==
      UpSitesBefore(g, x, y) + (if CanJump(g, Pos(x, y), Up) then {Pos(x, y)} else {})
  {
  }

  /** One cell of the scan adds one to the count iff a peg jumps up from it. */
  lemma UpSitesStep(g: Grid, x: int, y: int)
    requires WellFormedGrid(g) && 0 <= x < N && 2 <= y < N
    ensures |UpSitesBefore(g, x, y - 1)| ==
      |UpSitesBefore(g, x, y)| + (if g[x][y] == Peg && g[x][y - 1] == Peg && g[x][y - 2] == Empty then 1 else 0)
  {
    UpSitesSet(g, x, y);
  }

  /** No upward jump starts on the two top rows. */
  lemma UpSitesColumnDone(g: Grid, x: int)
    requires WellFormedGrid(g) && 0 <= x < N
    ensures UpSitesBefore(g, x, 1) == UpSitesBefore(g, x + 1, N - 1)
  {
  }

  lemma UpSitesAll(g: Grid)
    requires WellFormedGrid(g)
    ensures UpSitesBefore(g, N, N - 1) == JumpSites(g, Up)
  {
  }

  lemma NoSitesStuck(g: Grid, d: Dir)
    requires WellFormedGrid(g)
    ensures |JumpSites(g, d)| == 0 <==> Stuck(g, d)
  {
    if !Stuck(g, d) {
      var p :| CanJump(g, p, d);
      assert p in JumpSites(g, d);
    }
    if |JumpSites(g, d)| != 0 {
      var p :| p in JumpSites(g, d);
      assert CanJump(g, p, d);
    }
  }

  /** `validMovesUp`: counts the cells from which a peg can jump upwards. */
  method ValidMovesUp(b: Board) returns (count: int)
    requires WellFormedGrid(b.grid)
    ensures count == |JumpSites(b.grid, Up)|
    ensures count == 0 <==> Stuck(b.grid, Up)
  {
    var g := b.grid;
    count := 0;
    var x := 0;
    while x < N
      invariant 0 <= x <= N
      invariant count == |UpSitesBefore(g, x, N - 1)|
    {
      var y := N - 1;
      while y > 1
        invariant 1 <= y <= N - 1
        invariant count == |UpSitesBefore(g, x, y)|
      {
        UpSitesStep(g, x, y);
        if g[x][y] == Peg && g[x][y - 1] == Peg && g[x][y - 2] == Empty {
          count := count + 1;
        }
        y := y - 1;
      }
      UpSitesColumnDone(g, x);
      x := x + 1;
    }
    UpSitesAll(g);
    NoSitesStuck(g, Up);
  }

  /** The board after `k` quarter turns. */
  function Turns(b: Board, k: nat): (r: Board)
    requires WellFormed(b)
    ensures WellFormed(r)
  {
    if k == 0 then b else Rotate(Turns(b, k - 1))
  }

  /** A direction after `k` quarter turns. */
  function TurnDir(d: Dir, k: nat): Dir {
    if k == 0 then d else Turn(TurnDir(d, k - 1))
  }

  /** The direction that `k` quarter turns make "up": the direction whose
      jumps the `k`-th call of `validMovesUp` in `gameEnded` counts. */
  function Quarter(k: nat): (d: Dir)
    requires k < 4
    ensures TurnDir(d, k) == Up
  {
    if k == 0 then Up else if k == 1 then Left else if k == 2 then Down else Right
  }

  lemma StuckTurn(g: Grid, d: Dir)
    requires WellFormedGrid(g)
    ensures Stuck(RotateGrid(g), Turn(d)) <==> Stuck(g, d)
  {
    forall p
      ensures CanJump(RotateGrid(g), RotPos(p), Turn(d)) <==> CanJump(g, p, d)
    {
      TurnJump(g, p, d);
    }
    forall q | CanJump(RotateGrid(g), q, Turn(d))
      ensures CanJump(g, UnrotPos(q), d)
    {
      assert RotPos(UnrotPos(q)) == q;
    }
  }

  /** Turning the board `k` times turns the blocked directions with it. */
  lemma {:induction false} StuckTurns(b: Board, d: Dir, k: nat)
    requires WellFormed(b)
    ensures Stuck(Turns(b, k).grid, TurnDir(d, k)) <==> Stuck(b.grid, d)
  {
    if k > 0 {
      StuckTurns(b, d, k - 1);
      StuckTurn(Turns(b, k - 1).grid, TurnDir(d, k - 1));
    }
  }

  /** `gameEnded`: counts upward jumps in each of four orientations, turning
      the board a quarter after each count. The board comes back exactly as
      it was, and the game has ended iff no peg can jump in any direction. */
  method GameEnded(b: Board) returns (ended: bool, after: Board)
    requires WellFormed(b)
    ensures after == b
    ensures ended <==> forall p, d :: !CanJump(b.grid, p, d)
  {
    var count := 0;
    after := b;
    var i := 0;
    while i < 4
      invariant 0 <= i <= 4
      invariant after == Turns(b, i)
      invariant count >= 0
      invariant count == 0 <==> forall k :: 0 <= k < i ==> Stuck(b.grid, Quarter(k))
    {
      var c := ValidMovesUp(after);
      StuckTurns(b, Quarter(i), i);
      assert c == 0 <==> Stuck(b.grid, Quarter(i));
      count := count + c;
      after := Rotate(after);
      i := i + 1;
    }
    FourTurns(b);
    assert Turns(b, 1) == Rotate(b);
    assert Turns(b, 2) == Rotate(Rotate(b));
    assert Turns(b, 3) == Rotate(Rotate(Rotate(b)));
    ended := count == 0;
    StuckEverywhere(b.grid);
  }

  /** The four orientations cover every direction. */
  lemma StuckEverywhere(g: Grid)
    requires WellFormedGrid(g)
    ensures (forall k :: 0 <= k < 4 ==> Stuck(g, Quarter(k))) <==> (forall p, d :: !CanJump(g, p, d))
  {
    if forall k :: 0 <= k < 4 ==> Stuck(g, Quarter(k)) {
      assert Stuck(g, Quarter(0)) && Stuck(g, Quarter(1)) && Stuck(g, Quarter(2)) && Stuck(g, Quarter(3));
      forall p, d
        ensures !CanJump(g, p, d)
      {
        assert Stuck(g, d);
      }
    }
  }

  /** A count of zero from `validMovesUp` means exactly that `moveUp` with a
      peg picked up fails wherever the cursor stands. */
  lemma StuckUpMeansMoveUpFails(b: Board)
    requires WellFormedGrid(b.grid)
    ensures Stuck(b.grid, Up) <==>
      forall p :: InBounds(p) ==> !MoveUp(b.(cursor := p, selected := true)).0
  {
    forall p | InBounds(p)
      ensures MoveUp(b.(cursor := p, selected := true)).0 <==> CanJump(b.grid, p, Up)
    {
      MoveUpIsMove(b.(cursor := p, selected := true));
    }
  }

  /** The game has ended exactly when no move with a peg picked up can
      succeed, in any direction, wherever the cursor stands. */
  lemma StuckMeansNoMove(b: Board)
    requires WellFormedGrid(b.grid)
    ensures (forall p, d :: !CanJump(b.grid, p, d)) <==>
      forall p, d :: InBounds(p) ==> !Move(b.(cursor := p, selected := true), d).0
  {
    if !forall p, d :: !CanJump(b.grid, p, d) {
      var p, d :| CanJump(b.grid, p, d);
      assert Move(b.(cursor := p, selected := true), d).0;
    }
  }
}
