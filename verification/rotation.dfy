/** The quarter turn `rotateBoard`: the grid and the cursor rotate together,
    so the cell under the cursor stays the same; `selected` and `win` are
    left alone. */
module Rotation {
  import opened State

  /** The cursor remap of `rotateBoard`, written with the program's own
      arithmetic around the centre `N / 2`. */
  function RotPos(p: Pos): (q: Pos)
    ensures q == Pos(N - 1 - p.y, p.x)
    ensures InBounds(q) <==> InBounds(p)
  {
    Pos(-(p.y - N / 2) + N / 2, (p.x - N / 2) + N / 2)
  }

  /** The position that a quarter turn carries onto `q`. */
  function UnrotPos(q: Pos): (p: Pos)
    ensures RotPos(p) == q
    ensures InBounds(p) <==> InBounds(q)
  {
    Pos(q.y, N - 1 - q.x)
  }

  /** The grid after one quarter turn, stated cell by cell: the new cell
      (a, b) holds the old cell (b, N-1-a). */
  function RotateGrid(g: Grid): (r: Grid)
    requires WellFormedGrid(g)
    ensures WellFormedGrid(r)
    ensures forall p :: InBounds(p) ==> At(r, RotPos(p)) == At(g, p)
  {
    seq(N, a requires 0 <= a < N => seq(N, b requires 0 <= b < N => g[b][N - 1 - a]))
  }

  /** `rotateBoard` on the whole board. */
  function Rotate(b: Board): (r: Board)
    requires WellFormed(b)
    ensures WellFormed(r)
    ensures At(r.grid, r.cursor) == At(b.grid, b.cursor)
    ensures r.selected == b.selected && r.win == b.win
    ensures Playable(b) ==> Playable(r)
  {
    b.(grid := RotateGrid(b.grid), cursor := RotPos(b.cursor))
  }

  /** The pegs and the off-board cells of the rotated grid are the images of
      the old ones. */
  lemma RotateCellSets(g: Grid)
    requires WellFormedGrid(g)
    ensures Pegs(RotateGrid(g)) == set p | p in Pegs(g) :: RotPos(p)
    ensures Offs(RotateGrid(g)) == set p | p in Offs(g) :: RotPos(p)
  {
  }

  /** Turning a set of positions keeps its size: the turn is one-to-one. */
  lemma {:induction false} TurnedSetSize(s: set<Pos>)
    ensures |set p | p in s :: RotPos(p)| == |s|
    decreases s
  {
    if s != {} {
      var e :| e in s;
      var rest := s - {e};
      TurnedSetSize(rest);
      var turnedRest := set p | p in rest :: RotPos(p);
      assert (set p | p in s :: RotPos(p)) == turnedRest + {RotPos(e)};
      assert RotPos(e) !in turnedRest;
    }
  }

  /** A quarter turn keeps the number of pegs and of off-board cells. */
  lemma RotateCounts(b: Board)
    requires WellFormed(b)
    ensures |Pegs(Rotate(b).grid)| == |Pegs(b.grid)|
    ensures |Offs(Rotate(b).grid)| == |Offs(b.grid)|
  {
    RotateCellSets(b.grid);
    TurnedSetSize(Pegs(b.grid));
    TurnedSetSize(Offs(b.grid));
  }

  /** Four quarter turns restore the grid and the cursor exactly. */
  lemma FourTurns(b: Board)
    requires WellFormed(b)
    ensures Rotate(Rotate(Rotate(Rotate(b)))) == b
  {
    var r4 := Rotate(Rotate(Rotate(Rotate(b))));
    forall p | InBounds(p)
      ensures At(r4.grid, p) == At(b.grid, p)
    {
      var q := UnrotPos(UnrotPos(UnrotPos(UnrotPos(p))));
      assert q == p;
    }
    GridExtensionality(r4.grid, b.grid);
  }

  lemma GridExtensionality(g: Grid, h: Grid)
    requires WellFormedGrid(g) && WellFormedGrid(h)
    requires forall p :: InBounds(p) ==> At(g, p) == At(h, p)
    ensures g == h
  {
    forall x | 0 <= x < N
      ensures g[x] == h[x]
    {
      forall y | 0 <= y < N
        ensures g[x][y] == h[x][y]
      {
        assert At(g, Pos(x, y)) == At(h, Pos(x, y));
      }
    }
  }

  /** Writing a cell and then rotating is writing the rotated cell of the
      rotated grid. */
  lemma RotatePut(g: Grid, p: Pos, v: Cell)
    requires WellFormedGrid(g) && InBounds(p)
    ensures RotateGrid(Put(g, p, v)) == Put(RotateGrid(g), RotPos(p), v)
  {
    var lhs := RotateGrid(Put(g, p, v));
    var rhs := Put(RotateGrid(g), RotPos(p), v);
    forall q | InBounds(q)
      ensures At(lhs, q) == At(rhs, q)
    {
      assert RotPos(UnrotPos(q)) == q;
    }
    GridExtensionality(lhs, rhs);
  }

  // The in-place rotation of `rotateBoard`: ring `i` from the outside in,
  // one 4-cycle (i,j) <- (j,N-1-i) <- (N-1-i,N-1-j) <- (N-1-j,i) <- (i,j)
  // per column `j` of that ring.

  /** The ring (distance to the nearest edge) a cell lies on. */
  function Ring(a: int, b: int): int {
    var m1 := if a < b then a else b;
    var m2 := if N - 1 - a < N - 1 - b then N - 1 - a else N - 1 - b;
    if m1 < m2 then m1 else m2
  }

  /** The column `j` of the 4-cycle, within its ring, that moves cell (a, b). */
  function Slot(a: int, b: int): int {
    var k := Ring(a, b);
    if a == k && b < N - 1 - k then b
    else if b == N - 1 - k && a < N - 1 - k then a
    else if a == N - 1 - k && b > k then N - 1 - b
    else N - 1 - a
  }

  /** Cell (a, b) has been rotated once the loop reaches ring `i`, column `j`. */
  predicate Done(a: int, b: int, i: int, j: int) {
    Ring(a, b) < i || (Ring(a, b) == i && Slot(a, b) < j)
  }

  /** What cell `p` holds once the loop reaches ring `i`, column `j`. */
  function Expected(g: Grid, p: Pos, i: int, j: int): Cell
    requires WellFormedGrid(g) && InBounds(p)
  {
    if Done(p.x, p.y, i, j) then g[p.y][N - 1 - p.x] else At(g, p)
  }

  ghost predicate RotatedUpTo(g: Grid, r: Grid, i: int, j: int)
    requires WellFormedGrid(g) && WellFormedGrid(r)
  {
    forall p :: InBounds(p) ==> At(r, p) == Expected(g, p, i, j)
  }

  /** Outside the centre, the column of a cell ranges over its ring's side. */
  lemma SlotRange()
    ensures forall a, b :: 0 <= a < N && 0 <= b < N && Ring(a, b) < N / 2 ==>
      Ring(a, b) <= Slot(a, b) < N - 1 - Ring(a, b)
  {
  }

  /** No cell of ring `i` is rotated before its column `i`. */
  lemma RingStart(g: Grid, r: Grid, i: int)
    requires WellFormedGrid(g) && WellFormedGrid(r)
    requires 0 <= i < N / 2 && RotatedUpTo(g, r, i, 0)
    ensures RotatedUpTo(g, r, i, i)
  {
  }

  /** Once column `N-1-i` is reached, ring `i` is finished. */
  lemma RingEnd(g: Grid, r: Grid, i: int)
    requires WellFormedGrid(g) && WellFormedGrid(r)
    requires 0 <= i < N / 2 && RotatedUpTo(g, r, i, N - 1 - i)
    ensures RotatedUpTo(g, r, i + 1, 0)
  {
  }

  /** The four cells one step of the inner loop moves around. */
  function Orbit(i: int, j: int): set<Pos> {
    {Pos(i, j), Pos(j, N - 1 - i), Pos(N - 1 - i, N - 1 - j), Pos(N - 1 - j, i)}
  }

  /** One step of the inner loop: the four assignments through `tmp`. */
  function Cycle(r: Grid, i: int, j: int): (c: Grid)
    requires WellFormedGrid(r)
    requires 0 <= i < N / 2 && i <= j < N - 1 - i
    ensures WellFormedGrid(c)
    ensures At(c, Pos(i, j)) == At(r, Pos(j, N - 1 - i))
    ensures At(c, Pos(j, N - 1 - i)) == At(r, Pos(N - 1 - i, N - 1 - j))
    ensures At(c, Pos(N - 1 - i, N - 1 - j)) == At(r, Pos(N - 1 - j, i))
    ensures At(c, Pos(N - 1 - j, i)) == At(r, Pos(i, j))
    ensures forall p :: InBounds(p) && p !in Orbit(i, j) ==> At(c, p) == At(r, p)
  {
    var tmp := r[i][j];
    var c1 := Put(r, Pos(i, j), r[j][N - i - 1]);
    var c2 := Put(c1, Pos(j, N - i - 1), c1[N - i - 1][N - j - 1]);
    var c3 := Put(c2, Pos(N - i - 1, N - j - 1), c2[N - j - 1][i]);
    Put(c3, Pos(N - j - 1, i), tmp)
  }

  /** One 4-cycle advances the loop invariant by one column. */
  lemma CycleStep(g: Grid, r: Grid, i: int, j: int)
    requires WellFormedGrid(g) && WellFormedGrid(r)
    requires 0 <= i < N / 2 && i <= j < N - 1 - i
    requires RotatedUpTo(g, r, i, j)
    ensures RotatedUpTo(g, Cycle(r, i, j), i, j + 1)
  {
  }

  method RotateInPlace(g: Grid) returns (r: Grid)
    requires WellFormedGrid(g)
    ensures r == RotateGrid(g)
  {
    r := g;
    SlotRange();
    var i := 0;
    while i < N / 2
      invariant 0 <= i <= N / 2
      invariant WellFormedGrid(r)
      invariant RotatedUpTo(g, r, i, 0)
    {
      var j := i;
      RingStart(g, r, i);
      while j < N - i - 1
        invariant i <= j <= N - i - 1
        invariant WellFormedGrid(r)
        invariant RotatedUpTo(g, r, i, j)
      {
        CycleStep(g, r, i, j);
        ghost var before := r;
        var tmp := r[i][j];
        r := Put(r, Pos(i, j), r[j][N - i - 1]);
        r := Put(r, Pos(j, N - i - 1), r[N - i - 1][N - j - 1]);
        r := Put(r, Pos(N - i - 1, N - j - 1), r[N - j - 1][i]);
        r := Put(r, Pos(N - j - 1, i), tmp);
        assert r == Cycle(before, i, j);
        j := j + 1;
      }
      RingEnd(g, r, i);
      i := i + 1;
    }
    forall p | InBounds(p)
      ensures At(r, p) == At(RotateGrid(g), p)
    {
      assert RotPos(UnrotPos(p)) == p;
    }
    GridExtensionality(r, RotateGrid(g));
  }
}
