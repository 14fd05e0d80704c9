/** Whole games: a board produced by `initialize` followed by any sequence
    of the core operations. The invariants of the board hold throughout. */
module Play {
  import opened State
  import opened Moves
  import opened Layouts

  /** The operations the game loop can apply to the board. */
  datatype Command = GoUp | GoLeft | GoDown | GoRight | Toggle

  function Apply(b: Board, c: Command): (res: (bool, Board))
    requires WellFormed(b)
  {
    match c
    case GoUp => MoveUp(b)
    case GoLeft => MoveLeft(b)
    case GoDown => MoveDown(b)
    case GoRight => MoveRight(b)
    case Toggle => Select(b)
  }

  /** Whether a command, on success, is a jump: a move made with a peg
      picked up. */
  predicate IsJump(b: Board, c: Command) {
    c != Toggle && b.selected
  }

  /** The direction of a movement command. */
  function DirOf(c: Command): Dir
    requires c != Toggle
  {
    match c
    case GoUp => Up
    case GoLeft => Left
    case GoDown => Down
    case GoRight => Right
  }

  /** Every movement command is the one move rule in its direction. */
  lemma ApplyIsMove(b: Board, c: Command)
    requires WellFormed(b) && c != Toggle
    ensures Apply(b, c) == Move(b, DirOf(c))
  {
    if c == GoUp {
      MoveUpIsMove(b);
    }
  }

  /** One command keeps the board playable, never touches an off-board
      cell or the winning cell, removes one peg exactly when it jumps, and
      changes nothing when it fails. */
  lemma ApplyKeeps(b: Board, c: Command)
    requires Playable(b)
    ensures Playable(Apply(b, c).1)
    ensures Offs(Apply(b, c).1.grid) == Offs(b.grid)
    ensures Apply(b, c).1.win == b.win
    ensures |Pegs(Apply(b, c).1.grid)| ==
      |Pegs(b.grid)| - (if Apply(b, c).0 && IsJump(b, c) then 1 else 0)
    ensures !Apply(b, c).0 ==> Apply(b, c).1 == b
  {
    if c == Toggle {
      SelectKeepsPlayable(b);
    } else {
      var d := DirOf(c);
      ApplyIsMove(b, c);
      MoveKeepsPlayable(b, d);
      MoveKeepsOffBoard(b, d);
      MovePegCount(b, d);
    }
  }

  /** The board after a sequence of commands. */
  function Run(b: Board, cs: seq<Command>): (r: Board)
    requires WellFormed(b)
    ensures WellFormed(r)
    decreases |cs|
  {
    if |cs| == 0 then b else Run(Apply(b, cs[0]).1, cs[1..])
  }

  /** How many of the commands were successful jumps. */
  function Jumps(b: Board, cs: seq<Command>): (n: nat)
    requires WellFormed(b)
    decreases |cs|
  {
    if |cs| == 0 then 0
    else
      var step := Apply(b, cs[0]);
      (if step.0 && IsJump(b, cs[0]) then 1 else 0) + Jumps(step.1, cs[1..])
  }

  /** Over any sequence of commands the board stays playable, the off-board
      cells and the winning cell stay put, and every successful jump has
      cost exactly one peg. */
  lemma {:induction false} RunKeeps(b: Board, cs: seq<Command>)
    requires Playable(b)
    ensures Playable(Run(b, cs))
    ensures Offs(Run(b, cs).grid) == Offs(b.grid)
    ensures Run(b, cs).win == b.win
    ensures |Pegs(Run(b, cs).grid)| == |Pegs(b.grid)| - Jumps(b, cs)
    decreases |cs|
  {
    if |cs| > 0 {
      ApplyKeeps(b, cs[0]);
      RunKeeps(Apply(b, cs[0]).1, cs[1..]);
    }
  }

  /** Every board a game reaches keeps the invariants of the starting board. */
  lemma GameInvariant(layout: int, cs: seq<Command>)
    requires 0 <= layout < 5
    ensures Playable(Run(Initialize(layout), cs))
    ensures Offs(Run(Initialize(layout), cs).grid) == Offs(Initialize(layout).grid)
    ensures |Pegs(Run(Initialize(layout), cs).grid)| <= |Pegs(Initialize(layout).grid)|
  {
    RunKeeps(Initialize(layout), cs);
  }
}
