/**
 * `Board`: a position of the 4x4x4 game as two bitsets, the cells held by
 * X and the cells held by O. `set` keeps the two disjoint; the queries count
 * and list cells, and `valueOf`/`toString` convert to and from text.
 *
 * `Player` and `Line` are not part of this model: a player is `X` or `O`,
 * its `toString` is its one-letter name, and the winning lines are given as
 * a sequence of cell masks.
 */
module Boards {
  import opened Wrappers
  import opened Bits
  import Coordinates

  datatype Player = X | O

  /** `Player.other()`. */
  function Other(p: Player): (r: Player)
    ensures r != p
  {
    if p == X then O else X
  }

  /** `player.toString()`. */
  function Name(p: Player): (r: string)
  {
    if p == X then "X" else "O"
  }

  /** The two bitsets of a well-formed position hold no common cell. */
  predicate Disjoint(x: Long, o: Long)
  {
    forall q :: 0 <= q < 64 ==> !(x[q] && o[q])
  }

  /** `get(position)` on the bitsets `x`, `o`; `None` is Java's `null`. */
  function CellAt(x: Long, o: Long, position: int): (r: Option<Player>)
    ensures r == Some(X) <==> x[CellOf(position)]
    ensures r == Some(O) <==> !x[CellOf(position)] && o[CellOf(position)]
    ensures r == None <==> !x[CellOf(position)] && !o[CellOf(position)]
  {
    if IsSet(x, position) then Some(X)
    else if IsSet(o, position) then Some(O)
    else None
  }

  /** The bitsets after `set(position, player)`. */
  function Assign(x: Long, o: Long, position: int, player: Option<Player>): (Long, Long)
  {
    match player
    case Some(X) => (SetBit(x, position), ClearBit(o, position))
    case Some(O) => (ClearBit(x, position), SetBit(o, position))
    case None => (ClearBit(x, position), ClearBit(o, position))
  }

  /**
   * After `set(position, player)` the cell holds `player`, every other cell
   * is as before, and disjoint bitsets stay disjoint.
   */
  lemma AssignGet(x: Long, o: Long, position: int, player: Option<Player>)
    ensures CellAt(Assign(x, o, position, player).0, Assign(x, o, position, player).1, position) == player
    ensures forall q :: 0 <= q < 64 && q != CellOf(position) ==>
      CellAt(Assign(x, o, position, player).0, Assign(x, o, position, player).1, q) == CellAt(x, o, q)
    ensures Disjoint(x, o) ==> Disjoint(Assign(x, o, position, player).0, Assign(x, o, position, player).1)
  {
  }

  /** Undoing a move on a cell that was empty restores both bitsets exactly. */
  lemma UndoAfterMake(x: Long, o: Long, position: int, player: Player)
    requires CellAt(x, o, position) == None
    ensures var (x1, o1) := Assign(x, o, position, Some(player));
      Assign(x1, o1, position, None) == (x, o)
  {
    var (x1, o1) := Assign(x, o, position, Some(player));
    var (x2, o2) := Assign(x1, o1, position, None);
    assert forall q :: 0 <= q < 64 ==> x2[q] == x[q];
    assert forall q :: 0 <= q < 64 ==> o2[q] == o[q];
    assert x2 == x && o2 == o;
  }

  /** `set` is idempotent: setting a cell to what it was just set to changes nothing. */
  lemma AssignTwice(x: Long, o: Long, position: int, player: Option<Player>)
    ensures var (x1, o1) := Assign(x, o, position, player);
      Assign(x1, o1, position, player) == (x1, o1)
  {
    var (x1, o1) := Assign(x, o, position, player);
    var (x2, o2) := Assign(x1, o1, position, player);
    assert forall q :: 0 <= q < 64 ==> x2[q] == x1[q];
    assert forall q :: 0 <= q < 64 ==> o2[q] == o1[q];
    assert x2 == x1 && o2 == o1;
  }

  /** The text `toString` writes for a cell. */
  function Symbol(c: Option<Player>): (r: string)
    ensures |r| == 1
  {
    match c
    case None => "."
    case Some(p) => Name(p)
  }

  /** The first `n` characters of `toString`: one symbol per cell in index order. */
  function Render(x: Long, o: Long, n: int): (r: string)
    requires 0 <= n <= 64
    ensures |r| == n
    ensures forall i :: 0 <= i < n ==> r[i] == Symbol(CellAt(x, o, i))[0]
    decreases x, n  // with `x` in the measure, the call with the literal 64 is unrolled only on demand
  {
    if n == 0 then "" else Render(x, o, n - 1) + Symbol(CellAt(x, o, n - 1))
  }

  // ---------------------------------------------------------------------
  // Board.valueOf as a function of the text
  // ---------------------------------------------------------------------

  /** The parser's state: the two bitsets and the position counter. */
  datatype Scan = Scan(x: Long, o: Long, position: int)

  predicate Allowed(c: char)
  {
    c in "xXoO. |"
  }

  /** One character of `valueOf`; any other character is rejected with that character. */
  function Step(st: Scan, c: char): (r: Result<Scan, char>)
    ensures r.Failure? <==> !Allowed(c)
    ensures r.Failure? ==> r.error == c
  {
    if c == 'x' || c == 'X' then
      var (x, o) := Assign(st.x, st.o, st.position, Some(X));
      Success(Scan(x, o, st.position + 1))
    else if c == 'o' || c == 'O' then
      var (x, o) := Assign(st.x, st.o, st.position, Some(O));
      Success(Scan(x, o, st.position + 1))
    else if c == '.' then Success(Scan(st.x, st.o, st.position + 1))
    else if c == ' ' || c == '|' then Success(st)
    else Failure(c)
  }

  const Start: Scan := Scan(ZERO, ZERO, 0)

  /** `valueOf(s)`: the state after the whole text, or the first rejected character. */
  function Parse(s: string): (r: Result<Scan, char>)
  {
    if s == [] then Success(Start)
    else match Parse(s[..|s| - 1])
      case Failure(c) => Failure(c)
      case Success(st) => Step(st, s[|s| - 1])
  }

  /** Parsing fails exactly when some character is not allowed, and reports the first one. */
  lemma {:induction false} ParseFailure(s: string)
    ensures Parse(s).Failure? <==> exists i :: 0 <= i < |s| && !Allowed(s[i])
    ensures Parse(s).Failure? ==>
      exists i :: 0 <= i < |s| && !Allowed(s[i]) && Parse(s).error == s[i] && forall j :: 0 <= j < i ==> Allowed(s[j])
  {
    if s != [] {
      var t := s[..|s| - 1];
      ParseFailure(t);
      assert forall i :: 0 <= i < |t| ==> t[i] == s[i];
      if Parse(t).Success? {
        assert forall i :: 0 <= i < |t| ==> Allowed(s[i]);
      } else {
        var i :| 0 <= i < |t| && !Allowed(t[i]) && Parse(t).error == t[i] && forall j :: 0 <= j < i ==> Allowed(t[j]);
        assert !Allowed(s[i]);
      }
    }
  }

  /** The cells below `n` of `x`. */
  function Below(x: Long, n: int): (r: Long)
    ensures forall q :: 0 <= q < 64 ==> r[q] == (q < n && x[q])
  {
    seq(64, q requires 0 <= q < 64 => q < n && x[q])
  }

  /** Reading the symbol of cell `p` extends the parse of the cells below `p` by that cell. */
  lemma StepRender(x: Long, o: Long, p: int)
    requires Disjoint(x, o) && 0 <= p < 64
    ensures Step(Scan(Below(x, p), Below(o, p), p), Symbol(CellAt(x, o, p))[0])
      == Success(Scan(Below(x, p + 1), Below(o, p + 1), p + 1))
  {
    var r := Step(Scan(Below(x, p), Below(o, p), p), Symbol(CellAt(x, o, p))[0]);
    match CellAt(x, o, p) {
      case Some(X) =>
        assert r.Success? && r.value.position == p + 1;
      case Some(O) =>
        assert r.Success? && r.value.position == p + 1;
      case None =>
        assert r.Success? && r.value.position == p + 1;
    }
    assert forall q :: 0 <= q < 64 ==> r.value.x[q] == Below(x, p + 1)[q];
    assert forall q :: 0 <= q < 64 ==> r.value.o[q] == Below(o, p + 1)[q];
    assert r.value.x == Below(x, p + 1) && r.value.o == Below(o, p + 1);
  }

  lemma {:induction false} ParseRender(x: Long, o: Long, n: int)
    requires Disjoint(x, o) && 0 <= n <= 64
    ensures Parse(Render(x, o, n)) == Success(Scan(Below(x, n), Below(o, n), n))
  {
    if n == 0 {
      assert Below(x, 0) == ZERO && Below(o, 0) == ZERO;
    } else {
      var s := Render(x, o, n);
      assert s[..|s| - 1] == Render(x, o, n - 1);
      assert s[|s| - 1] == Symbol(CellAt(x, o, n - 1))[0];
      ParseRender(x, o, n - 1);
      StepRender(x, o, n - 1);
    }
  }

  /** `valueOf(toString())` gives back a well-formed position. */
  lemma ParseToString(x: Long, o: Long)
    requires Disjoint(x, o)
    ensures Parse(Render(x, o, 64)) == Success(Scan(x, o, 64))
  {
    ParseRender(x, o, 64);
    assert Below(x, 64) == x && Below(o, 64) == o;
  }

  /** A prefix that is rejected makes the whole text rejected with the same character. */
  lemma {:induction false} FailureExtends(s: string, i: int)
    requires 0 <= i <= |s| && Parse(s[..i]).Failure?
    ensures Parse(s) == Parse(s[..i])
    decreases |s| - i
  {
    if i < |s| {
      assert s[..i + 1][..i] == s[..i];
      FailureExtends(s, i + 1);
    } else {
      assert s[..i] == s;
    }
  }

  // ---------------------------------------------------------------------
  // Winning lines
  // ---------------------------------------------------------------------

  /** The index of the first line all of whose cells are in `positions`. */
  function FirstCovered(lines: seq<Long>, positions: Long, from: int): (r: Option<int>)
    requires 0 <= from <= |lines|
    ensures r.None? <==> forall i :: from <= i < |lines| ==> !Includes(positions, lines[i])
    ensures r.Some? ==> from <= r.value < |lines| && Includes(positions, lines[r.value])
    ensures r.Some? ==> forall i :: from <= i < r.value ==> !Includes(positions, lines[i])
    decreases |lines| - from
  {
    if from == |lines| then None
    else if Includes(positions, lines[from]) then Some(from)
    else FirstCovered(lines, positions, from + 1)
  }

  // ---------------------------------------------------------------------
  // The Board object
  // ---------------------------------------------------------------------

  class Board {
    var xPositions: Long
    var oPositions: Long

    /** `new Board()`: the empty position. */
    constructor ()
      ensures xPositions == ZERO && oPositions == ZERO
    {
      xPositions := ZERO;
      oPositions := ZERO;
    }

    predicate Valid()
      reads this
    {
      Disjoint(xPositions, oPositions)
    }

    /** `get(position)`. */
    function Get(position: int): (r: Option<Player>)
      reads this
      ensures r == CellAt(xPositions, oPositions, position)
    {
      CellAt(xPositions, oPositions, position)
    }

    /** `get(x, y, z)`. */
    function GetAt(x: int, y: int, z: int): (r: Option<Player>)
      reads this
      ensures 0 <= x < 4 && 0 <= y < 4 && 0 <= z < 4 ==> r == Get(x + 4 * y + 16 * z)
    {
      Get(Coordinates.Position(x, y, z))
    }

    /** The cells either side holds, `xPositions | oPositions`. */
    function Occupied(): (r: Long)
      reads this
      ensures forall q :: 0 <= q < 64 ==> r[q] == (Get(q) != None)
    {
      Or(xPositions, oPositions)
    }

    /** `set(position, player)`, with `None` standing for `null`. */
    method Set(position: int, player: Option<Player>)
      modifies this
      ensures (xPositions, oPositions) == Assign(old(xPositions), old(oPositions), position, player)
      ensures Get(position) == player
      ensures forall q :: 0 <= q < 64 && q != CellOf(position) ==> Get(q) == old(Get(q))
      ensures old(Valid()) ==> Valid()
    {
      AssignGet(xPositions, oPositions, position, player);
      if player == Some(X) {
        xPositions := SetBit(xPositions, position);
        oPositions := ClearBit(oPositions, position);
      } else if player == Some(O) {
        oPositions := SetBit(oPositions, position);
        xPositions := ClearBit(xPositions, position);
      } else {
        xPositions := ClearBit(xPositions, position);
        oPositions := ClearBit(oPositions, position);
      }
    }

    /** `makeMove(position, player)`. */
    method MakeMove(position: int, player: Player)
      modifies this
      ensures (xPositions, oPositions) == Assign(old(xPositions), old(oPositions), position, Some(player))
      ensures Get(position) == Some(player)
      ensures forall q :: 0 <= q < 64 && q != CellOf(position) ==> Get(q) == old(Get(q))
      ensures old(Valid()) ==> Valid()
    {
      Set(position, Some(player));
    }

    /** `undoMove(position)`. */
    method UndoMove(position: int)
      modifies this
      ensures (xPositions, oPositions) == Assign(old(xPositions), old(oPositions), position, None)
      ensures Get(position) == None
      ensures forall q :: 0 <= q < 64 && q != CellOf(position) ==> Get(q) == old(Get(q))
      ensures old(Valid()) ==> Valid()
    {
      Set(position, None);
    }

    /** `totalMoves()`: the number of occupied cells. */
    method TotalMoves() returns (n: int)
      ensures n == PopCount(Occupied())
      ensures 0 <= n <= 64
    {
      n := CountOnes(Or(xPositions, oPositions));
    }

    /** `isFull()`: every cell is occupied. */
    method IsFull() returns (r: bool)
      ensures r <==> forall q :: 0 <= q < 64 ==> Get(q) != None
    {
      var n := CountOnes(Or(xPositions, oPositions));
      FullCells(Occupied());
      r := n == 64;
    }

    /** `isEmpty()`: no cell is occupied. */
    method IsEmpty() returns (r: bool)
      ensures r <==> xPositions == ZERO && oPositions == ZERO
      ensures r <==> forall q :: 0 <= q < 64 ==> Get(q) == None
    {
      var n := CountOnes(Or(xPositions, oPositions));
      r := n == 0;
      PopCountZero(Or(xPositions, oPositions));
      EmptyBoth(xPositions, oPositions);
      assert Occupied() == Or(xPositions, oPositions);
    }

    /** `isValidMove(position)`: the cell is empty, that is, it is among the available moves. */
    function IsValidMove(position: int): (r: bool)
      reads this
      ensures r <==> Get(position) == None
      ensures r <==> CellOf(position) in Cells(Not(Occupied()))
    {
      CellsMembers(Not(Or(xPositions, oPositions)));
      !IsSet(Or(xPositions, oPositions), position)
    }

    /** `getAvailableMoves()`: the empty cells in ascending order. */
    method GetAvailableMoves() returns (moves: seq<int>)
      ensures moves == Cells(Not(Occupied()))
      ensures Increasing(moves)
      ensures forall q :: q in moves <==> 0 <= q < 64 && Get(q) == None
      ensures |moves| == 64 - PopCount(Occupied())
    {
      moves := [];
      var occupied := Or(xPositions, oPositions);
      var free := Not(occupied);
      for position := 0 to 64
        invariant moves + CellsFrom(free, position) == Cells(free)
      {
        CollectFree(free, moves, position);
        if !IsSet(occupied, position) {
          moves := moves + [position];
        }
      }
      assert CellsFrom(free, 64) == [];
      assert free == Not(Occupied());
      CellsIncreasing(free);
      AvailableCells(xPositions, oPositions);
    }

    /** `toString()`: one symbol per cell, in index order. */
    method ToString() returns (s: string)
      ensures s == Render(xPositions, oPositions, 64)
      ensures |s| == 64
    {
      s := "";
      for position := 0 to 64
        invariant s == Render(xPositions, oPositions, position)
      {
        var player := Get(position);
        s := s + Symbol(player);
      }
    }

    /** `hasWon(player)`: some line lies entirely in the player's cells. */
    method HasWon(lines: seq<Long>, player: Player) returns (r: bool)
      ensures r <==> exists i :: 0 <= i < |lines| && Includes(PositionsOf(player), lines[i])
    {
      var positions := if player == X then xPositions else oPositions;
      for i := 0 to |lines|
        invariant forall j :: 0 <= j < i ==> !Includes(positions, lines[j])
      {
        if Includes(positions, lines[i]) {
          return true;
        }
      }
      return false;
    }

    /** `getWinningLine(player)`: the first line lying entirely in the player's cells, if any. */
    method GetWinningLine(lines: seq<Long>, player: Player) returns (r: Option<Long>)
      ensures r.None? <==> forall i :: 0 <= i < |lines| ==> !Includes(PositionsOf(player), lines[i])
      ensures r.Some? ==> FirstCovered(lines, PositionsOf(player), 0).Some?
      ensures r.Some? ==> r.value == lines[FirstCovered(lines, PositionsOf(player), 0).value]
    {
      var positions := if player == X then xPositions else oPositions;
      for i := 0 to |lines|
        invariant forall j :: 0 <= j < i ==> !Includes(positions, lines[j])
      {
        if Includes(positions, lines[i]) {
          FirstCoveredAt(lines, positions, i);
          return Some(lines[i]);
        }
      }
      return None;
    }

    /** The bitset of one side. */
    function PositionsOf(player: Player): Long
      reads this
    {
      if player == X then xPositions else oPositions
    }

    /** `valueOf(s)`: a new board holding the cells the text names, or the first character it rejects. */
    static method ValueOf(s: string) returns (r: Result<Board, char>)
      ensures Parse(s).Failure? ==> r == Failure(Parse(s).error)
      ensures Parse(s).Success? ==> r.Success? && fresh(r.value)
      ensures Parse(s).Success? ==> r.Success? && r.value.xPositions == Parse(s).value.x && r.value.oPositions == Parse(s).value.o
    {
      var board := new Board();
      var position := 0;
      for i := 0 to |s|
        invariant Parse(s[..i]) == Success(Scan(board.xPositions, board.oPositions, position))
      {
        var c := s[i];
        assert s[..i + 1][..i] == s[..i];
        if c == 'x' || c == 'X' {
          board.Set(position, Some(X));
          position := position + 1;
        } else if c == 'o' || c == 'O' {
          board.Set(position, Some(O));
          position := position + 1;
        } else if c == '.' {
          position := position + 1;
        } else if c == ' ' || c == '|' {
        } else {
          FailureExtends(s, i + 1);
          return Failure(c);
        }
      }
      assert s[..|s|] == s;
      return Success(board);
    }
  }

  /** A first line found at `i` by a scan that skipped the lines before it is `FirstCovered`. */
  lemma FirstCoveredAt(lines: seq<Long>, positions: Long, i: int)
    requires 0 <= i < |lines| && Includes(positions, lines[i])
    requires forall j :: 0 <= j < i ==> !Includes(positions, lines[j])
    ensures FirstCovered(lines, positions, 0) == Some(i)
  {
    var r := FirstCovered(lines, positions, 0);
    assert r.Some?;
  }

  /** One step of the scan for empty cells: cell `position` is appended when its bit is 1. */
  lemma CollectFree(free: Long, moves: seq<int>, position: int)
    requires 0 <= position < 64
    requires moves + CellsFrom(free, position) == Cells(free)
    ensures (if free[position] then moves + [position] else moves) + CellsFrom(free, position + 1) == Cells(free)
  {
    if free[position] {
      assert moves + [position] + CellsFrom(free, position + 1) == moves + CellsFrom(free, position);
    }
  }

  /** The cells of the complement of the occupied set are the empty cells. */
  lemma AvailableCells(x: Long, o: Long)
    ensures forall q :: q in Cells(Not(Or(x, o))) <==> 0 <= q < 64 && CellAt(x, o, q) == None
    ensures |Cells(Not(Or(x, o)))| == 64 - PopCount(Or(x, o))
  {
    CellsMembers(Not(Or(x, o)));
    ComplementCount(Or(x, o));
    PopCountCells(Not(Or(x, o)));
  }

  lemma EmptyBoth(x: Long, o: Long)
    ensures Or(x, o) == ZERO <==> x == ZERO && o == ZERO
    ensures Or(x, o) == ZERO <==> forall q :: 0 <= q < 64 ==> CellAt(x, o, q) == None
  {
    if Or(x, o) == ZERO {
      assert forall q :: 0 <= q < 64 ==> x[q] == ZERO[q] && o[q] == ZERO[q];
    } else {
      var q :| 0 <= q < 64 && Or(x, o)[q];
      assert CellAt(x, o, q) != None;
    }
  }
}
