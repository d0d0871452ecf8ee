/**
 * `Heuristic`: the static evaluation of a position for one player.
 *
 * The evaluator walks the winning lines (a parameter here: the bitboards of
 * `Line.lines`), scores each line by how many stones of each side it holds,
 * probes the empty cells of lines that already hold two of the player's
 * stones for forks, and adds the player's control of the centre cube, the
 * middle-plane corners and the board corners, and the forks available to
 * both sides.  Every sum and product is Java `int` arithmetic, so the
 * result is the exact score reduced modulo 2^32 (`Wrap32`).
 */
module Heuristics {
  import opened JavaInt
  import opened Bits
  import opened Boards
  import opened Weights

  // ---------------------------------------------------------------------
  // Position masks
  // ---------------------------------------------------------------------

  /** The eight cells of the central 2x2x2 cube. */
  const CenterPositions: seq<int> := [21, 22, 25, 26, 29, 30, 33, 34]
  /** The corners of the two middle planes. */
  const PCornerPositions: seq<int> := [16, 19, 28, 31, 32, 35, 44, 47]
  /** The eight corners of the cube. */
  const BCornerPositions: seq<int> := [0, 3, 12, 15, 48, 51, 60, 63]

  /** The long with exactly the cells of `positions` set. */
  function MaskOf(positions: seq<int>): (m: Long)
    ensures forall q :: 0 <= q < 64 ==> (m[q] <==> exists i :: 0 <= i < |positions| && CellOf(positions[i]) == q)
  {
    if positions == [] then ZERO
    else
      var init := positions[..|positions| - 1];
      var m := SetBit(MaskOf(init), positions[|positions| - 1]);
      assert forall i :: 0 <= i < |init| ==> init[i] == positions[i];
      m
  }

  /** `computePositionMask(positions)`: `Bit.set` for each position in turn. */
  method ComputePositionMask(positions: seq<int>) returns (mask: Long)
    ensures mask == MaskOf(positions)
  {
    mask := ZERO;
    for i := 0 to |positions|
      invariant mask == MaskOf(positions[..i])
    {
      assert positions[..i + 1][..i] == positions[..i];
      mask := SetBit(mask, positions[i]);
    }
    assert positions[..|positions|] == positions;
  }

  /** The mask of ascending cells lists exactly those cells. */
  lemma MaskCells(positions: seq<int>)
    requires Increasing(positions)
    requires forall i :: 0 <= i < |positions| ==> 0 <= positions[i] < 64
    ensures Cells(MaskOf(positions)) == positions
    ensures PopCount(MaskOf(positions)) == |positions|
  {
    var m := MaskOf(positions);
    forall q
      ensures q in positions <==> 0 <= q < 64 && m[q]
    {
      if q in positions {
        var i :| 0 <= i < |positions| && positions[i] == q;
        assert CellOf(positions[i]) == q;
      }
    }
    CellsUnique(m, positions);
    PopCountCells(m);
  }

  /** `CENTER_POSITIONS_MASK`, `PCORNER_POSITIONS_MASK` and `BCORNER_POSITIONS_MASK`, bit by bit. */
  const CenterMask: Long := CellMask(CenterPositions)
  const PCornerMask: Long := CellMask(PCornerPositions)
  const BCornerMask: Long := CellMask(BCornerPositions)

  /** The long whose 1 bits are the listed cells. */
  function CellMask(cells: seq<int>): (m: Long)
  {
    seq(64, q => q in cells)
  }

  /** The masks are what `computePositionMask` makes of the position lists. */
  lemma MasksComputed()
    ensures MaskOf(CenterPositions) == CenterMask
    ensures MaskOf(PCornerPositions) == PCornerMask
    ensures MaskOf(BCornerPositions) == BCornerMask
  {
    SameMask(CenterPositions, CenterMask);
    SameMask(PCornerPositions, PCornerMask);
    SameMask(BCornerPositions, BCornerMask);
  }

  lemma SameMask(positions: seq<int>, m: Long)
    requires forall i :: 0 <= i < |positions| ==> 0 <= positions[i] < 64
    requires m == CellMask(positions)
    ensures MaskOf(positions) == m
  {
    var a := MaskOf(positions);
    assert forall i :: 0 <= i < |positions| ==> CellOf(positions[i]) == positions[i];
    forall q | 0 <= q < 64
      ensures a[q] == m[q]
    {
      if q in positions {
        var i :| 0 <= i < |positions| && positions[i] == q;
        assert CellOf(positions[i]) == q;
      }
    }
  }

  /** Each mask holds its eight cells. */
  lemma CenterCells()
    ensures Cells(CenterMask) == CenterPositions && PopCount(CenterMask) == 8
  {
    MasksComputed();
    MaskCells(CenterPositions);
  }

  lemma PCornerCells()
    ensures Cells(PCornerMask) == PCornerPositions && PopCount(PCornerMask) == 8
  {
    MasksComputed();
    MaskCells(PCornerPositions);
  }

  lemma BCornerCells()
    ensures Cells(BCornerMask) == BCornerPositions && PopCount(BCornerMask) == 8
  {
    MasksComputed();
    MaskCells(BCornerPositions);
  }

  /** Two masks listing no common cell share no bit. */
  lemma DisjointMasks(a: seq<int>, b: seq<int>)
    requires forall i :: 0 <= i < |a| ==> 0 <= a[i] < 64
    requires forall i :: 0 <= i < |b| ==> 0 <= b[i] < 64
    requires forall i, j :: 0 <= i < |a| && 0 <= j < |b| ==> a[i] != b[j]
    ensures And(MaskOf(a), MaskOf(b)) == ZERO
  {
    assert forall i :: 0 <= i < |a| ==> CellOf(a[i]) == a[i];
    assert forall j :: 0 <= j < |b| ==> CellOf(b[j]) == b[j];
  }

  /** No cell is in two of the masks. */
  lemma MasksDisjoint()
    ensures And(CenterMask, PCornerMask) == ZERO
    ensures And(CenterMask, BCornerMask) == ZERO
    ensures And(PCornerMask, BCornerMask) == ZERO
  {
    MasksComputed();
    DisjointMasks(CenterPositions, PCornerPositions);
    DisjointMasks(CenterPositions, BCornerPositions);
    DisjointMasks(PCornerPositions, BCornerPositions);
  }

  // ---------------------------------------------------------------------
  // getScore
  // ---------------------------------------------------------------------

  /** The score of a line holding `count` stones of one side. */
  function BaseScore(count: int, w: Values): (r: int)
    ensures Valid(w) ==> IsInt(r)
    ensures !(1 <= count <= 4) ==> r == 0
  {
    if count == 1 then w.ScoreOne
    else if count == 2 then w.ScoreTwo
    else if count == 3 then w.ScoreThree
    else if count == 4 then w.ScoreFour
    else 0
  }

  /** A count of 1 to 4 selects the first four fields, `SCORE_ONE` to `SCORE_FOUR`, in order. */
  lemma BaseScoreField(count: int, w: Values)
    requires 1 <= count <= 4
    ensures BaseScore(count, w) == Fields(w)[count - 1]
  {
  }

  /** `getScore(count, centerCount, w)`: the base score plus `CENTER_MULTIPLIER` per central stone, in `int` arithmetic. */
  function GetScore(count: int, centerCount: int, w: Values): (r: int)
    requires Valid(w)
    ensures IsInt(r)
    ensures r == Wrap32(BaseScore(count, w) + centerCount * w.CenterMultiplier)
  {
    var base := BaseScore(count, w);
    WrapIdentity(base);
    AddWrap(base, centerCount * w.CenterMultiplier);
    Wrap32(base + Wrap32(centerCount * w.CenterMultiplier))
  }

  // ---------------------------------------------------------------------
  // evaluatePotentialForks
  // ---------------------------------------------------------------------

  /** A line holding two of the player's stones and two empty cells. */
  predicate Potential(line: Long, player: Long, occupied: Long)
  {
    PopCount(And(line, player)) == 2 && PopCount(And(line, Not(occupied))) == 2
  }

  /** The potential lines among `lines`, in order. */
  function PotentialLines(lines: seq<Long>, player: Long, occupied: Long): (r: seq<Long>)
    ensures |r| <= |lines|
  {
    if lines == [] then []
    else
      var last := lines[|lines| - 1];
      PotentialLines(lines[..|lines| - 1], player, occupied) + (if Potential(last, player, occupied) then [last] else [])
  }

  /** Every line `PotentialLines` keeps is a potential line of `lines`, and every potential line is kept. */
  lemma {:induction false} PotentialLinesMembers(lines: seq<Long>, player: Long, occupied: Long)
    ensures forall l :: l in PotentialLines(lines, player, occupied) <==> l in lines && Potential(l, player, occupied)
  {
    if lines != [] {
      var init := lines[..|lines| - 1];
      PotentialLinesMembers(init, player, occupied);
      assert lines == init + [lines[|lines| - 1]];
    }
  }

  /** Two lines share an empty cell. */
  predicate Meets(a: Long, b: Long, occupied: Long)
  {
    And(And(a, b), Not(occupied)) != ZERO
  }

  /** How many of `rest` share an empty cell with `line`. */
  function CountMeets(line: Long, rest: seq<Long>, occupied: Long): (n: int)
    ensures 0 <= n <= |rest|
  {
    if rest == [] then 0
    else (if Meets(line, rest[0], occupied) then 1 else 0) + CountMeets(line, rest[1..], occupied)
  }

  /** No line of `rest` meets `line` exactly when the count is 0. */
  lemma {:induction false} CountMeetsZero(line: Long, rest: seq<Long>, occupied: Long)
    ensures CountMeets(line, rest, occupied) == 0 <==> forall k :: 0 <= k < |rest| ==> !Meets(line, rest[k], occupied)
  {
    if rest != [] {
      CountMeetsZero(line, rest[1..], occupied);
      assert forall k :: 1 <= k < |rest| ==> rest[1..][k - 1] == rest[k];
    }
  }

  /** The pairs `i < j` of `ls` that share an empty cell. */
  function Forks(ls: seq<Long>, occupied: Long): (n: int)
    ensures n >= 0
  {
    if ls == [] then 0
    else CountMeets(ls[0], ls[1..], occupied) + Forks(ls[1..], occupied)
  }

  /** `n` lines make at most `n(n-1)/2` forks. */
  lemma {:induction false} ForksBound(ls: seq<Long>, occupied: Long)
    ensures 2 * Forks(ls, occupied) <= |ls| * (|ls| - 1)
  {
    if ls != [] {
      ForksBound(ls[1..], occupied);
      var n := |ls|;
      assert (n - 1) * (n - 2) + 2 * (n - 1) == n * (n - 1);
    }
  }

  /** Fewer than two potential lines make no fork; so do lines that share no empty cell. */
  lemma {:induction false} NoForks(ls: seq<Long>, occupied: Long)
    requires forall i, j :: 0 <= i < j < |ls| ==> !Meets(ls[i], ls[j], occupied)
    ensures Forks(ls, occupied) == 0
  {
    if ls != [] {
      assert forall k :: 0 <= k < |ls[1..]| ==> !Meets(ls[0], ls[1..][k], occupied) by {
        forall k | 0 <= k < |ls[1..]|
          ensures !Meets(ls[0], ls[1..][k], occupied)
        {
          assert ls[1..][k] == ls[k + 1];
        }
      }
      forall i, j | 0 <= i < j < |ls[1..]|
        ensures !Meets(ls[1..][i], ls[1..][j], occupied)
      {
        assert ls[1..][i] == ls[i + 1] && ls[1..][j] == ls[j + 1];
      }
      CountMeetsZero(ls[0], ls[1..], occupied);
      NoForks(ls[1..], occupied);
    }
  }

  /** `evaluatePotentialForks(playerPositions, occupiedPositions)`. */
  function PotentialForks(player: Long, occupied: Long, lines: seq<Long>): (n: int)
    ensures n >= 0
  {
    Forks(PotentialLines(lines, player, occupied), occupied)
  }

  /** `evaluatePotentialForks`: collect the potential lines, then count the pairs of them that share an empty cell. */
  method EvaluatePotentialForks(playerPositions: Long, occupiedPositions: Long, lines: seq<Long>) returns (forkCount: int)
    ensures forkCount == PotentialForks(playerPositions, occupiedPositions, lines)
  {
    var potentialLines: seq<Long> := [];
    for i := 0 to |lines|
      invariant potentialLines == PotentialLines(lines[..i], playerPositions, occupiedPositions)
    {
      PotentialStep(lines, i, playerPositions, occupiedPositions);
      var linePositions := lines[i];
      var playerCount := CountOnes(And(linePositions, playerPositions));
      var emptyCount := CountOnes(And(linePositions, Not(occupiedPositions)));
      if playerCount == 2 && emptyCount == 2 {
        potentialLines := potentialLines + [linePositions];
      }
    }
    assert lines[..|lines|] == lines;
    ghost var all := Forks(potentialLines, occupiedPositions);
    forkCount := 0;
    for i := 0 to |potentialLines|
      invariant forkCount + Forks(potentialLines[i..], occupiedPositions) == all
    {
      ForksStep(potentialLines, i, occupiedPositions);
      for j := i + 1 to |potentialLines|
        invariant forkCount + CountMeets(potentialLines[i], potentialLines[j..], occupiedPositions)
          + Forks(potentialLines[i + 1..], occupiedPositions) == all
      {
        MeetsStep(potentialLines, i, j, occupiedPositions);
        var intersection := And(And(potentialLines[i], potentialLines[j]), Not(occupiedPositions));
        var count := CountOnes(intersection);
        if count > 0 {
          forkCount := forkCount + 1;
        }
      }
    }
  }

  lemma PotentialStep(lines: seq<Long>, i: int, player: Long, occupied: Long)
    requires 0 <= i < |lines|
    ensures PotentialLines(lines[..i + 1], player, occupied)
      == PotentialLines(lines[..i], player, occupied) + (if Potential(lines[i], player, occupied) then [lines[i]] else [])
  {
    assert lines[..i + 1][..i] == lines[..i];
  }

  lemma ForksStep(ls: seq<Long>, i: int, occupied: Long)
    requires 0 <= i < |ls|
    ensures Forks(ls[i..], occupied) == CountMeets(ls[i], ls[i + 1..], occupied) + Forks(ls[i + 1..], occupied)
  {
    assert ls[i..][1..] == ls[i + 1..];
  }

  lemma MeetsStep(ls: seq<Long>, i: int, j: int, occupied: Long)
    requires 0 <= i < j < |ls|
    ensures CountMeets(ls[i], ls[j..], occupied)
      == (if PopCount(And(And(ls[i], ls[j]), Not(occupied))) > 0 then 1 else 0) + CountMeets(ls[i], ls[j + 1..], occupied)
  {
    assert ls[j..][1..] == ls[j + 1..];
    PopCountZero(And(And(ls[i], ls[j]), Not(occupied)));
  }

  // ---------------------------------------------------------------------
  // evaluateOpponentPotentialForks
  // ---------------------------------------------------------------------

  /** The forks `opponent` would have after a stone on each candidate, summed over the candidates. */
  function ProbeSum(candidates: seq<int>, opponent: Long, occupied: Long, lines: seq<Long>): (n: int)
    ensures n >= 0
  {
    if candidates == [] then 0
    else
      var c := candidates[|candidates| - 1];
      ProbeSum(candidates[..|candidates| - 1], opponent, occupied, lines)
        + PotentialForks(SetBit(opponent, c), Or(occupied, PositionMask(c)), lines)
  }

  /** `evaluateOpponentPotentialForks(board, opponent, occupiedPositions)`. */
  function OpponentPotentialForks(opponent: Long, occupied: Long, lines: seq<Long>): (n: int)
    ensures n >= 0
  {
    ProbeSum(OnesListValue(Not(occupied)), opponent, occupied, lines)
  }

  /**
   * The probes land on the mirror cells: the `k`-th candidate `Bit.onesList`
   * yields for the empty cell `c` is `-c`, and `Bit.set`/`Bit.positionMask`
   * of `-c` touch the cell `(64 - c) % 64`, which may be occupied.
   */
  lemma ProbeCells(occupied: Long, k: int)
    requires 0 <= k < PopCount(Not(occupied))
    ensures |Cells(Not(occupied))| == PopCount(Not(occupied))
    ensures var c := Cells(Not(occupied))[k];
      CellOf(OnesListValue(Not(occupied))[k]) == (if c == 0 then 0 else 64 - c)
  {
    PopCountCells(Not(occupied));
    OnesListDistance(Not(occupied), k);
  }

  /** With only cell 1 occupied, the probe of the empty cell 63 lands on cell 1. */
  lemma ProbeOnOccupiedCell()
    ensures PopCount(Not(PositionMask(1))) == 63
    ensures |Cells(Not(PositionMask(1)))| == 63
    ensures Cells(Not(PositionMask(1)))[62] == 63
    ensures CellOf(OnesListValue(Not(PositionMask(1)))[62]) == 1
  {
    var free := Not(PositionMask(1));
    assert forall q :: 0 <= q < 64 ==> (free[q] <==> q != 1);
    EmptyAbove(free, 62);
    PopCountCells(free);
    OnesListDistance(free, 62);
  }

  /** Every cell but 1 free: its cells are `0, 2, 3, ..., 63`. */
  lemma EmptyAbove(free: Long, k: int)
    requires forall q :: 0 <= q < 64 ==> (free[q] <==> q != 1)
    requires k == 62
    ensures |Cells(free)| == 63 && Cells(free)[k] == 63
  {
    var s := [0] + seq(62, i => i + 2);
    assert Increasing(s);
    forall q
      ensures q in s <==> 0 <= q < 64 && free[q]
    {
      if 2 <= q < 64 {
        assert s[q - 1] == q;
      }
    }
    CellsUnique(free, s);
  }

  /** `evaluateOpponentPotentialForks`: for every cell `Bit.onesList(~occupied)` yields, add the forks the opponent would have with a stone there. */
  method EvaluateOpponentPotentialForks(board: Board, opponent: Player, occupiedPositions: Long, lines: seq<Long>)
    returns (potentialForks: int)
    ensures potentialForks == OpponentPotentialForks(board.PositionsOf(opponent), occupiedPositions, lines)
  {
    potentialForks := 0;
    ghost var positions := board.PositionsOf(opponent);
    var emptyPositions := OnesList(Not(occupiedPositions));
    for k := 0 to |emptyPositions|
      invariant potentialForks == ProbeSum(emptyPositions[..k], positions, occupiedPositions, lines)
    {
      ProbeSumStep(emptyPositions, k, positions, occupiedPositions, lines);
      var position := emptyPositions[k];
      var newOpponentPositions := if opponent == X then SetBit(board.xPositions, position) else SetBit(board.oPositions, position);
      var newOccupiedPositions := Or(occupiedPositions, PositionMask(position));
      var forks := EvaluatePotentialForks(newOpponentPositions, newOccupiedPositions, lines);
      if forks > 0 {
        potentialForks := potentialForks + forks;
      }
    }
    assert emptyPositions[..|emptyPositions|] == emptyPositions;
  }

  lemma ProbeSumStep(candidates: seq<int>, k: int, opponent: Long, occupied: Long, lines: seq<Long>)
    requires 0 <= k < |candidates|
    ensures ProbeSum(candidates[..k + 1], opponent, occupied, lines) == ProbeSum(candidates[..k], opponent, occupied, lines)
      + PotentialForks(SetBit(opponent, candidates[k]), Or(occupied, PositionMask(candidates[k])), lines)
  {
    assert candidates[..k + 1][..k] == candidates[..k];
  }

  // ---------------------------------------------------------------------
  // evaluate
  // ---------------------------------------------------------------------

  /** What a fork probe adds: `SCORE_THREE` (four times that from move 10 on) if the stone makes a fork, else `2 * SCORE_TWO`. */
  function ProbeScore(forks: int, moveCount: int, w: Values): (r: int)
    ensures forks > 0 && moveCount < 10 ==> r == w.ScoreThree
    ensures forks > 0 && moveCount >= 10 ==> r == 4 * w.ScoreThree
    ensures forks <= 0 ==> r == 2 * w.ScoreTwo
  {
    if forks > 0 then (if moveCount < 10 then w.ScoreThree else w.ScoreThree * 4) else w.ScoreTwo * 2
  }

  /** The fork probes of one line, summed over its empty cells as `Bit.onesList` yields them. */
  function ProbeBonus(candidates: seq<int>, player: Long, occupied: Long, moveCount: int, w: Values, lines: seq<Long>): int
  {
    if candidates == [] then 0
    else
      var c := candidates[|candidates| - 1];
      ProbeBonus(candidates[..|candidates| - 1], player, occupied, moveCount, w, lines)
        + ProbeScore(PotentialForks(SetBit(player, c), Or(occupied, PositionMask(c)), lines), moveCount, w)
  }

  /**
   * The score of a line open for one side, from its stone counts and its
   * central stone counts: the base score plus `CENTER_MULTIPLIER` per central
   * stone, negated and scaled by `OPPONENT_SCORE_MULTIPLIER` for the opponent.
   */
  function OpenScore(playerCount: int, opponentCount: int, playerCenter: int, opponentCenter: int, w: Values): int
  {
    if playerCount > 0 && opponentCount == 0 then BaseScore(playerCount, w) + playerCenter * w.CenterMultiplier
    else if opponentCount > 0 && playerCount == 0 then
      -((BaseScore(opponentCount, w) + opponentCenter * w.CenterMultiplier) * w.OpponentScoreMultiplier)
    else 0
  }

  function LineOpen(line: Long, player: Long, opponent: Long, w: Values): int
  {
    var mine := And(line, player);
    var theirs := And(line, opponent);
    OpenScore(PopCount(mine), PopCount(theirs), PopCount(And(mine, CenterMask)), PopCount(And(theirs, CenterMask)), w)
  }

  /** The fork probes over the empty cells `empty` of one line, in the order `Bit.onesList` yields them. */
  function EmptyCellProbes(empty: Long, player: Long, occupied: Long, moveCount: int, w: Values, lines: seq<Long>): int
  {
    ProbeBonus(OnesListValue(empty), player, occupied, moveCount, w, lines)
  }

  /** The fork probes of a line, given its count of own stones and of empty cells: only two of each earn any. */
  function CountedProbes(playerCount: int, emptyCount: int, empty: Long, player: Long, occupied: Long, moveCount: int, w: Values, lines: seq<Long>): int
  {
    if playerCount == 2 && emptyCount == 2 then EmptyCellProbes(empty, player, occupied, moveCount, w, lines)
    else 0
  }

  /** The fork probes of a line holding two of the player's stones and two empty cells. */
  function LineProbes(line: Long, player: Long, opponent: Long, moveCount: int, w: Values, lines: seq<Long>): int
  {
    var occupied := Or(player, opponent);
    var empty := And(line, Not(occupied));
    CountedProbes(PopCount(And(line, player)), PopCount(empty), empty, player, occupied, moveCount, w, lines)
  }

  /** The penalty for three opponent stones and one empty cell, and the bonus for three own stones and one empty cell. */
  function ThreatScore(playerCount: int, opponentCount: int, emptyCount: int, w: Values): int
  {
    (if opponentCount == 3 && emptyCount == 1 then -w.ImmediateThreatPenalty else 0)
    + (if playerCount == 3 && emptyCount == 1 then w.ImmediateWinBonus else 0)
  }

  function LineThreats(line: Long, player: Long, opponent: Long, w: Values): int
  {
    ThreatScore(PopCount(And(line, player)), PopCount(And(line, opponent)), PopCount(And(line, Not(Or(player, opponent)))), w)
  }

  /** The exact score one line contributes for the side holding `player` against `opponent`. */
  function LineScore(line: Long, player: Long, opponent: Long, moveCount: int, w: Values, lines: seq<Long>): int
  {
    LineOpen(line, player, opponent, w) + LineProbes(line, player, opponent, moveCount, w, lines) + LineThreats(line, player, opponent, w)
  }

  /** The line scores of `ls`, summed. */
  function LinesScore(ls: seq<Long>, player: Long, opponent: Long, moveCount: int, w: Values, lines: seq<Long>): int
  {
    if ls == [] then 0
    else LinesScore(ls[..|ls| - 1], player, opponent, moveCount, w, lines) + LineScore(ls[|ls| - 1], player, opponent, moveCount, w, lines)
  }

  /** The line scores of a prefix one line longer. */
  lemma LinesScoreSnoc(ls: seq<Long>, i: int, player: Long, opponent: Long, moveCount: int, w: Values)
    requires 0 <= i < |ls|
    ensures LinesScore(ls[..i + 1], player, opponent, moveCount, w, ls)
      == LinesScore(ls[..i], player, opponent, moveCount, w, ls) + LineScore(ls[i], player, opponent, moveCount, w, ls)
  {
    assert ls[..i + 1][..i] == ls[..i];
  }

  /** Control of the cells of `mask`: `multiplier` per own stone there, less `opponentMultiplier` per opponent stone. */
  function ControlScore(player: Long, opponent: Long, mask: Long, multiplier: int, opponentMultiplier: int): int
  {
    PopCount(And(player, mask)) * multiplier - PopCount(And(opponent, mask)) * opponentMultiplier
  }

  /** The forks of both sides now, and the opponent's forks after its best next stone. */
  function ForksScore(player: Long, opponent: Long, w: Values, lines: seq<Long>): int
  {
    var occupied := Or(player, opponent);
    PotentialForks(player, occupied, lines) * w.PlayerForksMultiplier
    - PotentialForks(opponent, occupied, lines) * w.OpponentForksMultiplier
    - OpponentPotentialForks(opponent, occupied, lines) * w.OpponentPotentialForksPenalty
  }

  /** Control of the centre and of both kinds of corner. */
  function ControlScores(player: Long, opponent: Long, w: Values): int
  {
    ControlScore(player, opponent, CenterMask, w.CenterControlMultiplier, w.OpponentCenterControlMultiplier)
    + ControlScore(player, opponent, PCornerMask, w.PCornerControlMultiplier, w.OpponentPCornerControlMultiplier)
    + ControlScore(player, opponent, BCornerMask, w.BCornerControlMultiplier, w.OpponentBCornerControlMultiplier)
  }

  /** Control of the centre and of both kinds of corner, and the forks of both sides. */
  function PositionalScore(player: Long, opponent: Long, w: Values, lines: seq<Long>): int
  {
    ControlScores(player, opponent, w) + ForksScore(player, opponent, w, lines)
  }

  /** The exact value of `evaluate` for `player` on the board `(x, o)`, before reduction to an `int`. */
  function ExactScore(x: Long, o: Long, player: Player, w: Values, lines: seq<Long>): int
  {
    var mine := if player == X then x else o;
    var theirs := if player == X then o else x;
    LinesScore(lines, mine, theirs, PopCount(Or(x, o)), w, lines) + PositionalScore(mine, theirs, w, lines)
  }

  /** `score += t` where `t` is `Wrap32(e)`: the running score stays the wrapped exact sum. */
  lemma Add(exact: int, e: int, t: int)
    requires t == Wrap32(e)
    ensures Wrap32(Wrap32(exact) + t) == Wrap32(exact + e)
  {
    AddWrap(exact, e);
  }

  /** The same step with the running `int` score `s` named. */
  lemma AddStep(s: int, exact: int, e: int, t: int)
    requires s == Wrap32(exact) && t == Wrap32(e)
    ensures Wrap32(s + t) == Wrap32(exact + e)
  {
    AddWrap(exact, e);
  }

  /** `score -= t` where `t` is `Wrap32(e)`. */
  lemma Sub(exact: int, e: int, t: int)
    requires t == Wrap32(e)
    ensures Wrap32(Wrap32(exact) - t) == Wrap32(exact - e)
  {
    SubWrap(exact, e);
  }

  /** The fork probes of one line: `score` grows by each probe's value. */
  method ProbeLine(board: Board, score: int, ghost exact: int, candidates: seq<int>, player: Long, occupied: Long, w: Values, lines: seq<Long>,
                   ghost moves: int)
    returns (s: int)
    requires Valid(w) && score == Wrap32(exact) && moves == PopCount(Or(board.xPositions, board.oPositions))
    ensures s == Wrap32(exact + ProbeBonus(candidates, player, occupied, moves, w, lines))
  {
    ghost var acc := exact;
    s := score;
    for k := 0 to |candidates|
      invariant acc == exact + ProbeBonus(candidates[..k], player, occupied, moves, w, lines)
      invariant s == Wrap32(acc)
    {
      ProbeBonusStep(candidates, k, player, occupied, moves, w, lines);
      var t, p := Probe(board, candidates[k], player, occupied, w, lines, moves);
      AddStep(s, acc, p, t);
      s := Wrap32(s + t);
      acc := acc + p;
    }
    assert candidates[..|candidates|] == candidates;
  }

  /** One probe: place the player's stone on `candidatePos`, count the forks, and return the increment in `int` arithmetic. */
  method Probe(board: Board, candidatePos: int, player: Long, occupied: Long, w: Values, lines: seq<Long>, ghost moves: int)
    returns (t: int, ghost p: int)
    requires Valid(w) && moves == PopCount(Or(board.xPositions, board.oPositions))
    ensures p == ProbeScore(PotentialForks(SetBit(player, candidatePos), Or(occupied, PositionMask(candidatePos)), lines), moves, w)
    ensures t == Wrap32(p)
  {
    var hypotheticalPlayerPositions := SetBit(player, candidatePos);
    var hypotheticalOccupied := Or(occupied, PositionMask(candidatePos));
    var forksAfterPlacement := EvaluatePotentialForks(hypotheticalPlayerPositions, hypotheticalOccupied, lines);
    var moveCount := board.TotalMoves();
    t := ProbeIncrement(forksAfterPlacement, moveCount, w);
    p := ProbeScore(forksAfterPlacement, moveCount, w);
  }

  /** The increment of one probe in `int` arithmetic. */
  method ProbeIncrement(forksAfterPlacement: int, moveCount: int, w: Values) returns (t: int)
    requires Valid(w)
    ensures t == Wrap32(ProbeScore(forksAfterPlacement, moveCount, w))
  {
    if forksAfterPlacement > 0 {
      if moveCount < 10 {
        WrapIdentity(w.ScoreThree);
        t := w.ScoreThree;
      } else {
        t := Wrap32(w.ScoreThree * 4);
      }
    } else {
      t := Wrap32(w.ScoreTwo * 2);
    }
  }

  lemma ProbeBonusStep(candidates: seq<int>, k: int, player: Long, occupied: Long, moveCount: int, w: Values, lines: seq<Long>)
    requires 0 <= k < |candidates|
    ensures ProbeBonus(candidates[..k + 1], player, occupied, moveCount, w, lines)
      == ProbeBonus(candidates[..k], player, occupied, moveCount, w, lines)
      + ProbeScore(PotentialForks(SetBit(player, candidates[k]), Or(occupied, PositionMask(candidates[k])), lines), moveCount, w)
  {
    assert candidates[..k + 1][..k] == candidates[..k];
  }

  /** The body of `evaluate`'s loop for one line. */
  method ScoreLine(board: Board, score: int, ghost exact: int, linePositions: Long, player: Long, opponent: Long, w: Values, lines: seq<Long>,
                   ghost moves: int)
    returns (s: int)
    requires Valid(w) && score == Wrap32(exact) && moves == PopCount(Or(board.xPositions, board.oPositions))
    ensures s == Wrap32(exact + LineScore(linePositions, player, opponent, moves, w, lines))
  {
    var occupiedPositions := Or(player, opponent);
    var playerLinePositions := And(linePositions, player);
    var opponentLinePositions := And(linePositions, opponent);
    var emptyLinePositions := And(linePositions, Not(occupiedPositions));
    var playerCount := CountOnes(playerLinePositions);
    var opponentCount := CountOnes(opponentLinePositions);
    var emptyCount := CountOnes(emptyLinePositions);
    s := ScoreCounted(board, score, exact, playerLinePositions, opponentLinePositions, emptyLinePositions, player, occupiedPositions,
      playerCount, opponentCount, emptyCount, w, lines, moves);
    LineScoreParts(linePositions, player, opponent, moves, w, lines, playerCount, opponentCount, emptyCount);
    WrapEq(exact + OpenScore(playerCount, opponentCount, PopCount(And(playerLinePositions, CenterMask)), PopCount(And(opponentLinePositions, CenterMask)), w)
      + CountedProbes(playerCount, emptyCount, emptyLinePositions, player, occupiedPositions, moves, w, lines)
      + ThreatScore(playerCount, opponentCount, emptyCount, w),
      exact + LineScore(linePositions, player, opponent, moves, w, lines));
  }

  /** The three branches of the line loop, once the line's counts are known. */
  method ScoreCounted(board: Board, score: int, ghost exact: int, playerLinePositions: Long, opponentLinePositions: Long, emptyLinePositions: Long,
                      player: Long, occupiedPositions: Long, playerCount: int, opponentCount: int, emptyCount: int, w: Values, lines: seq<Long>,
                      ghost moves: int)
    returns (s: int)
    requires Valid(w) && score == Wrap32(exact) && moves == PopCount(Or(board.xPositions, board.oPositions))
    ensures s == Wrap32(exact
      + OpenScore(playerCount, opponentCount, PopCount(And(playerLinePositions, CenterMask)), PopCount(And(opponentLinePositions, CenterMask)), w)
      + CountedProbes(playerCount, emptyCount, emptyLinePositions, player, occupiedPositions, moves, w, lines)
      + ThreatScore(playerCount, opponentCount, emptyCount, w))
  {
    s := ScoreOpen(score, exact, playerLinePositions, opponentLinePositions, playerCount, opponentCount, w);
    s := ScoreProbesAndThreats(board, s, exact
      + OpenScore(playerCount, opponentCount, PopCount(And(playerLinePositions, CenterMask)), PopCount(And(opponentLinePositions, CenterMask)), w),
      emptyLinePositions, player, occupiedPositions, playerCount, opponentCount, emptyCount, w, lines, moves);
  }

  /** The last two branches of the line loop: the fork probes, then the immediate threats. */
  method ScoreProbesAndThreats(board: Board, score: int, ghost exact: int, emptyLinePositions: Long, player: Long, occupiedPositions: Long,
                    playerCount: int, opponentCount: int, emptyCount: int, w: Values, lines: seq<Long>, ghost moves: int)
    returns (s: int)
    requires Valid(w) && score == Wrap32(exact) && moves == PopCount(Or(board.xPositions, board.oPositions))
    ensures s == Wrap32(exact
      + CountedProbes(playerCount, emptyCount, emptyLinePositions, player, occupiedPositions, moves, w, lines)
      + ThreatScore(playerCount, opponentCount, emptyCount, w))
  {
    s := ScoreProbes(board, score, exact, emptyLinePositions, playerCount, emptyCount, player, occupiedPositions, w, lines, moves);
    s := ScoreThreats(s, exact + CountedProbes(playerCount, emptyCount, emptyLinePositions, player, occupiedPositions, moves, w, lines),
      playerCount, opponentCount, emptyCount, w);
  }

  /** The second branch of the line loop: probe the empty cells of a line holding two of the player's stones and two empty cells. */
  method ScoreProbes(board: Board, score: int, ghost exact: int, emptyLinePositions: Long, playerCount: int, emptyCount: int,
                     player: Long, occupiedPositions: Long, w: Values, lines: seq<Long>, ghost moves: int)
    returns (s: int)
    requires Valid(w) && score == Wrap32(exact) && moves == PopCount(Or(board.xPositions, board.oPositions))
    ensures s == Wrap32(exact + CountedProbes(playerCount, emptyCount, emptyLinePositions, player, occupiedPositions, moves, w, lines))
  {
    if playerCount == 2 && emptyCount == 2 {
      s := ProbeEmptyCells(board, score, exact, emptyLinePositions, player, occupiedPositions, w, lines, moves);
    } else {
      s := score;
      WrapEq(exact, exact + CountedProbes(playerCount, emptyCount, emptyLinePositions, player, occupiedPositions, moves, w, lines));
    }
  }

  /** Probe every empty cell of a line, in the order `Bit.onesList` lists them. */
  method ProbeEmptyCells(board: Board, score: int, ghost exact: int, emptyLinePositions: Long, player: Long, occupiedPositions: Long, w: Values, lines: seq<Long>,
                         ghost moves: int)
    returns (s: int)
    requires Valid(w) && score == Wrap32(exact) && moves == PopCount(Or(board.xPositions, board.oPositions))
    ensures s == Wrap32(exact + EmptyCellProbes(emptyLinePositions, player, occupiedPositions, moves, w, lines))
  {
    var emptyPositionsList := OnesList(emptyLinePositions);
    s := ProbeLine(board, score, exact, emptyPositionsList, player, occupiedPositions, w, lines, moves);
    ProbesOfList(emptyPositionsList, emptyLinePositions, player, occupiedPositions, moves, w, lines);
  }

  /** The probes over the list `onesList` returns are the probes over the line's empty cells. */
  lemma ProbesOfList(candidates: seq<int>, empty: Long, player: Long, occupied: Long, moveCount: int, w: Values, lines: seq<Long>)
    requires candidates == OnesListValue(empty)
    ensures ProbeBonus(candidates, player, occupied, moveCount, w, lines) == EmptyCellProbes(empty, player, occupied, moveCount, w, lines)
  {
  }

  /** Equal exact values wrap to the same `int`. */
  lemma WrapEq(a: int, b: int)
    requires a == b
    ensures Wrap32(a) == Wrap32(b)
  {
  }

  /** A line's score from its three counts. */
  lemma LineScoreParts(line: Long, player: Long, opponent: Long, moves: int, w: Values, lines: seq<Long>, playerCount: int, opponentCount: int, emptyCount: int)
    requires playerCount == PopCount(And(line, player)) && opponentCount == PopCount(And(line, opponent))
    requires emptyCount == PopCount(And(line, Not(Or(player, opponent))))
    ensures LineScore(line, player, opponent, moves, w, lines)
      == OpenScore(playerCount, opponentCount, PopCount(And(And(line, player), CenterMask)), PopCount(And(And(line, opponent), CenterMask)), w)
      + CountedProbes(playerCount, emptyCount, And(line, Not(Or(player, opponent))), player, Or(player, opponent), moves, w, lines)
      + ThreatScore(playerCount, opponentCount, emptyCount, w)
  {
  }

  /** The first branch of the line loop: credit a line open for the player, debit one open for the opponent. */
  method ScoreOpen(score: int, ghost exact: int, playerLinePositions: Long, opponentLinePositions: Long, playerCount: int, opponentCount: int, w: Values)
    returns (s: int)
    requires Valid(w) && score == Wrap32(exact)
    ensures s == Wrap32(exact + OpenScore(playerCount, opponentCount,
      PopCount(And(playerLinePositions, CenterMask)), PopCount(And(opponentLinePositions, CenterMask)), w))
  {
    if playerCount > 0 && opponentCount == 0 {
      var centerCount := CountOnes(And(playerLinePositions, CenterMask));
      s := OpenCredit(score, exact, playerCount, centerCount, w);
    } else if opponentCount > 0 && playerCount == 0 {
      var centerCount := CountOnes(And(opponentLinePositions, CenterMask));
      s := OpenDebit(score, exact, opponentCount, centerCount, w);
    } else {
      s := score;
    }
  }

  /** `score += getScore(playerCount, centerCount, w)`. */
  method OpenCredit(score: int, ghost exact: int, count: int, centerCount: int, w: Values) returns (s: int)
    requires Valid(w) && score == Wrap32(exact)
    ensures s == Wrap32(exact + (BaseScore(count, w) + centerCount * w.CenterMultiplier))
  {
    s := AddTerm(score, exact, BaseScore(count, w) + centerCount * w.CenterMultiplier, GetScore(count, centerCount, w));
  }

  /** `score -= getScore(opponentCount, centerCount, w) * OPPONENT_SCORE_MULTIPLIER`. */
  method OpenDebit(score: int, ghost exact: int, count: int, centerCount: int, w: Values) returns (s: int)
    requires Valid(w) && score == Wrap32(exact)
    ensures s == Wrap32(exact + -((BaseScore(count, w) + centerCount * w.CenterMultiplier) * w.OpponentScoreMultiplier))
  {
    ghost var g := BaseScore(count, w) + centerCount * w.CenterMultiplier;
    s := SubProduct(score, exact, g, GetScore(count, centerCount, w), w.OpponentScoreMultiplier);
    assert exact - g * w.OpponentScoreMultiplier == exact + -(g * w.OpponentScoreMultiplier);
  }

  /** `score += t` where `t` is `Wrap32(g)`. */
  method AddTerm(score: int, ghost exact: int, ghost g: int, t: int) returns (s: int)
    requires score == Wrap32(exact) && t == Wrap32(g)
    ensures s == Wrap32(exact + g)
  {
    Add(exact, g, t);
    s := Wrap32(score + t);
  }

  /** `score -= t * m` where `t` is `Wrap32(g)` and `m` an `int`. */
  method SubProduct(score: int, ghost exact: int, ghost g: int, t: int, m: int) returns (s: int)
    requires score == Wrap32(exact) && t == Wrap32(g) && IsInt(m)
    ensures s == Wrap32(exact - g * m)
  {
    WrapIdentity(m);
    MulWrap(g, m);
    Sub(exact, g * m, Wrap32(t * m));
    s := Wrap32(score - Wrap32(t * m));
  }

  /** The immediate threat penalty and the immediate win bonus of one line. */
  method ScoreThreats(score: int, ghost exact: int, playerCount: int, opponentCount: int, emptyCount: int, w: Values)
    returns (s: int)
    requires Valid(w) && score == Wrap32(exact)
    ensures s == Wrap32(exact + ThreatScore(playerCount, opponentCount, emptyCount, w))
  {
    ghost var e := exact;
    s := score;
    if opponentCount == 3 && emptyCount == 1 {
      s := SubProduct(s, e, w.ImmediateThreatPenalty, w.ImmediateThreatPenalty, 1);
      e := e - w.ImmediateThreatPenalty * 1;
    }
    if playerCount == 3 && emptyCount == 1 {
      WrapIdentity(w.ImmediateWinBonus);
      s := AddTerm(s, e, w.ImmediateWinBonus, w.ImmediateWinBonus);
      e := e + w.ImmediateWinBonus;
    }
    assert e == exact + ThreatScore(playerCount, opponentCount, emptyCount, w);
  }

  /** `score += count * multiplier` in `int` arithmetic. */
  method Credit(score: int, ghost exact: int, count: int, multiplier: int) returns (s: int)
    requires score == Wrap32(exact) && IsInt(multiplier)
    ensures s == Wrap32(exact + count * multiplier)
  {
    WrapIdentity(multiplier);
    MulWrap(count, multiplier);
    Add(exact, count * multiplier, Wrap32(Wrap32(count) * multiplier));
    s := Wrap32(score + Wrap32(Wrap32(count) * multiplier));
  }

  /** `score -= count * multiplier` in `int` arithmetic. */
  method Debit(score: int, ghost exact: int, count: int, multiplier: int) returns (s: int)
    requires score == Wrap32(exact) && IsInt(multiplier)
    ensures s == Wrap32(exact - count * multiplier)
  {
    WrapIdentity(multiplier);
    MulWrap(count, multiplier);
    Sub(exact, count * multiplier, Wrap32(Wrap32(count) * multiplier));
    s := Wrap32(score - Wrap32(Wrap32(count) * multiplier));
  }

  /** `evaluate(board, player, w)`: the exact score reduced to a Java `int`. */
  method Evaluate(board: Board, player: Player, w: Values, lines: seq<Long>) returns (score: int)
    requires Valid(w)
    ensures IsInt(score)
    ensures score == Wrap32(ExactScore(board.xPositions, board.oPositions, player, w, lines))
  {
    var opponent := Other(player);
    var playerPositions := if player == X then board.xPositions else board.oPositions;
    var opponentPositions := if player == X then board.oPositions else board.xPositions;
    ghost var x, o := board.xPositions, board.oPositions;
    ghost var moves := PopCount(Or(x, o));
    ghost var e;
    score, e := ScoreLinesAndControls(board, playerPositions, opponentPositions, w, lines, moves);
    assert board.PositionsOf(opponent) == opponentPositions;
    ghost var total := e + ForksScore(playerPositions, opponentPositions, w, lines);
    score := ScoreAllForks(board, score, e, opponent, playerPositions, opponentPositions, w, lines, total);
    ExactScoreParts(x, o, player, w, lines, playerPositions, opponentPositions, moves);
    assert total == ExactScore(x, o, player, w, lines);
  }

  /** The line loop and the three control terms of `evaluate`. */
  method ScoreLinesAndControls(board: Board, playerPositions: Long, opponentPositions: Long, w: Values, lines: seq<Long>, ghost moves: int)
    returns (score: int, ghost e: int)
    requires Valid(w) && moves == PopCount(Or(board.xPositions, board.oPositions))
    ensures e == LinesScore(lines, playerPositions, opponentPositions, moves, w, lines) + ControlScores(playerPositions, opponentPositions, w)
    ensures score == Wrap32(e)
  {
    e := LinesScore(lines, playerPositions, opponentPositions, moves, w, lines) + ControlScores(playerPositions, opponentPositions, w);
    score := ScoreLines(board, playerPositions, opponentPositions, w, lines, moves);
    score := ScoreControls(score, LinesScore(lines, playerPositions, opponentPositions, moves, w, lines), playerPositions, opponentPositions, w);
  }

  /** `ExactScore` as the three sums `evaluate` adds up in turn. */
  lemma ExactScoreParts(x: Long, o: Long, player: Player, w: Values, lines: seq<Long>, mine: Long, theirs: Long, moves: int)
    requires mine == (if player == X then x else o) && theirs == (if player == X then o else x)
    requires moves == PopCount(Or(x, o))
    ensures ExactScore(x, o, player, w, lines)
      == LinesScore(lines, mine, theirs, moves, w, lines) + ControlScores(mine, theirs, w) + ForksScore(mine, theirs, w, lines)
  {
  }

  /** The three control pairs of `evaluate`: the centre, the P-corners and the B-corners. */
  method ScoreControls(score: int, ghost exact: int, playerPositions: Long, opponentPositions: Long, w: Values)
    returns (s: int)
    requires Valid(w) && score == Wrap32(exact)
    ensures s == Wrap32(exact + ControlScores(playerPositions, opponentPositions, w))
  {
    ghost var center := ControlScore(playerPositions, opponentPositions, CenterMask, w.CenterControlMultiplier, w.OpponentCenterControlMultiplier);
    ghost var pCorners := ControlScore(playerPositions, opponentPositions, PCornerMask, w.PCornerControlMultiplier, w.OpponentPCornerControlMultiplier);
    ghost var bCorners := ControlScore(playerPositions, opponentPositions, BCornerMask, w.BCornerControlMultiplier, w.OpponentBCornerControlMultiplier);
    s := ScoreControl(score, exact, playerPositions, opponentPositions, CenterMask, w.CenterControlMultiplier, w.OpponentCenterControlMultiplier);
    s := ScoreControl(s, exact + center, playerPositions, opponentPositions, PCornerMask, w.PCornerControlMultiplier, w.OpponentPCornerControlMultiplier);
    s := ScoreControl(s, exact + center + pCorners, playerPositions, opponentPositions, BCornerMask, w.BCornerControlMultiplier, w.OpponentBCornerControlMultiplier);
    WrapEq(exact + center + pCorners + bCorners, exact + ControlScores(playerPositions, opponentPositions, w));
  }

  /** The loop of `evaluate` over every line. */
  method ScoreLines(board: Board, playerPositions: Long, opponentPositions: Long, w: Values, lines: seq<Long>, ghost moves: int)
    returns (score: int)
    requires Valid(w) && moves == PopCount(Or(board.xPositions, board.oPositions))
    ensures score == Wrap32(LinesScore(lines, playerPositions, opponentPositions, moves, w, lines))
  {
    score := 0;
    for i := 0 to |lines|
      invariant score == Wrap32(LinesScore(lines[..i], playerPositions, opponentPositions, moves, w, lines))
    {
      score := ScoreLine(board, score, LinesScore(lines[..i], playerPositions, opponentPositions, moves, w, lines),
        lines[i], playerPositions, opponentPositions, w, lines, moves);
      LinesScoreSnoc(lines, i, playerPositions, opponentPositions, moves, w);
    }
    assert lines[..|lines|] == lines;
  }

  /** One pair of control terms of `evaluate`: the player's stones on `mask` credited, the opponent's debited. */
  method ScoreControl(score: int, ghost exact: int, playerPositions: Long, opponentPositions: Long, mask: Long,
                      multiplier: int, opponentMultiplier: int)
    returns (s: int)
    requires score == Wrap32(exact) && IsInt(multiplier) && IsInt(opponentMultiplier)
    ensures s == Wrap32(exact + ControlScore(playerPositions, opponentPositions, mask, multiplier, opponentMultiplier))
  {
    var playerControl := CountOnes(And(playerPositions, mask));
    var opponentControl := CountOnes(And(opponentPositions, mask));
    s := Credit(score, exact, playerControl, multiplier);
    s := Debit(s, exact + playerControl * multiplier, opponentControl, opponentMultiplier);
  }

  /** The fork terms of `evaluate`: both sides' forks, then the opponent's forks after its next stone. */
  method ScoreAllForks(board: Board, score: int, ghost exact: int, opponent: Player, playerPositions: Long, opponentPositions: Long,
                       w: Values, lines: seq<Long>, ghost total: int)
    returns (s: int)
    requires Valid(w) && score == Wrap32(exact) && board.PositionsOf(opponent) == opponentPositions
    requires total == exact + ForksScore(playerPositions, opponentPositions, w, lines)
    ensures s == Wrap32(total)
  {
    var occupiedPositions := Or(playerPositions, opponentPositions);
    var playerForks := EvaluatePotentialForks(playerPositions, occupiedPositions, lines);
    var opponentForks := EvaluatePotentialForks(opponentPositions, occupiedPositions, lines);
    s := Credit(score, exact, playerForks, w.PlayerForksMultiplier);
    ghost var e := exact + playerForks * w.PlayerForksMultiplier;
    s := Debit(s, e, opponentForks, w.OpponentForksMultiplier);
    e := e - opponentForks * w.OpponentForksMultiplier;
    var opponentPotentialForks := EvaluateOpponentPotentialForks(board, opponent, occupiedPositions, lines);
    s := Debit(s, e, opponentPotentialForks, w.OpponentPotentialForksPenalty);
    WrapEq(e - opponentPotentialForks * w.OpponentPotentialForksPenalty, total);
  }

  // ---------------------------------------------------------------------
  // Properties of the evaluation
  // ---------------------------------------------------------------------

  /** A side with no stone has no potential line. */
  lemma {:induction false} NoPotentialLines(lines: seq<Long>, player: Long, occupied: Long)
    requires forall k :: 0 <= k < |lines| ==> PopCount(And(lines[k], player)) < 2
    ensures PotentialLines(lines, player, occupied) == []
  {
    if lines != [] {
      var init := lines[..|lines| - 1];
      assert forall k :: 0 <= k < |init| ==> init[k] == lines[k];
      NoPotentialLines(init, player, occupied);
    }
  }

  /** After one stone on an empty board no side has a potential line. */
  lemma OneStone(lines: seq<Long>, c: int, occupied: Long)
    ensures PotentialLines(lines, SetBit(ZERO, c), occupied) == []
  {
    forall k | 0 <= k < |lines|
      ensures PopCount(And(lines[k], SetBit(ZERO, c))) < 2
    {
      AtMostOne(And(lines[k], SetBit(ZERO, c)), CellOf(c));
    }
    NoPotentialLines(lines, SetBit(ZERO, c), occupied);
  }

  lemma {:induction false} NoProbes(candidates: seq<int>, lines: seq<Long>)
    ensures ProbeSum(candidates, ZERO, ZERO, lines) == 0
  {
    if candidates != [] {
      var c := candidates[|candidates| - 1];
      NoProbes(candidates[..|candidates| - 1], lines);
      OneStone(lines, c, Or(ZERO, PositionMask(c)));
    }
  }

  lemma {:induction false} EmptyLines(ls: seq<Long>, moveCount: int, w: Values, lines: seq<Long>)
    ensures LinesScore(ls, ZERO, ZERO, moveCount, w, lines) == 0
  {
    if ls != [] {
      EmptyLines(ls[..|ls| - 1], moveCount, w, lines);
      var l := ls[|ls| - 1];
      assert And(l, ZERO) == ZERO;
      PopCountZero(ZERO);
    }
  }

  /** No stone controls any centre or corner cell. */
  lemma EmptyControl(w: Values)
    ensures ControlScores(ZERO, ZERO, w) == 0
  {
    assert And(ZERO, CenterMask) == ZERO && And(ZERO, PCornerMask) == ZERO && And(ZERO, BCornerMask) == ZERO;
    PopCountZero(ZERO);
  }

  /** With no stone on the board no side has a potential line, so no fork. */
  lemma EmptyPotentialForks(lines: seq<Long>)
    ensures PotentialForks(ZERO, ZERO, lines) == 0
  {
    forall k | 0 <= k < |lines|
      ensures PopCount(And(lines[k], ZERO)) < 2
    {
      assert And(lines[k], ZERO) == ZERO;
      PopCountZero(ZERO);
    }
    NoPotentialLines(lines, ZERO, ZERO);
  }

  /** With no stone on the board neither side has a fork, now or after one more stone. */
  lemma EmptyForks(w: Values, lines: seq<Long>)
    ensures ForksScore(ZERO, ZERO, w, lines) == 0
  {
    assert Or(ZERO, ZERO) == ZERO;
    EmptyPotentialForks(lines);
    NoProbes(OnesListValue(Not(ZERO)), lines);
    assert PotentialForks(ZERO, ZERO, lines) == 0;
    assert OpponentPotentialForks(ZERO, ZERO, lines) == 0;
  }

  /** The empty board is worth 0 to either player, whatever the weights and lines. */
  lemma EmptyBoardScore(player: Player, w: Values, lines: seq<Long>)
    ensures ExactScore(ZERO, ZERO, player, w, lines) == 0
  {
    ExactScoreParts(ZERO, ZERO, player, w, lines, ZERO, ZERO, PopCount(Or(ZERO, ZERO)));
    EmptyLines(lines, PopCount(Or(ZERO, ZERO)), w, lines);
    EmptyControl(w);
    EmptyForks(w, lines);
  }

  /** On a board whose players share no cell, a line's cells are its player stones, its opponent stones and its empty cells. */
  lemma LineShares(line: Long, player: Long, opponent: Long)
    requires Disjoint(player, opponent)
    ensures PopCount(And(line, player)) + PopCount(And(line, opponent)) + PopCount(And(line, Not(Or(player, opponent)))) == PopCount(line)
  {
    SplitCount(line, player);
    var rest := And(line, Not(player));
    SplitCount(rest, opponent);
    assert And(rest, opponent) == And(line, opponent);
    assert And(rest, Not(opponent)) == And(line, Not(Or(player, opponent)));
  }

  /** A four-cell line holding stones of both players is worth nothing to either. */
  lemma BlockedLine(line: Long, player: Long, opponent: Long, moveCount: int, w: Values, lines: seq<Long>)
    requires Disjoint(player, opponent) && PopCount(line) == 4
    requires PopCount(And(line, player)) > 0 && PopCount(And(line, opponent)) > 0
    ensures LineScore(line, player, opponent, moveCount, w, lines) == 0
  {
    LineShares(line, player, opponent);
  }
}
