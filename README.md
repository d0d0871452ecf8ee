# A verified model of the 4×4×4 four-in-a-row engine

This project models the sequential core of a Java engine for four-in-a-row on a
4×4×4 cube. The model is written in Dafny and its properties are proved by the
Dafny verifier. Seven source files are covered:

- **Bit helpers** (`Bit.java`): single-bit set, clear and test; population count;
  the hand-written leading-zero count; the iterator over set bits; `onesList`.
- **Coordinates** (`Coordinate.java`): cell index to (x, y, z) and back.
- **Board** (`Board.java`): two 64-bit bitsets (`xPositions`, `oPositions`).
  Place and undo in place, occupancy queries, the ascending list of free cells,
  the win test, the `toString` serialiser and the `valueOf` parser.
- **Static evaluator** (`Heuristic.java`): the score of a position in Java `int`
  arithmetic. It has open-line scores, threat and win terms, 2+2 fork probes,
  centre and corner control, fork pairs and the opponent's reply forks.
- **Search** (`AIPlayer.java`): the Zobrist hash, the transposition-table probe
  and store, alpha-beta `minimax` with make/undo on one shared board, the
  immediate win and block finder, the opening shortcuts, one-ply move ordering,
  the root tie set, the convergence counter, `shouldParallelize` and the depth
  clamp.
- **Weights** (`Weights.java`): the 17-field weight record with its defaults, the
  `KEY=value` String constructor, `toString`, `copy`, `crossover`, `randomize`
  and `mutate`.
- **Static files** (`StaticFileHandler.java`): the routing decision of `handle`.
  It covers the "/" rewrite, the ".." guard, the MIME lookup and
  `getFileExtension`.

## How the model is built

- A Java `long` is a `Long`: a sequence of 64 booleans, bit 0 first. Every
  bit operation is defined bit by bit. `x - 1` is binary decrement with
  borrow, proved equal to subtraction of one modulo 2^64 (`Bits.DecValue`).
- Java shift distances use only their low six bits. `1L << p` therefore sets
  bit `p mod 64` (`Bits.CellOf`), and negative cell numbers are modelled
  faithfully.
- Java `int` arithmetic in `Heuristic.evaluate` is modelled with `Wrap32`, the
  two's-complement reduction modulo 2^32. Each method of the evaluator keeps
  its running `int` score equal to `Wrap32` of an exact sum. That sum is the
  function `Heuristics.ExactScore`.
- Classes whose fields change in place become Dafny classes:
  - `Boards.Board` (the bitsets);
  - `Bits.BitIterator` (its remaining bits);
  - `Weights.Weights` (the 17 fields, held as one `Values` record);
  - `Search.AIPlayer` (deadline, `timeUp`, `bestMoveSoFar`, `lastDepth`,
    `lastBestMove`, `consistentMoveCount` and the transposition table, a `map`).
- Loops become `while` loops with invariants, proved against specification
  functions:
  - `countOnes`, `countLeadingZeros` and `onesList`;
  - `getAvailableMoves` and `valueOf`;
  - the line loops of `evaluate` and the fork counters;
  - `computeZobristHash`;
  - the move-ordering loops and the child loops of `minimax`;
  - the root loop and the depth loop of `chooseBestMove`;
  - the best-value scan.
- External inputs:
  - The clock is a `Search.Clock` object. `NanoTime` can only move forward.
    What it decided at each `minimax` call (past the deadline or not, and
    for how many children of a loop) is returned as a ghost `Search.Timing`
    tree. `Search.Search` is the call as a function of that tree, and the
    methods of the search are proved equal to it.
  - Random draws (the opening cell, the tie break, the weight draws and coins)
    are nondeterministic choices constrained only by their ranges.
  - The Zobrist keys and `Line.lines` are parameters. `Line.java` and
    `Player.java` are not part of this model. A line is any 64-bit mask;
    `Player.other` is the swap of `X` and `O`.
  - The file system of `StaticFileHandler` is a map from normalised paths to
    file bytes. `Paths.normalize` is a function parameter.

### Behaviour the model keeps as written

- **`countLeadingZeros`.** The binary search in `Bit.countLeadingZeros` shifts
  the value down to bit 0 and then adds `Long.numberOfLeadingZeros(1)`, which is
  63. For a non-zero `x` it therefore returns the index of the highest set bit
  plus 63, not the leading-zero count (`Bits.CountLeadingZeros`). It agrees
  with the JDK only for 0 and 1 (`Bits.CountLeadingZerosVersusJdk`).
- **`leadingOne`.** `leadingOne(mask(p))` is `-p`, so the comment's "inverse of
  mask" holds only for cell 0 (`Bits.LeadingOneOfMask`).
- **`onesList`.** `BitIterator.next` and `onesList` return the negated cell
  numbers, lowest first (`Bits.OnesListFacts`).
- **Fork probes.** `Heuristic.evaluate` and `evaluateOpponentPotentialForks`
  feed those entries to `Bit.set` and `Bit.positionMask`. Their fork probes
  therefore place the hypothetical stone on the mirror cell `(64 - c) mod 64`.
  That cell may already be occupied (`Heuristics.ProbeCells`,
  `Heuristics.ProbeOnOccupiedCell`). The evaluator's numbers depend on this,
  so the model computes exactly this.
- **Weights round trip.** `new Weights(w.toString())` restores every field
  except `SCORE_ONE`. Once the braces are removed, the first key reads
  `WeightsS1`, which the constructor ignores (`Weights.ParseToString`).

### Behaviour of the code worth noting

- A leaf is stored with the flag its value gives against the window: 2 when
  it is at most alpha, 1 when it is at least beta, 0 otherwise
  (AIPlayer.java:489-490).
- A max node stores flag 1 when its value reaches beta, and flag 0 in every
  other case (AIPlayer.java:531-532). That includes a node whose children all
  fail low and a node whose child loop the deadline cut short
  (AIPlayer.java:518-521). A min node does the same with flag 2 and alpha
  (AIPlayer.java:554-555). The contracts state this rule for the flags. They
  do not claim that a flag-0 value is the minimax value.
- `bestMoveSoFar` starts at -1 (AIPlayer.java:163). When the deadline cuts
  the first depth, the loop breaks before any pick is adopted
  (AIPlayer.java:326-332), and `chooseBestMove` returns -1
  (AIPlayer.java:388).
- A pick that brings the counter to `CONVERGENCE_THRESHOLD` breaks the loop
  before `bestMoveSoFar` is assigned (AIPlayer.java:348-356). The move
  adopted at the previous depth remains (AIPlayer.java:362-363).

## Model

| member | source | states |
|---|---|---|
| `Bits.Mask` | Bit.java:62-64 | `mask(pos)`, i.e. `1L << pos`, has exactly one bit: `pos mod 64` |
| `Bits.IsSet` | Bit.java:19-21 | `isSet(x, pos)` holds iff bit `pos mod 64` of `x` is 1 |
| `Bits.SetBit` | Bit.java:30-32 | `set` turns bit `pos mod 64` on and leaves every other bit as it was |
| `Bits.ClearBit` | Bit.java:41-43 | `clear` turns bit `pos mod 64` off and leaves every other bit as it was |
| `Bits.SetClearIsSet` | Bit.java:19-43 | `isSet` after `set`/`clear` sees the change only at that cell; clearing after setting equals clearing, setting after clearing equals setting |
| `Bits.PositionMask` | Bit.java:51-53 | `positionMask(pos)` is `mask(pos)`: only bit `pos mod 64` |
| `Bits.PositionMaskCells` | Bit.java:51-64 | the mask has the single cell `pos mod 64` and the unsigned value `2^(pos mod 64)` |
| `Bits.DecValue` | Bit.java:87 | the `x - 1` of the loop is subtraction of one, wrapping from 0 to 2^64 - 1 |
| `Bits.ClearLowest` | Bit.java:164-169 | `x & (x - 1)` removes exactly the lowest cell of a non-zero `x`, and `x ^ (x & (x - 1))` is the mask of that cell |
| `Bits.CountOnes` | Bit.java:84-91 | `countOnes(x)` returns the number of 1 bits of `x` |
| `Bits.PopCountZero` | Bit.java:84-91 | the count is 0 exactly for `x == 0` |
| `Bits.FullCells` | Bit.java:84-91 | the count is 64 exactly when every bit is 1 |
| `Bits.CountLeadingZeros` | Bit.java:99-113 | as written: 64 for 0, otherwise the highest set cell plus 63 |
| `Bits.CountLeadingZerosVersusJdk` | Bit.java:99-113 | the as-written count equals `Long.numberOfLeadingZeros` exactly for 0 and 1 |
| `Bits.LeadingOne` | Bit.java:72-76 | `leadingOne(x)` is -1 for 0 and minus the highest set cell otherwise |
| `Bits.LeadingOneOfMask` | Bit.java:67-76 | `leadingOne(mask(p)) == -p`, which equals `p` only for `p == 0` |
| `Bits.NumberOfLeadingZeros` | Bit.java:112 | `Long.numberOfLeadingZeros`, in `0..64` |
| `Bits.NumberOfTrailingZeros` | AIPlayer.java:592 | `Long.numberOfTrailingZeros`: 64 for zero, otherwise the lowest set cell |
| `Bits.BitIterator.constructor` | Bit.java:156-158 | the new iterator holds the given bits |
| `Bits.BitIterator.HasNext` | Bit.java:160-162 | `hasNext` holds iff some set bit remains |
| `Bits.BitIterator.Next` | Bit.java:164-169 | `next` removes exactly the lowest remaining cell and returns minus that cell; an exhausted iterator stays empty and returns -1 |
| `Bits.OnesList` | Bit.java:121-147 | `onesList` collects what the iterator returns, into the list `OnesListValue(bits)` |
| `Bits.OnesListFacts` | Bit.java:141-147 | `onesList(bits)` has one entry per set bit; entry `i` is minus the `i`-th set cell in ascending order |
| `Bits.OnesListDistance` | Bit.java:30-32 | used as a shift distance, entry `i` of `onesList` reaches the mirror cell `(64 - p) mod 64` of its cell `p`, which is `p` only for cells 0 and 32 |
| `Coordinates.GetX` | Coordinate.java:14-16 | `getX` lies in `0..3` for a non-negative position (Java `%` for negative ones) and is the position modulo 4 |
| `Coordinates.GetY` | Coordinate.java:18-20 | `getY` lies in `0..3` for a non-negative position |
| `Coordinates.GetZ` | Coordinate.java:22-24 | `getZ` is the layer: `16·z <= p < 16·z + 16`, and in `0..3` on the board |
| `Coordinates.Position` | Coordinate.java:26-28 | `position(x, y, z)` is a Java `int`, in `0..63` for in-range coordinates |
| `Coordinates.PositionOfCoordinates` | Coordinate.java:14-28 | `position(getX(p), getY(p), getZ(p)) == p` for every cell |
| `Coordinates.CoordinatesOfPosition` | Coordinate.java:14-28 | `getX`, `getY`, `getZ` of `position(x, y, z)` give back `x`, `y`, `z` |
| `Boards.Other` | Heuristic.java:49 | the other player differs from the player |
| `Boards.CellAt` | Board.java:18-26 | `get`: `X` if the X bit is set, else `O` if the O bit is set, else `null` |
| `Boards.AssignGet` | Board.java:33-44 | after `set(p, pl)` cell `p` holds `pl`, every other cell is unchanged, and disjoint bitsets stay disjoint |
| `Boards.AssignTwice` | Board.java:33-44 | `set` is idempotent |
| `Boards.UndoAfterMake` | Board.java:74-80 | `makeMove` then `undoMove` on an empty cell restores both bitsets exactly |
| `Boards.Symbol` | Board.java:143 | each cell is written as a single character |
| `Boards.Render` | Board.java:138-146 | the text has one character per cell, in index order: `.`, `X` or `O` |
| `Boards.Step` | Board.java:89-112 | one character of `valueOf` is rejected, with that character, exactly when it is none of `xXoO. \|` |
| `Boards.ParseFailure` | Board.java:85-115 | `valueOf` fails exactly when some character is not allowed, and reports the first such character |
| `Boards.ParseToString` | Board.java:82-115 | `valueOf(toString())` restores a position with disjoint bitsets exactly |
| `Boards.FirstCovered` | Board.java:177-185 | the index of the first line all of whose cells the player holds, or none |
| `Boards.AvailableCells` | Board.java:58-72 | the free cells are the cells of `~(x \| o)`, and there are `64 - popcount(x \| o)` of them |
| `Boards.EmptyBoth` | Board.java:50-52 | `x \| o == 0` iff both bitsets are 0 iff every cell is empty |
| `Boards.Board.constructor` | Board.java:12-16 | a new board has no stones |
| `Boards.Board.Get` | Board.java:18-26 | `get(position)` reads the cell from the two bitsets |
| `Boards.Board.GetAt` | Board.java:28-31 | `get(x, y, z)` is `get(x + 4y + 16z)` for in-range coordinates |
| `Boards.Board.Occupied` | Board.java:60 | `xPositions \| oPositions` holds exactly the occupied cells |
| `Boards.Board.Set` | Board.java:33-44 | `set` gives the cell its new content, leaves every other cell alone and keeps the bitsets disjoint |
| `Boards.Board.MakeMove` | Board.java:74-76 | `makeMove` puts the player's stone on the cell and changes nothing else |
| `Boards.Board.UndoMove` | Board.java:78-80 | `undoMove` empties the cell in both bitsets and changes nothing else |
| `Boards.Board.TotalMoves` | Board.java:54-56 | the number of occupied cells, in `0..64` |
| `Boards.Board.IsFull` | Board.java:46-48 | holds iff every cell is occupied |
| `Boards.Board.IsEmpty` | Board.java:50-52 | holds iff both bitsets are 0, i.e. iff every cell is empty |
| `Boards.Board.IsValidMove` | Board.java:69-72 | holds iff the cell is empty, iff it appears among the available moves |
| `Boards.Board.GetAvailableMoves` | Board.java:58-67 | strictly ascending, exactly the empty cells, `64 - totalMoves` of them |
| `Boards.Board.ToString` | Board.java:138-146 | 64 characters, one symbol per cell in index order |
| `Boards.Board.HasWon` | Board.java:161-169 | holds iff some line lies entirely in the player's bitset |
| `Boards.Board.GetWinningLine` | Board.java:177-185 | null iff the player has no complete line; otherwise the first complete line |
| `Boards.Board.ValueOf` | Board.java:85-115 | a fresh board holding exactly the parsed cells, or the `IllegalArgumentException` for the first rejected character |
| `Heuristics.MaskOf` | Heuristic.java:27-33 | the mask has exactly the listed cells (each `mod 64`) |
| `Heuristics.ComputePositionMask` | Heuristic.java:27-33 | `computePositionMask` returns the mask of its positions |
| `Heuristics.MaskCells` | Heuristic.java:27-33 | the mask of ascending cells lists exactly those cells, and its count is their number |
| `Heuristics.MasksComputed` | Heuristic.java:35-37 | the three mask constants are what `computePositionMask` makes of the three position sets |
| `Heuristics.CenterCells` | Heuristic.java:10-13 | the centre mask holds exactly its 8 cells |
| `Heuristics.PCornerCells` | Heuristic.java:16-19 | the middle-plane corner mask holds exactly its 8 cells |
| `Heuristics.BCornerCells` | Heuristic.java:22-25 | the board corner mask holds exactly its 8 cells |
| `Heuristics.MasksDisjoint` | Heuristic.java:10-37 | no cell lies in two of the three masks |
| `Heuristics.BaseScore` | Heuristic.java:149-155 | the base score is a Java `int`, and 0 for a count outside `1..4` |
| `Heuristics.BaseScoreField` | Heuristic.java:149-155 | counts 1 to 4 select `SCORE_ONE` to `SCORE_FOUR` |
| `Heuristics.GetScore` | Heuristic.java:148-160 | `getScore` is base score plus `centerCount · CENTER_MULTIPLIER`, reduced to an `int` |
| `Heuristics.PotentialLinesMembers` | Heuristic.java:174-186 | the collected lines are exactly the lines with two own stones and two empty cells |
| `Heuristics.PotentialLines` | Heuristic.java:174-186 | the collected lines are a selection of the lines, never more of them |
| `Heuristics.CountMeetsZero` | Heuristic.java:189-196 | no later line shares an empty cell with a line exactly when its count is 0 |
| `Heuristics.ForksBound` | Heuristic.java:189-196 | `k` potential lines give at most `k(k-1)/2` fork pairs |
| `Heuristics.NoForks` | Heuristic.java:189-196 | potential lines that share no empty cell give no fork |
| `Heuristics.PotentialForks` | Heuristic.java:169-199 | what `evaluatePotentialForks` returns: the fork pairs among the potential lines, never negative |
| `Heuristics.EmptyPotentialForks` | Heuristic.java:169-199 | a side with no stone has no fork |
| `Heuristics.EvaluatePotentialForks` | Heuristic.java:169-199 | the loop counts the pairs `i < j` of potential lines sharing an empty cell |
| `Heuristics.EvaluateOpponentPotentialForks` | Heuristic.java:209-227 | the sum, over the entries of `onesList(~occupied)`, of the opponent's forks after a stone there |
| `Heuristics.OpponentPotentialForks` | Heuristic.java:209-227 | what `evaluateOpponentPotentialForks` returns: the probe sum over the `onesList` entries, never negative |
| `Heuristics.NoProbes` | Heuristic.java:209-227 | on the empty board no probe makes a fork |
| `Heuristics.ProbeCells` | Heuristic.java:213-217 | the `k`-th probe lands on the mirror `(64 - c) mod 64` of the `k`-th empty cell `c` |
| `Heuristics.ProbeOnOccupiedCell` | Heuristic.java:213-217 | with only cell 1 occupied, the probe of empty cell 63 lands on the occupied cell 1 |
| `Heuristics.ProbeScore` | Heuristic.java:94-103 | a probe adds `SCORE_THREE` for a fork before move 10, `4·SCORE_THREE` for a fork from move 10 on, and `2·SCORE_TWO` without a fork |
| `Heuristics.ProbeLine` | Heuristic.java:79-104 | the probe loop adds each candidate's probe value to the `int` score |
| `Heuristics.Probe` | Heuristic.java:80-103 | one probe: the forks after the hypothetical stone, scored by `ProbeScore`, as an `int` |
| `Heuristics.ProbeIncrement` | Heuristic.java:94-103 | the increment of one probe, in `int` arithmetic |
| `Heuristics.ProbeEmptyCells` | Heuristic.java:77-104 | the probes over the line's empty cells in `onesList` order |
| `Heuristics.ScoreLine` | Heuristic.java:56-115 | one pass of the line loop adds the line's exact score to the `int` score |
| `Heuristics.ScoreCounted` | Heuristic.java:66-115 | the open-line, probe and threat branches, given the three counts |
| `Heuristics.ScoreProbesAndThreats` | Heuristic.java:76-115 | the probe branch, then the threat and win terms |
| `Heuristics.ScoreProbes` | Heuristic.java:76-105 | probes are made only for two own stones and two empty cells |
| `Heuristics.ScoreOpen` | Heuristic.java:66-74 | an own-only line adds `getScore`, an opponent-only line subtracts `getScore · OPPONENT_SCORE_MULTIPLIER`, a mixed or empty line adds nothing |
| `Heuristics.OpenCredit` | Heuristic.java:68-69 | `score += getScore(...)` |
| `Heuristics.OpenDebit` | Heuristic.java:72-73 | `score -= getScore(...) * OPPONENT_SCORE_MULTIPLIER` |
| `Heuristics.ScoreThreats` | Heuristic.java:107-115 | 3 opponent stones and 1 empty cell subtract the threat penalty; 3 own stones and 1 empty cell add the win bonus |
| `Heuristics.Credit` | Heuristic.java:121 | `score += count * multiplier` in `int` arithmetic |
| `Heuristics.Debit` | Heuristic.java:122 | `score -= count * multiplier` in `int` arithmetic |
| `Heuristics.ScoreControl` | Heuristic.java:118-122 | own stones on a mask credited, opponent stones debited |
| `Heuristics.ScoreControls` | Heuristic.java:118-133 | the centre, P-corner and B-corner control terms |
| `Heuristics.ScoreLines` | Heuristic.java:55-116 | the line loop yields the wrapped sum of the line scores |
| `Heuristics.ScoreLinesAndControls` | Heuristic.java:55-133 | the line loop and the control terms, wrapped to an `int` |
| `Heuristics.ScoreAllForks` | Heuristic.java:135-143 | both sides' forks and the opponent's reply forks, wrapped to an `int` |
| `Heuristics.Evaluate` | Heuristic.java:47-146 | `evaluate` is `ExactScore` reduced to a Java `int`; the board is not modified |
| `Heuristics.LineShares` | Heuristic.java:58-64 | with disjoint sides, a line's own, opponent and empty counts add up to its size |
| `Heuristics.BlockedLine` | Heuristic.java:66-115 | a four-cell line holding stones of both sides scores nothing |
| `Heuristics.NoPotentialLines` | Heuristic.java:174-186 | a side with fewer than two stones on every line has no potential line |
| `Heuristics.OneStone` | Heuristic.java:209-220 | a single simulated stone on an empty board makes no potential line |
| `Heuristics.EmptyControl` | Heuristic.java:118-133 | no stone means no control score |
| `Heuristics.EmptyForks` | Heuristic.java:135-143 | on the empty board both fork terms and the reply-fork term are 0 |
| `Heuristics.EmptyBoardScore` | Heuristic.java:47-146 | the empty board is worth 0 to either player, for all weights and lines |
| `JavaInt.Wrap32` | Heuristic.java:48 | the Java `int` congruent to the exact value modulo 2^32 |
| `JavaInt.AddWrap` | Heuristic.java:69 | adding wrapped values then wrapping equals wrapping the exact sum |
| `JavaInt.MulWrap` | Heuristic.java:73 | the same for products |
| `JavaInt.Div` | AIPlayer.java:409 | Java integer division by a positive divisor truncates toward zero |
| `JavaInt.Rem` | Coordinate.java:14-16 | Java `%` by a positive divisor: the remainder takes the sign of the dividend |
| `JavaString.ParseInt` | Weights.java:53 | `Integer.parseInt` succeeds iff the text is an optional sign followed by decimal digits and the number fits a Java `int`, and then yields that number |
| `JavaString.ParseIntToString` | Weights.java:53 | `parseInt` reads back every `int` that string concatenation writes |
| `JavaString.Split` | Weights.java:49-51 | `split` of a text without the separator is the text itself |
| `JavaString.SplitOfJoin` | Weights.java:49-51 | splitting pieces joined with the separator gives the pieces back |
| `JavaString.RemoveAll` | Weights.java:49 | `replace(c, "")` leaves no `c` |
| `JavaString.LastIndexOf` | StaticFileHandler.java:70 | the last index holding the character, or -1 exactly when it is absent |
| `JavaString.Contains` | StaticFileHandler.java:40 | `contains` holds iff the pattern occurs at some index |
| `JavaString.ToLower` | StaticFileHandler.java:72 | each ASCII capital is lower-cased and every other character kept |
| `Weights.KeyIndex` | Weights.java:52-70 | a recognised key names the field whose key it is |
| `Weights.KeysDistinct` | Weights.java:52-70 | each of the 17 keys names its own field |
| `Weights.ApplyPart` | Weights.java:51-70 | a part changes no field except the one its key names |
| `Weights.ApplyKnown` | Weights.java:51-69 | `KEY=n` with a number sets exactly the field `KEY` names to `n` |
| `Weights.ApplyBadNumber` | Weights.java:51-69 | `KEY=text` with a known key and a text that is not a number throws |
| `Weights.ApplyAllStep` | Weights.java:50-71 | the parts are applied in order, each to the result of the ones before |
| `Weights.ApplyAllFailure` | Weights.java:50-71 | the first part that throws ends the constructor with that exception |
| `Weights.TextSplits` | Weights.java:49 | removing the braces and splitting `toString`'s text at ", " gives its 17 `KEY=value` parts |
| `Weights.TextWithoutBraces` | Weights.java:176-197 | without its braces, `toString`'s text is the entries joined by ", ", the first prefixed by `Weights` |
| `Weights.ParseToString` | Weights.java:47-72 | reading back `toString` restores every field except `SCORE_ONE`, which keeps its default 10 |
| `Weights.NudgeBound` | Weights.java:152-174 | away from the `int` range limits a mutation moves a field by at most its delta |
| `Weights.NudgeWraps` | Weights.java:153 | at the top of the range `SCORE_ONE += 5` can wrap to a very negative value |
| `Weights.NudgeValid` | Weights.java:152-174 | a mutated field is still a Java `int` |
| `Weights.Weights.constructor` | Weights.java:42-45 | `Weights(true)` has the declared defaults; `Weights(false)` has every drawn field in its range and the other three at their defaults |
| `Weights.Weights.RandInRange` | Weights.java:98-100 | the draw lies in `min..max` inclusive |
| `Weights.Weights.Randomize` | Weights.java:74-96 | the 14 drawn fields lie in their inclusive ranges; `SCORE_FOUR`, `IMMEDIATE_THREAT_PENALTY`, `IMMEDIATE_WIN_BONUS` are unchanged |
| `Weights.Weights.Copy` | Weights.java:102-122 | a fresh object with the same 17 fields |
| `Weights.Weights.Crossover` | Weights.java:124-150 | a fresh child whose every field is that of `p1` or of `p2`; the parents are not modified |
| `Weights.Weights.Nudge` | Weights.java:153 | one line of `mutate`: unchanged, or moved by a draw in `-delta..delta` in `int` arithmetic |
| `Weights.Weights.Mutate` | Weights.java:152-174 | each field independently is unchanged or moved by a draw within its delta, in `int` arithmetic |
| `Weights.Weights.Load` | Weights.java:47-72 | `new Weights(load)`: a fresh object with the defaults updated part by part, or the exception the first bad part raises |
| `Search.EmptyHash` | AIPlayer.java:442-452 | the empty board hashes to `EMPTY_ZOBRIST` |
| `Search.PlaceHash` | AIPlayer.java:442-452 | a stone on an empty cell XORs exactly that stone's key into the hash; XORing it again gives back the old hash |
| `Search.ProbeTable` | AIPlayer.java:460-477 | an absent or shallower entry leaves the window; an entry at least as deep answers an exact flag at once; flag 1 raises alpha to the stored value and flag 2 lowers beta to it; any other flag changes neither; the probe answers with the stored value exactly when the window it leaves is closed |
| `Search.LeafFlag` | AIPlayer.java:489 | a leaf's flag is 2 iff `eval <= alpha`, 1 iff `alpha < eval` and `eval >= beta`, 0 otherwise |
| `Search.MaxOf` | AIPlayer.java:516-525 | the running `Math.max` from a seed is at least the seed and every value, and is the seed or one of the values |
| `Search.MinOf` | AIPlayer.java:539-548 | the running `Math.min` from a seed is at most the seed and every value, and is the seed or one of the values |
| `Search.ScoreMap` | AIPlayer.java:256-262 | the score map has exactly the scored moves as keys |
| `Search.ScoreMapAt` | AIPlayer.java:256-262 | every move is recorded with its own one-ply score |
| `Search.ScoreMapScores` | AIPlayer.java:256-262 | the map the ordering loop builds is exactly the scored moves, each with its one-ply score, which is what the root order sorts by |
| `Search.SortMoves` | AIPlayer.java:509-513 | the ordering is a permutation of the moves |
| `Search.SortMovesSorted` | AIPlayer.java:509-513 | the ordering holds the same moves, sorted by score (descending for max, ascending for min) |
| `Search.RootOrderSorted` | AIPlayer.java:254-263 | the root order is a permutation of the empty cells, sorted by the AI's one-ply score, highest first |
| `Search.TiesOf` | AIPlayer.java:335-343 | the tie list holds only moves with the given value, and is non-empty iff some result has it |
| `Search.SelectBest` | AIPlayer.java:335-343 | the best value is the largest result value and the candidates are exactly the moves reaching it |
| `Search.SelectBestStep` | AIPlayer.java:335-343 | one more result raises the best value to its own or keeps it, and adds its move to the candidates exactly when it has the given value |
| `Search.WinCell` | AIPlayer.java:578-597 | -1 iff no line holds three of the player's stones and one empty cell; otherwise the empty cell of the first such line |
| `Search.WinCellFree` | AIPlayer.java:578-597 | the cell returned is empty |
| `Search.WinCellWins` | AIPlayer.java:578-597 | on four-cell lines, playing the returned cell completes a line |
| `Search.ShouldParallelize` | AIPlayer.java:405-419 | true iff at least two of: `maxDepth - depth < maxDepth / 4`, more than 15 moves, more than half the time budget left |
| `Search.ClampDepth` | AIPlayer.java:134 | the depth is clamped to `1..32` and kept when already inside |
| `Search.Clock.NanoTime` | AIPlayer.java:165 | `System.nanoTime`: a reading that never decreases |
| `Search.PairReplyIsPartner` | AIPlayer.java:198-221 | with one stone on the board, the reply is the partner of the opponent's pair cell, and it is empty |
| `Search.PickIsFree` | AIPlayer.java:335-346 | the pick of a finished depth is an empty cell |
| `Search.CountAfterRun` | AIPlayer.java:348-360 | the counter reaches `k` iff the last `k` picks each repeat the pick before them |
| `Search.CountAfterSnoc` | AIPlayer.java:348-360 | one more depth raises the counter by one for a repeated pick and resets it to 0 otherwise |
| `Search.SearchedMoveIsFree` | AIPlayer.java:247-388 | a move returned by the depth loop is an empty cell |
| `Search.ChosenMoveIsFree` | AIPlayer.java:154-395 | the chosen move is an empty cell or -1, and -1 only when the search completed no depth |
| `Search.AIPlayer.WithDepth` | AIPlayer.java:129-136 | default weights, opponent the other player, depth clamped to `1..32`, practically unlimited time |
| `Search.AIPlayer.WithWeights` | AIPlayer.java:138-144 | the given weights, depth 32 and the 13.8 s budget |
| `Search.AIPlayer.constructor` | AIPlayer.java:146-152 | default weights, depth 32 and the 13.8 s budget |
| `Search.AIPlayer.ComputeZobristHash` | AIPlayer.java:442-452 | the XOR fold of the keys of the occupied cells onto `EMPTY_ZOBRIST` |
| `Search.AIPlayer.CheckWinner` | AIPlayer.java:568-576 | holds iff some line lies entirely in the player's cells |
| `Search.AIPlayer.IsTerminal` | AIPlayer.java:564-566 | the last mover has won or the board is full |
| `Search.AIPlayer.FindImmediateWinMove` | AIPlayer.java:578-597 | returns `WinCell` for the player |
| `Search.AIPlayer.FindImmediateBlockMove` | AIPlayer.java:599-601 | returns `WinCell` for the opponent |
| `Search.AIPlayer.LeafValue` | AIPlayer.java:481-488 | a win for the last mover is `±(1_000_000 + depth)`, positive for the AI; otherwise the AI's heuristic value |
| `Search.AIPlayer.StoreLeaf` | AIPlayer.java:480-489 | the leaf's value (the win score or the AI's heuristic) is stored at the node's hash with the flag `LeafFlag` gives it, and nothing else in the table changes: the leaf case of `InWindow` |
| `Search.AIPlayer.ScoreMoves` | AIPlayer.java:501-507 | the one-ply score of every move, with the board restored |
| `Search.AIPlayer.ScoreMove` | AIPlayer.java:502-507 | make, evaluate, undo: the board is restored and the value is the one-ply score |
| `Search.AIPlayer.Minimax` | AIPlayer.java:454-562 | the board is restored; the value, the table and `timeUp` the call leaves are exactly `Search` of the position, the table and `timeUp` it started from, for the clock decisions `timing` it returns (and `Late` only when the clock had passed the deadline) |
| `Search.AIPlayer.WindowNode` | AIPlayer.java:479-561 | a node inside the window the probe left: a leaf when out of depth, won by `lastP` or full, else an inner node; the outcome is `InWindow`'s |
| `Search.AIPlayer.Expand` | AIPlayer.java:499-561 | an inner node inside the window the probe left: ordering, then the max or min loop; the outcome is `InWindow`'s |
| `Search.AIPlayer.OrderMoves` | AIPlayer.java:499-513 | the empty cells, each scored by the AI's heuristic after `currentP` takes it, sorted highest first for the maximiser and lowest first for the minimiser: a permutation of the empty cells, with the board restored |
| `Search.AIPlayer.PlayChild` | AIPlayer.java:522-524 | make the move for the mover, search one ply less deep for the other side, undo: the board is restored and the child's value, table and `timeUp` are `Search` of the position after the move |
| `Search.AIPlayer.SearchChild` | AIPlayer.java:515-537 | one turn of the child loop: the loop state after this child is `LoopStep` of the state before it and what the child returned |
| `Search.AIPlayer.MaxNode` | AIPlayer.java:515-537 | the maximising loop and its store: the outcome is `Close` of `Children` for the children searched, so (by `ChildrenBest`) the value is the largest child value or `Long.MIN_VALUE`, stored with `InnerFlag` |
| `Search.AIPlayer.MinNode` | AIPlayer.java:538-561 | the minimising loop and its store: the outcome is `Close` of `Children`, so the value is the smallest child value or `Long.MAX_VALUE`, stored with `InnerFlag` |
| `Search.ChildrenSnoc` | AIPlayer.java:515-561 | a child searched from the state the loop reached, while it has not broken and has moves left, takes the loop one `LoopStep` on |
| `Search.ChildrenBest` | AIPlayer.java:515-561 | the maximising loop keeps the largest child value (`Long.MIN_VALUE` before any) and never moves beta; the minimising loop keeps the smallest (`Long.MAX_VALUE` before any) and never moves alpha |
| `Search.ChildrenBreak` | AIPlayer.java:527-529 | the loop breaks only when `beta <= alpha` or `timeUp` |
| `Search.ChildValues` | AIPlayer.java:515-561 | a loop searches at most one child per turn and at most one per move |
| `Search.SearchKeepsTimeUp` | AIPlayer.java:455-458 | a search that starts with `timeUp` set ends with it set |
| `Search.ChildrenKeepTimeUp` | AIPlayer.java:515-561 | the child loop never clears `timeUp` |
| `Search.SearchStores` | AIPlayer.java:460-497 | a call past the deadline check and not answered by the table leaves its own value in the table under the position's hash, at its depth; a late call or a table answer leaves the table as it was |
| `Search.AIPlayer.OpeningReply` | AIPlayer.java:198-221 | the loop over `OPTIMAL_PAIRS` returns `PairReply` |
| `Search.AIPlayer.OrderRootMoves` | AIPlayer.java:254-263 | the root moves in `RootOrder`, with the board restored |
| `Search.AIPlayer.SearchRoot` | AIPlayer.java:307-325 | results follow the root order, and every root move is there unless time ran out; their values, the table and `timeUp` are those of `RootRun` for the clock decisions returned |
| `Search.AIPlayer.SearchMoves` | AIPlayer.java:312-324 | the root loop: results in order, all of them unless time ran out; the values, the table and `timeUp` are `RootRun`'s, with `timeUp` also set when the deadline cut the loop short |
| `Search.RootRun` | AIPlayer.java:312-324 | one value per root move searched |
| `Search.AIPlayer.SearchMove` | AIPlayer.java:318-323 | one root move searched by `minimax` on a copy of the board, for the opponent in the full window: the outcome is `Search` of the position after the move; the choice state is untouched |
| `Search.AIPlayer.PickBest` | AIPlayer.java:335-346 | -1 without results; otherwise a move tying for the largest value |
| `Search.AIPlayer.Converge` | AIPlayer.java:348-371 | the counter goes up for a repeat and resets otherwise; the loop stops at 12 repeats or on -1; otherwise the pick is adopted |
| `Search.AIPlayer.RunDepth` | AIPlayer.java:252-371 | one depth: on time-up no round, `lastDepth = depth - 1`, and the table is what `RootRun` at this depth leaves for the clock decisions `cut` of the partial root loop (the table is kept across calls); otherwise a well-formed round that records the table it started from, whose values are those of `RootRun` at this depth from that table, and which leaves `RootRun`'s table; its pick is counted and adopted |
| `Search.AIPlayer.IterativeDeepening` | AIPlayer.java:247-372 | every round is well formed, and the rounds replay (`Replay`): round `d` searched depth `d + 1` from the table round `d - 1` left, or from the starting table for the first, and its values are that root loop's; the adopted move is the pick of the last completed depth; the counter continues from earlier calls; fewer than `maxDepth` rounds without a stop means time ran out |
| `Search.AIPlayer.Deepen` | AIPlayer.java:252-371 | one turn of the depth loop: a depth that finishes in time extends the replay of the earlier rounds to the new table, and the counter moves on by comparing the pick with the last best move |
| `Search.ReplayAt` | AIPlayer.java:247-372 | every round of a replay carries the values of its own depth's root loop |
| `Search.ReplaySnoc` | AIPlayer.java:247-372 | a round of the next depth, searched from the table the earlier rounds left, extends their replay to the table it leaves |
| `Search.PickMaximises` | AIPlayer.java:335-346 | the pick of a searched round is a root move whose root-loop value no other root move exceeds |
| `Search.SearchedMoveIsBest` | AIPlayer.java:247-388 | a move the depth loop returns (other than -1) is a root move whose value in the replayed root loop of the last completed depth no other root move exceeds |
| `Search.AIPlayer.QuickMove` | AIPlayer.java:183-245 | the opening cell on the empty board, else the pair reply, else the winning cell, else the blocking cell, in that order |
| `Search.AIPlayer.SearchBestMove` | AIPlayer.java:247-388 | the result of the depth loop: the pick of the last completed depth, or -1 when none completed; the rounds replay from the starting table, and a move other than -1 is a root move whose value at the last completed depth no other root move exceeds |
| `Search.AIPlayer.ChooseBestMove` | AIPlayer.java:154-395 | the shortcuts in source order, otherwise the search outcome; a searched move other than -1 is a root move whose root-loop value at the last completed depth no other root move exceeds; after a shortcut `bestMoveSoFar` is -1 and `lastBestMove`, `consistentMoveCount`, `lastDepth` and the table are as before the call; after a search the counters carry over between calls; the caller's board is untouched |
| `StaticFiles.FileExtension` | StaticFileHandler.java:69-76 | "" iff the name has no '.' or ends in one; otherwise the lower-cased text after the last '.', which holds no '.' |
| `StaticFiles.ExtensionOfJoin` | StaticFileHandler.java:69-76 | the extension of `base + "." + ext` is `ext` lower-cased, whatever `base` is |
| `StaticFiles.MimeTypeDefault` | StaticFileHandler.java:18-31 | the table entry for a known extension, "application/octet-stream" exactly for the others |
| `StaticFiles.MimeTypeIgnoresCase` | StaticFileHandler.java:72 | upper- and lower-case spellings of an extension get the same type |
| `StaticFiles.Utf8` | StaticFileHandler.java:64 | `getBytes()` writes at least one byte per character |
| `StaticFiles.AsciiLengths` | StaticFileHandler.java:61-64 | on ASCII text `length()` and the byte count agree |
| `StaticFiles.NonAsciiLonger` | StaticFileHandler.java:61-64 | one non-ASCII character makes the byte count exceed `length()` |
| `StaticFiles.Utf8NotShorter` | StaticFileHandler.java:61-64 | the byte count is never below `length()` |
| `StaticFiles.RequestPath` | StaticFileHandler.java:35-38 | "/" becomes "/visualizer.html"; every other path is kept |
| `StaticFiles.FileName` | StaticFileHandler.java:52 | the part after the last '/', which holds no '/' |
| `StaticFiles.TextReplyAsWritten` | StaticFileHandler.java:60-65 | as written: the declared length is `length()` while the body is the UTF-8 bytes |
| `StaticFiles.TextReply` | StaticFileHandler.java:60-65 | corrected: the declared length is the number of bytes written |
| `StaticFiles.TextRepliesAgreeOnAscii` | StaticFileHandler.java:40-46 | for ASCII text (the 403 text) the two replies are the same |
| `StaticFiles.NotFoundLengthMismatch` | StaticFileHandler.java:61-64 | the 404 for the path "/é" declares fewer bytes than it writes |
| `StaticFiles.Handle` | StaticFileHandler.java:34-67 | 403 iff the path contains ".."; 200 iff not and the file exists, with its bytes and its extension's type; 404 otherwise; the declared length always matches the body (corrected; as written in `TextReplyAsWritten`, see ## Findings) |
| `StaticFiles.IndexPageAllowed` | StaticFileHandler.java:36-40 | the rewritten "/" passes the ".." guard |

## Left out

- The parallel root search: the `ForkJoinPool`, `MinimaxTask` and the fork/join of root tasks (AIPlayer.java:77-109, 278-306). Root moves are searched sequentially. The only difference is the order of writes to the shared transposition table. Volatile fields and the thread that runs the progress bar are left out with it.
- Wall-clock time: `System.nanoTime` is a `Clock` whose reading can only grow. The `Thread.sleep` delays before a win or block (AIPlayer.java:225, 237) are left out.
- Randomness: `threadRandom`, `Weights.rand` and the Zobrist numbers are nondeterministic choices or parameters. `mutate`'s `nextDouble() < mutationRate` is a coin, so the rate parameter and floating point are not modelled.
- `stats`, `getMemoryUsed`, `formatMemory`, debug printing, `Board.print` and `Board.getRandomEmptyPosition`: console output, `Runtime` and `Math.random`.
- The exception path of `chooseBestMove` (AIPlayer.java:389-394): it exits the process when the pool cannot be created, and without the pool it cannot occur.
- `Line.java` and `Player.java` are not part of this model. The lines are a parameter, and `Player.other` swaps the two players.
- `TTT3.java`, `Game.java`, `TestMaker.java`, `NettyHandler.java`, `GameStateHandler.java` and `MoveHandler.java`: console, network and self-play harnesses.
- `StaticFiles.Handle`: `Paths.get(...).normalize()` is a function parameter. `Files.exists`, `Files.isDirectory` and `Files.readAllBytes` become a map of the existing regular files. The response I/O is the returned `Reply`. The default charset is taken to be UTF-8.
- `JavaString.ToLower`: only ASCII letters are lower-cased; `String.toLowerCase` also maps other Unicode letters.
- `Search.AIPlayer.Minimax`: what the clock reads is not known, so the contract is stated for the clock decisions the call returns as a ghost `Timing` (late or on time at each node), and is exact given them. It does not claim that a flag-0 value is the minimax value of the position: the deadline and all-fail-low max nodes make that false in the source.
- `JavaString.ParseInt`: only the ASCII digits `0`-`9` are digits; `Character.digit` also accepts other Unicode decimal digits, so `Integer.parseInt` reads `٤٢` (Arabic-Indic) as 42 where the model fails.
- `Boards.Board.ValueOf`: a Dafny `char` is a Unicode scalar value, while `charAt` returns a UTF-16 unit; for a character outside the Basic Multilingual Plane the model reports the whole character where Board.java:90 and 111 report its high surrogate.
- `Search.AIPlayer.QuickMove`: the opening cell is any cell of `OPTIMAL_PAIRS`. The uniform distribution of the random pair and index is not modelled.
- `Weights.Weights.Mutate`: says only that a field moves by at most its delta (in `int` arithmetic). How likely each coin is, which depends on `mutationRate`, is not modelled.
- `Search.AIPlayer.IterativeDeepening`: the table left by a depth the deadline cut short is stated in `RunDepth` (`RootRun`'s table for the partial clock decisions) but is not carried up into the contracts of `IterativeDeepening`, `SearchBestMove` and `ChooseBestMove`. Those contracts state, via `Replay`, that each completed depth searched from the table the previous one left, but not what the table holds when they return.
- `Heuristics.EvaluatePotentialForks`, `Heuristics.EvaluateOpponentPotentialForks`: the Java counters `forkCount` and `potentialForks` (Heuristic.java:170, 210) are `int`, while the model counts with unbounded integers. On the board's 76 lines the counts stay below 76 * 75 / 2 and 64 times that, far below 2^31. Over an arbitrary line list the Java counters could wrap, and the model does not capture that.

## Findings

| source | as written | input that shows it | evidently intended | confidence | as-written member | corrected member |
|---|---|---|---|---|---|---|
| StaticFileHandler.java:61-64 | the 403 and 404 replies declare `response.length()` (UTF-16 code units) as the body length but write `response.getBytes()` | `GET /%C3%A9`: the path "/é" gives the text "404 Not Found: /é", declared as 17 bytes but written as 18 | the declared length is the number of bytes written | medium, not executed | `StaticFiles.TextReplyAsWritten`, `StaticFiles.NotFoundLengthMismatch` | `StaticFiles.TextReply` (used by `StaticFiles.Handle`) |
