/**
 * `AIPlayer`: the computer opponent. It answers the first moves from a
 * table of paired cells, plays or blocks an immediate four-in-a-row, and
 * otherwise runs an iterative-deepening alpha-beta search with move
 * ordering by the heuristic and a transposition table keyed by a Zobrist
 * hash.
 *
 * The clock (`System.nanoTime()`) is a `Clock` object that only moves
 * forward by amounts the model does not fix; the random number generator
 * becomes a choice the model leaves open; the Zobrist keys, drawn at
 * random once, are given to the constructor. The parallel branch of the
 * root search is not part of this model.
 */
module Search {
  import opened Wrappers
  import opened JavaInt
  import opened Bits
  import opened Boards
  import Heuristics
  import W = Weights

  const MAX_DEPTH: int := 32
  /** `(long) (13.8 * 1_000_000_000)`. */
  const MAX_TIME: int := 13_800_000_000
  /** The time budget of the depth-limited constructor: "effectively no time limit". */
  const UNLIMITED_TIME: int := 999_999_999_999
  const CONVERGENCE_THRESHOLD: int := 12
  const WIN_SCORE: int := 1_000_000
  const LONG_MIN: int := -0x8000_0000_0000_0000
  const LONG_MAX: int := 0x7fff_ffff_ffff_ffff

  /** `OPTIMAL_PAIRS`: pairs of centre cells; the answer to a stone on one is the other. */
  const OPTIMAL_PAIRS: seq<(int, int)> := [(37, 42), (38, 41), (21, 26), (22, 25)]

  predicate IsLong(v: int)
  {
    LONG_MIN <= v <= LONG_MAX
  }

  /** `Math.max` */
  function Max(a: int, b: int): (r: int)
    ensures r >= a && r >= b && (r == a || r == b)
  {
    if a >= b then a else b
  }

  /** `Math.min` */
  function Min(a: int, b: int): (r: int)
    ensures r <= a && r <= b && (r == a || r == b)
  {
    if a <= b then a else b
  }

  // ---------------------------------------------------------------------
  // computeZobristHash
  // ---------------------------------------------------------------------

  /**
   * `ZOBRIST_TABLE` and `EMPTY_ZOBRIST`: per cell, the key of an X stone
   * and the key of an O stone; and the hash of the empty board.
   */
  datatype Zobrist = Zobrist(keys: seq<(Long, Long)>, empty: Long)

  predicate WellFormed(z: Zobrist)
  {
    |z.keys| == 64
  }

  /** The key a stone of `player` on cell `p` contributes. */
  function Key(z: Zobrist, p: int, player: Player): Long
    requires WellFormed(z) && 0 <= p < 64
  {
    if player == X then z.keys[p].0 else z.keys[p].1
  }

  /** The hash after the loop of `computeZobristHash` has seen cells `0..n-1`. */
  function HashUpTo(x: Long, o: Long, z: Zobrist, n: int): Long
    requires WellFormed(z) && 0 <= n <= 64
    decreases x, n  // with `x` in the measure, the call with the literal 64 is unrolled only on demand
  {
    if n == 0 then z.empty
    else if x[n - 1] then Xor(HashUpTo(x, o, z, n - 1), z.keys[n - 1].0)
    else if o[n - 1] then Xor(HashUpTo(x, o, z, n - 1), z.keys[n - 1].1)
    else HashUpTo(x, o, z, n - 1)
  }

  function ZobristHash(x: Long, o: Long, z: Zobrist): Long
    requires WellFormed(z)
  {
    HashUpTo(x, o, z, 64)
  }

  lemma XorSwap(a: Long, b: Long, c: Long)
    ensures Xor(Xor(a, b), c) == Xor(Xor(a, c), b)
  {
    assert forall i :: 0 <= i < 64 ==> Xor(Xor(a, b), c)[i] == Xor(Xor(a, c), b)[i];
  }

  lemma XorTwice(a: Long, b: Long)
    ensures Xor(Xor(a, b), b) == a
  {
    assert forall i :: 0 <= i < 64 ==> Xor(Xor(a, b), b)[i] == a[i];
  }

  lemma {:induction false} EmptyHashUpTo(z: Zobrist, n: int)
    requires WellFormed(z) && 0 <= n <= 64
    ensures HashUpTo(ZERO, ZERO, z, n) == z.empty
  {
    if n > 0 {
      EmptyHashUpTo(z, n - 1);
    }
  }

  /** The empty board hashes to `EMPTY_ZOBRIST`. */
  lemma EmptyHash(z: Zobrist)
    requires WellFormed(z)
    ensures ZobristHash(ZERO, ZERO, z) == z.empty
  {
    EmptyHashUpTo(z, 64);
  }

  lemma {:induction false} PlaceHashUpTo(x: Long, o: Long, z: Zobrist, p: int, player: Player, n: int)
    requires WellFormed(z) && 0 <= p < 64 && 0 <= n <= 64
    requires !x[p] && !o[p]
    ensures HashUpTo(Assign(x, o, p, Some(player)).0, Assign(x, o, p, Some(player)).1, z, n)
      == if p < n then Xor(HashUpTo(x, o, z, n), Key(z, p, player)) else HashUpTo(x, o, z, n)
  {
    if n > 0 {
      PlaceHashUpTo(x, o, z, p, player, n - 1);
      var (x1, o1) := Assign(x, o, p, Some(player));
      var k := Key(z, p, player);
      if p < n - 1 {
        var h := HashUpTo(x, o, z, n - 1);
        assert x1[n - 1] == x[n - 1] && o1[n - 1] == o[n - 1];
        if x[n - 1] {
          XorSwap(h, k, z.keys[n - 1].0);
        } else if o[n - 1] {
          XorSwap(h, k, z.keys[n - 1].1);
        }
      }
    }
  }

  /**
   * Placing a stone on an empty cell changes the hash by exactly that
   * stone's key, so the hash depends only on which stones are where and a
   * move followed by its undo restores it.
   */
  lemma PlaceHash(x: Long, o: Long, z: Zobrist, p: int, player: Player)
    requires WellFormed(z) && 0 <= p < 64
    requires CellAt(x, o, p) == None
    ensures ZobristHash(Assign(x, o, p, Some(player)).0, Assign(x, o, p, Some(player)).1, z)
      == Xor(ZobristHash(x, o, z), Key(z, p, player))
    ensures Xor(ZobristHash(Assign(x, o, p, Some(player)).0, Assign(x, o, p, Some(player)).1, z), Key(z, p, player))
      == ZobristHash(x, o, z)
  {
    PlaceHashUpTo(x, o, z, p, player, 64);
    XorTwice(ZobristHash(x, o, z), Key(z, p, player));
  }

  // ---------------------------------------------------------------------
  // The transposition table
  // ---------------------------------------------------------------------

  /** `TranspositionEntry`: a value, the depth it was searched to, and its flag. */
  datatype Entry = Entry(value: int, depth: int, flag: int)

  /** Flags: 0 exact value, 1 lower bound, 2 upper bound. */
  const EXACT: int := 0
  const LOWER_BOUND: int := 1
  const UPPER_BOUND: int := 2

  function Lookup(table: map<Long, Entry>, h: Long): Option<Entry>
  {
    if h in table then Some(table[h]) else None
  }

  /** What the table probe of `minimax` leaves: a value to return, or the window to search. */
  datatype Probed = Cutoff(value: int) | Window(alpha: int, beta: int)

  /**
   * The probe of `minimax`: an entry searched at least as deep returns its
   * value when exact, and otherwise narrows the window (a lower bound raises
   * alpha, an upper bound lowers beta, any other flag leaves it); an emptied
   * window returns the entry's value as well.
   */
  function ProbeTable(entry: Option<Entry>, depth: int, alpha: int, beta: int): (r: Probed)
    ensures (entry.None? || entry.value.depth < depth) ==> r == Window(alpha, beta)
    ensures entry.Some? && entry.value.depth >= depth && entry.value.flag == EXACT ==> r == Cutoff(entry.value.value)
    ensures r.Cutoff? ==> entry.Some? && entry.value.depth >= depth && r.value == entry.value.value
    ensures r.Window? ==> alpha <= r.alpha && r.beta <= beta
    ensures r.Window? && entry.Some? && entry.value.depth >= depth ==> r.alpha < r.beta
    ensures r.Window? && r.alpha != alpha ==> entry.value.flag == LOWER_BOUND && r.alpha == entry.value.value
    ensures r.Window? && r.beta != beta ==> entry.value.flag == UPPER_BOUND && r.beta == entry.value.value
    ensures entry.Some? && entry.value.depth >= depth && entry.value.flag == LOWER_BOUND ==>
      (r.Cutoff? <==> Max(alpha, entry.value.value) >= beta)
      && (r.Window? ==> r.alpha == Max(alpha, entry.value.value) && r.beta == beta)
    ensures entry.Some? && entry.value.depth >= depth && entry.value.flag == UPPER_BOUND ==>
      (r.Cutoff? <==> alpha >= Min(beta, entry.value.value))
      && (r.Window? ==> r.alpha == alpha && r.beta == Min(beta, entry.value.value))
    ensures entry.Some? && entry.value.depth >= depth && entry.value.flag !in {EXACT, LOWER_BOUND, UPPER_BOUND} ==>
      (r.Cutoff? <==> alpha >= beta) && (r.Window? ==> r == Window(alpha, beta))
  {
    match entry
    case None => Window(alpha, beta)
    case Some(e) =>
      if e.depth < depth then Window(alpha, beta)
      else if e.flag == EXACT then Cutoff(e.value)
      else
        var a := if e.flag == LOWER_BOUND then Max(alpha, e.value) else alpha;
        var b := if e.flag == UPPER_BOUND then Min(beta, e.value) else beta;
        if a >= b then Cutoff(e.value) else Window(a, b)
  }

  /** The flag a leaf stores: what its value says about the window it was searched with. */
  function LeafFlag(eval: int, alpha: int, beta: int): (f: int)
    ensures f == UPPER_BOUND <==> eval <= alpha
    ensures f == LOWER_BOUND <==> alpha < eval && beta <= eval
    ensures f == EXACT <==> alpha < eval < beta
  {
    if eval <= alpha then UPPER_BOUND else if eval >= beta then LOWER_BOUND else EXACT
  }

  /** The value of a won position: `1_000_000 + depth`, positive when the winner is the AI. */
  function WinValue(depth: int, lastP: Player, aiPlayer: Player): int
  {
    if lastP == aiPlayer then WIN_SCORE + depth else -(WIN_SCORE + depth)
  }

  // ---------------------------------------------------------------------
  // Maxima, ties and move ordering
  // ---------------------------------------------------------------------

  /** The largest of `seed` and the values `s`: a running `Math.max` from `seed`. */
  function MaxOf(seed: int, s: seq<int>): (r: int)
    ensures r >= seed && forall i :: 0 <= i < |s| ==> s[i] <= r
    ensures r == seed || exists i :: 0 <= i < |s| && s[i] == r
  {
    if s == [] then seed else Max(MaxOf(seed, s[..|s| - 1]), s[|s| - 1])
  }

  /** The smallest of `seed` and the values `s`: a running `Math.min` from `seed`. */
  function MinOf(seed: int, s: seq<int>): (r: int)
    ensures r <= seed && forall i :: 0 <= i < |s| ==> r <= s[i]
    ensures r == seed || exists i :: 0 <= i < |s| && s[i] == r
  {
    if s == [] then seed else Min(MinOf(seed, s[..|s| - 1]), s[|s| - 1])
  }

  /** The heuristic value for `player` of the position after `mover` takes cell `m`. */
  function MoveScore(x: Long, o: Long, m: int, mover: Player, player: Player, w: W.Values, lines: seq<Long>): int
  {
    var (x1, o1) := Assign(x, o, m, Some(mover));
    Wrap32(Heuristics.ExactScore(x1, o1, player, w, lines))
  }

  /** One more pass of the ordering loop records one more score. */
  lemma ScoreMapSnoc(x: Long, o: Long, moves: seq<int>, i: int, mover: Player, player: Player, w: W.Values, lines: seq<Long>)
    requires 0 <= i < |moves|
    ensures ScoreMap(x, o, moves[..i + 1], mover, player, w, lines)
      == ScoreMap(x, o, moves[..i], mover, player, w, lines)[moves[i] := MoveScore(x, o, moves[i], mover, player, w, lines)]
  {
    assert moves[..i + 1][..i] == moves[..i];
  }

  /** The scores the ordering loop records for `moves`, each move taking the last score it was given. */
  function ScoreMap(x: Long, o: Long, moves: seq<int>, mover: Player, player: Player, w: W.Values, lines: seq<Long>): (r: map<int, int>)
    ensures forall m :: m in r <==> m in moves
  {
    if moves == [] then map[]
    else
      var last := moves[|moves| - 1];
      ScoreMap(x, o, moves[..|moves| - 1], mover, player, w, lines)[last := MoveScore(x, o, last, mover, player, w, lines)]
  }

  /** Every move is recorded with its own one-ply score. */
  lemma {:induction false} ScoreMapAt(x: Long, o: Long, moves: seq<int>, m: int, mover: Player, player: Player, w: W.Values, lines: seq<Long>)
    requires m in moves
    ensures ScoreMap(x, o, moves, mover, player, w, lines)[m] == MoveScore(x, o, m, mover, player, w, lines)
  {
    var init := moves[..|moves| - 1];
    if m != moves[|moves| - 1] {
      var k :| 0 <= k < |moves| && moves[k] == m;
      assert init[k] == m;
      ScoreMapAt(x, o, init, m, mover, player, w, lines);
    }
  }

  /** The one-ply scores of the empty cells, as the root ordering records them. */
  function RootScores(x: Long, o: Long, player: Player, w: W.Values, lines: seq<Long>): map<int, int>
  {
    map m | m in Cells(Not(Or(x, o))) :: MoveScore(x, o, m, player, player, w, lines)
  }

  /** The map the ordering loop builds holds each scored move with its own score and nothing else. */
  lemma ScoreMapScores(x: Long, o: Long, moves: seq<int>, mover: Player, player: Player, w: W.Values, lines: seq<Long>)
    ensures ScoreMap(x, o, moves, mover, player, w, lines) == map m | m in moves :: MoveScore(x, o, m, mover, player, w, lines)
  {
    forall m | m in moves
      ensures ScoreMap(x, o, moves, mover, player, w, lines)[m] == MoveScore(x, o, m, mover, player, w, lines)
    {
      ScoreMapAt(x, o, moves, m, mover, player, w, lines);
    }
  }

  /** `MoveEvaluation`: a root move and the value the search gave it. */
  datatype MoveEvaluation = MoveEvaluation(move: int, value: int)

  function Moves(rs: seq<MoveEvaluation>): (r: seq<int>)
    ensures |r| == |rs| && forall i :: 0 <= i < |rs| ==> r[i] == rs[i].move
  {
    seq(|rs|, i requires 0 <= i < |rs| => rs[i].move)
  }

  function Scores(rs: seq<MoveEvaluation>): (r: seq<int>)
    ensures |r| == |rs| && forall i :: 0 <= i < |rs| ==> r[i] == rs[i].value
  {
    seq(|rs|, i requires 0 <= i < |rs| => rs[i].value)
  }

  /** The moves whose value is `v`, in the order of `rs`. */
  function TiesOf(rs: seq<MoveEvaluation>, v: int): (r: seq<int>)
    ensures forall m :: m in r ==> exists i :: 0 <= i < |rs| && rs[i].move == m && rs[i].value == v
    ensures (exists i :: 0 <= i < |rs| && rs[i].value == v) ==> r != []
    ensures (forall i :: 0 <= i < |rs| ==> rs[i].value != v) ==> r == []
  {
    if rs == [] then []
    else
      var last := rs[|rs| - 1];
      var r := TiesOf(rs[..|rs| - 1], v) + (if last.value == v then [last.move] else []);
      assert forall i :: 0 <= i < |rs| - 1 ==> rs[..|rs| - 1][i] == rs[i];
      r
  }

  /** One more result seen by the best-value scan: the maximum and the ties grow by that result alone. */
  lemma SelectBestStep(results: seq<MoveEvaluation>, i: int)
    requires 0 <= i < |results|
    ensures MaxOf(LONG_MIN, Scores(results[..i + 1])) == Max(MaxOf(LONG_MIN, Scores(results[..i])), results[i].value)
    ensures forall v ::
      TiesOf(results[..i + 1], v) == TiesOf(results[..i], v) + (if results[i].value == v then [results[i].move] else [])
  {
    assert results[..i + 1][..i] == results[..i];
    assert Scores(results[..i + 1])[..i] == Scores(results[..i]);
  }

  /**
   * The best-value scan of `chooseBestMove`: the best value is the largest
   * value at all, and the candidates are exactly the moves that reach it.
   */
  method SelectBest(results: seq<MoveEvaluation>) returns (bestVal: int, bestMoves: seq<int>)
    requires forall i :: 0 <= i < |results| ==> IsLong(results[i].value)
    ensures bestVal == MaxOf(LONG_MIN, Scores(results))
    ensures bestMoves == TiesOf(results, bestVal)
    ensures results != [] ==> bestMoves != []
  {
    bestVal := LONG_MIN;
    bestMoves := [];
    for i := 0 to |results|
      invariant bestVal == MaxOf(LONG_MIN, Scores(results[..i]))
      invariant bestMoves == TiesOf(results[..i], bestVal)
    {
      var r := results[i];
      SelectBestStep(results, i);
      if r.value > bestVal {
        assert TiesOf(results[..i], r.value) == [];
        bestVal := r.value;
        bestMoves := [r.move];
      } else if r.value == bestVal {
        bestMoves := bestMoves + [r.move];
      }
    }
    assert results[..|results|] == results;
    if results != [] {
      var v := MaxOf(LONG_MIN, Scores(results));
      if v == LONG_MIN {
        assert results[0].value <= v;
        assert results[0].value == v;
      }
    }
  }

  /** `a` is ordered strictly before `b`: a higher score when descending, a lower one otherwise. */
  predicate Precedes(scores: map<int, int>, descending: bool, a: int, b: int)
    requires a in scores && b in scores
  {
    if descending then scores[a] > scores[b] else scores[a] < scores[b]
  }

  predicate SortedBy(scores: map<int, int>, descending: bool, s: seq<int>)
    requires forall m :: m in s ==> m in scores
  {
    forall i, j :: 0 <= i < j < |s| ==> !Precedes(scores, descending, s[j], s[i])
  }

  /** Two sequences holding the same multiset hold the same elements. */
  lemma SameMembers(a: seq<int>, b: seq<int>)
    requires multiset(a) == multiset(b)
    ensures forall q :: q in a <==> q in b
  {
    forall q ensures q in a <==> q in b {
      assert q in a <==> q in multiset(a);
      assert q in b <==> q in multiset(b);
    }
  }

  /** Inserts `m` after every move that does not come after it, so equal scores keep their order. */
  function Insert(scores: map<int, int>, descending: bool, m: int, s: seq<int>): (r: seq<int>)
    requires m in scores && forall q :: q in s ==> q in scores
    ensures multiset(r) == multiset(s) + multiset{m}
  {
    if s == [] then [m]
    else if Precedes(scores, descending, m, s[0]) then [m] + s
    else
      assert s == [s[0]] + s[1..];
      [s[0]] + Insert(scores, descending, m, s[1..])
  }

  /** Inserting into a sorted sequence keeps it sorted. */
  lemma {:induction false} InsertSorted(scores: map<int, int>, descending: bool, m: int, s: seq<int>)
    requires m in scores && forall q :: q in s ==> q in scores
    requires SortedBy(scores, descending, s)
    ensures forall q :: q in Insert(scores, descending, m, s) <==> q == m || q in s
    ensures SortedBy(scores, descending, Insert(scores, descending, m, s))
  {
    var r := Insert(scores, descending, m, s);
    SameMembers(r, s + [m]);
    if s != [] && !Precedes(scores, descending, m, s[0]) {
      var t := Insert(scores, descending, m, s[1..]);
      InsertSorted(scores, descending, m, s[1..]);
      assert r == [s[0]] + t;
      forall j | 0 < j < |r| ensures !Precedes(scores, descending, r[j], r[0]) {
        assert r[j] == t[j - 1];
        assert t[j - 1] in t;
        if r[j] != m {
          var k :| 0 <= k < |s[1..]| && s[1..][k] == r[j];
          assert s[k + 1] == r[j];
        }
      }
    }
  }

  /**
   * `availMoves.sort(...)` by the one-ply scores: a stable insertion sort,
   * highest score first for the maximising side, lowest first otherwise.
   */
  function SortMoves(scores: map<int, int>, descending: bool, moves: seq<int>): (r: seq<int>)
    requires forall q :: q in moves ==> q in scores
    ensures multiset(r) == multiset(moves)
  {
    if moves == [] then []
    else
      var init := moves[..|moves| - 1];
      assert moves == init + [moves[|moves| - 1]];
      var sorted := SortMoves(scores, descending, init);
      SameMembers(sorted, init);
      Insert(scores, descending, moves[|moves| - 1], sorted)
  }

  /** The ordering is a permutation of the moves, sorted by their scores. */
  lemma {:induction false} SortMovesSorted(scores: map<int, int>, descending: bool, moves: seq<int>)
    requires forall q :: q in moves ==> q in scores
    ensures forall q :: q in SortMoves(scores, descending, moves) <==> q in moves
    ensures SortedBy(scores, descending, SortMoves(scores, descending, moves))
  {
    SameMembers(SortMoves(scores, descending, moves), moves);
    if moves != [] {
      var init := moves[..|moves| - 1];
      assert moves == init + [moves[|moves| - 1]];
      SortMovesSorted(scores, descending, init);
      InsertSorted(scores, descending, moves[|moves| - 1], SortMoves(scores, descending, init));
    }
  }

  // ---------------------------------------------------------------------
  // Winning and threatening lines
  // ---------------------------------------------------------------------

  /** Some line lies entirely in `positions`. */
  predicate Won(positions: Long, lines: seq<Long>)
  {
    exists i :: 0 <= i < |lines| && Includes(positions, lines[i])
  }

  /** A line holding three of `mine` and one empty cell. */
  predicate Threatens(line: Long, mine: Long, theirs: Long)
  {
    PopCount(And(line, mine)) == 3 && PopCount(And(line, Not(Or(mine, theirs)))) == 1
  }

  /**
   * The answer of `findImmediateWinMove` from line `from` on: the empty
   * cell of the first threatening line, or -1 when no line threatens.
   */
  function WinCell(mine: Long, theirs: Long, lines: seq<Long>, from: int): (r: int)
    requires 0 <= from <= |lines|
    ensures r == -1 <==> forall i :: from <= i < |lines| ==> !Threatens(lines[i], mine, theirs)
    ensures r != -1 ==> 0 <= r < 64
    ensures r != -1 ==> exists i :: (from <= i < |lines| && Threatens(lines[i], mine, theirs)
      && r == NumberOfTrailingZeros(And(lines[i], Not(Or(mine, theirs)))))
    decreases |lines| - from
  {
    if from == |lines| then -1
    else if Threatens(lines[from], mine, theirs) then
      PopCountZero(And(lines[from], Not(Or(mine, theirs))));
      NumberOfTrailingZeros(And(lines[from], Not(Or(mine, theirs))))
    else WinCell(mine, theirs, lines, from + 1)
  }

  /** Two different cells make a population count of at least two. */
  lemma TwoCells(x: Long, a: int, b: int)
    requires 0 <= a < 64 && 0 <= b < 64 && a != b && x[a] && x[b]
    ensures PopCount(x) >= 2
  {
    CellsMembers(x);
    PopCountCells(x);
    var s := Cells(x);
    var i :| 0 <= i < |s| && s[i] == a;
    var j :| 0 <= j < |s| && s[j] == b;
    assert i != j;
  }

  /**
   * The cell `findImmediateWinMove` returns is empty, and on four-cell
   * lines taking it completes a line: the move wins.
   */
  lemma WinCellWins(mine: Long, theirs: Long, lines: seq<Long>)
    requires Disjoint(mine, theirs)
    requires forall i :: 0 <= i < |lines| ==> PopCount(lines[i]) == 4
    requires WinCell(mine, theirs, lines, 0) != -1
    ensures var r := WinCell(mine, theirs, lines, 0);
      0 <= r < 64 && !mine[r] && !theirs[r] && Won(SetBit(mine, r), lines)
  {
    var r := WinCell(mine, theirs, lines, 0);
    var i :| 0 <= i < |lines| && Threatens(lines[i], mine, theirs)
      && r == NumberOfTrailingZeros(And(lines[i], Not(Or(mine, theirs))));
    var line := lines[i];
    var empty := And(line, Not(Or(mine, theirs)));
    PopCountZero(empty);
    Heuristics.LineShares(line, mine, theirs);
    PopCountZero(And(line, theirs));
    forall q | 0 <= q < 64 && line[q]
      ensures SetBit(mine, r)[q]
    {
      if !mine[q] {
        assert !And(line, theirs)[q] by {
          assert And(line, theirs) == ZERO;
        }
        assert empty[q];
        if q != r {
          TwoCells(empty, q, r);
        }
      }
    }
    assert Includes(SetBit(mine, r), line);
  }

  // ---------------------------------------------------------------------
  // Time management
  // ---------------------------------------------------------------------

  /**
   * `shouldParallelize`: at least two of a shallow depth (the depths left
   * are under a quarter of the maximum), more than 15 moves, and more than
   * half the time budget left.
   */
  function ShouldParallelize(depth: int, maxDepth: int, movesCount: int, currentTime: int, endTime: int, maxTime: int): (r: bool)
    ensures var shallow := maxDepth - depth < Div(maxDepth, 4);
      var many := movesCount > 15;
      var plenty := endTime - currentTime > Div(maxTime, 2);
      r <==> (shallow && many) || (shallow && plenty) || (many && plenty)
  {
    var shallowDepth := maxDepth - depth < Div(maxDepth, 4);
    var manyMoves := movesCount > 15;
    var plentyOfTime := endTime - currentTime > Div(maxTime, 2);
    var conditionsMet := (if shallowDepth then 1 else 0) + (if manyMoves then 1 else 0) + (if plentyOfTime then 1 else 0);
    conditionsMet >= 2
  }

  /** The depth of the `(aiPlayer, maxDepth)` constructor: `max(1, min(maxDepth, MAX_DEPTH))`. */
  function ClampDepth(maxDepth: int): (r: int)
    ensures 1 <= r <= MAX_DEPTH
    ensures 1 <= maxDepth <= MAX_DEPTH ==> r == maxDepth
    ensures maxDepth < 1 ==> r == 1
    ensures maxDepth > MAX_DEPTH ==> r == MAX_DEPTH
  {
    Max(1, Min(maxDepth, MAX_DEPTH))
  }

  /** `System.nanoTime()`: a clock that moves forward by amounts the model leaves open. */
  class Clock {
    var now: int

    constructor ()
      ensures now == 0
    {
      now := 0;
    }

    method NanoTime() returns (t: int)
      modifies this
      ensures old(now) <= now && t == now
    {
      var elapsed: nat :| true;
      now := now + elapsed;
      t := now;
    }
  }

  // ---------------------------------------------------------------------
  // The opening replies
  // ---------------------------------------------------------------------

  /** The reply of the one-stone loop over `OPTIMAL_PAIRS` from pair `k` on. */
  function PairReply(x: Long, o: Long, opponent: Player, k: int): (r: Option<int>)
    requires 0 <= k <= |OPTIMAL_PAIRS|
    decreases |OPTIMAL_PAIRS| - k
  {
    if k == |OPTIMAL_PAIRS| then None
    else
      var (a, b) := OPTIMAL_PAIRS[k];
      if CellAt(x, o, a) == Some(opponent) then Some(b)
      else if CellAt(x, o, b) == Some(opponent) then Some(a)
      else PairReply(x, o, opponent, k + 1)
  }

  /**
   * With a single stone on the board, the reply is the partner of the
   * opponent's stone in its pair, and that cell is empty.
   */
  lemma {:induction false} PairReplyIsPartner(x: Long, o: Long, opponent: Player, k: int)
    requires 0 <= k <= |OPTIMAL_PAIRS|
    requires PopCount(Or(x, o)) == 1
    requires PairReply(x, o, opponent, k).Some?
    ensures var m := PairReply(x, o, opponent, k).value;
      0 <= m < 64 && CellAt(x, o, m) == None
      && exists j :: (k <= j < |OPTIMAL_PAIRS|
        && ((CellAt(x, o, OPTIMAL_PAIRS[j].0) == Some(opponent) && m == OPTIMAL_PAIRS[j].1)
          || (CellAt(x, o, OPTIMAL_PAIRS[j].1) == Some(opponent) && m == OPTIMAL_PAIRS[j].0)))
    decreases |OPTIMAL_PAIRS| - k
  {
    var (a, b) := OPTIMAL_PAIRS[k];
    if CellAt(x, o, a) == Some(opponent) {
      if Or(x, o)[b] {
        TwoCells(Or(x, o), a, b);
      }
    } else if CellAt(x, o, b) == Some(opponent) {
      if Or(x, o)[a] {
        TwoCells(Or(x, o), a, b);
      }
    } else {
      PairReplyIsPartner(x, o, opponent, k + 1);
    }
  }

  // ---------------------------------------------------------------------
  // The search
  // ---------------------------------------------------------------------

  /** What `minimax` holds fixed while it searches: the AI's side, the weights, the lines and the Zobrist keys. */
  datatype Setup = Setup(ai: Player, w: W.Values, lines: seq<Long>, zobrist: Zobrist)

  /**
   * What the clock decided during one `minimax` call: the deadline had
   * passed when the call began, or it had not, and then `kids` holds what
   * the clock decided in each child the call went on to search. A loop the
   * clock stopped early has fewer children than moves.
   */
  datatype Timing = Late | OnTime(kids: seq<Timing>)

  /** What a `minimax` call leaves behind: its value, the transposition table and `timeUp`. */
  datatype Outcome = Outcome(value: int, table: map<Long, Entry>, timeUp: bool)

  /**
   * An inner node's loop after some of its children: `maxEval` (`minEval`),
   * the window as the loop narrowed it, the table, `timeUp`, and whether the
   * loop broke because the window closed or time ran out in a child.
   */
  datatype LoopState = LoopState(best: int, alpha: int, beta: int, table: map<Long, Entry>, timeUp: bool, broke: bool)

  /** `currentP`: the AI at a maximising node, its opponent at a minimising one. */
  function Mover(c: Setup, maxPlayer: bool): Player
  {
    if maxPlayer then c.ai else Other(c.ai)
  }

  /** `depth == 0 || isTerminal(b, lastP)`: out of depth, won by `lastP`, or full. */
  predicate Ends(c: Setup, x: Long, o: Long, depth: int, lastP: Player)
  {
    depth == 0 || Won(if lastP == X then x else o, c.lines) || forall q :: 0 <= q < 64 ==> CellAt(x, o, q) != None
  }

  /** The value of a leaf: the win value when `lastP` has won, otherwise the AI's heuristic value. */
  function LeafScore(c: Setup, x: Long, o: Long, depth: int, lastP: Player): int
  {
    if Won(if lastP == X then x else o, c.lines) then WinValue(depth, lastP, c.ai)
    else Wrap32(Heuristics.ExactScore(x, o, c.ai, c.w, c.lines))
  }

  /**
   * The order of an inner node's moves: the empty cells sorted by the AI's
   * one-ply score after the mover takes them, highest first for the
   * maximiser and lowest first for the minimiser.
   */
  function NodeOrder(c: Setup, x: Long, o: Long, maxPlayer: bool): seq<int>
  {
    var free := Cells(Not(Or(x, o)));
    SortMoves(ScoreMap(x, o, free, Mover(c, maxPlayer), c.ai, c.w, c.lines), maxPlayer, free)
  }

  /** The flag of an inner node: a lower bound once the maximum reaches beta, an upper bound once the minimum reaches alpha. */
  function InnerFlag(maxPlayer: bool, value: int, alpha: int, beta: int): int
  {
    if maxPlayer then (if value >= beta then LOWER_BOUND else EXACT)
    else (if value <= alpha then UPPER_BOUND else EXACT)
  }

  /**
   * The call `minimax(b, depth, alpha, beta, maxPlayer, lastP)` on the
   * position `(x, o)`, starting from the table `t0` and the flag `up0`, when
   * the clock decides as `n` says: a late call sets `timeUp` and returns 0.
   */
  function Search(c: Setup, n: Timing, x: Long, o: Long, t0: map<Long, Entry>, up0: bool,
                  depth: int, alpha: int, beta: int, maxPlayer: bool, lastP: Player): Outcome
    requires WellFormed(c.zobrist)
    decreases n, 3
  {
    match n
    case Late => Outcome(0, t0, true)
    case OnTime(kids) => Started(c, kids, x, o, t0, up0, depth, alpha, beta, maxPlayer, lastP)
  }

  /**
   * The same call once the deadline check passed, its children timed as
   * `kids`: the table probe under the position's hash either answers or
   * leaves a window.
   */
  function Started(c: Setup, kids: seq<Timing>, x: Long, o: Long, t0: map<Long, Entry>, up0: bool,
                   depth: int, alpha: int, beta: int, maxPlayer: bool, lastP: Player): Outcome
    requires WellFormed(c.zobrist)
    decreases kids, 2
  {
    var h := ZobristHash(x, o, c.zobrist);
    match ProbeTable(Lookup(t0, h), depth, alpha, beta)
    case Cutoff(v) => Outcome(v, t0, up0)
    case Window(a, bt) => InWindow(c, kids, x, o, h, t0, up0, depth, a, bt, maxPlayer, lastP)
  }

  /**
   * The same call inside the window `alpha..beta` the probe left, with `h`
   * the position's hash: a leaf stores its value with the flag the window
   * gives it; an inner node searches its children in `NodeOrder` and closes.
   */
  function InWindow(c: Setup, kids: seq<Timing>, x: Long, o: Long, h: Long, t0: map<Long, Entry>, up0: bool,
                    depth: int, alpha: int, beta: int, maxPlayer: bool, lastP: Player): Outcome
    requires WellFormed(c.zobrist)
    decreases kids, 1
  {
    if Ends(c, x, o, depth, lastP) then
      var v := LeafScore(c, x, o, depth, lastP);
      Outcome(v, t0[h := Entry(v, depth, LeafFlag(v, alpha, beta))], up0)
    else
      var moves := NodeOrder(c, x, o, maxPlayer);
      Close(Children(c, x, o, depth, alpha, beta, maxPlayer, moves, kids, t0, up0), moves, kids, h, depth, alpha, beta, maxPlayer)
  }

  /**
   * How an inner node of `minimax` ends once its loop over `moves` stops in
   * the state `s` after the children `kids`: the value found is stored under
   * the hash `h` with `InnerFlag`, and a loop that neither broke nor ran out
   * of moves was stopped by the clock, which sets `timeUp`.
   */
  function Close(s: LoopState, moves: seq<int>, kids: seq<Timing>, h: Long, depth: int, alpha: int, beta: int, maxPlayer: bool): Outcome
  {
    Outcome(s.best, s.table[h := Entry(s.best, depth, InnerFlag(maxPlayer, s.best, alpha, beta))],
            s.timeUp || (!s.broke && |kids| < |moves|))
  }

  /**
   * The loop of an inner node over `moves` after the children `kids`: each
   * child is the mover's move searched one ply less deep for the other side
   * inside the window the earlier children left, and takes the loop one
   * `LoopStep` on; a child after the break or past the last move changes
   * nothing.
   */
  function Children(c: Setup, x: Long, o: Long, depth: int, alpha: int, beta: int, maxPlayer: bool,
                    moves: seq<int>, kids: seq<Timing>, t0: map<Long, Entry>, up0: bool): LoopState
    requires WellFormed(c.zobrist)
    decreases kids, 0
  {
    if kids == [] then LoopState(if maxPlayer then LONG_MIN else LONG_MAX, alpha, beta, t0, up0, false)
    else
      var i := |kids| - 1;
      var s := Children(c, x, o, depth, alpha, beta, maxPlayer, moves, kids[..i], t0, up0);
      if s.broke || |moves| <= i then s
      else
        var (cx, co) := Assign(x, o, moves[i], Some(Mover(c, maxPlayer)));
        LoopStep(s, Search(c, kids[i], cx, co, s.table, s.timeUp, depth - 1, s.alpha, s.beta, !maxPlayer, Mover(c, maxPlayer)), maxPlayer)
  }

  /**
   * One turn of an inner node's loop after a child returned `r`: the
   * maximiser raises `maxEval` and alpha to the child's value, the minimiser
   * lowers `minEval` and beta, and the loop breaks once `beta <= alpha` or
   * `timeUp`.
   */
  function LoopStep(s: LoopState, r: Outcome, maxPlayer: bool): LoopState
  {
    var best := if maxPlayer then Max(s.best, r.value) else Min(s.best, r.value);
    var a := if maxPlayer then Max(s.alpha, r.value) else s.alpha;
    var bt := if maxPlayer then s.beta else Min(s.beta, r.value);
    LoopState(best, a, bt, r.table, r.timeUp, bt <= a || r.timeUp)
  }

  /**
   * A child searched from where the loop stands, while it has not broken and
   * has moves left, takes the loop one `LoopStep` on with what the child
   * returned.
   */
  lemma ChildrenSnoc(c: Setup, x: Long, o: Long, depth: int, alpha: int, beta: int, maxPlayer: bool,
                     moves: seq<int>, kids: seq<Timing>, kid: Timing, t0: map<Long, Entry>, up0: bool, r: Outcome)
    requires WellFormed(c.zobrist) && |kids| < |moves|
    requires var s := Children(c, x, o, depth, alpha, beta, maxPlayer, moves, kids, t0, up0);
      var (cx, co) := Assign(x, o, moves[|kids|], Some(Mover(c, maxPlayer)));
      !s.broke && Search(c, kid, cx, co, s.table, s.timeUp, depth - 1, s.alpha, s.beta, !maxPlayer, Mover(c, maxPlayer)) == r
    ensures Children(c, x, o, depth, alpha, beta, maxPlayer, moves, kids + [kid], t0, up0)
      == LoopStep(Children(c, x, o, depth, alpha, beta, maxPlayer, moves, kids, t0, up0), r, maxPlayer)
  {
    assert (kids + [kid])[..|kids|] == kids;
  }

  /** The values the children of an inner node returned, in the order its loop searched them. */
  function ChildValues(c: Setup, x: Long, o: Long, depth: int, alpha: int, beta: int, maxPlayer: bool,
                       moves: seq<int>, kids: seq<Timing>, t0: map<Long, Entry>, up0: bool): (r: seq<int>)
    requires WellFormed(c.zobrist)
    ensures |r| <= |kids| && |r| <= |moves|
    decreases kids
  {
    if kids == [] then []
    else
      var i := |kids| - 1;
      var s := Children(c, x, o, depth, alpha, beta, maxPlayer, moves, kids[..i], t0, up0);
      var vs := ChildValues(c, x, o, depth, alpha, beta, maxPlayer, moves, kids[..i], t0, up0);
      if s.broke || |moves| <= i then vs
      else
        var (cx, co) := Assign(x, o, moves[i], Some(Mover(c, maxPlayer)));
        vs + [Search(c, kids[i], cx, co, s.table, s.timeUp, depth - 1, s.alpha, s.beta, !maxPlayer, Mover(c, maxPlayer)).value]
  }

  /**
   * The loop of a maximising node keeps the largest child value so far
   * (`Long.MIN_VALUE` before any) and never moves beta; a minimising node
   * keeps the smallest (`Long.MAX_VALUE` before any) and never moves alpha.
   */
  lemma {:induction false} ChildrenBest(c: Setup, x: Long, o: Long, depth: int, alpha: int, beta: int, maxPlayer: bool,
                                        moves: seq<int>, kids: seq<Timing>, t0: map<Long, Entry>, up0: bool)
    requires WellFormed(c.zobrist)
    ensures var s := Children(c, x, o, depth, alpha, beta, maxPlayer, moves, kids, t0, up0);
      var vs := ChildValues(c, x, o, depth, alpha, beta, maxPlayer, moves, kids, t0, up0);
      (if maxPlayer then s.best == MaxOf(LONG_MIN, vs) && s.beta == beta
       else s.best == MinOf(LONG_MAX, vs) && s.alpha == alpha)
    decreases kids
  {
    if kids != [] {
      var i := |kids| - 1;
      ChildrenBest(c, x, o, depth, alpha, beta, maxPlayer, moves, kids[..i], t0, up0);
      var s := Children(c, x, o, depth, alpha, beta, maxPlayer, moves, kids[..i], t0, up0);
      var vs := ChildValues(c, x, o, depth, alpha, beta, maxPlayer, moves, kids[..i], t0, up0);
      if !s.broke && i < |moves| {
        var (cx, co) := Assign(x, o, moves[i], Some(Mover(c, maxPlayer)));
        var r := Search(c, kids[i], cx, co, s.table, s.timeUp, depth - 1, s.alpha, s.beta, !maxPlayer, Mover(c, maxPlayer));
        assert Children(c, x, o, depth, alpha, beta, maxPlayer, moves, kids, t0, up0) == LoopStep(s, r, maxPlayer);
        assert ChildValues(c, x, o, depth, alpha, beta, maxPlayer, moves, kids, t0, up0) == vs + [r.value];
        assert (vs + [r.value])[..|vs|] == vs;
      } else {
        assert Children(c, x, o, depth, alpha, beta, maxPlayer, moves, kids, t0, up0) == s;
        assert ChildValues(c, x, o, depth, alpha, beta, maxPlayer, moves, kids, t0, up0) == vs;
      }
    }
  }

  /** A loop that broke did so because the window closed or time ran out. */
  lemma {:induction false} ChildrenBreak(c: Setup, x: Long, o: Long, depth: int, alpha: int, beta: int, maxPlayer: bool,
                                         moves: seq<int>, kids: seq<Timing>, t0: map<Long, Entry>, up0: bool)
    requires WellFormed(c.zobrist)
    ensures var s := Children(c, x, o, depth, alpha, beta, maxPlayer, moves, kids, t0, up0);
      s.broke ==> s.beta <= s.alpha || s.timeUp
    decreases kids
  {
    if kids != [] {
      ChildrenBreak(c, x, o, depth, alpha, beta, maxPlayer, moves, kids[..|kids| - 1], t0, up0);
    }
  }

  /** `timeUp` never goes back to `false`: a search that starts with it set ends with it set. */
  lemma {:induction false} SearchKeepsTimeUp(c: Setup, n: Timing, x: Long, o: Long, t0: map<Long, Entry>, up0: bool,
                                             depth: int, alpha: int, beta: int, maxPlayer: bool, lastP: Player)
    requires WellFormed(c.zobrist)
    ensures up0 ==> Search(c, n, x, o, t0, up0, depth, alpha, beta, maxPlayer, lastP).timeUp
    decreases n, 1
  {
    match n
    case Late =>
    case OnTime(kids) =>
      var h := ZobristHash(x, o, c.zobrist);
      match ProbeTable(Lookup(t0, h), depth, alpha, beta)
      case Cutoff(_) =>
      case Window(a, bt) =>
        assert Search(c, n, x, o, t0, up0, depth, alpha, beta, maxPlayer, lastP)
          == InWindow(c, kids, x, o, h, t0, up0, depth, a, bt, maxPlayer, lastP);
        if !Ends(c, x, o, depth, lastP) {
          ChildrenKeepTimeUp(c, x, o, depth, a, bt, maxPlayer, NodeOrder(c, x, o, maxPlayer), kids, t0, up0);
        }
  }

  /** The loop of an inner node never clears `timeUp` either. */
  lemma {:induction false} ChildrenKeepTimeUp(c: Setup, x: Long, o: Long, depth: int, alpha: int, beta: int, maxPlayer: bool,
                                              moves: seq<int>, kids: seq<Timing>, t0: map<Long, Entry>, up0: bool)
    requires WellFormed(c.zobrist)
    ensures up0 ==> Children(c, x, o, depth, alpha, beta, maxPlayer, moves, kids, t0, up0).timeUp
    decreases kids, 0
  {
    if kids != [] {
      var i := |kids| - 1;
      ChildrenKeepTimeUp(c, x, o, depth, alpha, beta, maxPlayer, moves, kids[..i], t0, up0);
      var s := Children(c, x, o, depth, alpha, beta, maxPlayer, moves, kids[..i], t0, up0);
      if !s.broke && i < |moves| {
        var (cx, co) := Assign(x, o, moves[i], Some(Mover(c, maxPlayer)));
        SearchKeepsTimeUp(c, kids[i], cx, co, s.table, s.timeUp, depth - 1, s.alpha, s.beta, !maxPlayer, Mover(c, maxPlayer));
      }
    }
  }

  /**
   * A call that passed the deadline check and was not answered by the table
   * leaves its own value in the table under the position's hash, at its
   * depth; a call answered by the table or out of time leaves the table as
   * it found it.
   */
  lemma SearchStores(c: Setup, n: Timing, x: Long, o: Long, t0: map<Long, Entry>, up0: bool,
                     depth: int, alpha: int, beta: int, maxPlayer: bool, lastP: Player)
    requires WellFormed(c.zobrist)
    ensures var h := ZobristHash(x, o, c.zobrist);
      var r := Search(c, n, x, o, t0, up0, depth, alpha, beta, maxPlayer, lastP);
      if n.OnTime? && ProbeTable(Lookup(t0, h), depth, alpha, beta).Window?
      then h in r.table && r.table[h].value == r.value && r.table[h].depth == depth
      else r.table == t0
  {
    var h := ZobristHash(x, o, c.zobrist);
    if n.OnTime? {
      match ProbeTable(Lookup(t0, h), depth, alpha, beta)
      case Cutoff(_) =>
      case Window(a, bt) =>
        assert Search(c, n, x, o, t0, up0, depth, alpha, beta, maxPlayer, lastP)
          == InWindow(c, n.kids, x, o, h, t0, up0, depth, a, bt, maxPlayer, lastP);
    }
  }

  /** The root loop's record: the values of the root moves searched so far, the table and `timeUp`. */
  datatype RootState = RootState(values: seq<int>, table: map<Long, Entry>, timeUp: bool)

  /**
   * The root loop of one depth after the first `|ts|` moves of `order`,
   * their clocks deciding as `ts`: each move is made for the AI and searched
   * by `minimax` one ply less deep for the opponent, in the full window,
   * from the table and `timeUp` the move before it left.
   */
  function RootRun(c: Setup, x: Long, o: Long, depth: int, order: seq<int>, ts: seq<Timing>,
                   t0: map<Long, Entry>, up0: bool): (r: RootState)
    requires WellFormed(c.zobrist) && |ts| <= |order|
    ensures |r.values| == |ts|
  {
    if ts == [] then RootState([], t0, up0)
    else
      var i := |ts| - 1;
      var s := RootRun(c, x, o, depth, order, ts[..i], t0, up0);
      var (cx, co) := Assign(x, o, order[i], Some(c.ai));
      var r := Search(c, ts[i], cx, co, s.table, s.timeUp, depth - 1, LONG_MIN, LONG_MAX, false, c.ai);
      RootState(s.values + [r.value], r.table, r.timeUp)
  }

  // ---------------------------------------------------------------------
  // The root of the iterative deepening
  // ---------------------------------------------------------------------

  /**
   * The order in which `chooseBestMove` searches the root moves: the empty
   * cells sorted by the AI's one-ply score, highest first.
   */
  function RootOrder(x: Long, o: Long, player: Player, w: W.Values, lines: seq<Long>): seq<int>
  {
    SortMoves(RootScores(x, o, player, w, lines), true, Cells(Not(Or(x, o))))
  }

  /** The root order is a permutation of the empty cells, sorted by score with the highest first. */
  lemma RootOrderSorted(x: Long, o: Long, player: Player, w: W.Values, lines: seq<Long>)
    ensures var r := RootOrder(x, o, player, w, lines);
      multiset(r) == multiset(Cells(Not(Or(x, o))))
      && (forall q :: q in r <==> 0 <= q < 64 && CellAt(x, o, q) == None)
    ensures var scores := RootScores(x, o, player, w, lines);
      var r := RootOrder(x, o, player, w, lines);
      (forall q :: q in r ==> q in scores) && SortedBy(scores, true, r)
  {
    SortMovesSorted(RootScores(x, o, player, w, lines), true, Cells(Not(Or(x, o))));
    AvailableCells(x, o);
  }

  /**
   * One finished depth of the root search: its evaluated moves, the move
   * picked among the best, what the clock decided for each root move, and
   * the transposition table the depth started from.
   */
  datatype Round = Round(results: seq<MoveEvaluation>, pick: int, timings: seq<Timing>, start: map<Long, Entry>)

  function Picks(rounds: seq<Round>): (r: seq<int>)
    ensures |r| == |rounds| && forall i :: 0 <= i < |rounds| ==> r[i] == rounds[i].pick
  {
    seq(|rounds|, i requires 0 <= i < |rounds| => rounds[i].pick)
  }

  /**
   * A finished depth searched every root move in `order`, and its pick is
   * one of the moves of the best value (-1 when there was no move at all).
   */
  predicate RoundOk(r: Round, order: seq<int>)
  {
    |r.results| == |order| && (forall j :: 0 <= j < |order| ==> r.results[j].move == order[j])
    && (r.results == [] ==> r.pick == -1)
    && (r.results != [] ==> BestPick(r.results, r.pick))
  }

  /** `pick` is the move of a result whose value no other result exceeds. */
  predicate BestPick(results: seq<MoveEvaluation>, pick: int)
  {
    exists i :: 0 <= i < |results| && results[i].move == pick
      && forall j :: 0 <= j < |results| ==> results[j].value <= results[i].value
  }

  /** Every round in `rounds` is a finished depth over `order`. */
  predicate RoundsOk(rounds: seq<Round>, order: seq<int>)
  {
    if rounds == [] then true
    else RoundsOk(rounds[..|rounds| - 1], order) && RoundOk(rounds[|rounds| - 1], order)
  }

  /** `RoundsOk` holds of each round in turn. */
  lemma {:induction false} RoundsOkAt(rounds: seq<Round>, order: seq<int>, d: int)
    requires RoundsOk(rounds, order) && 0 <= d < |rounds|
    ensures RoundOk(rounds[d], order)
    decreases |rounds|
  {
    if d < |rounds| - 1 {
      RoundsOkAt(rounds[..|rounds| - 1], order, d);
    }
  }

  /** The pick of a finished depth is one of the root moves, so an empty cell. */
  lemma PickIsFree(r: Round, x: Long, o: Long, player: Player, w: W.Values, lines: seq<Long>)
    requires RoundOk(r, RootOrder(x, o, player, w, lines)) && r.pick != -1
    ensures 0 <= r.pick < 64 && CellAt(x, o, r.pick) == None
  {
    var order := RootOrder(x, o, player, w, lines);
    RootOrderSorted(x, o, player, w, lines);
    var i :| 0 <= i < |r.results| && r.results[i].move == r.pick
      && forall j :: 0 <= j < |r.results| ==> r.results[j].value <= r.results[i].value;
    assert order[i] in order;
  }

  /** The pick before the `i`-th one, with `last` before the first. */
  function Prev(last: int, picks: seq<int>, i: int): int
    requires 0 <= i <= |picks|
  {
    if i == 0 then last else picks[i - 1]
  }

  /**
   * `consistentMoveCount` after the convergence check has seen `picks`,
   * starting from the best move `last` and the counter `count` left by
   * earlier depths (or earlier calls): one more for a pick equal to the
   * one before it, back to 0 otherwise.
   */
  function CountAfter(last: int, count: int, picks: seq<int>): int
    decreases |picks|, 1
  {
    if picks == [] then count else CountStep(last, count, picks)
  }

  /**
   * `CountAfter` of non-empty picks: the counter the earlier picks left,
   * moved on by the last one. A separate layer of the recursion, so that a
   * mention of `CountAfter` unfolds no further than this unless a proof
   * asks for it.
   */
  function CountStep(last: int, count: int, picks: seq<int>): int
    requires picks != []
    decreases |picks|, 0
  {
    var n := |picks| - 1;
    if picks[n] == Prev(last, picks, n) then CountAfter(last, count, picks[..n]) + 1 else 0
  }

  /** The picks from the `from`-th on each repeat the pick before them. */
  predicate RepeatsFrom(last: int, picks: seq<int>, from: int)
  {
    forall j :: 0 <= from <= j < |picks| ==> picks[j] == Prev(last, picks, j)
  }

  /**
   * The counter reaches `k` exactly when the last `k` picks each repeat
   * the one before them, and it exceeds its starting value by the number
   * of picks exactly when every pick repeats: convergence after
   * `CONVERGENCE_THRESHOLD` is a run of that many unchanged best moves.
   */
  lemma {:induction false} CountAfterRun(last: int, count: int, picks: seq<int>, k: int)
    requires 0 <= count && 0 <= k <= |picks|
    ensures CountAfter(last, count, picks) >= k <==> RepeatsFrom(last, picks, |picks| - k)
    ensures CountAfter(last, count, picks) == count + |picks| <==> RepeatsFrom(last, picks, 0)
    decreases |picks|
  {
    if picks != [] {
      var n := |picks| - 1;
      var init := picks[..n];
      assert forall j :: 0 <= j <= n ==> Prev(last, init, j) == Prev(last, picks, j);
      CountAfterRun(last, count, init, if k == 0 then 0 else k - 1);
      CountAfterRun(last, count, init, 0);
      if picks[n] == Prev(last, picks, n) {
        assert RepeatsFrom(last, init, n - (k - 1)) <==> RepeatsFrom(last, picks, n + 1 - k);
        assert RepeatsFrom(last, init, 0) <==> RepeatsFrom(last, picks, 0);
      } else {
        assert !RepeatsFrom(last, picks, n);
        assert !RepeatsFrom(last, picks, 0);
        if k > 0 {
          assert !RepeatsFrom(last, picks, |picks| - k);
        }
      }
    }
  }

  /** One more pick moves the counter on by the comparison with the pick before it. */
  lemma CountAfterSnoc(last: int, count: int, rounds: seq<Round>, r: Round)
    ensures CountAfter(last, count, Picks(rounds + [r]))
      == if r.pick == (if rounds == [] then last else rounds[|rounds| - 1].pick) then CountAfter(last, count, Picks(rounds)) + 1 else 0
  {
    var picks := Picks(rounds + [r]);
    assert picks[..|rounds|] == Picks(rounds);
  }

  /** A finished depth appended to finished depths keeps them all finished, and the earlier ones in place. */
  lemma RoundsOkSnoc(rounds: seq<Round>, r: Round, order: seq<int>)
    requires RoundsOk(rounds, order) && RoundOk(r, order)
    ensures RoundsOk(rounds + [r], order)
    ensures forall d :: 0 <= d < |rounds| ==> (rounds + [r])[d] == rounds[d]
    ensures (forall d :: 0 <= d < |rounds| ==> rounds[d].pick != -1) && r.pick != -1 ==>
      forall d :: 0 <= d < |rounds| + 1 ==> (rounds + [r])[d].pick != -1
  {
    var s := rounds + [r];
    assert s[..|rounds|] == rounds;
    assert s[|rounds|] == r;
  }

  /** The root loop a round ran: depth `depth` over `order`, from its starting table, the clock deciding as it recorded. */
  function RoundRun(c: Setup, x: Long, o: Long, depth: int, order: seq<int>, r: Round): RootState
    requires WellFormed(c.zobrist) && |r.timings| <= |order|
  {
    RootRun(c, x, o, depth, order, r.timings, r.start, false)
  }

  /** The values of a round are the ones its root loop computed, and that loop finished before the deadline. */
  predicate RoundSearched(c: Setup, x: Long, o: Long, depth: int, order: seq<int>, r: Round)
    requires WellFormed(c.zobrist)
  {
    |r.timings| <= |order|
    && Scores(r.results) == RoundRun(c, x, o, depth, order, r).values
    && !RoundRun(c, x, o, depth, order, r).timeUp
  }

  /**
   * The rounds replayed as the depths 1, 2, ... in turn from the table `t0`:
   * the table the last round left, when round `d` (from 0) ran the root loop
   * of depth `d + 1` from the table the round before it left and carries
   * that loop's values; `None` when some round does not.
   */
  function Replay(c: Setup, x: Long, o: Long, order: seq<int>, rounds: seq<Round>, t0: map<Long, Entry>): Option<map<Long, Entry>>
    requires WellFormed(c.zobrist)
    decreases |rounds|, 2
  {
    if rounds == [] then Some(t0) else ReplayLast(c, x, o, order, rounds, t0)
  }

  /**
   * `Replay` of non-empty rounds. `Replay`, `ReplayLast` and `ReplayStep`
   * are three layers of one recursion, so that a mention of `Replay`
   * unfolds no further than `ReplayStep` unless a proof asks for it.
   */
  function ReplayLast(c: Setup, x: Long, o: Long, order: seq<int>, rounds: seq<Round>, t0: map<Long, Entry>): Option<map<Long, Entry>>
    requires WellFormed(c.zobrist) && rounds != []
    decreases |rounds|, 1
  {
    ReplayStep(c, x, o, order, rounds, t0)
  }

  /** The replay of all rounds but the last, then the last round from the table it left. */
  function ReplayStep(c: Setup, x: Long, o: Long, order: seq<int>, rounds: seq<Round>, t0: map<Long, Entry>): Option<map<Long, Entry>>
    requires WellFormed(c.zobrist) && rounds != []
    decreases |rounds|, 0
  {
    var n := |rounds| - 1;
    var r := rounds[n];
    if Replay(c, x, o, order, rounds[..n], t0) == Some(r.start) && RoundSearched(c, x, o, n + 1, order, r)
    then Some(RoundRun(c, x, o, n + 1, order, r).table)
    else None
  }

  /** Each round of a replay that succeeds carries the values of its own depth's root loop. */
  lemma {:induction false} ReplayAt(c: Setup, x: Long, o: Long, order: seq<int>, rounds: seq<Round>, t0: map<Long, Entry>, d: int)
    requires WellFormed(c.zobrist) && Replay(c, x, o, order, rounds, t0).Some? && 0 <= d < |rounds|
    ensures RoundSearched(c, x, o, d + 1, order, rounds[d])
    decreases |rounds|
  {
    assert Replay(c, x, o, order, rounds, t0) == ReplayStep(c, x, o, order, rounds, t0);
    if d < |rounds| - 1 {
      ReplayAt(c, x, o, order, rounds[..|rounds| - 1], t0, d);
    }
  }

  /** A round of the next depth, searched from the table the earlier rounds left, extends their replay. */
  lemma ReplaySnoc(c: Setup, x: Long, o: Long, order: seq<int>, rounds: seq<Round>, r: Round, t0: map<Long, Entry>)
    requires WellFormed(c.zobrist) && Replay(c, x, o, order, rounds, t0) == Some(r.start)
    requires RoundSearched(c, x, o, |rounds| + 1, order, r)
    ensures Replay(c, x, o, order, rounds + [r], t0) == Some(RoundRun(c, x, o, |rounds| + 1, order, r).table)
  {
    var s := rounds + [r];
    assert s[..|rounds|] == rounds;
    assert s[|rounds|] == r;
    assert Replay(c, x, o, order, s, t0) == ReplayStep(c, x, o, order, s, t0);
  }

  /** `move` is a move of `order` whose entry in `values` no other entry exceeds. */
  predicate MaximisesAt(order: seq<int>, values: seq<int>, move: int)
  {
    exists i :: 0 <= i < |order| && i < |values| && order[i] == move
      && forall j :: 0 <= j < |values| ==> values[j] <= values[i]
  }

  /** The pick of a finished depth is a root move of the highest value that depth's root loop computed. */
  lemma PickMaximises(c: Setup, x: Long, o: Long, depth: int, order: seq<int>, r: Round)
    requires WellFormed(c.zobrist) && RoundOk(r, order) && RoundSearched(c, x, o, depth, order, r) && r.pick != -1
    ensures MaximisesAt(order, RoundRun(c, x, o, depth, order, r).values, r.pick)
  {
    var vs := RoundRun(c, x, o, depth, order, r).values;
    var i :| 0 <= i < |r.results| && r.results[i].move == r.pick
      && forall j :: 0 <= j < |r.results| ==> r.results[j].value <= r.results[i].value;
    assert forall j :: 0 <= j < |vs| ==> vs[j] == r.results[j].value;
  }

  /**
   * The move the iterative deepening returns is a root move of the highest
   * value the root loop of the last completed depth computed.
   */
  lemma SearchedMoveIsBest(c: Setup, x: Long, o: Long, order: seq<int>, maxDepth: int, move: int, completed: int,
                           rounds: seq<Round>, timedOut: bool, t0: map<Long, Entry>)
    requires WellFormed(c.zobrist) && Replay(c, x, o, order, rounds, t0).Some?
    requires SearchOutcome(order, maxDepth, move, completed, rounds, timedOut) && move != -1
    ensures 0 < completed <= |rounds| && RoundSearched(c, x, o, completed, order, rounds[completed - 1])
      && MaximisesAt(order, RoundRun(c, x, o, completed, order, rounds[completed - 1]).values, move)
  {
    ReplayAt(c, x, o, order, rounds, t0, completed - 1);
    RoundsOkAt(rounds, order, completed - 1);
    PickMaximises(c, x, o, completed, order, rounds[completed - 1]);
  }

  /** How `chooseBestMove` chose: opening cell, pair reply, win, block, or the iterative deepening. */
  datatype Choice = Opening | Reply | Win | Block | Searched(completed: int, rounds: seq<Round>, timedOut: bool)

  /**
   * The checks `chooseBestMove` makes before any search, in its order: an
   * opening pair cell on the empty board, the partner of the opponent's
   * first pair cell, a cell that wins for `ai`, a cell that blocks the
   * other player's win; `Searched` when none applies.
   */
  predicate QuickChoice(x: Long, o: Long, ai: Player, lines: seq<Long>, move: int, choice: Choice)
  {
    var mine := if ai == X then x else o;
    var theirs := if ai == X then o else x;
    match choice
    case Opening =>
      x == ZERO && o == ZERO
      && exists k :: 0 <= k < |OPTIMAL_PAIRS| && (move == OPTIMAL_PAIRS[k].0 || move == OPTIMAL_PAIRS[k].1)
    case Reply =>
      ReplyApplies(x, o, ai) && PairReply(x, o, Other(ai), 0) == Some(move)
      && 0 <= move < 64 && CellAt(x, o, move) == None
    case Win =>
      !(x == ZERO && o == ZERO) && !ReplyApplies(x, o, ai)
      && move == WinCell(mine, theirs, lines, 0) != -1
    case Block =>
      !(x == ZERO && o == ZERO) && !ReplyApplies(x, o, ai) && WinCell(mine, theirs, lines, 0) == -1
      && move == WinCell(theirs, mine, lines, 0) != -1
    case Searched(_, _, _) => NoQuickMove(x, o, ai, lines)
  }

  /** The opponent has played exactly one stone, on a cell of an opening pair. */
  predicate ReplyApplies(x: Long, o: Long, ai: Player)
  {
    !(x == ZERO && o == ZERO) && PopCount(Or(x, o)) == 1 && PairReply(x, o, Other(ai), 0).Some?
  }

  /** None of the checks before the search applies: the search decides. */
  predicate NoQuickMove(x: Long, o: Long, ai: Player, lines: seq<Long>)
  {
    var mine := if ai == X then x else o;
    var theirs := if ai == X then o else x;
    !(x == ZERO && o == ZERO) && !ReplyApplies(x, o, ai)
    && WinCell(mine, theirs, lines, 0) == -1 && WinCell(theirs, mine, lines, 0) == -1
  }

  /**
   * The outcome of the iterative deepening over the root `order`: every
   * round is well formed, the move is the pick of the last completed round
   * (-1 when none completed), and fewer than `maxDepth` completed rounds
   * with no early stop mean the deadline passed.
   */
  predicate SearchOutcome(order: seq<int>, maxDepth: int, move: int, completed: int, rounds: seq<Round>, timedOut: bool)
  {
    RoundsOk(rounds, order)
    && 0 <= completed <= |rounds| <= maxDepth
    && move == (if completed == 0 then -1 else rounds[completed - 1].pick)
    && (move == -1 <==> completed == 0)
    && (completed == |rounds| < maxDepth ==> timedOut)
  }

  /** A move the iterative deepening returns is an empty cell of the board it searched. */
  lemma SearchedMoveIsFree(x: Long, o: Long, player: Player, w: W.Values, lines: seq<Long>, maxDepth: int,
                           move: int, completed: int, rounds: seq<Round>, timedOut: bool)
    requires SearchOutcome(RootOrder(x, o, player, w, lines), maxDepth, move, completed, rounds, timedOut)
    requires move != -1
    ensures 0 <= move < 64 && CellAt(x, o, move) == None
  {
    var order := RootOrder(x, o, player, w, lines);
    RoundsOkAt(rounds, order, completed - 1);
    PickIsFree(rounds[completed - 1], x, o, player, w, lines);
  }

  /** The cell `findImmediateWinMove` returns is empty, whatever the lines. */
  lemma WinCellFree(mine: Long, theirs: Long, lines: seq<Long>)
    requires WinCell(mine, theirs, lines, 0) != -1
    ensures var r := WinCell(mine, theirs, lines, 0);
      0 <= r < 64 && !mine[r] && !theirs[r]
  {
    var r := WinCell(mine, theirs, lines, 0);
    var i :| 0 <= i < |lines| && Threatens(lines[i], mine, theirs)
      && r == NumberOfTrailingZeros(And(lines[i], Not(Or(mine, theirs))));
    PopCountZero(And(lines[i], Not(Or(mine, theirs))));
  }

  /**
   * Whatever `chooseBestMove` decides, the move is an empty cell of the
   * board it was given, or -1; and -1 comes only from a search in which
   * no depth was completed.
   */
  lemma ChosenMoveIsFree(x: Long, o: Long, ai: Player, w: W.Values, lines: seq<Long>, maxDepth: int,
                         move: int, choice: Choice)
    requires QuickChoice(x, o, ai, lines, move, choice)
    requires choice.Searched? ==>
      SearchOutcome(RootOrder(x, o, ai, w, lines), maxDepth, move, choice.completed, choice.rounds, choice.timedOut)
    ensures move == -1 || (0 <= move < 64 && CellAt(x, o, move) == None)
    ensures move == -1 ==> choice.Searched? && choice.completed == 0
  {
    var mine := if ai == X then x else o;
    var theirs := if ai == X then o else x;
    match choice
    case Opening =>
    case Reply =>
    case Win =>
      WinCellFree(mine, theirs, lines);
    case Block =>
      WinCellFree(theirs, mine, lines);
    case Searched(completed, rounds, timedOut) =>
      if move != -1 {
        SearchedMoveIsFree(x, o, ai, w, lines, maxDepth, move, completed, rounds, timedOut);
      }
  }

  class AIPlayer {
    const aiPlayer: Player
    const opponent: Player
    const weights: W.Weights
    const maxDepth: int
    const maxTime: int
    /** `Line.lines`, as cell masks. */
    const lines: seq<Long>
    const zobrist: Zobrist
    const clock: Clock
    var endTime: int
    var timeUp: bool
    var bestMoveSoFar: int
    var lastDepth: int
    var lastBestMove: int
    var consistentMoveCount: int
    var transpositionTable: map<Long, Entry>

    predicate Valid()
      reads weights
    {
      opponent == Other(aiPlayer) && 1 <= maxDepth <= MAX_DEPTH && WellFormed(zobrist) && W.Valid(weights.values)
    }

    /** Every stored value is a Java `long`. */
    predicate TableLong()
      reads this
    {
      forall h :: h in transpositionTable ==> IsLong(transpositionTable[h].value)
    }

    /** The search leaves the state of the move choice alone. */
    twostate predicate KeepsChoice()
      reads this
    {
      bestMoveSoFar == old(bestMoveSoFar) && lastBestMove == old(lastBestMove)
      && consistentMoveCount == old(consistentMoveCount) && endTime == old(endTime)
    }

    /** `AIPlayer(aiPlayer, maxDepth)`: default weights, the depth clamped to 1..32, practically no time limit. */
    constructor WithDepth(aiPlayer: Player, maxDepth: int, lines: seq<Long>, zobrist: Zobrist)
      requires WellFormed(zobrist)
      ensures Valid() && TableLong()
      ensures this.aiPlayer == aiPlayer && opponent == Other(aiPlayer)
      ensures weights.values == W.Defaults && fresh(weights)
      ensures this.maxDepth == ClampDepth(maxDepth) && maxTime == UNLIMITED_TIME
      ensures lastBestMove == -1 && consistentMoveCount == 0 && transpositionTable == map[]
    {
      this.aiPlayer := aiPlayer;
      opponent := Other(aiPlayer);
      weights := new W.Weights(true);
      this.maxDepth := ClampDepth(maxDepth);
      maxTime := UNLIMITED_TIME;
      this.lines := lines;
      this.zobrist := zobrist;
      clock := new Clock();
      lastBestMove := -1;
      consistentMoveCount := 0;
      transpositionTable := map[];
    }

    /** `AIPlayer(aiPlayer, weights)`: the given weights, the full depth and the 13.8 s budget. */
    constructor WithWeights(aiPlayer: Player, weights: W.Weights, lines: seq<Long>, zobrist: Zobrist)
      requires WellFormed(zobrist) && W.Valid(weights.values)
      ensures Valid() && TableLong()
      ensures this.aiPlayer == aiPlayer && opponent == Other(aiPlayer) && this.weights == weights
      ensures maxDepth == MAX_DEPTH && maxTime == MAX_TIME
      ensures lastBestMove == -1 && consistentMoveCount == 0 && transpositionTable == map[]
    {
      this.aiPlayer := aiPlayer;
      opponent := Other(aiPlayer);
      this.weights := weights;
      maxDepth := MAX_DEPTH;
      maxTime := MAX_TIME;
      this.lines := lines;
      this.zobrist := zobrist;
      clock := new Clock();
      lastBestMove := -1;
      consistentMoveCount := 0;
      transpositionTable := map[];
    }

    /** `AIPlayer(aiPlayer)`: default weights, the full depth and the 13.8 s budget. */
    constructor (aiPlayer: Player, lines: seq<Long>, zobrist: Zobrist)
      requires WellFormed(zobrist)
      ensures Valid() && TableLong()
      ensures this.aiPlayer == aiPlayer && opponent == Other(aiPlayer)
      ensures weights.values == W.Defaults && fresh(weights)
      ensures maxDepth == MAX_DEPTH && maxTime == MAX_TIME
      ensures lastBestMove == -1 && consistentMoveCount == 0 && transpositionTable == map[]
    {
      this.aiPlayer := aiPlayer;
      opponent := Other(aiPlayer);
      weights := new W.Weights(true);
      maxDepth := MAX_DEPTH;
      maxTime := MAX_TIME;
      this.lines := lines;
      this.zobrist := zobrist;
      clock := new Clock();
      lastBestMove := -1;
      consistentMoveCount := 0;
      transpositionTable := map[];
    }

    /** `computeZobristHash(b)`. */
    method ComputeZobristHash(b: Board) returns (hash: Long)
      requires WellFormed(zobrist)
      ensures hash == ZobristHash(b.xPositions, b.oPositions, zobrist)
    {
      hash := zobrist.empty;
      for pos := 0 to 64
        invariant hash == HashUpTo(b.xPositions, b.oPositions, zobrist, pos)
      {
        if IsSet(b.xPositions, pos) {
          hash := Xor(hash, zobrist.keys[pos].0);
        } else if IsSet(b.oPositions, pos) {
          hash := Xor(hash, zobrist.keys[pos].1);
        }
      }
    }

    /** `checkWinner(b, p)`: some line lies entirely in `p`'s cells. */
    method CheckWinner(b: Board, p: Player) returns (r: bool)
      ensures r <==> Won(b.PositionsOf(p), lines)
    {
      var pPositions := if p == X then b.xPositions else b.oPositions;
      for i := 0 to |lines|
        invariant forall j :: 0 <= j < i ==> !Includes(pPositions, lines[j])
      {
        if Includes(pPositions, lines[i]) {
          return true;
        }
      }
      return false;
    }

    /** `isTerminal(b, lastP)`: `lastP` has won or the board is full. */
    method IsTerminal(b: Board, lastP: Player) returns (r: bool)
      ensures r <==> Won(b.PositionsOf(lastP), lines) || forall q :: 0 <= q < 64 ==> CellAt(b.xPositions, b.oPositions, q) != None
    {
      r := CheckWinner(b, lastP);
      if !r {
        r := b.IsFull();
        assert forall q :: 0 <= q < 64 ==> b.Get(q) == CellAt(b.xPositions, b.oPositions, q);
      }
    }

    /** `findImmediateWinMove(b, p)`: the empty cell of the first line where `p` has three stones and one empty cell. */
    method FindImmediateWinMove(b: Board, p: Player) returns (r: int)
      ensures r == WinCell(b.PositionsOf(p), b.PositionsOf(Other(p)), lines, 0)
    {
      var pPositions := if p == X then b.xPositions else b.oPositions;
      var oPositions := if p == X then b.oPositions else b.xPositions;
      var occupied := Or(pPositions, oPositions);
      for i := 0 to |lines|
        invariant WinCell(pPositions, oPositions, lines, 0) == WinCell(pPositions, oPositions, lines, i)
      {
        var linePos := lines[i];
        var pLinePos := And(linePos, pPositions);
        var emptyLinePos := And(linePos, Not(occupied));
        var pCount := CountOnes(pLinePos);
        var emptyCount := CountOnes(emptyLinePos);
        assert pLinePos == And(linePos, pPositions);
        if pCount == 3 && emptyCount == 1 {
          return NumberOfTrailingZeros(emptyLinePos);
        }
      }
      return -1;
    }

    /** `findImmediateBlockMove(b, opp)`: the cell where `opp` would win next. */
    method FindImmediateBlockMove(b: Board, opp: Player) returns (r: int)
      ensures r == WinCell(b.PositionsOf(opp), b.PositionsOf(Other(opp)), lines, 0)
    {
      r := FindImmediateWinMove(b, opp);
    }

    /** The static value of a leaf: a win for `lastP`, or the heuristic for the AI. */
    method LeafValue(b: Board, depth: int, lastP: Player) returns (eval: int)
      requires Valid() && 0 <= depth <= MAX_DEPTH
      ensures Won(b.PositionsOf(lastP), lines) ==> eval == WinValue(depth, lastP, aiPlayer)
      ensures !Won(b.PositionsOf(lastP), lines) ==>
        eval == Wrap32(Heuristics.ExactScore(b.xPositions, b.oPositions, aiPlayer, weights.values, lines))
      ensures IsLong(eval)
    {
      var won := CheckWinner(b, lastP);
      if won {
        var winScore := WIN_SCORE + depth;
        eval := if lastP == aiPlayer then winScore else -winScore;
      } else {
        eval := Heuristics.Evaluate(b, aiPlayer, weights.values, lines);
      }
    }

    /** A leaf of `minimax`: its value, stored in the table with the flag its window gives it. */
    method StoreLeaf(b: Board, depth: int, lastP: Player, zHash: Long, alpha: int, beta: int,
                     ghost maxPlayer: bool, ghost c: Setup, ghost x: Long, ghost o: Long)
      returns (value: int)
      requires Valid() && TableLong() && 0 <= depth <= MAX_DEPTH
      requires b.xPositions == x && b.oPositions == o && c == Setup(aiPlayer, weights.values, lines, zobrist)
      modifies this
      ensures KeepsChoice() && TableLong() && IsLong(value) && timeUp == old(timeUp)
      ensures value == LeafScore(c, x, o, depth, lastP)
      ensures transpositionTable == old(transpositionTable)[zHash := Entry(value, depth, LeafFlag(value, alpha, beta))]
      ensures Ends(c, x, o, depth, lastP) ==>
        InWindow(c, [], x, o, zHash, old(transpositionTable), old(timeUp), depth, alpha, beta, maxPlayer, lastP)
        == Outcome(value, transpositionTable, timeUp)
    {
      value := LeafValue(b, depth, lastP);
      transpositionTable := transpositionTable[zHash := Entry(value, depth, LeafFlag(value, alpha, beta))];
    }

    /** The one-ply scores of the ordering loop: each move is made, evaluated for the AI and undone. */
    method ScoreMoves(b: Board, moves: seq<int>, mover: Player, ghost x: Long, ghost o: Long, ghost w: W.Values) returns (scores: map<int, int>)
      requires Valid()
      requires forall m :: m in moves ==> 0 <= m < 64 && b.Get(m) == None
      requires b.xPositions == x && b.oPositions == o && weights.values == w
      modifies b
      ensures b.xPositions == x && b.oPositions == o
      ensures scores == ScoreMap(x, o, moves, mover, aiPlayer, w, lines)
    {
      scores := map[];
      for i := 0 to |moves|
        invariant b.xPositions == x && b.oPositions == o && weights.values == w
        invariant scores == ScoreMap(x, o, moves[..i], mover, aiPlayer, w, lines)
      {
        var mv := moves[i];
        assert mv in moves;
        var eval := ScoreMove(b, mv, mover, x, o, w);
        ScoreMapSnoc(x, o, moves, i, mover, aiPlayer, w, lines);
        scores := scores[mv := eval];
      }
      assert moves[..|moves|] == moves;
    }

    /** One step of the ordering loop: `mv` is made, the board evaluated for the AI, and `mv` undone. */
    method ScoreMove(b: Board, mv: int, mover: Player, ghost x: Long, ghost o: Long, ghost w: W.Values) returns (eval: int)
      requires Valid()
      requires 0 <= mv < 64 && b.Get(mv) == None
      requires b.xPositions == x && b.oPositions == o && weights.values == w
      modifies b
      ensures b.xPositions == x && b.oPositions == o
      ensures eval == MoveScore(x, o, mv, mover, aiPlayer, w, lines)
    {
      b.MakeMove(mv, mover);
      eval := Heuristics.Evaluate(b, aiPlayer, weights.values, lines);
      b.UndoMove(mv);
      UndoAfterMake(x, o, mv, mover);
    }

    /** The hash of a board under this player's keys. */
    function Hash(b: Board): Long
      requires WellFormed(zobrist)
      reads b
    {
      ZobristHash(b.xPositions, b.oPositions, zobrist)
    }

    /**
     * `minimax`: the value of the position for the AI, searched `depth`
     * plies ahead inside the window `alpha..beta`, with the board restored.
     * `timing` records what the clock decided; given that, the value, the
     * table and `timeUp` are the ones `Search` computes.
     */
    method Minimax(b: Board, depth: int, alpha: int, beta: int, maxPlayer: bool, lastP: Player, origMaxDepth: int,
                   ghost c: Setup, ghost x: Long, ghost o: Long)
      returns (value: int, ghost timing: Timing)
      requires Valid() && TableLong()
      requires 0 <= depth <= MAX_DEPTH && IsLong(alpha) && IsLong(beta)
      requires b.xPositions == x && b.oPositions == o && c == Setup(aiPlayer, weights.values, lines, zobrist)
      modifies b, this, clock
      decreases depth, 5
      ensures b.xPositions == x && b.oPositions == o
      ensures KeepsChoice() && TableLong() && IsLong(value)
      ensures old(timeUp) ==> timeUp
      ensures timing.Late? ==> clock.now >= endTime
      ensures Search(c, timing, x, o, old(transpositionTable), old(timeUp), depth, alpha, beta, maxPlayer, lastP)
        == Outcome(value, transpositionTable, timeUp)
    {
      var now := clock.NanoTime();
      if now >= endTime {
        timeUp := true;
        return 0, Late;
      }
      var zHash := ComputeZobristHash(b);
      var entry := if zHash in transpositionTable then Some(transpositionTable[zHash]) else None;
      var a, bt;
      match ProbeTable(entry, depth, alpha, beta)
      case Cutoff(v) =>
        return v, OnTime([]);
      case Window(a', b') =>
        a, bt := a', b';
      ghost var kids;
      value, kids := WindowNode(b, depth, a, bt, maxPlayer, lastP, origMaxDepth, zHash, c, x, o);
      timing := OnTime(kids);
    }

    /** A `minimax` node inside the window the probe left: a leaf stores its value, an inner node is expanded. */
    method WindowNode(b: Board, depth: int, alpha: int, beta: int, maxPlayer: bool, lastP: Player, origMaxDepth: int, zHash: Long,
                      ghost c: Setup, ghost x: Long, ghost o: Long)
      returns (value: int, ghost kids: seq<Timing>)
      requires Valid() && TableLong()
      requires 0 <= depth <= MAX_DEPTH && IsLong(alpha) && IsLong(beta)
      requires b.xPositions == x && b.oPositions == o && c == Setup(aiPlayer, weights.values, lines, zobrist)
      requires zHash == ZobristHash(x, o, zobrist)
      modifies b, this, clock
      decreases depth, 4
      ensures b.xPositions == x && b.oPositions == o
      ensures KeepsChoice() && TableLong() && IsLong(value)
      ensures old(timeUp) ==> timeUp
      ensures InWindow(c, kids, x, o, zHash, old(transpositionTable), old(timeUp), depth, alpha, beta, maxPlayer, lastP)
        == Outcome(value, transpositionTable, timeUp)
    {
      var terminal := IsTerminal(b, lastP);
      if depth == 0 || terminal {
        value := StoreLeaf(b, depth, lastP, zHash, alpha, beta, maxPlayer, c, x, o);
        return value, [];
      }
      value, kids := Expand(b, depth, alpha, beta, maxPlayer, lastP, origMaxDepth, zHash, c, x, o);
    }

    /** The inner node of `minimax`: order the moves by their one-ply score, then search them. */
    method Expand(b: Board, depth: int, alpha: int, beta: int, maxPlayer: bool, ghost lastP: Player, origMaxDepth: int, zHash: Long,
                  ghost c: Setup, ghost x: Long, ghost o: Long)
      returns (value: int, ghost kids: seq<Timing>)
      requires Valid() && TableLong()
      requires 0 < depth <= MAX_DEPTH && IsLong(alpha) && IsLong(beta)
      requires b.xPositions == x && b.oPositions == o && c == Setup(aiPlayer, weights.values, lines, zobrist)
      requires zHash == ZobristHash(x, o, zobrist) && !Ends(c, x, o, depth, lastP)
      modifies b, this, clock
      decreases depth, 3
      ensures b.xPositions == x && b.oPositions == o
      ensures KeepsChoice() && TableLong() && IsLong(value)
      ensures old(timeUp) ==> timeUp
      ensures InWindow(c, kids, x, o, zHash, old(transpositionTable), old(timeUp), depth, alpha, beta, maxPlayer, lastP)
        == Outcome(value, transpositionTable, timeUp)
    {
      var currentP := if maxPlayer then aiPlayer else opponent;
      var ordered := OrderMoves(b, currentP, maxPlayer, x, o, weights.values);
      if maxPlayer {
        value, kids := MaxNode(b, depth, alpha, beta, ordered, origMaxDepth, zHash, c, x, o);
      } else {
        value, kids := MinNode(b, depth, alpha, beta, ordered, origMaxDepth, zHash, c, x, o);
      }
    }

    /**
     * One child of a `minimax` node: the mover's move is made, searched one
     * ply less deep for the other side inside the window `ca..cb`, and
     * undone.
     */
    method PlayChild(b: Board, mv: int, depth: int, ca: int, cb: int, maxPlayer: bool, origMaxDepth: int,
                     ghost c: Setup, ghost x: Long, ghost o: Long)
      returns (eval: int, ghost kid: Timing)
      requires Valid() && TableLong()
      requires 0 < depth <= MAX_DEPTH && IsLong(ca) && IsLong(cb)
      requires b.xPositions == x && b.oPositions == o && c == Setup(aiPlayer, weights.values, lines, zobrist)
      requires 0 <= mv < 64 && CellAt(x, o, mv) == None
      modifies b, this, clock
      decreases depth, 0
      ensures b.xPositions == x && b.oPositions == o
      ensures KeepsChoice() && TableLong() && IsLong(eval)
      ensures old(timeUp) ==> timeUp
      ensures var (cx, co) := Assign(x, o, mv, Some(Mover(c, maxPlayer)));
        Search(c, kid, cx, co, old(transpositionTable), old(timeUp), depth - 1, ca, cb, !maxPlayer, Mover(c, maxPlayer))
        == Outcome(eval, transpositionTable, timeUp)
    {
      var currentP := if maxPlayer then aiPlayer else opponent;
      ghost var (cx, co) := Assign(x, o, mv, Some(currentP));
      b.MakeMove(mv, currentP);
      eval, kid := Minimax(b, depth - 1, ca, cb, !maxPlayer, currentP, origMaxDepth, c, cx, co);
      b.UndoMove(mv);
      UndoAfterMake(x, o, mv, currentP);
    }

    /**
     * Child number `|kids|` of a `minimax` node, searched inside the window
     * the earlier children left: the node's loop takes one `LoopStep` on
     * with what the child returned.
     */
    method SearchChild(b: Board, mv: int, depth: int, ca: int, cb: int, maxPlayer: bool, origMaxDepth: int,
                       ghost c: Setup, ghost x: Long, ghost o: Long, ghost alpha: int, ghost beta: int,
                       ghost moves: seq<int>, ghost kids: seq<Timing>, ghost t0: map<Long, Entry>, ghost up0: bool)
      returns (eval: int, ghost kid: Timing)
      requires Valid() && TableLong()
      requires 0 < depth <= MAX_DEPTH && IsLong(ca) && IsLong(cb)
      requires b.xPositions == x && b.oPositions == o && c == Setup(aiPlayer, weights.values, lines, zobrist)
      requires |kids| < |moves| && mv == moves[|kids|] && 0 <= mv < 64 && CellAt(x, o, mv) == None
      requires var s := Children(c, x, o, depth, alpha, beta, maxPlayer, moves, kids, t0, up0);
        !s.broke && s.alpha == ca && s.beta == cb && s.table == transpositionTable && s.timeUp == timeUp
      modifies b, this, clock
      decreases depth, 1
      ensures b.xPositions == x && b.oPositions == o
      ensures KeepsChoice() && TableLong() && IsLong(eval)
      ensures old(timeUp) ==> timeUp
      ensures Children(c, x, o, depth, alpha, beta, maxPlayer, moves, kids + [kid], t0, up0)
        == LoopStep(Children(c, x, o, depth, alpha, beta, maxPlayer, moves, kids, t0, up0), Outcome(eval, transpositionTable, timeUp), maxPlayer)
    {
      eval, kid := PlayChild(b, mv, depth, ca, cb, maxPlayer, origMaxDepth, c, x, o);
      ChildrenSnoc(c, x, o, depth, alpha, beta, maxPlayer, moves, kids, kid, t0, up0, Outcome(eval, transpositionTable, timeUp));
    }

    /**
     * The move ordering of `minimax`: the empty cells sorted by the AI's
     * one-ply score after `currentP` takes them, highest first for the
     * maximiser and lowest first for the minimiser.
     */
    method OrderMoves(b: Board, currentP: Player, maxPlayer: bool, ghost x: Long, ghost o: Long, ghost w: W.Values) returns (ordered: seq<int>)
      requires Valid()
      requires b.xPositions == x && b.oPositions == o && weights.values == w
      modifies b
      ensures b.xPositions == x && b.oPositions == o
      ensures forall m :: m in ordered ==> 0 <= m < 64 && CellAt(x, o, m) == None
      ensures var free := Cells(Not(Or(x, o)));
        multiset(ordered) == multiset(free)
        && ordered == SortMoves(ScoreMap(x, o, free, currentP, aiPlayer, w, lines), maxPlayer, free)
    {
      var moves := b.GetAvailableMoves();
      var scores := ScoreMoves(b, moves, currentP, x, o, w);
      ordered := SortMoves(scores, maxPlayer, moves);
      assert forall m :: m in ordered ==> m in moves by {
        forall m | m in ordered ensures m in moves {
          assert m in multiset(ordered);
        }
      }
    }

    /**
     * The maximising loop of `minimax`: the AI's moves in order until time is
     * up or the window closes, each child searched with alpha raised to the
     * best value so far; the largest child value (or `Long.MIN_VALUE` with
     * none) is stored as a lower bound exactly when it reaches `beta`.
     */
    method MaxNode(b: Board, depth: int, alpha: int, beta: int, moves: seq<int>, origMaxDepth: int, zHash: Long,
                   ghost c: Setup, ghost x: Long, ghost o: Long)
      returns (value: int, ghost kids: seq<Timing>)
      requires Valid() && TableLong()
      requires 0 < depth <= MAX_DEPTH && IsLong(alpha) && IsLong(beta)
      requires forall m :: m in moves ==> 0 <= m < 64 && CellAt(x, o, m) == None
      requires b.xPositions == x && b.oPositions == o && c == Setup(aiPlayer, weights.values, lines, zobrist)
      modifies b, this, clock
      decreases depth, 2
      ensures b.xPositions == x && b.oPositions == o
      ensures KeepsChoice() && TableLong() && IsLong(value)
      ensures old(timeUp) ==> timeUp
      ensures Close(Children(c, x, o, depth, alpha, beta, true, moves, kids, old(transpositionTable), old(timeUp)),
                    moves, kids, zHash, depth, alpha, beta, true)
        == Outcome(value, transpositionTable, timeUp)
    {
      var a := alpha;
      value := LONG_MIN;
      kids := [];
      var i := 0;
      while i < |moves|
        invariant 0 <= i <= |moves| && |kids| == i
        invariant b.xPositions == x && b.oPositions == o
        invariant KeepsChoice() && TableLong() && IsLong(value) && IsLong(a)
        invariant old(timeUp) ==> timeUp
        invariant Children(c, x, o, depth, alpha, beta, true, moves, kids, old(transpositionTable), old(timeUp))
          == LoopState(value, a, beta, transpositionTable, timeUp, false)
      {
        var now := clock.NanoTime();
        if now >= endTime {
          timeUp := true;
          break;
        }
        var mv := moves[i];
        assert mv in moves;
        var eval;
        ghost var kid;
        eval, kid := SearchChild(b, mv, depth, a, beta, true, origMaxDepth, c, x, o, alpha, beta, moves, kids, old(transpositionTable), old(timeUp));
        value := Max(value, eval);
        a := Max(a, eval);
        kids := kids + [kid];
        i := i + 1;
        if beta <= a || timeUp {
          break;
        }
      }
      transpositionTable := transpositionTable[zHash := Entry(value, depth, if value >= beta then LOWER_BOUND else EXACT)];
    }

    /**
     * The minimising loop of `minimax`: the opponent's moves in order until
     * time is up or the window closes, each child searched with beta lowered
     * to the best value so far; the smallest child value (or
     * `Long.MAX_VALUE` with none) is stored as an upper bound exactly when
     * it reaches `alpha`.
     */
    method MinNode(b: Board, depth: int, alpha: int, beta: int, moves: seq<int>, origMaxDepth: int, zHash: Long,
                   ghost c: Setup, ghost x: Long, ghost o: Long)
      returns (value: int, ghost kids: seq<Timing>)
      requires Valid() && TableLong()
      requires 0 < depth <= MAX_DEPTH && IsLong(alpha) && IsLong(beta)
      requires forall m :: m in moves ==> 0 <= m < 64 && CellAt(x, o, m) == None
      requires b.xPositions == x && b.oPositions == o && c == Setup(aiPlayer, weights.values, lines, zobrist)
      modifies b, this, clock
      decreases depth, 2
      ensures b.xPositions == x && b.oPositions == o
      ensures KeepsChoice() && TableLong() && IsLong(value)
      ensures old(timeUp) ==> timeUp
      ensures Close(Children(c, x, o, depth, alpha, beta, false, moves, kids, old(transpositionTable), old(timeUp)),
                    moves, kids, zHash, depth, alpha, beta, false)
        == Outcome(value, transpositionTable, timeUp)
    {
      var bt := beta;
      value := LONG_MAX;
      kids := [];
      var i := 0;
      while i < |moves|
        invariant 0 <= i <= |moves| && |kids| == i
        invariant b.xPositions == x && b.oPositions == o
        invariant KeepsChoice() && TableLong() && IsLong(value) && IsLong(bt)
        invariant old(timeUp) ==> timeUp
        invariant Children(c, x, o, depth, alpha, beta, false, moves, kids, old(transpositionTable), old(timeUp))
          == LoopState(value, alpha, bt, transpositionTable, timeUp, false)
      {
        var now := clock.NanoTime();
        if now >= endTime {
          timeUp := true;
          break;
        }
        var mv := moves[i];
        assert mv in moves;
        var eval;
        ghost var kid;
        eval, kid := SearchChild(b, mv, depth, alpha, bt, false, origMaxDepth, c, x, o, alpha, beta, moves, kids, old(transpositionTable), old(timeUp));
        value := Min(value, eval);
        bt := Min(bt, eval);
        kids := kids + [kid];
        i := i + 1;
        if bt <= alpha || timeUp {
          break;
        }
      }
      transpositionTable := transpositionTable[zHash := Entry(value, depth, if value <= alpha then UPPER_BOUND else EXACT)];
    }

    /** The one-stone loop of `chooseBestMove` over `OPTIMAL_PAIRS`. */
    method OpeningReply(b: Board) returns (r: Option<int>)
      ensures r == PairReply(b.xPositions, b.oPositions, opponent, 0)
    {
      for k := 0 to |OPTIMAL_PAIRS|
        invariant PairReply(b.xPositions, b.oPositions, opponent, 0) == PairReply(b.xPositions, b.oPositions, opponent, k)
      {
        var (moveA, moveB) := OPTIMAL_PAIRS[k];
        if b.Get(moveA) == Some(opponent) {
          return Some(moveB);
        } else if b.Get(moveB) == Some(opponent) {
          return Some(moveA);
        }
      }
      return None;
    }

    /** The ordering step of a depth: the available moves, scored for the AI and sorted highest first. */
    method OrderRootMoves(b: Board) returns (order: seq<int>)
      requires Valid()
      modifies b
      ensures b.xPositions == old(b.xPositions) && b.oPositions == old(b.oPositions)
      ensures order == RootOrder(b.xPositions, b.oPositions, aiPlayer, weights.values, lines)
    {
      var availMoves := b.GetAvailableMoves();
      AvailableCells(b.xPositions, b.oPositions);
      ghost var x, o, w := b.xPositions, b.oPositions, weights.values;
      var moveScores := ScoreMoves(b, availMoves, aiPlayer, x, o, w);
      ScoreMapScores(x, o, availMoves, aiPlayer, aiPlayer, w, lines);
      order := SortMoves(moveScores, true, availMoves);
    }

    /**
     * One depth of the root search (the sequential branch): the root moves
     * in `RootOrder`, each searched on a copy of the board by `minimax` for
     * the opponent's reply, until the deadline. The results follow the
     * order, and all moves are there unless time ran out.
     */
    method SearchRoot(b: Board, depth: int, ghost x: Long, ghost o: Long, ghost w: W.Values, ghost order: seq<int>)
      returns (results: seq<MoveEvaluation>, ghost ts: seq<Timing>)
      requires Valid() && TableLong()
      requires 1 <= depth <= maxDepth
      requires b.xPositions == x && b.oPositions == o && weights.values == w && order == RootOrder(x, o, aiPlayer, w, lines)
      modifies b, this, clock
      ensures b.xPositions == old(b.xPositions) && b.oPositions == old(b.oPositions)
      ensures KeepsChoice() && TableLong()
      ensures old(timeUp) ==> timeUp
      ensures |results| <= |order| && (forall j :: 0 <= j < |results| ==> results[j].move == order[j])
      ensures !timeUp ==> |results| == |order|
      ensures forall j :: 0 <= j < |results| ==> IsLong(results[j].value)
      ensures |ts| == |results|
      ensures var s := RootRun(Setup(aiPlayer, w, lines, zobrist), x, o, depth, order, ts, old(transpositionTable), old(timeUp));
        Scores(results) == s.values && transpositionTable == s.table && timeUp == (s.timeUp || |results| < |order|)
    {
      var ordered := OrderRootMoves(b);
      var currentTime := clock.NanoTime();
      // Both outcomes of the decision run the moves in order here.
      var parallel := ShouldParallelize(depth, maxDepth, |ordered|, currentTime, endTime, maxTime);
      results, ts := SearchMoves(b, ordered, depth);
    }

    /** The sequential loop over the root moves: each is searched until the deadline passes. */
    method SearchMoves(b: Board, order: seq<int>, depth: int) returns (results: seq<MoveEvaluation>, ghost ts: seq<Timing>)
      requires Valid() && TableLong()
      requires 1 <= depth <= maxDepth
      modifies this, clock
      ensures KeepsChoice() && TableLong()
      ensures old(timeUp) ==> timeUp
      ensures |results| <= |order| && (forall j :: 0 <= j < |results| ==> results[j].move == order[j])
      ensures !timeUp ==> |results| == |order|
      ensures forall j :: 0 <= j < |results| ==> IsLong(results[j].value)
      ensures |ts| == |results|
      ensures var s := RootRun(Setup(aiPlayer, weights.values, lines, zobrist), b.xPositions, b.oPositions, depth, order, ts,
                               old(transpositionTable), old(timeUp));
        Scores(results) == s.values && transpositionTable == s.table && timeUp == (s.timeUp || |results| < |order|)
    {
      ghost var c := Setup(aiPlayer, weights.values, lines, zobrist);
      results, ts := [], [];
      var i := 0;
      while i < |order|
        invariant 0 <= i <= |order| && |results| == i && |ts| == i
        invariant KeepsChoice() && TableLong()
        invariant old(timeUp) ==> timeUp
        invariant forall j :: 0 <= j < i ==> results[j].move == order[j] && IsLong(results[j].value)
        invariant RootRun(c, b.xPositions, b.oPositions, depth, order, ts, old(transpositionTable), old(timeUp))
          == RootState(Scores(results), transpositionTable, timeUp)
      {
        var now := clock.NanoTime();
        if now >= endTime {
          timeUp := true;
          lastDepth := depth - 1;
          break;
        }
        var mv := order[i];
        var val;
        ghost var timing;
        val, timing := SearchMove(b, mv, depth, c, b.xPositions, b.oPositions);
        assert (ts + [timing])[..i] == ts;
        assert Scores(results + [MoveEvaluation(mv, val)]) == Scores(results) + [val];
        results, ts := results + [MoveEvaluation(mv, val)], ts + [timing];
        i := i + 1;
      }
    }

    /**
     * One root move: made on a copy of the board, then searched by `minimax`
     * for the opponent's reply; `timing` records what the clock decided.
     */
    method SearchMove(b: Board, mv: int, depth: int, ghost c: Setup, ghost x: Long, ghost o: Long) returns (val: int, ghost timing: Timing)
      requires Valid() && TableLong()
      requires 1 <= depth <= maxDepth && c == Setup(aiPlayer, weights.values, lines, zobrist)
      requires b.xPositions == x && b.oPositions == o
      modifies this, clock
      ensures KeepsChoice() && TableLong() && IsLong(val)
      ensures old(timeUp) ==> timeUp
      ensures var (cx, co) := Assign(x, o, mv, Some(aiPlayer));
        Search(c, timing, cx, co, old(transpositionTable), old(timeUp), depth - 1, LONG_MIN, LONG_MAX, false, aiPlayer)
        == Outcome(val, transpositionTable, timeUp)
    {
      ghost var (cx, co) := Assign(x, o, mv, Some(aiPlayer));
      var newBrd := new Board();
      newBrd.xPositions := b.xPositions;
      newBrd.oPositions := b.oPositions;
      newBrd.MakeMove(mv, aiPlayer);
      val, timing := Minimax(newBrd, depth - 1, LONG_MIN, LONG_MAX, false, aiPlayer, maxDepth, c, cx, co);
    }

    /**
     * The depth loop of `chooseBestMove`: each depth that finishes in time
     * picks one of its best moves; the pick is adopted unless it is the
     * `CONVERGENCE_THRESHOLD`-th repeat in a row (counting on from earlier
     * calls) or there is no move. `completed` is the last adopted depth.
     */
    method IterativeDeepening(b: Board, ghost x: Long, ghost o: Long, ghost w: W.Values, ghost order: seq<int>) returns (ghost completed: int, ghost rounds: seq<Round>)
      requires Valid() && TableLong()
      requires !timeUp && bestMoveSoFar == -1
      requires b.xPositions == x && b.oPositions == o && weights.values == w && order == RootOrder(x, o, aiPlayer, w, lines)
      modifies b, this, clock
      ensures b.xPositions == old(b.xPositions) && b.oPositions == old(b.oPositions)
      ensures TableLong() && endTime == old(endTime)
      ensures RoundsOk(rounds, order)
      ensures Replay(Setup(aiPlayer, w, lines, zobrist), x, o, order, rounds, old(transpositionTable)).Some?
      ensures 0 <= completed <= |rounds| <= maxDepth && lastDepth == |rounds|
      ensures forall d :: 0 <= d < completed ==> rounds[d].pick != -1
      ensures completed == 0 ==> bestMoveSoFar == -1
      ensures completed > 0 ==> bestMoveSoFar == rounds[completed - 1].pick
      ensures completed < |rounds| ==>
        completed == |rounds| - 1 && (rounds[completed].pick == -1 || consistentMoveCount >= CONVERGENCE_THRESHOLD)
      ensures completed == |rounds| < maxDepth ==> timeUp
      ensures consistentMoveCount == CountAfter(old(lastBestMove), old(consistentMoveCount), Picks(rounds))
      ensures lastBestMove == if rounds == [] then old(lastBestMove) else rounds[|rounds| - 1].pick
    {
      ghost var last0, count0 := lastBestMove, consistentMoveCount;
      ghost var c, t0 := Setup(aiPlayer, w, lines, zobrist), transpositionTable;
      completed, rounds := 0, [];
      var depth := 1;
      while depth <= maxDepth
        invariant 1 <= depth <= maxDepth + 1 && |rounds| == depth - 1 && completed == |rounds|
        invariant depth > 1 ==> lastDepth == depth - 1
        invariant b.xPositions == x && b.oPositions == o
        invariant TableLong() && !timeUp && endTime == old(endTime)
        invariant RoundsOk(rounds, order) && forall d :: 0 <= d < |rounds| ==> rounds[d].pick != -1
        invariant Replay(c, x, o, order, rounds, t0) == Some(transpositionTable)
        invariant completed == 0 ==> bestMoveSoFar == -1
        invariant completed > 0 ==> bestMoveSoFar == rounds[completed - 1].pick
        invariant consistentMoveCount == CountAfter(last0, count0, Picks(rounds))
        invariant rounds == [] ==> lastBestMove == last0
        invariant rounds != [] ==> lastBestMove == rounds[|rounds| - 1].pick
        decreases maxDepth - depth
      {
        var stop;
        ghost var round;
        stop, round := Deepen(b, depth, x, o, w, order, c, t0, rounds);
        if timeUp {
          break;
        }
        CountAfterSnoc(last0, count0, rounds, round);
        RoundsOkSnoc(rounds, round, order);
        ghost var prev := rounds;
        rounds := rounds + [round];
        assert completed > 0 ==> rounds[completed - 1] == prev[completed - 1];
        if stop {
          break;
        }
        completed := depth;
        depth := depth + 1;
      }
    }

    /**
     * `RunDepth` together with what the depth loop keeps about the rounds
     * so far: when the depth finishes in time, `rounds + [round]` replays
     * from `t0` to the new table and the convergence counter counts on.
     */
    method Deepen(b: Board, depth: int, ghost x: Long, ghost o: Long, ghost w: W.Values, ghost order: seq<int>,
                  ghost c: Setup, ghost t0: map<Long, Entry>, ghost rounds: seq<Round>)
      returns (stop: bool, ghost round: Round)
      requires Valid() && TableLong() && !timeUp
      requires 1 <= depth <= maxDepth && |rounds| == depth - 1
      requires b.xPositions == x && b.oPositions == o && weights.values == w && order == RootOrder(x, o, aiPlayer, w, lines)
      requires c == Setup(aiPlayer, w, lines, zobrist)
      requires Replay(c, x, o, order, rounds, t0) == Some(transpositionTable)
      modifies b, this, clock
      ensures b.xPositions == old(b.xPositions) && b.oPositions == old(b.oPositions)
      ensures TableLong() && endTime == old(endTime)
      ensures timeUp ==>
        lastDepth == depth - 1 && bestMoveSoFar == old(bestMoveSoFar)
        && lastBestMove == old(lastBestMove) && consistentMoveCount == old(consistentMoveCount)
      ensures !timeUp ==>
        lastDepth == depth
        && RoundOk(round, order)
        && Replay(c, x, o, order, rounds + [round], t0) == Some(transpositionTable)
        && lastBestMove == round.pick
        && consistentMoveCount == (if round.pick == old(lastBestMove) then old(consistentMoveCount) + 1 else 0)
        && (stop <==> round.pick == -1 || consistentMoveCount >= CONVERGENCE_THRESHOLD)
        && bestMoveSoFar == (if stop then old(bestMoveSoFar) else round.pick)
    {
      ghost var r, cut;
      stop, r, cut := RunDepth(b, depth, x, o, w, order);
      if r.Some? {
        round := r.value;
        ReplaySnoc(c, x, o, order, rounds, round, t0);
      } else {
        round := Round([], -1, [], t0);
      }
    }

    /**
     * One pass of the depth loop: search the root, pick one of the best
     * moves, count it towards convergence, and adopt it. `stop` says the
     * loop ends here: out of time (no round), converged, or no move. A depth
     * the deadline cut short still leaves in the table what its root loop
     * stored for the clock decisions `cut`; the table is kept across calls.
     */
    method RunDepth(b: Board, depth: int, ghost x: Long, ghost o: Long, ghost w: W.Values, ghost order: seq<int>)
      returns (stop: bool, ghost round: Option<Round>, ghost cut: seq<Timing>)
      requires Valid() && TableLong() && !timeUp
      requires 1 <= depth <= maxDepth
      requires b.xPositions == x && b.oPositions == o && weights.values == w && order == RootOrder(x, o, aiPlayer, w, lines)
      modifies b, this, clock
      ensures b.xPositions == old(b.xPositions) && b.oPositions == old(b.oPositions)
      ensures TableLong() && endTime == old(endTime)
      ensures round.None? ==>
        stop && timeUp && lastDepth == depth - 1
        && bestMoveSoFar == old(bestMoveSoFar) && lastBestMove == old(lastBestMove)
        && consistentMoveCount == old(consistentMoveCount)
        && |cut| <= |order|
        && transpositionTable == RootRun(Setup(aiPlayer, w, lines, zobrist), x, o, depth, order, cut, old(transpositionTable), false).table
      ensures round.Some? ==>
        !timeUp && lastDepth == depth
        && RoundOk(round.value, order)
        && round.value.start == old(transpositionTable)
        && RoundSearched(Setup(aiPlayer, w, lines, zobrist), x, o, depth, order, round.value)
        && transpositionTable == RoundRun(Setup(aiPlayer, w, lines, zobrist), x, o, depth, order, round.value).table
        && lastBestMove == round.value.pick
        && consistentMoveCount == (if round.value.pick == old(lastBestMove) then old(consistentMoveCount) + 1 else 0)
        && (stop <==> round.value.pick == -1 || consistentMoveCount >= CONVERGENCE_THRESHOLD)
        && bestMoveSoFar == (if stop then old(bestMoveSoFar) else round.value.pick)
    {
      var results;
      ghost var ts;
      results, ts := SearchRoot(b, depth, x, o, w, order);
      if timeUp {
        lastDepth := depth - 1;
        return true, None, ts;
      }
      var bestMoveAtDepth := PickBest(results);
      cut := ts;
      round := Some(Round(results, bestMoveAtDepth, ts, old(transpositionTable)));
      stop := Converge(bestMoveAtDepth, depth);
    }

    /**
     * The convergence check and the adoption of a depth's pick: the counter
     * goes up for a repeated best move and stops the loop at
     * `CONVERGENCE_THRESHOLD` (the pick is then not adopted); otherwise the
     * pick becomes the last best move and, unless it is -1, the move so far.
     */
    method Converge(bestMoveAtDepth: int, depth: int) returns (stop: bool)
      requires !timeUp
      modifies this
      ensures timeUp == old(timeUp) && endTime == old(endTime) && transpositionTable == old(transpositionTable)
      ensures lastDepth == depth && lastBestMove == bestMoveAtDepth
      ensures consistentMoveCount == if bestMoveAtDepth == old(lastBestMove) then old(consistentMoveCount) + 1 else 0
      ensures stop <==> bestMoveAtDepth == -1 || consistentMoveCount >= CONVERGENCE_THRESHOLD
      ensures bestMoveSoFar == if stop then old(bestMoveSoFar) else bestMoveAtDepth
    {
      if bestMoveAtDepth == lastBestMove {
        consistentMoveCount := consistentMoveCount + 1;
        if consistentMoveCount >= CONVERGENCE_THRESHOLD {
          lastDepth := depth;
          return true;
        }
      } else {
        consistentMoveCount := 0;
      }
      lastBestMove := bestMoveAtDepth;
      if !timeUp && bestMoveAtDepth != -1 {
        bestMoveSoFar := bestMoveAtDepth;
        lastDepth := depth;
        stop := false;
      } else {
        lastDepth := depth;
        stop := true;
      }
    }

    /** The best-value scan and the random choice among the moves that tie for the best value. */
    method PickBest(results: seq<MoveEvaluation>) returns (pick: int)
      requires forall j :: 0 <= j < |results| ==> IsLong(results[j].value)
      ensures results == [] ==> pick == -1
      ensures results != [] ==> pick in TiesOf(results, MaxOf(LONG_MIN, Scores(results))) && BestPick(results, pick)
    {
      var bestVal, bestMovesD := SelectBest(results);
      pick := -1;
      if bestMovesD != [] {
        var k :| 0 <= k < |bestMovesD|;
        pick := bestMovesD[k];
        assert pick in bestMovesD;
        var i :| 0 <= i < |results| && results[i].move == pick && results[i].value == bestVal;
        assert forall j :: 0 <= j < |results| ==> results[j].value == Scores(results)[j];
      }
    }

    /**
     * `chooseBestMove(board)`: a centre cell on the empty board, the pair
     * reply to a single stone, an immediate win, an immediate block, and
     * otherwise the move of the last adopted search depth (-1 when no
     * depth was adopted). The board itself is not touched.
     */
    method ChooseBestMove(board: Board) returns (move: int, ghost choice: Choice)
      requires Valid() && TableLong()
      modifies this, clock
      ensures TableLong() && timeUp
      ensures QuickChoice(board.xPositions, board.oPositions, aiPlayer, lines, move, choice)
      ensures !choice.Searched? ==>
        (bestMoveSoFar == -1 && lastBestMove == old(lastBestMove) && consistentMoveCount == old(consistentMoveCount)
         && lastDepth == old(lastDepth) && transpositionTable == old(transpositionTable))
      ensures choice.Searched? ==>
        SearchOutcome(RootOrder(board.xPositions, board.oPositions, aiPlayer, weights.values, lines), maxDepth,
          move, choice.completed, choice.rounds, choice.timedOut)
        && lastDepth == |choice.rounds|
        && consistentMoveCount == CountAfter(old(lastBestMove), old(consistentMoveCount), Picks(choice.rounds))
        && lastBestMove == (if choice.rounds == [] then old(lastBestMove) else choice.rounds[|choice.rounds| - 1].pick)
      ensures choice.Searched? ==>
        Replay(Setup(aiPlayer, weights.values, lines, zobrist), board.xPositions, board.oPositions,
          RootOrder(board.xPositions, board.oPositions, aiPlayer, weights.values, lines), choice.rounds, old(transpositionTable)).Some?
      ensures choice.Searched? && move != -1 ==>
        var c := Setup(aiPlayer, weights.values, lines, zobrist);
        var order := RootOrder(board.xPositions, board.oPositions, aiPlayer, weights.values, lines);
        var d := choice.completed;
        0 < d <= |choice.rounds| && |choice.rounds[d - 1].timings| <= |order|
        && MaximisesAt(order, RoundRun(c, board.xPositions, board.oPositions, d, order, choice.rounds[d - 1]).values, move)
    {
      ghost var x, o := board.xPositions, board.oPositions;
      var mBoard := new Board();
      mBoard.xPositions := board.xPositions;
      mBoard.oPositions := board.oPositions;
      bestMoveSoFar := -1;
      timeUp := false;
      var start := clock.NanoTime();
      endTime := start + maxTime;

      var found;
      move, found, choice := QuickMove(mBoard);
      if found {
        timeUp := true;
        return;
      }
      ghost var completed, rounds, timedOut;
      move, completed, rounds, timedOut := SearchBestMove(mBoard);
      choice := Searched(completed, rounds, timedOut);
      ghost var c, order := Setup(aiPlayer, weights.values, lines, zobrist), RootOrder(x, o, aiPlayer, weights.values, lines);
      assert mBoard.xPositions == x == board.xPositions && mBoard.oPositions == o == board.oPositions;
      assert Replay(c, x, o, order, rounds, old(transpositionTable)).Some?;
      if move != -1 {
        SearchedMoveIsBest(c, x, o, order, maxDepth, move, completed, rounds, timedOut, old(transpositionTable));
      }
    }

    /**
     * The checks made before any search: an opening pair cell on the empty
     * board, the partner of the opponent's first pair cell, a winning cell,
     * a blocking cell; `found` is false when none applies.
     */
    method QuickMove(b: Board) returns (move: int, found: bool, ghost choice: Choice)
      requires Valid()
      ensures found <==> !choice.Searched?
      ensures QuickChoice(b.xPositions, b.oPositions, aiPlayer, lines, move, choice)
    {
      choice := Searched(0, [], false);
      move, found := -1, false;
      var empty := b.IsEmpty();
      if empty {
        var i1 :| 0 <= i1 < |OPTIMAL_PAIRS|;
        var i2 :| 0 <= i2 < 2;
        move := if i2 == 0 then OPTIMAL_PAIRS[i1].0 else OPTIMAL_PAIRS[i1].1;
        return move, true, Opening;
      }
      var total := b.TotalMoves();
      if total == 1 {
        var reply := OpeningReply(b);
        if reply.Some? {
          PairReplyIsPartner(b.xPositions, b.oPositions, opponent, 0);
          return reply.value, true, Reply;
        }
      }
      var immediateWinMove := FindImmediateWinMove(b, aiPlayer);
      if immediateWinMove != -1 {
        return immediateWinMove, true, Win;
      }
      var immediateBlockMove := FindImmediateBlockMove(b, opponent);
      if immediateBlockMove != -1 {
        return immediateBlockMove, true, Block;
      }
    }

    /** The iterative-deepening tail of the move choice: the move is the pick of the last completed round. */
    method SearchBestMove(b: Board) returns (move: int, ghost completed: int, ghost rounds: seq<Round>, ghost timedOut: bool)
      requires Valid() && TableLong()
      requires !timeUp && bestMoveSoFar == -1
      modifies b, this, clock
      ensures b.xPositions == old(b.xPositions) && b.oPositions == old(b.oPositions)
      ensures TableLong() && timeUp
      ensures SearchOutcome(RootOrder(b.xPositions, b.oPositions, aiPlayer, weights.values, lines), maxDepth,
        move, completed, rounds, timedOut)
      ensures Replay(Setup(aiPlayer, weights.values, lines, zobrist), b.xPositions, b.oPositions,
        RootOrder(b.xPositions, b.oPositions, aiPlayer, weights.values, lines), rounds, old(transpositionTable)).Some?
      ensures move != -1 ==>
        var c := Setup(aiPlayer, weights.values, lines, zobrist);
        var order := RootOrder(b.xPositions, b.oPositions, aiPlayer, weights.values, lines);
        0 < completed <= |rounds| && RoundSearched(c, b.xPositions, b.oPositions, completed, order, rounds[completed - 1])
        && MaximisesAt(order, RoundRun(c, b.xPositions, b.oPositions, completed, order, rounds[completed - 1]).values, move)
      ensures lastDepth == |rounds|
      ensures consistentMoveCount == CountAfter(old(lastBestMove), old(consistentMoveCount), Picks(rounds))
      ensures lastBestMove == if rounds == [] then old(lastBestMove) else rounds[|rounds| - 1].pick
    {
      ghost var x, o := b.xPositions, b.oPositions;
      ghost var order := RootOrder(x, o, aiPlayer, weights.values, lines);
      completed, rounds := IterativeDeepening(b, x, o, weights.values, order);
      timedOut := timeUp;
      timeUp := true;
      move := bestMoveSoFar;
      if move != -1 {
        SearchedMoveIsBest(Setup(aiPlayer, weights.values, lines, zobrist), x, o, order, maxDepth, move, completed,
          rounds, timedOut, old(transpositionTable));
      }
    }
  }
}
