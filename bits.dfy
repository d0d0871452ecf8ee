/**
 * The `Bit` utility class. A Java `long` is modelled as its 64 bits, bit 0
 * (the least significant) first, and is read as the set of the cells of the
 * 4x4x4 board whose bits are 1.
 *
 * The operators the class uses (`&`, `|`, `^`, `~`, `x - 1`, `1L << pos` and
 * `x >>> s`) are defined bit by bit below; `x - 1` is schoolbook binary
 * subtraction with borrow, and `DecValue` proves it is subtraction modulo
 * 2^64. A shift uses only the low six bits of its distance (section 15.19
 * of the Java Language Specification), so `1L << pos` is bit `pos mod 64`.
 */
module Bits {
  /** A Java `long`, bit 0 first. */
  type Long = s: seq<bool> | |s| == 64 witness seq(64, i => false)

  function AllZero(): (r: Long)
    ensures forall i :: 0 <= i < 64 ==> !r[i]
  {
    seq(64, i => false)
  }

  /** `0L` */
  const ZERO: Long := AllZero()

  // ---------------------------------------------------------------------
  // Java's operators on long
  // ---------------------------------------------------------------------

  /** `x & y` */
  function And(x: Long, y: Long): (r: Long)
    ensures forall i :: 0 <= i < 64 ==> r[i] == (x[i] && y[i])
  {
    seq(64, i requires 0 <= i < 64 => x[i] && y[i])
  }

  /** `x | y` */
  function Or(x: Long, y: Long): (r: Long)
    ensures forall i :: 0 <= i < 64 ==> r[i] == (x[i] || y[i])
  {
    seq(64, i requires 0 <= i < 64 => x[i] || y[i])
  }

  /** `x ^ y` */
  function Xor(x: Long, y: Long): (r: Long)
    ensures forall i :: 0 <= i < 64 ==> r[i] == (x[i] != y[i])
  {
    seq(64, i requires 0 <= i < 64 => x[i] != y[i])
  }

  /** `~x` */
  function Not(x: Long): (r: Long)
    ensures forall i :: 0 <= i < 64 ==> r[i] == !x[i]
  {
    seq(64, i requires 0 <= i < 64 => !x[i])
  }

  /** Subtracting one from a bit string, lowest bit first, with borrow. */
  function DecBits(s: seq<bool>): (r: seq<bool>)
    ensures |r| == |s|
  {
    if s == [] then []
    else if s[0] then [false] + s[1..]
    else [true] + DecBits(s[1..])
  }

  /** `x - 1` */
  function Dec(x: Long): Long
  {
    DecBits(x)
  }

  /** The bit `1L << pos` reaches: Java uses only the low six bits of the distance. */
  function CellOf(pos: int): (c: int)
    ensures 0 <= c < 64
    ensures 0 <= pos < 64 ==> c == pos
  {
    pos % 64
  }

  /** `1L << pos`, and `Bit.mask(pos)`. */
  function Mask(pos: int): (r: Long)
    ensures forall i :: 0 <= i < 64 ==> r[i] == (i == CellOf(pos))
  {
    seq(64, i requires 0 <= i < 64 => i == CellOf(pos))
  }

  /** `x >>> s` for a shift count below 64 (Java masks larger counts with `& 63`; the only shifts here are 1 to 32). */
  function UShr(x: Long, s: int): (r: Long)
    requires 0 <= s < 64
    ensures forall i :: 0 <= i < 64 ==> r[i] == (i + s < 64 && x[i + s])
  {
    seq(64, i requires 0 <= i < 64 => i + s < 64 && x[i + s])
  }

  // ---------------------------------------------------------------------
  // The numeric value of a bit string, and x - 1 as arithmetic
  // ---------------------------------------------------------------------

  function Pow2(n: nat): (r: nat)
    ensures r >= 1
  {
    if n == 0 then 1 else 2 * Pow2(n - 1)
  }

  /** The unsigned value of a bit string, lowest bit first. */
  function Value(s: seq<bool>): (v: nat)
  {
    if s == [] then 0 else (if s[0] then 1 else 0) + 2 * Value(s[1..])
  }

  lemma {:induction false} ValueBound(s: seq<bool>)
    ensures Value(s) < Pow2(|s|)
  {
    if s != [] {
      ValueBound(s[1..]);
    }
  }

  /** Binary decrement is subtraction of one, wrapping from 0 to 2^n - 1 (for a long, 2^64 - 1). */
  lemma {:induction false} DecValue(s: seq<bool>)
    ensures Value(s) > 0 ==> Value(DecBits(s)) == Value(s) - 1
    ensures Value(s) == 0 ==> Value(DecBits(s)) == Pow2(|s|) - 1
  {
    if s != [] {
      var t := s[1..];
      if s[0] {
        assert DecBits(s)[1..] == t;
      } else {
        assert DecBits(s)[1..] == DecBits(t);
        DecValue(t);
      }
    }
  }

  /** `x - 1` clears the lowest 1 bit `k` and sets every bit below it. */
  lemma {:induction false} DecBitsAt(s: seq<bool>, k: int)
    requires 0 <= k < |s| && s[k]
    requires forall j :: 0 <= j < k ==> !s[j]
    ensures forall i :: 0 <= i < |s| ==> DecBits(s)[i] == (if i < k then true else if i == k then false else s[i])
  {
    if k > 0 {
      assert !s[0];
      DecBitsAt(s[1..], k - 1);
      assert forall i :: 1 <= i < |s| ==> DecBits(s)[i] == DecBits(s[1..])[i - 1];
    }
  }

  // ---------------------------------------------------------------------
  // A long as a set of cells
  // ---------------------------------------------------------------------

  predicate Increasing(s: seq<int>)
  {
    forall i, j :: 0 <= i < j < |s| ==> s[i] < s[j]
  }

  /** The cells `p..63` whose bits are 1, in ascending order. */
  function CellsFrom(x: Long, p: int): seq<int>
    requires 0 <= p <= 64
    decreases |x| - p
  {
    if p == 64 then []
    else if x[p] then [p] + CellsFrom(x, p + 1)
    else CellsFrom(x, p + 1)
  }

  /** Every entry of `CellsFrom(x, p)` is a cell from `p` on whose bit is 1. */
  lemma {:induction false} CellsFromRange(x: Long, p: int)
    requires 0 <= p <= 64
    ensures forall i :: 0 <= i < |CellsFrom(x, p)| ==> p <= CellsFrom(x, p)[i] < 64 && x[CellsFrom(x, p)[i]]
    decreases 64 - p
  {
    if p < 64 {
      CellsFromRange(x, p + 1);
      var s := CellsFrom(x, p);
      if x[p] {
        assert forall i :: 1 <= i < |s| ==> s[i] == CellsFrom(x, p + 1)[i - 1];
      }
    }
  }

  /** `CellsFrom` lists its cells in ascending order. */
  lemma {:induction false} CellsFromIncreasing(x: Long, p: int)
    requires 0 <= p <= 64
    ensures Increasing(CellsFrom(x, p))
    decreases 64 - p
  {
    if p < 64 {
      CellsFromIncreasing(x, p + 1);
      CellsFromRange(x, p + 1);
    }
  }

  /** `CellsFrom(x, p)` holds every cell from `p` on whose bit is 1. */
  lemma {:induction false} CellsFromMembers(x: Long, p: int)
    requires 0 <= p <= 64
    ensures forall q :: q in CellsFrom(x, p) <==> p <= q < 64 && x[q]
    decreases 64 - p
  {
    if p < 64 {
      CellsFromMembers(x, p + 1);
    }
  }

  /** The cells of `x` in ascending order. */
  function Cells(x: Long): seq<int>
  {
    CellsFrom(x, 0)
  }

  /** Every entry of `Cells(x)` is a cell whose bit is 1. */
  lemma CellsRange(x: Long)
    ensures forall i :: 0 <= i < |Cells(x)| ==> 0 <= Cells(x)[i] < 64 && x[Cells(x)[i]]
  {
    CellsFromRange(x, 0);
  }

  /** The cells of `x` are listed in ascending order. */
  lemma CellsIncreasing(x: Long)
    ensures Increasing(Cells(x))
  {
    CellsFromIncreasing(x, 0);
  }

  /** The cells of `x` are exactly the positions of its 1 bits. */
  lemma CellsMembers(x: Long)
    ensures forall q :: q in Cells(x) <==> 0 <= q < 64 && x[q]
  {
    CellsFromMembers(x, 0);
  }

  /** Every member of an ascending sequence lies between its first and last entry. */
  lemma Between(s: seq<int>)
    requires Increasing(s) && s != []
    ensures forall q :: q in s ==> s[0] <= q <= s[|s| - 1]
  {
    forall q | q in s
      ensures s[0] <= q <= s[|s| - 1]
    {
      var i :| 0 <= i < |s| && s[i] == q;
    }
  }

  lemma {:induction false} IncreasingBound(s: seq<int>, lo: int)
    requires Increasing(s)
    requires forall i :: 0 <= i < |s| ==> lo <= s[i] < 64
    ensures |s| <= 64 - lo || s == []
    decreases |s|
  {
    if |s| > 1 {
      assert forall i :: 0 <= i < |s[1..]| ==> s[0] + 1 <= s[1..][i] < 64 by {
        forall i | 0 <= i < |s[1..]|
          ensures s[0] + 1 <= s[1..][i] < 64
        {
          assert s[1..][i] == s[i + 1];
        }
      }
      IncreasingBound(s[1..], s[0] + 1);
    }
  }

  /** An ascending sequence within `lo..hi-1` has at most `hi - lo` elements. */
  lemma {:induction false} IncreasingWithin(s: seq<int>, lo: int, hi: int)
    requires Increasing(s)
    requires forall i :: 0 <= i < |s| ==> lo <= s[i] < hi
    ensures |s| <= hi - lo || s == []
    decreases |s|
  {
    if |s| > 1 {
      assert forall i :: 0 <= i < |s[1..]| ==> s[0] + 1 <= s[1..][i] < hi by {
        forall i | 0 <= i < |s[1..]|
          ensures s[0] + 1 <= s[1..][i] < hi
        {
          assert s[1..][i] == s[i + 1];
        }
      }
      IncreasingWithin(s[1..], s[0] + 1, hi);
    }
  }

  /** Two ascending sequences with the same members are equal. */
  lemma {:induction false} IncreasingUnique(s: seq<int>, t: seq<int>)
    requires Increasing(s) && Increasing(t)
    requires forall q :: q in s <==> q in t
    ensures s == t
    decreases |s|
  {
    if s != [] {
      assert s[0] in s;
    }
    if t != [] {
      assert t[0] in t;
    }
    if s != [] && t != [] {
      Between(s);
      Between(t);
      assert s[0] == t[0];
      forall q
        ensures q in s[1..] <==> q in t[1..]
      {
        assert q in s[1..] <==> q in s && q != s[0];
        assert q in t[1..] <==> q in t && q != t[0];
      }
      IncreasingUnique(s[1..], t[1..]);
    }
  }

  /** An ascending list of exactly the cells of `x` is `Cells(x)`. */
  lemma CellsUnique(x: Long, s: seq<int>)
    requires Increasing(s)
    requires forall q :: q in s <==> 0 <= q < 64 && x[q]
    ensures Cells(x) == s
  {
    CellsMembers(x);
    CellsIncreasing(x);
    IncreasingUnique(Cells(x), s);
  }

  /** A long is zero exactly when it has no cells. */
  lemma EmptyCells(x: Long)
    ensures Cells(x) == [] <==> x == ZERO
  {
    CellsMembers(x);
    if Cells(x) == [] {
      assert forall i :: 0 <= i < 64 ==> x[i] == ZERO[i] by {
        forall i | 0 <= i < 64
          ensures x[i] == ZERO[i]
        {
          assert i !in Cells(x);
        }
      }
    } else {
      CellsRange(x);
      assert Cells(x)[0] in Cells(x);
    }
  }

  /** The number of 1 bits among the cells `p..63`. */
  function CountFrom(x: Long, p: int): (n: int)
    requires 0 <= p <= 64
    ensures 0 <= n <= 64 - p
    decreases |x| - p
  {
    if p == 64 then 0 else (if x[p] then 1 else 0) + CountFrom(x, p + 1)
  }

  /** `Long.bitCount(x)`: the number of 1 bits of `x`. */
  function PopCount(x: Long): (n: int)
    ensures 0 <= n <= 64
  {
    CountFrom(x, 0)
  }

  /** Counting the bits from `p` on counts the cells `CellsFrom` lists. */
  lemma {:induction false} CountFromCells(x: Long, p: int)
    requires 0 <= p <= 64
    ensures CountFrom(x, p) == |CellsFrom(x, p)|
    decreases 64 - p
  {
    if p < 64 {
      CountFromCells(x, p + 1);
    }
  }

  /** The bit count is the length of the cell list. */
  lemma PopCountCells(x: Long)
    ensures PopCount(x) == |Cells(x)|
  {
    CountFromCells(x, 0);
  }

  /** No bit from `p` on is counted exactly when all of them are 0. */
  lemma {:induction false} CountFromZero(x: Long, p: int)
    requires 0 <= p <= 64
    ensures CountFrom(x, p) == 0 <==> forall q :: p <= q < 64 ==> !x[q]
    decreases 64 - p
  {
    if p < 64 {
      CountFromZero(x, p + 1);
    }
  }

  /** A long has no 1 bit exactly when it is 0. */
  lemma PopCountZero(x: Long)
    ensures PopCount(x) == 0 <==> x == ZERO
  {
    CountFromZero(x, 0);
    if PopCount(x) == 0 {
      assert forall i :: 0 <= i < 64 ==> x[i] == ZERO[i];
    }
  }

  /** All `64 - p` bits from `p` on are counted exactly when all of them are 1. */
  lemma {:induction false} FullCountFrom(x: Long, p: int)
    requires 0 <= p <= 64
    ensures CountFrom(x, p) == 64 - p <==> forall q :: p <= q < 64 ==> x[q]
    decreases 64 - p
  {
    if p < 64 {
      FullCountFrom(x, p + 1);
    }
  }

  /** A long has 64 cells exactly when every bit is 1. */
  lemma FullCells(x: Long)
    ensures PopCount(x) == 64 <==> forall q :: 0 <= q < 64 ==> x[q]
  {
    FullCountFrom(x, 0);
  }

  /** A long and its complement share out the cells `p..63`. */
  lemma {:induction false} ComplementCountFrom(x: Long, p: int)
    requires 0 <= p <= 64
    ensures CountFrom(x, p) + CountFrom(Not(x), p) == 64 - p
    decreases 64 - p
  {
    if p < 64 {
      ComplementCountFrom(x, p + 1);
    }
  }

  lemma ComplementCount(x: Long)
    ensures PopCount(Not(x)) == 64 - PopCount(x)
  {
    ComplementCountFrom(x, 0);
  }

  /** A mask and its complement share out the cells of `l` from `p` on. */
  lemma {:induction false} SplitCountFrom(l: Long, a: Long, p: int)
    requires 0 <= p <= 64
    ensures CountFrom(And(l, a), p) + CountFrom(And(l, Not(a)), p) == CountFrom(l, p)
    decreases 64 - p
  {
    if p < 64 {
      SplitCountFrom(l, a, p + 1);
    }
  }

  lemma SplitCount(l: Long, a: Long)
    ensures PopCount(And(l, a)) + PopCount(And(l, Not(a))) == PopCount(l)
  {
    SplitCountFrom(l, a, 0);
  }

  /** Bits from `p` on that are all 0 except possibly `c` count at most one. */
  lemma {:induction false} AtMostOneFrom(x: Long, c: int, p: int)
    requires 0 <= p <= 64
    requires forall q :: p <= q < 64 && q != c ==> !x[q]
    ensures CountFrom(x, p) <= 1
    ensures c < p ==> CountFrom(x, p) == 0
    decreases 64 - p
  {
    if p < 64 {
      AtMostOneFrom(x, c, p + 1);
    }
  }

  /** A long with no cell other than `c` has at most one cell. */
  lemma AtMostOne(x: Long, c: int)
    requires forall q :: 0 <= q < 64 && q != c ==> !x[q]
    ensures PopCount(x) <= 1
  {
    AtMostOneFrom(x, c, 0);
  }

  lemma {:induction false} CountFromAgree(x: Long, y: Long, p: int)
    requires 0 <= p <= 64
    requires forall q :: p <= q < 64 ==> x[q] == y[q]
    ensures CountFrom(x, p) == CountFrom(y, p)
    decreases 64 - p
  {
    if p < 64 {
      CountFromAgree(x, y, p + 1);
    }
  }

  /** `(x & m) == m`: every cell of `m` is a cell of `x`. */
  function Includes(x: Long, m: Long): (r: bool)
    ensures r <==> forall q :: 0 <= q < 64 && m[q] ==> x[q]
  {
    assert (forall q :: 0 <= q < 64 && m[q] ==> x[q]) ==> forall q :: 0 <= q < 64 ==> And(x, m)[q] == m[q];
    And(x, m) == m
  }

  // ---------------------------------------------------------------------
  // Bit.isSet, Bit.set, Bit.clear, Bit.positionMask
  // ---------------------------------------------------------------------

  lemma MaskedZero(x: Long, pos: int)
    ensures And(x, Mask(pos)) != ZERO <==> x[CellOf(pos)]
  {
    var m := And(x, Mask(pos));
    assert x[CellOf(pos)] ==> m[CellOf(pos)];
    assert !x[CellOf(pos)] ==> forall i :: 0 <= i < 64 ==> m[i] == ZERO[i];
  }

  /** `Bit.isSet(x, pos)`: `(x & (1L << pos)) != 0`. */
  function IsSet(x: Long, pos: int): (r: bool)
    ensures r <==> x[CellOf(pos)]
  {
    MaskedZero(x, pos);
    And(x, Mask(pos)) != ZERO
  }

  /** `Bit.set(x, pos)`: adds cell `pos mod 64`. */
  function SetBit(x: Long, pos: int): (r: Long)
    ensures forall q :: 0 <= q < 64 ==> r[q] == (q == CellOf(pos) || x[q])
  {
    Or(x, Mask(pos))
  }

  /** `Bit.clear(x, pos)`: removes cell `pos mod 64`. */
  function ClearBit(x: Long, pos: int): (r: Long)
    ensures forall q :: 0 <= q < 64 ==> r[q] == (q != CellOf(pos) && x[q])
  {
    And(x, Not(Mask(pos)))
  }

  /** `Bit.positionMask(pos)`, which returns `Bit.mask(pos)`: the set holding only cell `pos mod 64`. */
  function PositionMask(pos: int): (r: Long)
    ensures forall i :: 0 <= i < 64 ==> r[i] == (i == CellOf(pos))
  {
    Mask(pos)
  }

  /** The mask of `pos` has the single cell `pos mod 64`, and as a number it is `2^(pos mod 64)`. */
  lemma PositionMaskCells(pos: int)
    ensures Cells(PositionMask(pos)) == [CellOf(pos)]
    ensures Value(PositionMask(pos)) == Pow2(CellOf(pos))
  {
    CellsUnique(Mask(pos), [CellOf(pos)]);
    SingleValue(Mask(pos), CellOf(pos));
  }

  lemma {:induction false} SingleValue(s: seq<bool>, k: int)
    requires 0 <= k < |s|
    requires forall i :: 0 <= i < |s| ==> s[i] == (i == k)
    ensures Value(s) == Pow2(k)
  {
    if k == 0 {
      ZeroValue(s[1..]);
    } else {
      SingleValue(s[1..], k - 1);
    }
  }

  lemma {:induction false} ZeroValue(s: seq<bool>)
    requires forall i :: 0 <= i < |s| ==> !s[i]
    ensures Value(s) == 0
  {
    if s != [] {
      ZeroValue(s[1..]);
    }
  }

  /** Setting, clearing and testing a cell agree with each other. */
  lemma SetClearIsSet(x: Long, pos: int, q: int)
    ensures IsSet(SetBit(x, pos), q) == (CellOf(q) == CellOf(pos) || IsSet(x, q))
    ensures IsSet(ClearBit(x, pos), q) == (CellOf(q) != CellOf(pos) && IsSet(x, q))
    ensures ClearBit(SetBit(x, pos), pos) == ClearBit(x, pos)
    ensures SetBit(ClearBit(x, pos), pos) == SetBit(x, pos)
  {
  }

  // ---------------------------------------------------------------------
  // Clearing the lowest cell: x & (x - 1)
  // ---------------------------------------------------------------------

  /** With `low` the lowest 1 bit, `x & (x - 1)` clears it and `x ^ (x & (x - 1))` isolates it. */
  lemma AndDec(x: Long, low: int)
    requires 0 <= low < 64 && x[low]
    requires forall j :: 0 <= j < low ==> !x[j]
    ensures And(x, Dec(x)) == ClearBit(x, low)
    ensures Xor(x, And(x, Dec(x))) == Mask(low)
  {
    DecBitsAt(x, low);
    assert forall i :: 0 <= i < 64 ==> And(x, Dec(x))[i] == ClearBit(x, low)[i];
    assert forall i :: 0 <= i < 64 ==> Xor(x, And(x, Dec(x)))[i] == Mask(low)[i];
  }

  lemma {:induction false} CellsFromAgree(x: Long, y: Long, p: int)
    requires 0 <= p <= 64
    requires forall q :: p <= q < 64 ==> x[q] == y[q]
    ensures CellsFrom(x, p) == CellsFrom(y, p)
    decreases 64 - p
  {
    if p < 64 {
      CellsFromAgree(x, y, p + 1);
    }
  }

  lemma {:induction false} CellsFromSkip(x: Long, p: int, k: int)
    requires 0 <= p <= k <= 64
    requires forall q :: p <= q < k ==> !x[q]
    ensures CellsFrom(x, p) == CellsFrom(x, k)
    decreases k - p
  {
    if p < k {
      CellsFromSkip(x, p + 1, k);
    }
  }

  /** Removing the lowest cell drops the first entry of the ascending cell list. */
  lemma CellsWithoutFirst(x: Long, low: int)
    requires 0 <= low < 64 && x[low]
    requires forall j :: 0 <= j < low ==> !x[j]
    ensures Cells(x) != [] && Cells(x)[0] == low
    ensures Cells(ClearBit(x, low)) == Cells(x)[1..]
  {
    var y := ClearBit(x, low);
    CellsFromSkip(x, 0, low);
    assert Cells(x) == [low] + CellsFrom(x, low + 1);
    CellsFromSkip(y, 0, low + 1);
    CellsFromAgree(x, y, low + 1);
  }

  /**
   * For a non-zero `x`, `x & (x - 1)` is `x` without its lowest cell and
   * `x ^ (x & (x - 1))` is the single-cell mask of that cell.
   */
  lemma ClearLowest(x: Long)
    requires x != ZERO
    ensures Cells(x) != []
    ensures Cells(And(x, Dec(x))) == Cells(x)[1..]
    ensures Xor(x, And(x, Dec(x))) == PositionMask(Cells(x)[0])
  {
    EndsOfCells(x);
    var low := Cells(x)[0];
    AndDec(x, low);
    CellsWithoutFirst(x, low);
  }

  // ---------------------------------------------------------------------
  // Bit.countOnes
  // ---------------------------------------------------------------------

  /** `Bit.countOnes`: clears the lowest cell until none is left, counting. */
  method CountOnes(x0: Long) returns (count: int)
    ensures count == PopCount(x0)
  {
    count := 0;
    var x := x0;
    while x != ZERO
      invariant count + PopCount(x) == PopCount(x0)
      decreases PopCount(x)
    {
      ClearLowest(x);
      PopCountCells(x);
      PopCountCells(And(x, Dec(x)));
      x := And(x, Dec(x));
      count := count + 1;
    }
    PopCountZero(x);
  }

  // ---------------------------------------------------------------------
  // Highest and lowest cells, the JDK counts, Bit.countLeadingZeros
  // ---------------------------------------------------------------------

  lemma EndsOfCells(x: Long)
    requires x != ZERO
    ensures Cells(x) != []
    ensures 0 <= Cells(x)[0] <= Cells(x)[|Cells(x)| - 1] < 64
    ensures x[Cells(x)[0]] && x[Cells(x)[|Cells(x)| - 1]]
    ensures forall q :: Cells(x)[|Cells(x)| - 1] < q < 64 ==> !x[q]
    ensures forall q :: 0 <= q < Cells(x)[0] ==> !x[q]
  {
    EmptyCells(x);
    CellsRange(x);
    CellsMembers(x);
    CellsIncreasing(x);
    var s := Cells(x);
    Between(s);
    forall q | s[|s| - 1] < q < 64
      ensures !x[q]
    {
      assert q !in s;
    }
    forall q | 0 <= q < s[0]
      ensures !x[q]
    {
      assert q !in s;
    }
  }

  /** The highest cell of a non-zero `x`. */
  function Top(x: Long): (h: int)
    requires x != ZERO
    ensures 0 <= h < 64 && x[h]
    ensures forall q :: h < q < 64 ==> !x[q]
  {
    EndsOfCells(x);
    Cells(x)[|Cells(x)| - 1]
  }

  /** `Long.numberOfLeadingZeros(x)` of the JDK. */
  function NumberOfLeadingZeros(x: Long): (r: int)
    ensures 0 <= r <= 64
  {
    if x == ZERO then 64 else 63 - Top(x)
  }

  /** `Long.numberOfTrailingZeros(x)` of the JDK: the lowest cell, or 64 for zero. */
  function NumberOfTrailingZeros(x: Long): (r: int)
    ensures x == ZERO ==> r == 64
    ensures x != ZERO ==> 0 <= r < 64 && x[r] && forall q :: 0 <= q < r ==> !x[q]
  {
    if x == ZERO then 64
    else
      EndsOfCells(x);
      Cells(x)[0]
  }

  function Limit(shift: int): int
  {
    if shift == 0 then 1 else 2 * shift
  }

  lemma UShrCompose(x: Long, a: int, b: int)
    requires 0 <= a && 0 <= b && a + b < 64
    ensures UShr(UShr(x, a), b) == UShr(x, a + b)
  {
    forall i | 0 <= i < 64
      ensures UShr(UShr(x, a), b)[i] == UShr(x, a + b)[i]
    {
      if i + b < 64 {
        assert UShr(UShr(x, a), b)[i] == UShr(x, a)[i + b];
      }
    }
  }

  /** A shift by `s` that is kept leaves nothing at or above `s`. */
  lemma ClzTakenBits(x: Long, s: int)
    requires s in {32, 16, 8, 4, 2, 1}
    requires s < 32 ==> forall i :: 2 * s <= i < 64 ==> !x[i]
    ensures forall i :: Limit(s / 2) <= i < 64 ==> !UShr(x, s)[i]
  {
    assert Limit(s / 2) == s;
  }

  /** A shift by `s` that gives zero shows nothing is at or above `s`. */
  lemma ClzSkippedBits(x: Long, s: int)
    requires s in {32, 16, 8, 4, 2, 1}
    requires UShr(x, s) == ZERO
    ensures forall i :: Limit(s / 2) <= i < 64 ==> !x[i]
  {
    assert Limit(s / 2) == s;
    forall i | s <= i < 64
      ensures !x[i]
    {
      assert UShr(x, s)[i - s] == x[i];
    }
  }

  /** After the search only bit 0 may be left, and it is then the highest cell of the original. */
  lemma ClzEnd(x0: Long, x: Long, count: int)
    requires 0 <= count < 64 && x == UShr(x0, count)
    requires forall i :: 1 <= i < 64 ==> !x[i]
    requires x0 != ZERO ==> x != ZERO
    ensures x == ZERO <==> x0 == ZERO
    ensures x != ZERO ==> x[0] && Top(x) == 0 && Top(x0) == count
  {
    assert x0 == ZERO ==> x == ZERO by {
      if x0 == ZERO {
        assert forall i :: 0 <= i < 64 ==> x[i] == ZERO[i];
      }
    }
    assert x == ZERO || x[0] by {
      if !x[0] {
        assert forall i :: 0 <= i < 64 ==> x[i] == ZERO[i];
      }
    }
    if x != ZERO {
      assert x0[count] == x[0];
      forall q | count < q < 64
        ensures !x0[q]
      {
        assert x0[q] == x[q - count];
      }
    }
  }

  /**
   * `Bit.countLeadingZeros` as written: a binary search shifts `x` right
   * while the shifted value stays non-zero, then adds the JDK's count for
   * what is left. The search leaves exactly bit 0, so for a non-zero `x`
   * the result is the highest cell plus 63, not the number of leading zeros.
   */
  method CountLeadingZeros(x0: Long) returns (r: int)
    ensures x0 == ZERO ==> r == 64
    ensures x0 != ZERO ==> r == Top(x0) + 63
  {
    var count := 0;
    var shift := 32;
    var x := x0;
    assert x == UShr(x0, 0);
    while shift > 0
      invariant shift in {32, 16, 8, 4, 2, 1, 0}
      invariant ClzInvariant(x0, x, count, shift)
    {
      var y := UShr(x, shift);
      if y != ZERO {
        ClzTaken(x0, x, count, shift);
        count := count + shift;
        x := y;
      } else {
        ClzSkipped(x0, x, count, shift);
      }
      shift := shift / 2;
    }
    ClzEnd(x0, x, count);
    if x == ZERO {
      r := 64;
    } else {
      r := count + NumberOfLeadingZeros(x);
    }
  }

  /** What the binary search of `countLeadingZeros` keeps: `x` is `x0` shifted by `count`, with nothing left above `Limit(shift)`. */
  predicate ClzInvariant(x0: Long, x: Long, count: int, shift: int)
  {
    0 <= shift && 0 <= count && count + Limit(shift) <= 64
    && x == UShr(x0, count)
    && (x0 != ZERO ==> x != ZERO)
    && (shift < 32 ==> forall i :: Limit(shift) <= i < 64 ==> !x[i])
  }

  /** A round of the binary search that keeps the shifted value keeps the invariant. */
  lemma ClzTaken(x0: Long, x: Long, count: int, shift: int)
    requires shift in {32, 16, 8, 4, 2, 1}
    requires ClzInvariant(x0, x, count, shift) && UShr(x, shift) != ZERO
    ensures ClzInvariant(x0, UShr(x, shift), count + shift, shift / 2)
  {
    assert Limit(shift / 2) == shift;
    ClzTakenBits(x, shift);
    UShrCompose(x0, count, shift);
  }

  /** A round that drops the shifted value, because it is zero, keeps the invariant too. */
  lemma ClzSkipped(x0: Long, x: Long, count: int, shift: int)
    requires shift in {32, 16, 8, 4, 2, 1}
    requires ClzInvariant(x0, x, count, shift) && UShr(x, shift) == ZERO
    ensures ClzInvariant(x0, x, count, shift / 2)
  {
    assert Limit(shift / 2) == shift;
    ClzSkippedBits(x, shift);
  }

  /** What `Bit.leadingOne` returns: -1 for zero, otherwise minus the highest cell. */
  function LeadingOneValue(x: Long): (r: int)
    ensures x == ZERO ==> r == -1
    ensures x != ZERO ==> -63 <= r <= 0
  {
    if x == ZERO then -1 else -Top(x)
  }

  /** `Bit.leadingOne(x)`: `63 - countLeadingZeros(x)` for a non-zero `x`. */
  method LeadingOne(x: Long) returns (r: int)
    ensures r == LeadingOneValue(x)
  {
    if x == ZERO {
      r := -1;
    } else {
      var clz := CountLeadingZeros(x);
      r := 63 - clz;
    }
  }

  /** The as-written count agrees with the JDK's only for 0 and 1. */
  lemma CountLeadingZerosVersusJdk(x: Long)
    ensures (if x == ZERO then 64 else Top(x) + 63) == NumberOfLeadingZeros(x) <==> x == ZERO || x == Mask(0)
  {
    if x != ZERO && Top(x) == 0 {
      assert forall i :: 0 <= i < 64 ==> x[i] == Mask(0)[i];
    }
  }

  /** `leadingOne` of the mask of cell `p` is `-p`: it inverts `mask` only for cell 0. */
  lemma LeadingOneOfMask(p: int)
    requires 0 <= p < 64
    ensures LeadingOneValue(PositionMask(p)) == -p
    ensures LeadingOneValue(PositionMask(p)) == p <==> p == 0
  {
    var m := PositionMask(p);
    assert m[p];
  }

  // ---------------------------------------------------------------------
  // Bit.BitIterator, Bit.iterator, Bit.ones, Bit.onesList
  // ---------------------------------------------------------------------

  function Negate(s: seq<int>): (r: seq<int>)
    ensures |r| == |s| && forall i :: 0 <= i < |s| ==> r[i] == -s[i]
  {
    if s == [] then [] else [-s[0]] + Negate(s[1..])
  }

  class BitIterator {
    var bits: Long

    /** `new BitIterator(bits)`, what `Bit.iterator(bits)` and `Bit.ones(bits)` hand out. */
    constructor (bits: Long)
      ensures this.bits == bits
    {
      this.bits := bits;
    }

    /** `hasNext()`: some cell is left. */
    function HasNext(): (r: bool)
      reads this
      ensures r <==> Cells(bits) != []
    {
      EmptyCells(bits);
      bits != ZERO
    }

    /**
     * `next()`: removes the lowest remaining cell and returns `leadingOne`
     * of its mask, which is minus that cell. An exhausted iterator stays
     * empty and returns -1.
     */
    method Next() returns (r: int)
      modifies this
      ensures old(bits) == ZERO ==> bits == ZERO && r == -1
      ensures old(bits) != ZERO ==> Cells(old(bits)) != [] && Cells(bits) == Cells(old(bits))[1..]
      ensures old(bits) != ZERO ==> r == -Cells(old(bits))[0]
    {
      if bits != ZERO {
        ClearLowest(bits);
        EndsOfCells(bits);
        LeadingOneOfMask(Cells(bits)[0]);
      } else {
        assert And(bits, Dec(bits)) == ZERO;
      }
      var temp := And(bits, Dec(bits));
      var mask := Xor(bits, temp);
      bits := temp;
      r := LeadingOne(mask);
    }
  }

  /** What `Bit.onesList(bits)` returns: minus each cell, lowest cell first. */
  function OnesListValue(bits: Long): seq<int>
  {
    Negate(Cells(bits))
  }

  /** `onesList(bits)` holds one entry per 1 bit: the negated positions, lowest first. */
  lemma OnesListFacts(bits: Long)
    ensures |OnesListValue(bits)| == PopCount(bits)
    ensures forall i :: 0 <= i < |OnesListValue(bits)| ==> OnesListValue(bits)[i] == -Cells(bits)[i]
  {
    PopCountCells(bits);
  }

  /** `Bit.onesList(bits)`: collects what the iterator over `bits` returns. */
  method OnesList(bits: Long) returns (list: seq<int>)
    ensures list == OnesListValue(bits)
  {
    var it := new BitIterator(bits);
    ghost var cells := Cells(bits);
    list := [];
    while it.HasNext()
      invariant |list| <= |cells|
      invariant Cells(it.bits) == cells[|list|..]
      invariant forall k :: 0 <= k < |list| ==> list[k] == -cells[k]
      decreases |cells| - |list|
    {
      var pos := it.Next();
      CollectStep(cells, list, pos);
      list := list + [pos];
    }
    assert forall k :: 0 <= k < |list| ==> list[k] == OnesListValue(bits)[k];
  }

  lemma CollectStep(c: seq<int>, list: seq<int>, pos: int)
    requires |list| < |c| && pos == -c[|list|]
    requires forall k :: 0 <= k < |list| ==> list[k] == -c[k]
    ensures c[|list|..][1..] == c[|list| + 1..]
    ensures forall k :: 0 <= k < |list| + 1 ==> (list + [pos])[k] == -c[k]
  {
  }

  /**
   * Used as a shift distance, entry `i` of `onesList(bits)` names the mirror
   * cell `(64 - p) mod 64` of the cell `p` it stands for, which is `p` itself
   * only for cells 0 and 32.
   */
  lemma OnesListDistance(bits: Long, i: int)
    requires 0 <= i < |Cells(bits)|
    ensures CellOf(OnesListValue(bits)[i]) == (if Cells(bits)[i] == 0 then 0 else 64 - Cells(bits)[i])
    ensures CellOf(OnesListValue(bits)[i]) == Cells(bits)[i] <==> Cells(bits)[i] == 0 || Cells(bits)[i] == 32
  {
    CellsRange(bits);
    var c := Cells(bits)[i];
    Mirror(c);
  }

  lemma Mirror(p: int)
    requires 0 <= p < 64
    ensures CellOf(-p) == (if p == 0 then 0 else 64 - p)
    ensures CellOf(-p) == p <==> p == 0 || p == 32
  {
  }
}
