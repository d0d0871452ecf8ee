/**
 * The few `java.lang.String` and `Integer` operations the engine relies on,
 * for ASCII text: decimal conversion (`Integer.toString`, `Integer.parseInt`),
 * `split` on a literal separator, `replace` of one character by nothing,
 * `lastIndexOf`, `contains`, `substring` and `toLowerCase`.
 */
module JavaString {
  import opened Wrappers
  import opened JavaInt

  predicate IsDigit(c: char)
  {
    '0' <= c <= '9'
  }

  predicate AllDigits(s: string)
  {
    forall i :: 0 <= i < |s| ==> IsDigit(s[i])
  }

  function DigitChar(d: int): (c: char)
    requires 0 <= d < 10
    ensures IsDigit(c)
  {
    (d + '0' as int) as char
  }

  function DigitValue(c: char): (d: int)
    requires IsDigit(c)
    ensures 0 <= d < 10
  {
    c as int - '0' as int
  }

  /** The decimal digits of `n`, most significant first, without leading zeros. */
  function NatToString(n: nat): (s: string)
    ensures |s| >= 1 && AllDigits(s)
  {
    if n < 10 then [DigitChar(n)] else NatToString(n / 10) + [DigitChar(n % 10)]
  }

  /** The number a string of decimal digits denotes. */
  function DigitsValue(s: string): (n: nat)
    requires AllDigits(s)
  {
    if s == [] then 0 else 10 * DigitsValue(s[..|s| - 1]) + DigitValue(s[|s| - 1])
  }

  lemma {:induction false} DigitsOfNat(n: nat)
    ensures DigitsValue(NatToString(n)) == n
  {
    if n >= 10 {
      var s := NatToString(n);
      assert s[..|s| - 1] == NatToString(n / 10);
      DigitsOfNat(n / 10);
    }
  }

  /** `Integer.toString(n)`, which string concatenation with an `int` uses. */
  function IntToString(n: int): (s: string)
    ensures |s| >= 1
    ensures (s[0] == '-' && |s| >= 2 && AllDigits(s[1..])) || AllDigits(s)
  {
    if n < 0 then "-" + NatToString(-n) else NatToString(n)
  }

  /** The syntax `Integer.parseInt` accepts: a `-` or `+` only in front and followed by more, digits everywhere else. */
  predicate IntSyntax(s: string)
  {
    |s| >= 1
    && (IsDigit(s[0]) || ((s[0] == '-' || s[0] == '+') && |s| >= 2))
    && forall i :: 1 <= i < |s| ==> IsDigit(s[i])
  }

  /** The number an `IntSyntax` string denotes. */
  function SyntaxValue(s: string): int
    requires IntSyntax(s)
  {
    var magnitude := if IsDigit(s[0]) then DigitsValue(s) else DigitsValue(s[1..]);
    if s[0] == '-' then -magnitude else magnitude
  }

  /**
   * `Integer.parseInt(s)`: an optional sign followed by at least one digit,
   * whose value fits an `int`; anything else is a `NumberFormatException`.
   */
  function ParseInt(s: string): (r: Option<int>)
    ensures r.Some? <==> IntSyntax(s) && IsInt(SyntaxValue(s))
    ensures r.Some? ==> r.value == SyntaxValue(s)
    ensures r.Some? ==> IsInt(r.value)
    ensures s == [] ==> r.None?
  {
    if s == [] then None
    else
      var negative := s[0] == '-';
      var digits := if s[0] == '-' || s[0] == '+' then s[1..] else s;
      if digits == [] || !AllDigits(digits) then None
      else
        var n: int := DigitsValue(digits);
        var v := if negative then -n else n;
        if IsInt(v) then Some(v) else None
  }

  /** `Integer.parseInt` reads back what `Integer.toString` writes. */
  lemma ParseIntToString(n: int)
    requires IsInt(n)
    ensures ParseInt(IntToString(n)) == Some(n)
  {
    var s := IntToString(n);
    if n < 0 {
      assert s[1..] == NatToString(-n);
      DigitsOfNat(-n);
    } else {
      DigitsOfNat(n);
    }
  }

  // ---------------------------------------------------------------------
  // Searching and splitting
  // ---------------------------------------------------------------------

  /** `pat` occurs in `s` at index `j`. */
  predicate At(s: string, pat: string, j: int)
  {
    0 <= j && j + |pat| <= |s| && s[j..j + |pat|] == pat
  }

  /** The first occurrence of `pat` in `s` at or after `i`. */
  function FindFrom(s: string, pat: string, i: nat): (r: Option<nat>)
    ensures r.Some? ==> i <= r.value && At(s, pat, r.value)
    ensures r.Some? ==> forall j :: i <= j < r.value ==> !At(s, pat, j)
    ensures r.None? ==> forall j :: i <= j ==> !At(s, pat, j)
    decreases |s| - i
  {
    if i + |pat| > |s| then None
    else if s[i..i + |pat|] == pat then Some(i)
    else FindFrom(s, pat, i + 1)
  }

  /** The pieces between successive occurrences of `sep`, empty pieces included. */
  function SplitRaw(s: string, sep: string): (r: seq<string>)
    requires |sep| > 0
    ensures |r| >= 1
    decreases |s|
  {
    match FindFrom(s, sep, 0)
    case None => [s]
    case Some(k) => [s[..k]] + SplitRaw(s[k + |sep|..], sep)
  }

  /** Removes the empty strings at the end of a list. */
  function DropTrailingEmpty(ps: seq<string>): (r: seq<string>)
    ensures |r| <= |ps| && r == ps[..|r|]
    ensures r != [] ==> r[|r| - 1] != []
    ensures forall i :: |r| <= i < |ps| ==> ps[i] == []
  {
    if ps == [] then []
    else if ps[|ps| - 1] == [] then DropTrailingEmpty(ps[..|ps| - 1])
    else ps
  }

  /**
   * `s.split(sep)` for a separator without regular-expression metacharacters:
   * the text itself when `sep` does not occur, otherwise the pieces with the
   * trailing empty ones removed.
   */
  function Split(s: string, sep: string): (r: seq<string>)
    requires |sep| > 0
    ensures FindFrom(s, sep, 0).None? ==> r == [s]
  {
    if FindFrom(s, sep, 0).None? then [s] else DropTrailingEmpty(SplitRaw(s, sep))
  }

  /** The pieces joined with `sep` between them. */
  function Join(ps: seq<string>, sep: string): string
    requires ps != []
  {
    if |ps| == 1 then ps[0] else ps[0] + sep + Join(ps[1..], sep)
  }

  lemma FindAfter(a: string, sep: string, b: string)
    requires |sep| > 0 && sep[0] !in a
    ensures FindFrom(a + sep + b, sep, 0) == Some(|a|)
  {
    var s := a + sep + b;
    assert s[|a|..|a| + |sep|] == sep;
    assert At(s, sep, |a|);
    forall j | 0 <= j < |a|
      ensures !At(s, sep, j)
    {
      assert s[j] == a[j] != sep[0];
      assert j + |sep| <= |s| ==> s[j..j + |sep|][0] == s[j];
    }
  }

  lemma NotFound(a: string, sep: string)
    requires |sep| > 0 && sep[0] !in a
    ensures FindFrom(a, sep, 0).None?
  {
    forall j | 0 <= j && j + |sep| <= |a|
      ensures !At(a, sep, j)
    {
      assert a[j..j + |sep|][0] == a[j];
    }
  }

  /** Splitting pieces joined with `sep`, none of which holds the separator's first character, gives the pieces back. */
  lemma {:induction false} SplitJoin(ps: seq<string>, sep: string)
    requires ps != [] && |sep| > 0
    requires forall i :: 0 <= i < |ps| ==> sep[0] !in ps[i]
    ensures SplitRaw(Join(ps, sep), sep) == ps
    decreases |ps|
  {
    if |ps| == 1 {
      NotFound(ps[0], sep);
    } else {
      var rest := Join(ps[1..], sep);
      FindAfter(ps[0], sep, rest);
      var s := ps[0] + sep + rest;
      assert s[..|ps[0]|] == ps[0];
      assert s[|ps[0]| + |sep|..] == rest;
      SplitJoin(ps[1..], sep);
    }
  }

  /** The same for `split`, when there are at least two pieces and the last one is not empty. */
  lemma SplitOfJoin(ps: seq<string>, sep: string)
    requires |ps| >= 2 && |sep| > 0 && ps[|ps| - 1] != []
    requires forall i :: 0 <= i < |ps| ==> sep[0] !in ps[i]
    ensures Split(Join(ps, sep), sep) == ps
  {
    SplitJoin(ps, sep);
    FindAfter(ps[0], sep, Join(ps[1..], sep));
  }

  // ---------------------------------------------------------------------
  // Other string operations
  // ---------------------------------------------------------------------

  /** `s.replace(String.valueOf(c), "")`: every `c` removed. */
  function RemoveAll(s: string, c: char): (r: string)
    ensures c !in r
  {
    if s == [] then [] else (if s[0] == c then [] else [s[0]]) + RemoveAll(s[1..], c)
  }

  lemma {:induction false} RemoveAllAppend(s: string, t: string, c: char)
    ensures RemoveAll(s + t, c) == RemoveAll(s, c) + RemoveAll(t, c)
  {
    if s != [] {
      assert (s + t)[1..] == s[1..] + t;
      RemoveAllAppend(s[1..], t, c);
    } else {
      assert s + t == t;
    }
  }

  lemma {:induction false} RemoveAbsent(s: string, c: char)
    requires c !in s
    ensures RemoveAll(s, c) == s
  {
    if s != [] {
      RemoveAbsent(s[1..], c);
    }
  }

  /** Removing `c` from text holding it once drops that one character. */
  lemma RemoveOnce(a: string, c: char, b: string)
    requires c !in a && c !in b
    ensures RemoveAll(a + [c] + b, c) == a + b
  {
    RemoveAllAppend(a + [c], b, c);
    RemoveAllAppend(a, [c], c);
    RemoveAbsent(a, c);
    RemoveAbsent(b, c);
    assert [c][1..] == [];
    assert RemoveAll([c], c) == [] + RemoveAll([], c);
    assert RemoveAll(a + [c], c) == a;
  }

  /** `s.lastIndexOf(c)`: the last index holding `c`, or -1. */
  function LastIndexOf(s: string, c: char): (r: int)
    ensures -1 <= r < |s|
    ensures r >= 0 ==> s[r] == c && forall j :: r < j < |s| ==> s[j] != c
    ensures r == -1 <==> c !in s
  {
    if s == [] then -1
    else if s[|s| - 1] == c then |s| - 1
    else LastIndexOf(s[..|s| - 1], c)
  }

  /** `s.contains(pat)`. */
  function Contains(s: string, pat: string): (r: bool)
    ensures r <==> exists j :: At(s, pat, j)
  {
    FindFrom(s, pat, 0).Some?
  }

  /** `Character.toLowerCase` on ASCII letters; every other character is kept. */
  function LowerChar(c: char): (d: char)
    ensures 'A' <= c <= 'Z' ==> 'a' <= d <= 'z'
    ensures !('A' <= c <= 'Z') ==> d == c
  {
    if 'A' <= c <= 'Z' then (c as int + 32) as char else c
  }

  /** `s.toLowerCase()` for ASCII text. */
  function ToLower(s: string): (r: string)
    ensures |r| == |s| && forall i :: 0 <= i < |s| ==> r[i] == LowerChar(s[i])
  {
    seq(|s|, i requires 0 <= i < |s| => LowerChar(s[i]))
  }
}
