/**
 * `Weights`: the seventeen `int` coefficients of the static evaluator, with
 * their declared defaults, random initialisation and mutation, copying,
 * uniform crossover, the `toString` text and the constructor that reads
 * that text back.
 *
 * The random number generator is an oracle: `randInRange(min, max)` returns
 * some value in `[min, max]`, and each `nextBoolean()` of `crossover` and
 * each `nextDouble() < mutationRate` test of `mutate` is a nondeterministic
 * coin.
 */
module Weights {
  import opened Wrappers
  import opened JavaInt
  import opened JavaString

  /** The fields of a `Weights` object, in declaration order. */
  datatype Values = Values(
    ScoreOne: int,
    ScoreTwo: int,
    ScoreThree: int,
    ScoreFour: int,
    CenterMultiplier: int,
    OpponentScoreMultiplier: int,
    ImmediateThreatPenalty: int,
    ImmediateWinBonus: int,
    CenterControlMultiplier: int,
    OpponentCenterControlMultiplier: int,
    PCornerControlMultiplier: int,
    OpponentPCornerControlMultiplier: int,
    BCornerControlMultiplier: int,
    OpponentBCornerControlMultiplier: int,
    PlayerForksMultiplier: int,
    OpponentForksMultiplier: int,
    OpponentPotentialForksPenalty: int)

  /** The field initialisers. */
  const Defaults: Values := Values(10, 100, 1000, 100000, 34, 2, 20000, 20000, 88, 112, 14, 22, 24, 28, 3470, 982, 4850)

  /** The fields as a list, in declaration order. */
  function Fields(v: Values): (r: seq<int>)
    ensures |r| == 17
  {
    [v.ScoreOne, v.ScoreTwo, v.ScoreThree, v.ScoreFour, v.CenterMultiplier, v.OpponentScoreMultiplier,
     v.ImmediateThreatPenalty, v.ImmediateWinBonus, v.CenterControlMultiplier, v.OpponentCenterControlMultiplier,
     v.PCornerControlMultiplier, v.OpponentPCornerControlMultiplier, v.BCornerControlMultiplier,
     v.OpponentBCornerControlMultiplier, v.PlayerForksMultiplier, v.OpponentForksMultiplier,
     v.OpponentPotentialForksPenalty]
  }

  function FromFields(f: seq<int>): (v: Values)
    requires |f| == 17
    ensures Fields(v) == f
  {
    Values(f[0], f[1], f[2], f[3], f[4], f[5], f[6], f[7], f[8], f[9], f[10], f[11], f[12], f[13], f[14], f[15], f[16])
  }

  lemma FieldsDetermine(v: Values, u: Values)
    requires Fields(v) == Fields(u)
    ensures v == u
  {
    assert forall i :: 0 <= i < 17 ==> Fields(v)[i] == Fields(u)[i];
  }

  /** Every field holds a Java `int`. */
  predicate Valid(v: Values)
  {
    IsInt(v.ScoreOne) && IsInt(v.ScoreTwo) && IsInt(v.ScoreThree) && IsInt(v.ScoreFour)
    && IsInt(v.CenterMultiplier) && IsInt(v.OpponentScoreMultiplier) && IsInt(v.ImmediateThreatPenalty)
    && IsInt(v.ImmediateWinBonus) && IsInt(v.CenterControlMultiplier) && IsInt(v.OpponentCenterControlMultiplier)
    && IsInt(v.PCornerControlMultiplier) && IsInt(v.OpponentPCornerControlMultiplier) && IsInt(v.BCornerControlMultiplier)
    && IsInt(v.OpponentBCornerControlMultiplier) && IsInt(v.PlayerForksMultiplier) && IsInt(v.OpponentForksMultiplier)
    && IsInt(v.OpponentPotentialForksPenalty)
  }

  /** The keys of the text form, field by field. */
  const Keys: seq<string> := ["S1", "S2", "S3", "S4", "CM", "OSM", "ITP", "IWB", "CCM", "OCCM", "Pcc", "Opc", "Bc", "Obc", "Pfm", "Ofm", "OPFP"]

  /** The field set by `field = v` with `field` the `i`-th field. */
  function WithField(v: Values, i: int, n: int): (r: Values)
    requires 0 <= i < 17
    ensures Fields(r) == Fields(v)[i := n]
  {
    FromFields(Fields(v)[i := n])
  }

  // ---------------------------------------------------------------------
  // randomize, mutate, crossover as relations between old and new fields
  // ---------------------------------------------------------------------

  /** The fourteen ranges `randomize` draws from; fields 3, 6 and 7 are not drawn. */
  const Low: seq<int> := [1, 20, 200, 0, 10, 1, 0, 0, 50, 50, 10, 10, 10, 10, 1000, 500, 1000]
  const High: seq<int> := [20, 200, 2000, 0, 60, 5, 0, 0, 220, 220, 40, 40, 40, 40, 4000, 2500, 7000]

  predicate Drawn(i: int)
  {
    0 <= i < 17 && i != 3 && i != 6 && i != 7
  }

  /**
   * `randomize` leaves every drawn field in its inclusive range and
   * `SCORE_FOUR`, `IMMEDIATE_THREAT_PENALTY` and `IMMEDIATE_WIN_BONUS` as they were.
   */
  predicate Randomized(before: Values, after: Values)
  {
    (forall i :: 0 <= i < 17 && Drawn(i) ==> Low[i] <= Fields(after)[i] <= High[i])
    && after.ScoreFour == before.ScoreFour
    && after.ImmediateThreatPenalty == before.ImmediateThreatPenalty
    && after.ImmediateWinBonus == before.ImmediateWinBonus
  }

  /** The largest change `mutate` draws for each field. */
  const Delta: seq<int> := [5, 50, 200, 10000, 5, 2, 10000, 10000, 10, 10, 5, 5, 5, 5, 500, 200, 1000]

  /** `a += randInRange(-d, d)` in Java `int` arithmetic, or no change. */
  predicate Nudged(a: int, b: int, d: int)
  {
    b == a || exists e :: -d <= e <= d && b == AddInt(a, e)
  }

  /** `a + e` on Java `int`s. */
  function AddInt(a: int, e: int): (r: int)
    ensures IsInt(r)
  {
    Wrap32(a + e)
  }

  predicate Mutated(before: Values, after: Values)
  {
    forall i :: 0 <= i < 17 ==> Nudged(Fields(before)[i], Fields(after)[i], Delta[i])
  }

  /** Away from the ends of the `int` range a mutation moves a field by at most its delta. */
  lemma NudgeBound(a: int, b: int, d: int)
    requires 0 <= d && INT_MIN + d <= a <= INT_MAX - d
    requires Nudged(a, b, d)
    ensures a - d <= b <= a + d
  {
    if b != a {
      var e :| -d <= e <= d && b == AddInt(a, e);
      WrapIdentity(a + e);
    }
  }

  /** At the top of the range the addition wraps: `SCORE_ONE += 5` can turn the largest `int` into a very negative one. */
  lemma NudgeWraps()
    ensures Nudged(INT_MAX, INT_MIN + 4, 5)
  {
    assert AddInt(INT_MAX, 5) == INT_MIN + 4;
  }

  lemma NudgeValid(a: int, b: int, d: int)
    requires IsInt(a) && Nudged(a, b, d)
    ensures IsInt(b)
  {
  }

  /** Every field of `child` comes from `p1` or from `p2`. */
  predicate Mixed(child: Values, p1: Values, p2: Values)
  {
    forall i :: 0 <= i < 17 ==> Fields(child)[i] == Fields(p1)[i] || Fields(child)[i] == Fields(p2)[i]
  }

  // ---------------------------------------------------------------------
  // toString and the String constructor
  // ---------------------------------------------------------------------

  /** `KEY=value` for the `i`-th field. */
  function Entry(v: Values, i: int): string
    requires 0 <= i < 17
  {
    Keys[i] + "=" + IntToString(Fields(v)[i])
  }

  function Entries(v: Values): (r: seq<string>)
    ensures |r| == 17 && forall i :: 0 <= i < 17 ==> r[i] == Entry(v, i)
  {
    seq(17, i requires 0 <= i < 17 => Entry(v, i))
  }

  /** `toString()`: `Weights{S1=.., S2=.., ..., OPFP=..}`. */
  function ToString(v: Values): string
  {
    "Weights{" + Join(Entries(v), ", ") + "}"
  }

  /** The field a key of the text form names (the `switch` of the String constructor). */
  function KeyIndex(key: string): (r: Option<int>)
    ensures r.Some? ==> 0 <= r.value < 17 && Keys[r.value] == key
  {
    if key == "S1" then Some(0)
    else if key == "S2" then Some(1)
    else if key == "S3" then Some(2)
    else if key == "S4" then Some(3)
    else if key == "CM" then Some(4)
    else if key == "OSM" then Some(5)
    else if key == "ITP" then Some(6)
    else if key == "IWB" then Some(7)
    else if key == "CCM" then Some(8)
    else if key == "OCCM" then Some(9)
    else if key == "Pcc" then Some(10)
    else if key == "Opc" then Some(11)
    else if key == "Bc" then Some(12)
    else if key == "Obc" then Some(13)
    else if key == "Pfm" then Some(14)
    else if key == "Ofm" then Some(15)
    else if key == "OPFP" then Some(16)
    else None
  }

  /** Why the String constructor throws. */
  datatype LoadError =
    | MissingKey            // `pair[0]` of an empty split
    | MissingValue(key: string)   // `pair[1]` missing for a known key
    | BadNumber(text: string)     // `Integer.parseInt` rejects the value

  /** One `KEY=value` part: a known key sets its field, an unknown one is ignored. */
  function ApplyPart(v: Values, part: string): (r: Result<Values, LoadError>)
    ensures r.Success? ==> forall i :: 0 <= i < 17 && Fields(r.value)[i] != Fields(v)[i] ==>
      Split(part, "=") != [] && KeyIndex(Split(part, "=")[0]) == Some(i)
  {
    var pair := Split(part, "=");
    if |pair| == 0 then Failure(MissingKey)
    else match KeyIndex(pair[0])
      case None => Success(v)
      case Some(i) =>
        if |pair| < 2 then Failure(MissingValue(pair[0]))
        else match ParseInt(pair[1])
          case None => Failure(BadNumber(pair[1]))
          case Some(n) => Success(WithField(v, i, n))
  }

  /** The parts applied in order; the first failing part stops the constructor. */
  function ApplyAll(v: Values, parts: seq<string>): Result<Values, LoadError>
  {
    if parts == [] then Success(v)
    else match ApplyAll(v, parts[..|parts| - 1])
      case Failure(e) => Failure(e)
      case Success(u) => ApplyPart(u, parts[|parts| - 1])
  }

  /** The parts of the String constructor's argument: braces removed, split at ", ". */
  function Parts(load: string): seq<string>
  {
    Split(RemoveAll(RemoveAll(load, '{'), '}'), ", ")
  }

  /** `new Weights(load)`: the defaults updated by every part. */
  function Parse(load: string): Result<Values, LoadError>
  {
    ApplyAll(Defaults, Parts(load))
  }

  /** One more part: applied to the state so far, unless an earlier part failed. */
  lemma ApplyAllStep(v: Values, parts: seq<string>, i: int)
    requires 0 <= i < |parts|
    ensures ApplyAll(v, parts[..i + 1]) ==
      match ApplyAll(v, parts[..i])
      case Failure(e) => Failure(e)
      case Success(u) => ApplyPart(u, parts[i])
  {
    assert parts[..i + 1][..i] == parts[..i];
  }

  lemma {:induction false} ApplyAllFailure(v: Values, parts: seq<string>, i: int)
    requires 0 <= i <= |parts| && ApplyAll(v, parts[..i]).Failure?
    ensures ApplyAll(v, parts) == ApplyAll(v, parts[..i])
    decreases |parts| - i
  {
    if i < |parts| {
      assert parts[..i + 1][..i] == parts[..i];
      ApplyAllFailure(v, parts, i + 1);
    } else {
      assert parts[..i] == parts;
    }
  }

  // ---------------------------------------------------------------------
  // Parsing the text toString writes
  // ---------------------------------------------------------------------

  lemma NumberChars(n: int)
    ensures forall c :: c in IntToString(n) ==> IsDigit(c) || c == '-'
  {
    var s := IntToString(n);
    forall c | c in s
      ensures IsDigit(c) || c == '-'
    {
      var j :| 0 <= j < |s| && s[j] == c;
      if j > 0 {
        assert s[j] == s[1..][j - 1];
      }
    }
  }

  /** Letters and digits only. */
  predicate Plain(s: string)
  {
    forall j :: 0 <= j < |s| ==> 'A' <= s[j] <= 'Z' || 'a' <= s[j] <= 'z' || '0' <= s[j] <= '9'
  }

  lemma PlainKeys()
    ensures forall i :: 0 <= i < 17 ==> Plain(Keys[i])
  {
    assert Plain("S1") && Plain("S2") && Plain("S3") && Plain("S4") && Plain("CM") && Plain("OSM");
    assert Plain("ITP") && Plain("IWB") && Plain("CCM") && Plain("OCCM") && Plain("Pcc") && Plain("Opc");
    assert Plain("Bc") && Plain("Obc") && Plain("Pfm") && Plain("Ofm") && Plain("OPFP");
  }

  /** Each key names its own field. */
  lemma KeysDistinct()
    ensures forall i :: 0 <= i < 17 ==> KeyIndex(Keys[i]) == Some(i)
  {
    forall i | 0 <= i < 17
      ensures KeyIndex(Keys[i]) == Some(i)
    {
      if i < 6 {
        KeysLow(i);
      } else if i < 12 {
        KeysMiddle(i);
      } else {
        KeysHigh(i);
      }
    }
  }

  lemma KeysLow(i: int)
    requires 0 <= i < 6
    ensures KeyIndex(Keys[i]) == Some(i)
  {
    if i == 0 {
      assert KeyIndex("S1") == Some(0);
    } else if i == 1 {
      assert KeyIndex("S2") == Some(1);
    } else if i == 2 {
      assert KeyIndex("S3") == Some(2);
    } else if i == 3 {
      assert KeyIndex("S4") == Some(3);
    } else if i == 4 {
      assert KeyIndex("CM") == Some(4);
    } else {
      assert KeyIndex("OSM") == Some(5);
    }
  }

  lemma KeysMiddle(i: int)
    requires 6 <= i < 12
    ensures KeyIndex(Keys[i]) == Some(i)
  {
    if i == 6 {
      assert KeyIndex("ITP") == Some(6);
    } else if i == 7 {
      assert KeyIndex("IWB") == Some(7);
    } else if i == 8 {
      assert KeyIndex("CCM") == Some(8);
    } else if i == 9 {
      assert KeyIndex("OCCM") == Some(9);
    } else if i == 10 {
      assert KeyIndex("Pcc") == Some(10);
    } else {
      assert KeyIndex("Opc") == Some(11);
    }
  }

  lemma KeysHigh(i: int)
    requires 12 <= i < 17
    ensures KeyIndex(Keys[i]) == Some(i)
  {
    if i == 12 {
      assert KeyIndex("Bc") == Some(12);
    } else if i == 13 {
      assert KeyIndex("Obc") == Some(13);
    } else if i == 14 {
      assert KeyIndex("Pfm") == Some(14);
    } else if i == 15 {
      assert KeyIndex("Ofm") == Some(15);
    } else {
      assert KeyIndex("OPFP") == Some(16);
    }
  }

  lemma PlainAvoids(s: string, c: char)
    requires Plain(s) && !('A' <= c <= 'Z' || 'a' <= c <= 'z' || '0' <= c <= '9')
    ensures c !in s
  {
  }

  lemma EntryAvoids(v: Values, i: int, c: char)
    requires 0 <= i < 17 && (c == ',' || c == '{' || c == '}' || c == '=')
    ensures c !in Keys[i] && c !in IntToString(Fields(v)[i])
  {
    NumberChars(Fields(v)[i]);
    PlainKeys();
    PlainAvoids(Keys[i], c);
  }

  /** An entry is made of key letters, '=', digits and '-', so it holds no ',', '{' or '}'. */
  lemma EntryChars(v: Values, i: int)
    requires 0 <= i < 17
    ensures ',' !in Entry(v, i) && '{' !in Entry(v, i) && '}' !in Entry(v, i)
    ensures '=' !in Keys[i] && '=' !in IntToString(Fields(v)[i])
  {
    EntryAvoids(v, i, ',');
    EntryAvoids(v, i, '{');
    EntryAvoids(v, i, '}');
    EntryAvoids(v, i, '=');
    var e := Entry(v, i);
    assert e == Keys[i] + "=" + IntToString(Fields(v)[i]);
  }

  lemma {:induction false} JoinAvoids(ps: seq<string>, sep: string, c: char)
    requires ps != [] && c !in sep
    requires forall i :: 0 <= i < |ps| ==> c !in ps[i]
    ensures c !in Join(ps, sep)
    decreases |ps|
  {
    if |ps| > 1 {
      JoinAvoids(ps[1..], sep, c);
    }
  }

  /** An entry splits at '=' into its key and its number. */
  lemma SplitEntry(v: Values, i: int, prefix: string)
    requires 0 <= i < 17 && '=' !in prefix
    ensures Split(prefix + Entry(v, i), "=") == [prefix + Keys[i], IntToString(Fields(v)[i])]
  {
    EntryChars(v, i);
    var a := prefix + Keys[i];
    var b := IntToString(Fields(v)[i]);
    assert '=' !in a;
    assert prefix + Entry(v, i) == Join([a, b], "=");
    SplitOfJoin([a, b], "=");
  }

  /** The fields that are set after the parts `1..k-1` have been applied: field 0 keeps its default. */
  function Partial(v: Values, k: int): (r: Values)
    ensures forall i :: 0 <= i < 17 ==> Fields(r)[i] == if 1 <= i < k then Fields(v)[i] else Fields(Defaults)[i]
  {
    FromFields(seq(17, i requires 0 <= i < 17 => if 1 <= i < k then Fields(v)[i] else Fields(Defaults)[i]))
  }

  /** A part `KEY=text` whose text is a number sets the field `KEY` names. */
  lemma ApplyKnown(u: Values, part: string, k: int, n: int)
    requires 0 <= k < 17 && IsInt(n)
    requires Split(part, "=") == [Keys[k], IntToString(n)]
    ensures ApplyPart(u, part) == Success(WithField(u, k, n))
  {
    KeysDistinct();
    ParseIntToString(n);
  }

  /** A part `KEY=text` with a known key and a text that is not a number makes the constructor throw. */
  lemma ApplyBadNumber(u: Values, k: int, text: string)
    requires 0 <= k < 17 && text != [] && '=' !in text && ParseInt(text).None?
    ensures ApplyPart(u, Keys[k] + "=" + text) == Failure(BadNumber(text))
  {
    PlainKeys();
    PlainAvoids(Keys[k], '=');
    assert Keys[k] + "=" + text == Join([Keys[k], text], "=");
    SplitOfJoin([Keys[k], text], "=");
    KeysDistinct();
  }

  lemma PartialStep(v: Values, k: int)
    requires 1 <= k < 17
    ensures WithField(Partial(v, k), k, Fields(v)[k]) == Partial(v, k + 1)
  {
    var w := WithField(Partial(v, k), k, Fields(v)[k]);
    assert Fields(w) == Fields(Partial(v, k + 1));
    FieldsDetermine(w, Partial(v, k + 1));
  }

  lemma ApplyEntry(v: Values, k: int)
    requires Valid(v) && 1 <= k < 17
    ensures ApplyPart(Partial(v, k), Entry(v, k)) == Success(Partial(v, k + 1))
  {
    SplitEntry(v, k, "");
    assert "" + Entry(v, k) == Entry(v, k);
    assert "" + Keys[k] == Keys[k];
    ApplyKnown(Partial(v, k), Entry(v, k), k, Fields(v)[k]);
    PartialStep(v, k);
  }

  /** The parts of `toString`'s text once the braces are gone: the first one carries the prefix `Weights`. */
  function TextParts(v: Values): (r: seq<string>)
    ensures |r| == 17
  {
    ["Weights" + Entry(v, 0)] + Entries(v)[1..]
  }

  lemma {:induction false} ApplyEntries(v: Values, k: int)
    requires Valid(v) && 1 <= k <= 17
    ensures ApplyAll(Defaults, TextParts(v)[..k]) == Success(Partial(v, k))
  {
    var ps := TextParts(v);
    if k == 1 {
      assert ps[..1][..0] == [];
      SplitEntry(v, 0, "Weights");
      assert "Weights" + Keys[0] == "WeightsS1";
      assert KeyIndex("WeightsS1") == None;
      assert Fields(Partial(v, 1)) == Fields(Defaults);
      FieldsDetermine(Partial(v, 1), Defaults);
    } else {
      assert ps[..k][..k - 1] == ps[..k - 1];
      ApplyEntries(v, k - 1);
      assert ps[..k][k - 1] == Entry(v, k - 1);
      ApplyEntry(v, k - 1);
    }
  }

  /** Removing the braces from `name{j}` leaves `namej` when neither part holds a brace. */
  lemma StripBraces(name: string, j: string)
    requires '{' !in name && '}' !in name && '{' !in j && '}' !in j
    ensures RemoveAll(RemoveAll(name + ['{'] + j + ['}'], '{'), '}') == name + j
  {
    assert name + ['{'] + j + ['}'] == name + ['{'] + (j + ['}']);
    RemoveOnce(name, '{', j + ['}']);
    assert name + (j + ['}']) == (name + j) + ['}'] + [];
    RemoveOnce(name + j, '}', []);
    assert (name + j) + [] == name + j;
  }

  /** The class name holds no brace; `toString` puts the opening one right after it. */
  lemma NameWithoutBraces()
    ensures '{' !in "Weights" && '}' !in "Weights" && "Weights{" == "Weights" + ['{']
  {
  }

  /** Removing the braces from `Weights{e0, e1, ...}` leaves `Weightse0, e1, ...` when no entry holds a brace. */
  lemma BracesRemoved(es: seq<string>)
    requires |es| >= 2 && forall i :: 0 <= i < |es| ==> '{' !in es[i] && '}' !in es[i]
    ensures RemoveAll(RemoveAll("Weights{" + Join(es, ", ") + "}", '{'), '}') == Join(["Weights" + es[0]] + es[1..], ", ")
  {
    var j := Join(es, ", ");
    JoinAvoids(es, ", ", '{');
    JoinAvoids(es, ", ", '}');
    NameWithoutBraces();
    assert "Weights{" + j + "}" == "Weights" + ['{'] + j + ['}'];
    StripBraces("Weights", j);
    JoinPrefix("Weights", es, ", ");
  }

  /** Prefixing the first part of a join prefixes the joined text. */
  lemma JoinPrefix(name: string, es: seq<string>, sep: string)
    requires |es| >= 2
    ensures Join([name + es[0]] + es[1..], sep) == name + Join(es, sep)
  {
    var ps, rest := [name + es[0]] + es[1..], Join(es[1..], sep);
    assert ps[1..] == es[1..];
    assert Join(es, sep) == es[0] + sep + rest;
    assert Join(ps, sep) == name + es[0] + sep + rest;
  }

  lemma TextWithoutBraces(v: Values)
    ensures RemoveAll(RemoveAll(ToString(v), '{'), '}') == Join(TextParts(v), ", ")
  {
    var es := Entries(v);
    forall i | 0 <= i < 17
      ensures '{' !in es[i] && '}' !in es[i]
    {
      EntryChars(v, i);
    }
    BracesRemoved(es);
  }

  /**
   * Reading back `toString`'s text restores every field except `SCORE_ONE`:
   * once the braces are removed its key reads `WeightsS1`, which the
   * constructor ignores, so `SCORE_ONE` keeps its default 10.
   */
  lemma ParseToString(v: Values)
    requires Valid(v)
    ensures Parse(ToString(v)) == Success(v.(ScoreOne := Defaults.ScoreOne))
  {
    TextSplits(v);
    ApplyEntries(v, 17);
    assert TextParts(v)[..17] == TextParts(v);
    PartialAll(v);
  }

  /** The String constructor cuts `toString`'s text into the text parts. */
  lemma TextSplits(v: Values)
    ensures Parts(ToString(v)) == TextParts(v)
  {
    TextWithoutBraces(v);
    var ps := TextParts(v);
    forall i | 0 <= i < 17
      ensures ',' !in ps[i]
    {
      EntryChars(v, i);
    }
    assert ps[16] != [];
    SplitOfJoin(ps, ", ");
  }

  lemma PartialAll(v: Values)
    ensures Partial(v, 17) == v.(ScoreOne := Defaults.ScoreOne)
  {
    var u := v.(ScoreOne := Defaults.ScoreOne);
    var f := Fields(Partial(v, 17));
    forall i | 0 <= i < 17
      ensures f[i] == Fields(u)[i]
    {
      if i == 0 {
        assert f[0] == Fields(Defaults)[0] == 10;
      }
    }
    assert f == Fields(u);
    FieldsDetermine(Partial(v, 17), u);
  }

  // ---------------------------------------------------------------------
  // The Weights object
  // ---------------------------------------------------------------------

  class Weights {
    var values: Values

    /** `new Weights(fixed)`: the defaults, or a random draw when `fixed` is false. */
    constructor (fixed: bool)
      ensures fixed ==> values == Defaults
      ensures !fixed ==> Randomized(Defaults, values)
    {
      values := Defaults;
      new;
      if !fixed {
        Randomize();
      }
    }

    /** `randInRange(min, max)`: `min + rand.nextInt(max - min + 1)`. */
    method RandInRange(min: int, max: int) returns (r: int)
      requires min <= max
      ensures min <= r <= max
    {
      var k :| 0 <= k <= max - min;
      r := min + k;
    }

    /** `randomize()`. */
    method Randomize()
      modifies this
      ensures Randomized(old(values), values)
    {
      var s1 := RandInRange(1, 20);
      var s2 := RandInRange(20, 200);
      var s3 := RandInRange(200, 2000);
      var cm := RandInRange(10, 60);
      var osm := RandInRange(1, 5);
      var ccm := RandInRange(50, 220);
      var occm := RandInRange(50, 220);
      var pcc := RandInRange(10, 40);
      var opc := RandInRange(10, 40);
      var bc := RandInRange(10, 40);
      var obc := RandInRange(10, 40);
      var pfm := RandInRange(1000, 4000);
      var ofm := RandInRange(500, 2500);
      var opfp := RandInRange(1000, 7000);
      values := values.(ScoreOne := s1, ScoreTwo := s2, ScoreThree := s3, CenterMultiplier := cm,
        OpponentScoreMultiplier := osm, CenterControlMultiplier := ccm, OpponentCenterControlMultiplier := occm,
        PCornerControlMultiplier := pcc, OpponentPCornerControlMultiplier := opc, BCornerControlMultiplier := bc,
        OpponentBCornerControlMultiplier := obc, PlayerForksMultiplier := pfm, OpponentForksMultiplier := ofm,
        OpponentPotentialForksPenalty := opfp);
    }

    /** `copy()`: a new object with the same fields. */
    method Copy() returns (w: Weights)
      ensures fresh(w) && w.values == values
    {
      w := new Weights(true);
      w.values := values;
    }

    /** `crossover(p1, p2)`: a copy of `p1` in which each field is taken from `p2` on a coin. */
    static method Crossover(p1: Weights, p2: Weights) returns (child: Weights)
      ensures fresh(child)
      ensures Mixed(child.values, p1.values, p2.values)
    {
      child := p1.Copy();
      var a := p1.values;
      var b := p2.values;
      var f := Fields(a);
      for i := 0 to 17
        invariant |f| == 17
        invariant forall j :: 0 <= j < 17 ==> f[j] == Fields(a)[j] || f[j] == Fields(b)[j]
      {
        var coin: bool := *;
        if coin {
          f := f[i := Fields(b)[i]];
        }
      }
      child.values := FromFields(f);
    }

    /** One line of `mutate`: on a coin, add a draw from `[-delta, delta]`. */
    method Nudge(a: int, delta: int) returns (b: int)
      requires 0 <= delta
      ensures Nudged(a, b, delta)
    {
      var coin: bool := *;
      if coin {
        var e := RandInRange(-delta, delta);
        b := AddInt(a, e);
      } else {
        b := a;
      }
    }

    /** `mutate(rate)`: each field, on its own coin, moves by at most its delta (modulo 2^32). */
    method Mutate()
      modifies this
      ensures Mutated(old(values), values)
    {
      var f := Fields(values);
      ghost var f0 := f;
      for i := 0 to 17
        invariant |f| == 17
        invariant forall j :: 0 <= j < i ==> Nudged(f0[j], f[j], Delta[j])
        invariant forall j :: i <= j < 17 ==> f[j] == f0[j]
      {
        var b := Nudge(f[i], Delta[i]);
        f := f[i := b];
      }
      values := FromFields(f);
    }

    /** `new Weights(load)`: the defaults updated part by part, or the exception the text raises. */
    static method Load(load: string) returns (r: Result<Weights, LoadError>)
      ensures Parse(load).Failure? ==> r == Failure(Parse(load).error)
      ensures Parse(load).Success? ==> r.Success? && fresh(r.value)
      ensures Parse(load).Success? ==> r.Success? && r.value.values == Parse(load).value
    {
      var w := new Weights(true);
      var parts := Split(RemoveAll(RemoveAll(load, '{'), '}'), ", ");
      for i := 0 to |parts|
        invariant ApplyAll(Defaults, parts[..i]) == Success(w.values)
      {
        ApplyAllStep(Defaults, parts, i);
        var pair := Split(parts[i], "=");
        if |pair| == 0 {
          ApplyAllFailure(Defaults, parts, i + 1);
          return Failure(MissingKey);
        }
        var key := KeyIndex(pair[0]);
        if key.Some? {
          if |pair| < 2 {
            ApplyAllFailure(Defaults, parts, i + 1);
            return Failure(MissingValue(pair[0]));
          }
          var n := ParseInt(pair[1]);
          if n.None? {
            ApplyAllFailure(Defaults, parts, i + 1);
            return Failure(BadNumber(pair[1]));
          }
          w.values := WithField(w.values, key.value, n.value);
        }
      }
      assert parts[..|parts|] == parts;
      return Success(w);
    }
  }
}
