/**
 * QuantifierSimplify: rewrites a counted repetition to its shortest equal form.
 * Bounds are compared as text, never as numbers.
 */
module Quantifier {
  import opened Common

  /** The ceiling `int.MaxValue`, which .NET reads as "no upper bound". */
  const IntMaxText := "2147483647"

  /** `s.IndexOf(c, start)`: the first position at or after `start` holding `c`, or -1. */
  function IndexOfFrom(s: string, c: char, start: nat): (r: int)
    requires start <= |s|
    ensures r == -1 || (start <= r < |s| && s[r] == c)
    ensures r == -1 ==> forall k :: start <= k < |s| ==> s[k] != c
    ensures r >= 0 ==> forall k :: start <= k < r ==> s[k] != c
    decreases |s| - start
  {
    if start == |s| then -1 else if s[start] == c then start else IndexOfFrom(s, c, start + 1)
  }

  function LazyMark(isLazyMatch: bool): string
  {
    if isLazyMatch then "?" else ""
  }

  /**
   * The C# routine on the text `q1 + (q2 == "" ? "" : "?")`. None where the C# slicing
   * throws (only for texts the tokenizer never captures, such as `{` or `{?`).
   */
  function QuantifierSimplify(quantifier: string): (r: Option<string>)
    requires |quantifier| > 0
    ensures quantifier[0] != '{' ==> r == Some(quantifier)
  {
    if quantifier[0] != '{' then Some(quantifier)
    else if |quantifier| < 2 then None
    else
      var isLazyMatch := quantifier[|quantifier| - 1] == '?';
      var splitIndex := IndexOfFrom(quantifier, ',', 2);
      if splitIndex < 0 then CountSimplify(quantifier, isLazyMatch)
      else Some(BoundsSimplify(quantifier, quantifier[1..splitIndex], UpperBound(quantifier, splitIndex, isLazyMatch),
                               isLazyMatch))
  }

  /** `{min}`, with no comma: the count between the braces, the lazy mark dropped when it is kept. */
  function CountSimplify(quantifier: string, isLazyMatch: bool): Option<string>
    requires |quantifier| >= 2
  {
    var offsetLen := if isLazyMatch then 1 else 0;
    var minLen := |quantifier| - 2 - offsetLen;
    if minLen < 0 then None
    else
      var minstr := quantifier[1..1 + minLen];
      if minstr == "1" then Some("")
      else if isLazyMatch then Some("{" + minstr + "}")
      else Some(quantifier)
  }

  /** The text after the comma up to the closing brace (and the lazy mark): empty for `{min,}`. */
  function UpperBound(quantifier: string, splitIndex: nat, isLazyMatch: bool): string
    requires splitIndex < |quantifier|
  {
    var offsetLen := if isLazyMatch then 1 else 0;
    var maxlen := |quantifier| - splitIndex - 2 - offsetLen;
    if maxlen > 0 then quantifier[splitIndex + 1..splitIndex + 1 + maxlen] else ""
  }

  /** The decision chain for `{min,}` and `{min,max}` once the bounds are sliced out. */
  function BoundsSimplify(quantifier: string, minstr: string, maxstr: string, isLazyMatch: bool): string
  {
    if maxstr == "" then
      if minstr == "0" then "*" + LazyMark(isLazyMatch)
      else if minstr == "1" then "+" + LazyMark(isLazyMatch)
      else quantifier
    else if minstr == "0" && maxstr == IntMaxText then "*" + LazyMark(isLazyMatch)
    else if minstr == "1" && maxstr == IntMaxText then "+" + LazyMark(isLazyMatch)
    else if minstr == "0" && maxstr == "1" then "?" + LazyMark(isLazyMatch)
    else if minstr == "1" && maxstr == "1" then ""
    else if minstr == maxstr then "{" + minstr + "}"
    else quantifier
  }

  /** Simplifying never lengthens a quantifier, whatever its text. */
  lemma SimplifyNeverLonger(quantifier: string)
    requires |quantifier| > 0
    ensures QuantifierSimplify(quantifier).Some? ==> |QuantifierSimplify(quantifier).value| <= |quantifier|
  {
    if quantifier[0] == '{' && |quantifier| >= 2 {
      if IndexOfFrom(quantifier, ',', 2) >= 0 {
        CommaNeverLonger(quantifier);
      }
    }
  }

  /** The `{min,}` and `{min,max}` forms. */
  lemma CommaNeverLonger(quantifier: string)
    requires |quantifier| >= 2 && quantifier[0] == '{' && IndexOfFrom(quantifier, ',', 2) >= 0
    ensures QuantifierSimplify(quantifier).Some? && |QuantifierSimplify(quantifier).value| <= |quantifier|
  {
    var isLazyMatch := quantifier[|quantifier| - 1] == '?';
    var offsetLen := if isLazyMatch then 1 else 0;
    var splitIndex := IndexOfFrom(quantifier, ',', 2);
    var minstr := quantifier[1..splitIndex];
    var maxlen := |quantifier| - splitIndex - 2 - offsetLen;
    var maxstr := if maxlen > 0 then quantifier[splitIndex + 1..splitIndex + 1 + maxlen] else "";
    assert isLazyMatch ==> splitIndex < |quantifier| - 1;
    BoundsNeverLonger(quantifier, minstr, maxstr, isLazyMatch);
  }

  /** The `{min,max}` chain returns a text no longer than the bounds and the marks around them. */
  lemma BoundsNeverLonger(quantifier: string, minstr: string, maxstr: string, isLazyMatch: bool)
    requires |minstr| + |maxstr| + 2 + |LazyMark(isLazyMatch)| <= |quantifier|
    ensures |BoundsSimplify(quantifier, minstr, maxstr, isLazyMatch)| <= |quantifier|
  {
  }

  // ---------------------------------------------------------------------------
  // The quantifiers the tokenizer can capture in group q1: `[*+?]` or `{\d+(,\d*)?}`.

  predicate AllDigits(s: string)
  {
    forall k :: 0 <= k < |s| ==> IsDigit(s[k])
  }

  datatype QuantToken =
    | Star
    | Plus
    | Question
    | Exactly(n: string)
    | AtLeast(n: string)
    | Between(n: string, m: string)
  {
    predicate Valid()
    {
      match this
      case Exactly(n) => |n| > 0 && AllDigits(n)
      case AtLeast(n) => |n| > 0 && AllDigits(n)
      case Between(n, m) => |n| > 0 && AllDigits(n) && |m| > 0 && AllDigits(m)
      case _ => true
    }

    /** The captured q1 text. */
    function Text(): string
    {
      match this
      case Star => "*"
      case Plus => "+"
      case Question => "?"
      case Exactly(n) => "{" + n + "}"
      case AtLeast(n) => "{" + n + ",}"
      case Between(n, m) => "{" + n + "," + m + "}"
    }
  }

  /** The canonical form, written as a table over the token's shape. */
  function Canonical(t: QuantToken, isLazyMatch: bool): string
  {
    var lazy := LazyMark(isLazyMatch);
    match t
    case Exactly(n) => if n == "1" then "" else "{" + n + "}"
    case AtLeast(n) =>
      if n == "0" then "*" + lazy else if n == "1" then "+" + lazy else t.Text() + lazy
    case Between(n, m) =>
      if n == "0" && m == IntMaxText then "*" + lazy
      else if n == "1" && m == IntMaxText then "+" + lazy
      else if n == "0" && m == "1" then "?" + lazy
      else if n == "1" && m == "1" then ""
      else if n == m then "{" + n + "}"
      else t.Text() + lazy
    case _ => t.Text() + lazy
  }

  /** On every quantifier the tokenizer captures, the C# slicing computes the table. */
  lemma SimplifyMatchesTable(t: QuantToken, isLazyMatch: bool)
    requires t.Valid()
    ensures QuantifierSimplify(t.Text() + LazyMark(isLazyMatch)) == Some(Canonical(t, isLazyMatch))
  {
    match t
    case Star =>
    case Plus =>
    case Question =>
    case Exactly(n) => ExactlyRow(n, isLazyMatch);
    case AtLeast(n) => AtLeastRow(n, isLazyMatch);
    case Between(n, m) => BetweenRow(n, m, isLazyMatch);
  }

  lemma ExactlyRow(n: string, isLazyMatch: bool)
    requires |n| > 0 && AllDigits(n)
    ensures QuantifierSimplify(Exactly(n).Text() + LazyMark(isLazyMatch)) == Some(Canonical(Exactly(n), isLazyMatch))
  {
    var q := Exactly(n).Text() + LazyMark(isLazyMatch);
    var off := if isLazyMatch then 1 else 0;
    assert q == "{" + n + "}" + LazyMark(isLazyMatch);
    assert q[|q| - 1] == '?' <==> isLazyMatch;
    forall k | 2 <= k < |q| ensures q[k] != ',' {
      if k <= |n| { assert q[k] == n[k - 1]; }
    }
    assert IndexOfFrom(q, ',', 2) == -1;
    assert |q| - 2 - off == |n|;
    assert q[1..1 + |n|] == n;
    if !isLazyMatch { assert q == "{" + n + "}"; }
  }

  lemma AtLeastRow(n: string, isLazyMatch: bool)
    requires |n| > 0 && AllDigits(n)
    ensures QuantifierSimplify(AtLeast(n).Text() + LazyMark(isLazyMatch)) == Some(Canonical(AtLeast(n), isLazyMatch))
  {
    var q := AtLeast(n).Text() + LazyMark(isLazyMatch);
    var off := if isLazyMatch then 1 else 0;
    assert q == "{" + n + ",}" + LazyMark(isLazyMatch);
    assert q[|q| - 1] == '?' <==> isLazyMatch;
    var split := 1 + |n|;
    assert q[split] == ',';
    forall k | 2 <= k < split ensures q[k] != ',' { assert q[k] == n[k - 1]; }
    IndexOfFirst(q, ',', 2, split);
    assert q[1..split] == n;
    assert |q| - split - 2 - off == 0;
  }

  lemma BetweenRow(n: string, m: string, isLazyMatch: bool)
    requires |n| > 0 && AllDigits(n) && |m| > 0 && AllDigits(m)
    ensures QuantifierSimplify(Between(n, m).Text() + LazyMark(isLazyMatch)) == Some(Canonical(Between(n, m), isLazyMatch))
  {
    var q := Between(n, m).Text() + LazyMark(isLazyMatch);
    BetweenSlices(n, m, isLazyMatch);
    CommaForm(q, 1 + |n|, isLazyMatch);
    assert QuantifierSimplify(q) == Some(BoundsSimplify(q, n, m, isLazyMatch));
    BetweenTable(q, n, m, isLazyMatch);
  }

  /** The decision chain on the bounds of `{n,m}` is the table's row for Between. */
  lemma BetweenTable(q: string, n: string, m: string, isLazyMatch: bool)
    requires |m| > 0 && q == Between(n, m).Text() + LazyMark(isLazyMatch)
    ensures BoundsSimplify(q, n, m, isLazyMatch) == Canonical(Between(n, m), isLazyMatch)
  {
  }

  /** A text with a comma at split and an upper bound after it: the C# slicing hands both bounds to the decision chain. */
  lemma CommaForm(q: string, split: nat, isLazyMatch: bool)
    requires |q| >= 2 && q[0] == '{' && (q[|q| - 1] == '?' <==> isLazyMatch)
    requires IndexOfFrom(q, ',', 2) == split && split + 2 + |LazyMark(isLazyMatch)| < |q|
    ensures QuantifierSimplify(q)
         == Some(BoundsSimplify(q, q[1..split], q[split + 1..|q| - 1 - |LazyMark(isLazyMatch)|], isLazyMatch))
  {
    assert UpperBound(q, split, isLazyMatch) == q[split + 1..|q| - 1 - |LazyMark(isLazyMatch)|];
  }

  /** Where the C# slicing finds the bounds of `{n,m}`: the comma after n, and m before the closing brace. */
  lemma BetweenSlices(n: string, m: string, isLazyMatch: bool)
    requires |n| > 0 && AllDigits(n) && |m| > 0 && AllDigits(m)
    ensures var q := Between(n, m).Text() + LazyMark(isLazyMatch);
      var split := 1 + |n|;
      && |q| >= 2 && q[0] == '{' && (q[|q| - 1] == '?' <==> isLazyMatch)
      && IndexOfFrom(q, ',', 2) == split && q[1..split] == n
      && split + 2 + |LazyMark(isLazyMatch)| < |q| && q[split + 1..|q| - 1 - |LazyMark(isLazyMatch)|] == m
  {
    BetweenComma(n, m, isLazyMatch);
    var q := Between(n, m).Text() + LazyMark(isLazyMatch);
    assert q == "{" + n + ("," + m + "}" + LazyMark(isLazyMatch));
    Middle("{", n, "," + m + "}" + LazyMark(isLazyMatch));
    assert q == "{" + n + "," + m + ("}" + LazyMark(isLazyMatch));
    Middle("{" + n + ",", m, "}" + LazyMark(isLazyMatch));
    assert q[|q| - 1] == '?' <==> isLazyMatch;
  }

  /** The middle part of a concatenation, sliced back out. */
  lemma Middle(x: string, y: string, z: string)
    ensures (x + y + z)[|x|..|x| + |y|] == y
  {
  }

  /** The first comma of `{n,m}` from position 2 on is the one after n. */
  lemma BetweenComma(n: string, m: string, isLazyMatch: bool)
    requires |n| > 0 && AllDigits(n)
    ensures var q := Between(n, m).Text() + LazyMark(isLazyMatch);
      1 + |n| < |q| && IndexOfFrom(q, ',', 2) == 1 + |n|
  {
    var q := Between(n, m).Text() + LazyMark(isLazyMatch);
    var split := 1 + |n|;
    assert q == "{" + n + "," + m + "}" + LazyMark(isLazyMatch);
    assert q[split] == ',';
    forall k | 2 <= k < split ensures q[k] != ',' { assert q[k] == n[k - 1]; }
    IndexOfFirst(q, ',', 2, split);
  }

  lemma IndexOfFirst(s: string, c: char, start: nat, at: nat)
    requires start <= at < |s| && s[at] == c
    requires forall k :: start <= k < at ==> s[k] != c
    ensures IndexOfFrom(s, c, start) == at
    decreases at - start
  {
    if start < at { IndexOfFirst(s, c, start + 1, at); }
  }

  /** Simplifying a simplified quantifier changes nothing (an empty result is never re-simplified). */
  lemma SimplifyIdempotent(t: QuantToken, isLazyMatch: bool)
    requires t.Valid()
    ensures var r := Canonical(t, isLazyMatch);
      r == "" || QuantifierSimplify(r) == Some(r)
  {
    var r := Canonical(t, isLazyMatch);
    var lazy := LazyMark(isLazyMatch);
    match t
    case Exactly(n) =>
      if n != "1" {
        SimplifyMatchesTable(Exactly(n), false);
        assert Exactly(n).Text() + LazyMark(false) == r;
      }
    case AtLeast(n) =>
      if n != "0" && n != "1" {
        SimplifyMatchesTable(t, isLazyMatch);
        assert t.Text() + lazy == r;
      } else {
        assert r == "*" + lazy || r == "+" + lazy;
        assert r[0] != '{';
      }
    case Between(n, m) =>
      if n == "0" && m == IntMaxText {
        assert r[0] != '{';
      } else if n == "1" && m == IntMaxText {
        assert r[0] != '{';
      } else if n == "0" && m == "1" {
        assert r[0] != '{';
      } else if n == "1" && m == "1" {
      } else if n == m {
        SimplifyMatchesTable(Exactly(n), false);
        assert Exactly(n).Text() + LazyMark(false) == r;
      } else {
        SimplifyMatchesTable(t, isLazyMatch);
        assert t.Text() + lazy == r;
      }
    case _ =>
      assert r[0] != '{';
  }

  /** One row of the table, read at a concrete text. */
  lemma Row(t: QuantToken, isLazyMatch: bool, text: string, simplified: string)
    requires t.Valid() && t.Text() + LazyMark(isLazyMatch) == text
    requires Canonical(t, isLazyMatch) == simplified
    ensures QuantifierSimplify(text) == Some(simplified)
  {
    SimplifyMatchesTable(t, isLazyMatch);
  }

  // Concrete rows of the table.

  /** `{0,}` becomes `*`. */
  lemma StarExample()
    ensures QuantifierSimplify("{0,}") == Some("*")
  {
    Row(AtLeast("0"), false, "{0,}", "*");
  }

  /** `{1,}?` becomes `+?`. */
  lemma LazyPlusExample()
    ensures QuantifierSimplify("{1,}?") == Some("+?")
  {
    Row(AtLeast("1"), true, "{1,}?", "+?");
  }

  /** `{0,2147483647}`: the int.MaxValue ceiling counts as no bound. */
  lemma UnboundedExample()
    ensures QuantifierSimplify("{0,2147483647}") == Some("*")
  {
    Row(Between("0", IntMaxText), false, "{0,2147483647}", "*");
  }

  /** `{0,1}?` becomes `??`. */
  lemma LazyOptionalExample()
    ensures QuantifierSimplify("{0,1}?") == Some("??")
  {
    Row(Between("0", "1"), true, "{0,1}?", "??");
  }

  /** `{1,1}` disappears. */
  lemma OnceExample()
    ensures QuantifierSimplify("{1,1}") == Some("")
  {
    Row(Between("1", "1"), false, "{1,1}", "");
  }

  /** `{1}?` disappears as well: the lazy mark of a fixed count means nothing. */
  lemma LazyOnceExample()
    ensures QuantifierSimplify("{1}?") == Some("")
  {
    Row(Exactly("1"), true, "{1}?", "");
  }

  /** `{2,5}?` stays. */
  lemma RangeExample()
    ensures QuantifierSimplify("{2,5}?") == Some("{2,5}?")
  {
    Row(Between("2", "5"), true, "{2,5}?", "{2,5}?");
  }

  /** `{2,02}` stays: the bounds are compared as text. */
  lemma LeadingZeroExample()
    ensures QuantifierSimplify("{2,02}") == Some("{2,02}")
  {
    Row(Between("2", "02"), false, "{2,02}", "{2,02}");
  }
}
