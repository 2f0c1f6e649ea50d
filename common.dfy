/** Wrappers, errors and the small string helpers the parser relies on. */
module Common {

  datatype Option<+T> = None | Some(value: T)

  /** How a parse fails. Every C# exception of ParseAST becomes one of these. */
  datatype ParseError =
    /** the tokenizing regex did not match the pattern */
    | PatternMismatch
    /** prefix, q1, q2 and InLineComment capture counts are not 1:1:1:1+ */
    | InternalCountMismatch
    /** a conditional construct holds a second `|` */
    | TooManyBars
    /** `\d` with a single digit, or a numeric condition, naming no group */
    | UndefinedGroupNumber(number: string)
    /** a numeric escape whose first digit is 8 or 9 and is not a group */
    | UnrecognizedEscape(digit: char)
    /** more than the root frame is open at the end of input */
    | UnclosedGroups
    /** an index out of range, a pop of the root frame or a missing panel:
        ill-formed capture lists that the tokenizer never produces */
    | MalformedTokens

  datatype Result<+T> = Ok(value: T) | Err(error: ParseError)

  predicate IsDigit(c: char) { '0' <= c <= '9' }

  /** The decimal text of a natural number, as `int.ToString()` writes it. */
  function NatToString(n: nat): (s: string)
    ensures |s| > 0 && IsDigit(s[0])
    ensures forall k :: 0 <= k < |s| ==> IsDigit(s[k])
    decreases n
  {
    if n < 10 then [DigitChar(n)] else NatToString(n / 10) + [DigitChar(n % 10)]
  }

  function DigitChar(d: nat): (c: char)
    requires d < 10
    ensures IsDigit(c) && c as int - '0' as int == d
  {
    ('0' as int + d) as char
  }

  /** The value of a run of decimal digits. */
  function DigitsValue(s: string): nat
    requires forall k :: 0 <= k < |s| ==> IsDigit(s[k])
  {
    if |s| == 0 then 0
    else
      assert IsDigit(s[|s| - 1]);
      DigitsValue(s[..|s| - 1]) * 10 + (s[|s| - 1] as int - '0' as int)
  }

  /** Reading back the text of a number yields the number. */
  lemma {:induction false} DigitsValueOfNatToString(n: nat)
    ensures DigitsValue(NatToString(n)) == n
    decreases n
  {
    if n >= 10 {
      var s := NatToString(n);
      assert s[..|s| - 1] == NatToString(n / 10);
      DigitsValueOfNatToString(n / 10);
    }
  }

  /** Distinct numbers have distinct texts, so a fresh number string is really fresh. */
  lemma NatToStringInjective(m: nat, n: nat)
    requires NatToString(m) == NatToString(n)
    ensures m == n
  {
    DigitsValueOfNatToString(m);
    DigitsValueOfNatToString(n);
  }

  /** The longest prefix of `s` made of ASCII decimal digits. */
  function LeadingDigits(s: string): (r: string)
    ensures |r| <= |s| && r == s[..|r|]
    ensures forall k :: 0 <= k < |r| ==> IsDigit(r[k])
    ensures |r| < |s| ==> !IsDigit(s[|r|])
  {
    if |s| > 0 && IsDigit(s[0]) then [s[0]] + LeadingDigits(s[1..]) else ""
  }

  /** The texts of a sequence of strings, one after the other. */
  function Concat(ss: seq<string>): string
  {
    if |ss| == 0 then "" else Concat(ss[..|ss| - 1]) + ss[|ss| - 1]
  }

  lemma ConcatAppend(a: seq<string>, b: seq<string>)
    ensures Concat(a + b) == Concat(a) + Concat(b)
    decreases |b|
  {
    if |b| > 0 {
      assert (a + b)[..|a + b| - 1] == a + b[..|b| - 1];
      assert (a + b)[|a + b| - 1] == b[|b| - 1];
      ConcatAppend(a, b[..|b| - 1]);
      calc {
        Concat(a + b);
        Concat(a + b[..|b| - 1]) + b[|b| - 1];
        Concat(a) + Concat(b[..|b| - 1]) + b[|b| - 1];
      }
    } else {
      assert a + b == a;
    }
  }
}
