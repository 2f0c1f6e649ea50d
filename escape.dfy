/**
 * The two character-level decisions of the builder: whether a character is a word
 * character (used to recognise a group-name condition), and how a numeric escape
 * `\digits...` splits into a back-reference or an octal escape plus literal text
 * (RegexParse.cs:563-646).
 */
module Escape {
  import opened Common
  import opened Nodes
  import opened Serializer

  // ---------------------------------------------------------------------------
  // IsWordChar

  /** The C# lookup table: bit `c % 8` of byte `c / 8` says whether ASCII character c is in [\w]. */
  const AsciiWordBitmap: seq<nat> := [
    0x00, 0x00, 0x00, 0x00, 0x00, 0x00, 0xFF, 0x03,
    0xFE, 0xFF, 0xFF, 0x87, 0xFE, 0xFF, 0xFF, 0x07]

  /** Bit k of byte b, the value of `b & (1 << k)` tested against zero. */
  function Bit(b: nat, k: nat): bool
    decreases k
  {
    if k == 0 then b % 2 == 1 else Bit(b / 2, k - 1)
  }

  predicate AsciiBit(c: char)
    requires c as int < 128
  {
    Bit(AsciiWordBitmap[c as int / 8], c as int % 8)
  }

  /**
   * What the .NET regex engine answers the parser: whether a character outside
   * ASCII is a word character (its Unicode category), and whether `new
   * Regex(pattern)` throws for the pattern being parsed.
   */
  datatype Engine = Engine(unicodeWord: char -> bool, rejectsPattern: bool)

  /**
   * IsWordChar: the bitmap decides for ASCII; for every other character the
   * Unicode-category test, which is not part of this model, is the parameter
   * `unicodeWord`.
   */
  predicate IsWordChar(c: char, unicodeWord: char -> bool)
  {
    if c as int < 128 then AsciiBit(c) else unicodeWord(c)
  }

  predicate AsciiWordClass(c: char)
  {
    IsDigit(c) || 'A' <= c <= 'Z' || 'a' <= c <= 'z' || c == '_'
  }

  /** On ASCII the bitmap is exactly [0-9A-Za-z_]. */
  lemma AsciiWordChars(c: char, unicodeWord: char -> bool)
    requires c as int < 128
    ensures IsWordChar(c, unicodeWord) <==> AsciiWordClass(c)
  {
    BitmapEntry(c as int / 8, c as int % 8);
    assert c == (8 * (c as int / 8) + c as int % 8) as char;
  }

  /** Each bit of the table, position by position. */
  lemma BitmapEntry(i: nat, k: nat)
    requires i < 16 && k < 8
    ensures Bit(AsciiWordBitmap[i], k) <==> AsciiWordClass((8 * i + k) as char)
  {
    if k < 4 { LowBits(i, k); } else { HighBits(i, k); }
  }

  lemma LowBits(i: nat, k: nat)
    requires i < 16 && k < 4
    ensures Bit(AsciiWordBitmap[i], k) <==> AsciiWordClass((8 * i + k) as char)
  {
    if k == 0 {} else if k == 1 {} else if k == 2 {} else {}
  }

  lemma HighBits(i: nat, k: nat)
    requires i < 16 && 4 <= k < 8
    ensures Bit(AsciiWordBitmap[i], k) <==> AsciiWordClass((8 * i + k) as char)
  {
    if k == 4 {} else if k == 5 {} else if k == 6 {} else {}
  }

  // ---------------------------------------------------------------------------
  // Numeric escapes

  /** A prefix the builder treats as a numeric escape: `\` and then a digit. */
  predicate IsNumericEscape(exp: string)
  {
    |exp| >= 2 && exp[0] == '\\' && IsDigit(exp[1])
  }

  /** The digit run right after the backslash. */
  function EscapeNumber(exp: string): (num: string)
    requires IsNumericEscape(exp)
    ensures 0 < |num| < |exp| && exp[1..1 + |num|] == num
    ensures forall k :: 0 <= k < |num| ==> IsDigit(num[k])
    ensures 1 + |num| < |exp| ==> !IsDigit(exp[1 + |num|])
  {
    LeadingDigits(exp[1..])
  }

  /** How many of the first (at most three) digits are octal, counting until the first 8 or 9. */
  function OctalLength(num: string): (n: nat)
    ensures n <= 3 && n <= |num|
    ensures forall k :: 0 <= k < n ==> '0' <= num[k] <= '7'
    ensures n < 3 && n < |num| ==> !('0' <= num[n] <= '7')
  {
    if |num| == 0 || !('0' <= num[0] <= '7') then 0
    else if |num| == 1 || !('0' <= num[1] <= '7') then 1
    else if |num| == 2 || !('0' <= num[2] <= '7') then 2
    else 3
  }

  /**
   * The nodes a numeric escape adds to the current frame. A leading digit run that
   * names a known group is a back-reference; otherwise a single digit is an error,
   * and a longer run is read as an octal escape of at most three digits. A
   * quantifier applies to the last character of the escape's text.
   */
  function NumericEscape(exp: string, quantifier: string, known: set<string>): Result<seq<Node>>
    requires IsNumericEscape(exp)
  {
    var number := EscapeNumber(exp);
    if number in known then
      if |number| + 1 == |exp| then
        Ok([WithQuantifier(Single(exp, Default, Some(true)), quantifier)])
      else
        Ok([Single("\\" + number, Default, Some(true)),
            WithQuantifier(NewSingle(exp[1 + |number|..]), quantifier)])
    else if |number| == 1 then Err(UndefinedGroupNumber(number))
    else
      var octalLen := OctalLength(number);
      if octalLen == 0 then Err(UnrecognizedEscape(number[0]))
      else
        var asciiNumber := number[..octalLen];
        if octalLen + 1 == |exp| then
          Ok([WithQuantifier(Single(exp, Default, Some(false)), quantifier)])
        else
          var nextString := exp[1 + octalLen..];
          if |nextString| == 1 || |quantifier| == 0 then
            Ok([Single("\\" + asciiNumber, Default, Some(false)), WithQuantifier(NewSingle(nextString), quantifier)])
          else
            Ok([Single("\\" + asciiNumber, Default, Some(false)),
                NewSingle(nextString[..|nextString| - 1]),
                WithQuantifier(NewSingle([nextString[|nextString| - 1]]), quantifier)])
  }

  /** The atom inside a quantifier wrap, or the node itself. */
  function Unwrapped(n: Node): Node
  {
    if n.PanelNode? && |n.panel.sequenceNodes| == 1 then n.panel.sequenceNodes[0] else n
  }

  /** Which outcome a numeric escape has: both directions of each case. */
  lemma NumericEscapeCases(exp: string, quantifier: string, known: set<string>)
    requires IsNumericEscape(exp)
    ensures var number := EscapeNumber(exp);
      var r := NumericEscape(exp, quantifier, known);
      && (r == Err(UndefinedGroupNumber(number)) <==> number !in known && |number| == 1)
      && (r == Err(UnrecognizedEscape(exp[1])) <==> number !in known && |number| > 1 && exp[1] in "89")
      && (r.Ok? <==> number in known || (|number| > 1 && exp[1] !in "89"))
  {
  }

  /**
   * The escape atom comes first and is the only node with a reference flag: true
   * with the whole digit run for a back-reference, false with the octal digits
   * otherwise.
   */
  lemma NumericEscapeReference(exp: string, quantifier: string, known: set<string>)
    requires IsNumericEscape(exp)
    requires NumericEscape(exp, quantifier, known).Ok?
    ensures var number := EscapeNumber(exp);
      var ns := NumericEscape(exp, quantifier, known).value;
      var digits := if number in known then number else number[..OctalLength(number)];
      && 0 < |ns| <= 3
      && Unwrapped(ns[0]).Single?
      && Unwrapped(ns[0]).isReference == Some(number in known)
      && Unwrapped(ns[0]).pattern[..1 + |digits|] == "\\" + digits
      && (forall k :: 1 <= k < |ns| ==> Unwrapped(ns[k]).Single? && Unwrapped(ns[k]).isReference == None)
  {
    var number := EscapeNumber(exp);
    var digits := if number in known then number else number[..OctalLength(number)];
    assert exp[1..1 + |digits|] == number[..|digits|] == digits;
    EscapeHead(exp, digits);
    assert ("\\" + digits)[..1 + |digits|] == "\\" + digits;
  }

  /** The backslash and the digits after it begin the escape's text. */
  lemma EscapeHead(exp: string, digits: string)
    requires 1 + |digits| <= |exp| && exp[0] == '\\' && exp[1..1 + |digits|] == digits
    ensures exp[..1 + |digits|] == "\\" + digits
  {
    assert exp[..1 + |digits|] == [exp[0]] + exp[1..1 + |digits|];
  }

  /**
   * A non-empty quantifier ends up on the last node and only there; when the octal
   * escape leaves several literal characters, it binds to the last one alone.
   */
  lemma NumericEscapeQuantifier(exp: string, quantifier: string, known: set<string>)
    requires IsNumericEscape(exp) && |quantifier| > 0
    requires NumericEscape(exp, quantifier, known).Ok?
    ensures var number := EscapeNumber(exp);
      var ns := NumericEscape(exp, quantifier, known).value;
      && ns[|ns| - 1].PanelNode? && ns[|ns| - 1].panel.quantifier == quantifier
      && (forall k :: 0 <= k < |ns| - 1 ==> ns[k].Single?)
      && (number !in known && |exp| > 2 + OctalLength(number) ==>
            |ns| == 3 && |Unwrapped(ns[2]).pattern| == 1)
  {
  }

  lemma TextOne(text: string, flag: Option<bool>, quantifier: string)
    ensures SeqPattern([WithQuantifier(Single(text, Default, flag), quantifier)]) == text + quantifier
  {
    SeqPatternOne(WithQuantifier(Single(text, Default, flag), quantifier));
    WithQuantifierPattern(Single(text, Default, flag), quantifier);
  }

  lemma TextTwo(head: string, flag: Option<bool>, rest: string, quantifier: string)
    ensures SeqPattern([Single(head, Default, flag), WithQuantifier(NewSingle(rest), quantifier)])
         == head + rest + quantifier
  {
    var a := Single(head, Default, flag);
    var b := WithQuantifier(NewSingle(rest), quantifier);
    assert [a, b] == [a] + [b];
    SeqPatternAppend([a], [b]);
    SeqPatternOne(a);
    TextOne(rest, None, quantifier);
  }

  lemma TextThree(head: string, flag: Option<bool>, rest: string, quantifier: string)
    requires |rest| > 0
    ensures SeqPattern([Single(head, Default, flag), NewSingle(rest[..|rest| - 1]),
                        WithQuantifier(NewSingle([rest[|rest| - 1]]), quantifier)])
         == head + rest + quantifier
  {
    var a := Single(head, Default, flag);
    var b := NewSingle(rest[..|rest| - 1]);
    var c := WithQuantifier(NewSingle([rest[|rest| - 1]]), quantifier);
    assert [a, b, c] == [a, b] + [c];
    SeqPatternAppend([a, b], [c]);
    TextTwo(head, flag, rest[..|rest| - 1], "");
    assert WithQuantifier(b, "") == b;
    TextOne([rest[|rest| - 1]], None, quantifier);
    assert rest == rest[..|rest| - 1] + [rest[|rest| - 1]];
  }

  /** The split loses no text: the nodes render to the escape followed by its quantifier. */
  lemma NumericEscapeText(exp: string, quantifier: string, known: set<string>)
    requires IsNumericEscape(exp)
    requires NumericEscape(exp, quantifier, known).Ok?
    ensures SeqPattern(NumericEscape(exp, quantifier, known).value) == exp + quantifier
  {
    var number := EscapeNumber(exp);
    var digits := if number in known then number else number[..OctalLength(number)];
    var flag := Some(number in known);
    if |digits| + 1 == |exp| {
      TextOne(exp, flag, quantifier);
    } else {
      var rest := exp[1 + |digits|..];
      assert exp == "\\" + digits + rest;
      if number in known || |rest| == 1 || |quantifier| == 0 {
        TextTwo("\\" + digits, flag, rest, quantifier);
      } else {
        TextThree("\\" + digits, flag, rest, quantifier);
      }
    }
  }
}
