/**
 * The inline-option helpers of the conditional rewrite: the lookup table of option
 * characters (RegexParse.cs:13-18) and GetC2OptionsCanEffectC3 (RegexParse.cs:325-364),
 * which condenses the inline-option atoms of a condition's yes-branch into one
 * `(?on-off)` atom for its no-branch.
 */
module Options {

  /** InlineOptionThirdCharsLookup: the characters that may follow `(?` in an options construct. */
  predicate IsOptionChar(c: char)
  {
    c in "+-imnsxIMNSX"
  }

  /** An option letter, either case. */
  predicate IsOptionLetter(c: char)
  {
    c in "imnsxIMNSX"
  }

  /** char.ToUpper on the ASCII letters, as under the invariant culture. */
  function Upper(c: char): char
  {
    if 'a' <= c <= 'z' then (c as int - 32) as char else c
  }

  /** The five option letters, upper case. */
  const OptionLetters: set<char> := {'I', 'M', 'N', 'S', 'X'}

  /** How many characters of s are the letter c, in either case. */
  function CountUpper(s: string, c: char): nat
  {
    if |s| == 0 then 0
    else CountUpper(s[..|s| - 1], c) + (if Upper(s[|s| - 1]) == c then 1 else 0)
  }

  lemma {:induction false} CountUpperAppend(a: string, b: string, c: char)
    ensures CountUpper(a + b, c) == CountUpper(a, c) + CountUpper(b, c)
    decreases |b|
  {
    if |b| == 0 {
      assert a + b == a;
    } else {
      assert (a + b)[..|a + b| - 1] == a + b[..|b| - 1];
      assert (a + b)[|a + b| - 1] == b[|b| - 1];
      CountUpperAppend(a, b[..|b| - 1], c);
    }
  }

  function Reverse(s: string): (r: string)
    ensures |r| == |s|
    ensures forall i :: 0 <= i < |s| ==> r[i] == s[|s| - 1 - i]
  {
    if |s| == 0 then "" else [s[|s| - 1]] + Reverse(s[..|s| - 1])
  }

  lemma {:induction false} CountUpperReverse(s: string, c: char)
    ensures CountUpper(Reverse(s), c) == CountUpper(s, c)
    decreases |s|
  {
    if |s| > 0 {
      var t := s[..|s| - 1];
      CountUpperReverse(t, c);
      CountUpperAppend([s[|s| - 1]], Reverse(t), c);
      assert [s[|s| - 1]][..0] == [];
    }
  }

  /** What the scan has collected: the on-letters, the off-letters (both backwards) and the letters already seen. */
  datatype Scan = Scan(optionOpen: string, optionClose: string, existOptions: set<char>)

  const EmptyScan := Scan("", "", {})

  /** The state after one character: the scan, the pending letters, and whether the inner loop breaks. */
  datatype Step = Step(st: Scan, tmp: string, stop: bool)

  /**
   * One character of the inner loop. Letters gathered since the last `+`, `?` or `-`
   * wait in `tmp` and are flushed to the on- or off-letters by that sign; the loop
   * breaks at a sign once five letters are seen.
   */
  function ScanChar(op: char, st: Scan, tmp: string): Step
  {
    if op == '+' || op == '?' then
      Step(st.(optionOpen := st.optionOpen + tmp), "", |st.existOptions| == 5)
    else if op == '-' then
      Step(st.(optionClose := st.optionClose + tmp), "", |st.existOptions| == 5)
    else if IsOptionChar(op) && Upper(op) !in st.existOptions then
      Step(st.(existOptions := st.existOptions + {Upper(op)}), tmp + [op], false)
    else Step(st, tmp, false)
  }

  /** The inner loop over one options atom, from position j - 1 down to 0. */
  function ScanAtom(s: string, j: nat, st: Scan, tmp: string): Scan
    requires j <= |s|
    decreases j
  {
    if j == 0 then st
    else
      var next := ScanChar(s[j - 1], st, tmp);
      if next.stop then next.st else ScanAtom(s, j - 1, next.st, next.tmp)
  }

  /** The outer loop, over atoms k - 1 down to 0; it stops once five letters are seen. */
  function ScanAtoms(inlineOptions: seq<string>, k: nat, st: Scan): Scan
    requires k <= |inlineOptions|
    decreases k
  {
    if k == 0 || |st.existOptions| == 5 then st
    else ScanAtoms(inlineOptions, k - 1, ScanAtom(inlineOptions[k - 1], |inlineOptions[k - 1]|, st, ""))
  }

  /** The letters switched on and off, in their textual order. */
  function OnLetters(inlineOptions: seq<string>): string
  {
    Reverse(ScanAtoms(inlineOptions, |inlineOptions|, EmptyScan).optionOpen)
  }

  function OffLetters(inlineOptions: seq<string>): string
  {
    Reverse(ScanAtoms(inlineOptions, |inlineOptions|, EmptyScan).optionClose)
  }

  /** `(?on)` or `(?on-off)`. */
  function OptionsAtom(on: string, off: string): string
  {
    "(?" + on + (if |off| == 0 then "" else "-" + off) + ")"
  }

  function C2OptionsText(inlineOptions: seq<string>): string
  {
    OptionsAtom(OnLetters(inlineOptions), OffLetters(inlineOptions))
  }

  /** GetC2OptionsCanEffectC3, with its two backward loops, three builders and the set of seen letters. */
  method GetC2OptionsCanEffectC3(inlineOptions: seq<string>) returns (r: string)
    ensures r == C2OptionsText(inlineOptions)
  {
    var optionOpen := "";
    var optionClose := "";
    var existOptions: set<char> := {};
    var k := |inlineOptions|;
    while k > 0
      invariant 0 <= k <= |inlineOptions|
      invariant ScanAtoms(inlineOptions, k, Scan(optionOpen, optionClose, existOptions))
             == ScanAtoms(inlineOptions, |inlineOptions|, EmptyScan)
      decreases k
    {
      if |existOptions| == 5 {
        break;
      }
      var s := inlineOptions[k - 1];
      ghost var before := Scan(optionOpen, optionClose, existOptions);
      var tmp := "";
      var j := |s|;
      while j > 0
        invariant 0 <= j <= |s|
        invariant ScanAtom(s, j, Scan(optionOpen, optionClose, existOptions), tmp)
               == ScanAtom(s, |s|, before, "")
        decreases j
      {
        var op := s[j - 1];
        if op == '+' || op == '?' {
          optionOpen := optionOpen + tmp;
          tmp := "";
          if |existOptions| == 5 {
            break;
          }
        } else if op == '-' {
          optionClose := optionClose + tmp;
          tmp := "";
          if |existOptions| == 5 {
            break;
          }
        } else if IsOptionChar(op) {
          var ch := Upper(op);
          if ch !in existOptions {
            existOptions := existOptions + {ch};
            tmp := tmp + [op];
          }
        }
        j := j - 1;
      }
      k := k - 1;
    }
    var openStr := Reverse(optionOpen);
    var closeStr := if |optionClose| == 0 then "" else "-" + Reverse(optionClose);
    r := "(?" + openStr + closeStr + ")";
  }

  // ---------------------------------------------------------------------------
  // What the condensed atom promises.

  /** Every character of every atom. */
  function AtomChars(inlineOptions: seq<string>): set<char>
  {
    set k, i | 0 <= k < |inlineOptions| && 0 <= i < |inlineOptions[k]| :: inlineOptions[k][i]
  }

  predicate LettersFrom(w: string, chars: set<char>)
  {
    forall i :: 0 <= i < |w| ==> IsOptionLetter(w[i]) && w[i] in chars
  }

  /** At most one collected character for letter c, and none unless c was seen. */
  predicate CountOk(st: Scan, tmp: string, c: char)
  {
    CountUpper(st.optionOpen, c) + CountUpper(st.optionClose, c) + CountUpper(tmp, c)
      <= (if c in st.existOptions then 1 else 0)
  }

  /** The scan's counting invariant: only option letters are seen, and each is collected at most once. */
  predicate CountsOk(st: Scan, tmp: string)
  {
    && st.existOptions <= OptionLetters
    && CountOk(st, tmp, 'I') && CountOk(st, tmp, 'M') && CountOk(st, tmp, 'N')
    && CountOk(st, tmp, 'S') && CountOk(st, tmp, 'X')
  }

  /** The scan's provenance invariant: everything collected is an option letter from the atoms. */
  predicate LettersOk(st: Scan, tmp: string, chars: set<char>)
  {
    LettersFrom(st.optionOpen, chars) && LettersFrom(st.optionClose, chars) && LettersFrom(tmp, chars)
  }

  lemma CountUpperOne(c: char, d: char)
    ensures CountUpper([c], d) == if Upper(c) == d then 1 else 0
  {
    assert [c][..0] == [];
  }

  lemma LettersFromAppend(a: string, b: string, chars: set<char>)
    requires LettersFrom(a, chars) && LettersFrom(b, chars)
    ensures LettersFrom(a + b, chars)
  {
    forall i | 0 <= i < |a + b| ensures IsOptionLetter((a + b)[i]) && (a + b)[i] in chars {
      if i < |a| { assert (a + b)[i] == a[i]; } else { assert (a + b)[i] == b[i - |a|]; }
    }
  }

  lemma FlushCounts(done: string, tmp: string, c: char)
    ensures CountUpper(done + tmp, c) == CountUpper(done, c) + CountUpper(tmp, c)
  {
    CountUpperAppend(done, tmp, c);
  }

  lemma AddOne(st: Scan, tmp: string, op: char, c: char)
    requires CountOk(st, tmp, c) && Upper(op) !in st.existOptions
    ensures CountOk(st.(existOptions := st.existOptions + {Upper(op)}), tmp + [op], c)
  {
    CountUpperAppend(tmp, [op], c);
    CountUpperOne(op, c);
  }

  /** Flushing the pending letters to the on- or off-letters keeps the counting invariant. */
  lemma FlushKeepsCounts(st: Scan, tmp: string, toOpen: bool)
    requires CountsOk(st, tmp)
    ensures var done := if toOpen then st.(optionOpen := st.optionOpen + tmp) else st.(optionClose := st.optionClose + tmp);
      CountsOk(done, "")
  {
    var done := if toOpen then st.optionOpen else st.optionClose;
    FlushCounts(done, tmp, 'I');
    FlushCounts(done, tmp, 'M');
    FlushCounts(done, tmp, 'N');
    FlushCounts(done, tmp, 'S');
    FlushCounts(done, tmp, 'X');
  }

  /** Gathering a letter seen for the first time keeps the counting invariant. */
  lemma AddKeepsCounts(st: Scan, tmp: string, op: char)
    requires CountsOk(st, tmp) && IsOptionChar(op) && op != '+' && op != '-' && Upper(op) !in st.existOptions
    ensures CountsOk(st.(existOptions := st.existOptions + {Upper(op)}), tmp + [op])
  {
    AddOne(st, tmp, op, 'I');
    AddOne(st, tmp, op, 'M');
    AddOne(st, tmp, op, 'N');
    AddOne(st, tmp, op, 'S');
    AddOne(st, tmp, op, 'X');
  }

  lemma ScanCharCounts(op: char, st: Scan, tmp: string)
    requires CountsOk(st, tmp)
    ensures CountsOk(ScanChar(op, st, tmp).st, ScanChar(op, st, tmp).tmp)
  {
    if op == '+' || op == '?' {
      FlushKeepsCounts(st, tmp, true);
    } else if op == '-' {
      FlushKeepsCounts(st, tmp, false);
    } else if IsOptionChar(op) && Upper(op) !in st.existOptions {
      AddKeepsCounts(st, tmp, op);
    }
  }

  lemma ScanCharLetters(op: char, st: Scan, tmp: string, chars: set<char>)
    requires LettersOk(st, tmp, chars) && op in chars
    ensures LettersOk(ScanChar(op, st, tmp).st, ScanChar(op, st, tmp).tmp, chars)
  {
    if op == '+' || op == '?' {
      LettersFromAppend(st.optionOpen, tmp, chars);
    } else if op == '-' {
      LettersFromAppend(st.optionClose, tmp, chars);
    } else if IsOptionChar(op) && Upper(op) !in st.existOptions {
      LettersFromAppend(tmp, [op], chars);
    }
  }

  lemma {:induction false} ScanAtomCounts(s: string, j: nat, st: Scan, tmp: string)
    requires j <= |s| && CountsOk(st, tmp)
    ensures CountsOk(ScanAtom(s, j, st, tmp), "")
    decreases j
  {
    if j > 0 {
      var next := ScanChar(s[j - 1], st, tmp);
      ScanCharCounts(s[j - 1], st, tmp);
      if !next.stop {
        ScanAtomCounts(s, j - 1, next.st, next.tmp);
      }
    }
  }

  lemma {:induction false} ScanAtomLetters(s: string, j: nat, st: Scan, tmp: string, chars: set<char>)
    requires j <= |s| && (forall i :: 0 <= i < j ==> s[i] in chars)
    requires LettersOk(st, tmp, chars)
    ensures LettersOk(ScanAtom(s, j, st, tmp), "", chars)
    decreases j
  {
    if j > 0 {
      var next := ScanChar(s[j - 1], st, tmp);
      ScanCharLetters(s[j - 1], st, tmp, chars);
      if !next.stop {
        ScanAtomLetters(s, j - 1, next.st, next.tmp, chars);
      }
    }
  }

  lemma {:induction false} ScanAtomsCounts(inlineOptions: seq<string>, k: nat, st: Scan)
    requires k <= |inlineOptions| && CountsOk(st, "")
    ensures CountsOk(ScanAtoms(inlineOptions, k, st), "")
    decreases k
  {
    if k > 0 && |st.existOptions| != 5 {
      var s := inlineOptions[k - 1];
      ScanAtomCounts(s, |s|, st, "");
      ScanAtomsCounts(inlineOptions, k - 1, ScanAtom(s, |s|, st, ""));
    }
  }

  lemma {:induction false} ScanAtomsLetters(inlineOptions: seq<string>, k: nat, st: Scan)
    requires k <= |inlineOptions| && LettersOk(st, "", AtomChars(inlineOptions))
    ensures LettersOk(ScanAtoms(inlineOptions, k, st), "", AtomChars(inlineOptions))
    decreases k
  {
    if k > 0 && |st.existOptions| != 5 {
      var s := inlineOptions[k - 1];
      forall i | 0 <= i < |s| ensures s[i] in AtomChars(inlineOptions) {
        assert inlineOptions[k - 1][i] == s[i];
      }
      ScanAtomLetters(s, |s|, st, "", AtomChars(inlineOptions));
      ScanAtomsLetters(inlineOptions, k - 1, ScanAtom(s, |s|, st, ""));
    }
  }

  /** A string of option letters is as long as its per-letter counts add up to. */
  lemma {:induction false} OptionLettersLength(w: string)
    requires forall i :: 0 <= i < |w| ==> IsOptionLetter(w[i])
    ensures |w| == CountUpper(w, 'I') + CountUpper(w, 'M') + CountUpper(w, 'N') + CountUpper(w, 'S') + CountUpper(w, 'X')
    decreases |w|
  {
    if |w| > 0 {
      OptionLettersLength(w[..|w| - 1]);
    }
  }

  lemma {:induction false} CountUpperNonOption(w: string, c: char)
    requires forall i :: 0 <= i < |w| ==> IsOptionLetter(w[i])
    requires c !in OptionLetters
    ensures CountUpper(w, c) == 0
    decreases |w|
  {
    if |w| > 0 {
      CountUpperNonOption(w[..|w| - 1], c);
    }
  }

  lemma LettersFromReverse(w: string, chars: set<char>)
    requires LettersFrom(w, chars)
    ensures LettersFrom(Reverse(w), chars)
  {
    forall i | 0 <= i < |w| ensures IsOptionLetter(Reverse(w)[i]) && Reverse(w)[i] in chars {
      assert Reverse(w)[i] == w[|w| - 1 - i];
    }
  }

  /** The on- and off-letters are option letters taken from the atoms. */
  lemma C2OptionsLetters(inlineOptions: seq<string>)
    ensures LettersFrom(OnLetters(inlineOptions), AtomChars(inlineOptions))
    ensures LettersFrom(OffLetters(inlineOptions), AtomChars(inlineOptions))
  {
    var st := ScanAtoms(inlineOptions, |inlineOptions|, EmptyScan);
    ScanAtomsLetters(inlineOptions, |inlineOptions|, EmptyScan);
    LettersFromReverse(st.optionOpen, AtomChars(inlineOptions));
    LettersFromReverse(st.optionClose, AtomChars(inlineOptions));
  }

  lemma OnOffCount(st: Scan, c: char)
    requires CountsOk(st, "") && c in OptionLetters
    ensures CountUpper(Reverse(st.optionOpen), c) + CountUpper(Reverse(st.optionClose), c) <= 1
  {
    CountUpperReverse(st.optionOpen, c);
    CountUpperReverse(st.optionClose, c);
  }

  /**
   * The `(?on-off)` atom: no letter appears twice in it (in either case, on or
   * off), so it holds at most five letters.
   */
  lemma C2OptionsDistinct(inlineOptions: seq<string>)
    ensures var on := OnLetters(inlineOptions);
      var off := OffLetters(inlineOptions);
      && (forall c :: CountUpper(on, c) + CountUpper(off, c) <= 1)
      && |on| + |off| <= 5
  {
    var st := ScanAtoms(inlineOptions, |inlineOptions|, EmptyScan);
    ScanAtomsCounts(inlineOptions, |inlineOptions|, EmptyScan);
    C2OptionsLetters(inlineOptions);
    var on := OnLetters(inlineOptions);
    var off := OffLetters(inlineOptions);
    forall c ensures CountUpper(on, c) + CountUpper(off, c) <= 1 {
      if c in OptionLetters {
        OnOffCount(st, c);
      } else {
        CountUpperNonOption(on, c);
        CountUpperNonOption(off, c);
      }
    }
    var w := on + off;
    LettersFromAppend(on, off, AtomChars(inlineOptions));
    CountUpperAppend(on, off, 'I');
    CountUpperAppend(on, off, 'M');
    CountUpperAppend(on, off, 'N');
    CountUpperAppend(on, off, 'S');
    CountUpperAppend(on, off, 'X');
    OptionLettersLength(w);
  }

  // ---------------------------------------------------------------------------
  // Which letters come out on and which off, stated without the scan: the last
  // occurrence of each letter decides, under the sign nearest before it in its atom.

  /** What the atoms say about one option letter. */
  datatype LetterState = NotSeen | TurnedOn | TurnedOff | NoSign

  /** The sign nearest before position p of an atom: `+` and `?` switch on, `-` off. */
  function SignBefore(s: string, p: nat): (r: LetterState)
    requires p <= |s|
    ensures r != NotSeen
    decreases p
  {
    if p == 0 then NoSign
    else if s[p - 1] == '+' || s[p - 1] == '?' then TurnedOn
    else if s[p - 1] == '-' then TurnedOff
    else SignBefore(s, p - 1)
  }

  /** Letter c among the first j characters of an atom: the sign before its last occurrence. */
  function AtomState(s: string, j: nat, c: char): LetterState
    requires j <= |s|
    decreases j
  {
    if j == 0 then NotSeen
    else if IsOptionLetter(s[j - 1]) && Upper(s[j - 1]) == c then SignBefore(s, j - 1)
    else AtomState(s, j - 1, c)
  }

  /** Letter c across the first k atoms: the last atom that mentions it decides. */
  function LastState(inlineOptions: seq<string>, k: nat, c: char): LetterState
    requires k <= |inlineOptions|
    decreases k
  {
    if k == 0 then NotSeen
    else
      var a := AtomState(inlineOptions[k - 1], |inlineOptions[k - 1]|, c);
      if a != NotSeen then a else LastState(inlineOptions, k - 1, c)
  }

  /** What a scan state has decided for letter c. */
  function Settled(st: Scan, c: char): LetterState
  {
    if CountUpper(st.optionOpen, c) > 0 then TurnedOn
    else if CountUpper(st.optionClose, c) > 0 then TurnedOff
    else if c in st.existOptions then NoSign
    else NotSeen
  }

  /**
   * The same inside an atom just before position j: a pending c gets the sign that
   * will flush it, and a c not seen yet the state the rest of the atom gives it.
   */
  function Upcoming(st: Scan, tmp: string, c: char, s: string, j: nat): LetterState
    requires j <= |s|
  {
    if CountUpper(tmp, c) > 0 then SignBefore(s, j)
    else if Settled(st, c) != NotSeen then Settled(st, c)
    else AtomState(s, j, c)
  }

  lemma {:induction false} SubsetSize(a: set<char>, b: set<char>)
    requires a <= b
    ensures |a| <= |b|
    decreases |a|
  {
    if a != {} {
      var x :| x in a;
      SubsetSize(a - {x}, b - {x});
    }
  }

  /** Once five letters are seen, every option letter is. */
  lemma AllFiveSeen(e: set<char>, c: char)
    requires e <= OptionLetters && |e| == 5 && c in OptionLetters
    ensures c in e
  {
    if c !in e {
      assert |OptionLetters - {c}| == 4;
      SubsetSize(e, OptionLetters - {c});
    }
  }

  lemma CountOkAt(st: Scan, tmp: string, c: char)
    requires CountsOk(st, tmp) && c in OptionLetters
    ensures CountOk(st, tmp, c)
  {
  }

  /** A `+` or `?` flushes the pending letters to the on-letters. */
  lemma OnSignTracks(s: string, j: nat, st: Scan, tmp: string, c: char)
    requires 0 < j <= |s| && (s[j - 1] == '+' || s[j - 1] == '?')
    requires CountsOk(st, tmp) && c in OptionLetters
    ensures var next := ScanChar(s[j - 1], st, tmp);
      if next.stop then Settled(next.st, c) == Upcoming(st, tmp, c, s, j)
      else Upcoming(next.st, next.tmp, c, s, j - 1) == Upcoming(st, tmp, c, s, j)
  {
    var next := ScanChar(s[j - 1], st, tmp);
    assert next.st == st.(optionOpen := st.optionOpen + tmp) && next.tmp == "";
    CountOkAt(st, tmp, c);
    FlushCounts(st.optionOpen, tmp, c);
    assert SignBefore(s, j) == TurnedOn;
    assert AtomState(s, j, c) == AtomState(s, j - 1, c);
    if |st.existOptions| == 5 {
      AllFiveSeen(st.existOptions, c);
    }
  }

  /** A `-` flushes the pending letters to the off-letters. */
  lemma OffSignTracks(s: string, j: nat, st: Scan, tmp: string, c: char)
    requires 0 < j <= |s| && s[j - 1] == '-'
    requires CountsOk(st, tmp) && c in OptionLetters
    ensures var next := ScanChar(s[j - 1], st, tmp);
      if next.stop then Settled(next.st, c) == Upcoming(st, tmp, c, s, j)
      else Upcoming(next.st, next.tmp, c, s, j - 1) == Upcoming(st, tmp, c, s, j)
  {
    var next := ScanChar(s[j - 1], st, tmp);
    assert next.st == st.(optionClose := st.optionClose + tmp) && next.tmp == "";
    CountOkAt(st, tmp, c);
    FlushCounts(st.optionClose, tmp, c);
    assert SignBefore(s, j) == TurnedOff;
    assert AtomState(s, j, c) == AtomState(s, j - 1, c);
    if |st.existOptions| == 5 {
      AllFiveSeen(st.existOptions, c);
    }
  }

  /** A letter seen for the first time becomes pending. */
  lemma LetterTracks(s: string, j: nat, st: Scan, tmp: string, c: char)
    requires 0 < j <= |s| && IsOptionChar(s[j - 1]) && s[j - 1] != '+' && s[j - 1] != '-'
    requires Upper(s[j - 1]) !in st.existOptions
    requires CountsOk(st, tmp) && c in OptionLetters
    ensures var next := ScanChar(s[j - 1], st, tmp);
      !next.stop && Upcoming(next.st, next.tmp, c, s, j - 1) == Upcoming(st, tmp, c, s, j)
  {
    var op := s[j - 1];
    CountOkAt(st, tmp, c);
    CountUpperAppend(tmp, [op], c);
    CountUpperOne(op, c);
    assert SignBefore(s, j) == SignBefore(s, j - 1);
  }

  /** Any other character changes nothing for c. */
  lemma OtherTracks(s: string, j: nat, st: Scan, tmp: string, c: char)
    requires 0 < j <= |s| && s[j - 1] != '+' && s[j - 1] != '?' && s[j - 1] != '-'
    requires !(IsOptionChar(s[j - 1]) && Upper(s[j - 1]) !in st.existOptions)
    requires CountsOk(st, tmp) && c in OptionLetters
    ensures var next := ScanChar(s[j - 1], st, tmp);
      !next.stop && Upcoming(next.st, next.tmp, c, s, j - 1) == Upcoming(st, tmp, c, s, j)
  {
    CountOkAt(st, tmp, c);
    assert SignBefore(s, j) == SignBefore(s, j - 1);
  }

  /** One character of the inner loop keeps what is upcoming for c. */
  lemma ScanCharTracks(s: string, j: nat, st: Scan, tmp: string, c: char)
    requires 0 < j <= |s| && CountsOk(st, tmp) && c in OptionLetters
    ensures var next := ScanChar(s[j - 1], st, tmp);
      if next.stop then Settled(next.st, c) == Upcoming(st, tmp, c, s, j)
      else Upcoming(next.st, next.tmp, c, s, j - 1) == Upcoming(st, tmp, c, s, j)
  {
    var op := s[j - 1];
    if op == '+' || op == '?' {
      OnSignTracks(s, j, st, tmp, c);
    } else if op == '-' {
      OffSignTracks(s, j, st, tmp, c);
    } else if IsOptionChar(op) && Upper(op) !in st.existOptions {
      LetterTracks(s, j, st, tmp, c);
    } else {
      OtherTracks(s, j, st, tmp, c);
    }
  }

  /** The inner loop from position j settles c as upcoming there. */
  predicate AtomSettles(s: string, j: nat, st: Scan, tmp: string, c: char)
    requires j <= |s|
  {
    Settled(ScanAtom(s, j, st, tmp), c) == Upcoming(st, tmp, c, s, j)
  }

  /** One character of the inner loop, then the rest: what is upcoming at j is what the rest settles. */
  lemma AtomCharThenRest(s: string, j: nat, st: Scan, tmp: string, c: char)
    requires 0 < j <= |s| && CountsOk(st, tmp) && c in OptionLetters
    requires var next := ScanChar(s[j - 1], st, tmp);
      !next.stop ==> AtomSettles(s, j - 1, next.st, next.tmp, c)
    ensures AtomSettles(s, j, st, tmp, c)
  {
    ScanCharTracks(s, j, st, tmp, c);
  }

  /** The inner loop settles c as upcoming at its start. */
  lemma {:induction false} ScanAtomTracks(s: string, j: nat, st: Scan, tmp: string, c: char)
    requires j <= |s| && CountsOk(st, tmp) && c in OptionLetters
    ensures AtomSettles(s, j, st, tmp, c)
    decreases j
  {
    if j == 0 {
      assert ScanAtom(s, j, st, tmp) == st;
      CountOkAt(st, tmp, c);
    } else {
      var next := ScanChar(s[j - 1], st, tmp);
      if !next.stop {
        ScanCharCounts(s[j - 1], st, tmp);
        ScanAtomTracks(s, j - 1, next.st, next.tmp, c);
      }
      AtomCharThenRest(s, j, st, tmp, c);
    }
  }

  /** One whole atom settles c unless the earlier atoms' scan already had. */
  lemma OneAtomTracks(s: string, st: Scan, c: char)
    requires CountsOk(st, "") && c in OptionLetters
    ensures CountsOk(ScanAtom(s, |s|, st, ""), "")
    ensures Settled(ScanAtom(s, |s|, st, ""), c)
      == (if Settled(st, c) != NotSeen then Settled(st, c) else AtomState(s, |s|, c))
  {
    assert CountUpper("", c) == 0;
    ScanAtomTracks(s, |s|, st, "", c);
    ScanAtomCounts(s, |s|, st, "");
  }

  /** The outer loop from k atoms on settles c as want. */
  predicate AtomsSettle(inlineOptions: seq<string>, k: nat, st: Scan, c: char, want: LetterState)
    requires k <= |inlineOptions|
  {
    Settled(ScanAtoms(inlineOptions, k, st), c) == want
  }

  /** One atom of the outer loop, then the rest. */
  lemma AtomThenRest(inlineOptions: seq<string>, k: nat, st: Scan, c: char, want: LetterState)
    requires 0 < k <= |inlineOptions| && |st.existOptions| != 5
    requires AtomsSettle(inlineOptions, k - 1, ScanAtom(inlineOptions[k - 1], |inlineOptions[k - 1]|, st, ""), c, want)
    ensures AtomsSettle(inlineOptions, k, st, c, want)
  {
  }

  /** Once the scan has settled c, the remaining atoms leave it so. */
  lemma {:induction false} AtomsKeepSettled(inlineOptions: seq<string>, k: nat, st: Scan, c: char, want: LetterState)
    requires k <= |inlineOptions| && CountsOk(st, "") && c in OptionLetters
    requires want != NotSeen && Settled(st, c) == want
    ensures AtomsSettle(inlineOptions, k, st, c, want)
    decreases k
  {
    if k > 0 && |st.existOptions| != 5 {
      var s := inlineOptions[k - 1];
      OneAtomTracks(s, st, c);
      AtomsKeepSettled(inlineOptions, k - 1, ScanAtom(s, |s|, st, ""), c, want);
      AtomThenRest(inlineOptions, k, st, c, want);
    } else {
      assert ScanAtoms(inlineOptions, k, st) == st;
    }
  }

  /** An atom that does not mention c leaves it to the atoms before it. */
  lemma PassOverAtom(inlineOptions: seq<string>, k: nat, st: Scan, c: char)
    requires 0 < k <= |inlineOptions| && |st.existOptions| != 5
    requires AtomState(inlineOptions[k - 1], |inlineOptions[k - 1]|, c) == NotSeen
    requires var next := ScanAtom(inlineOptions[k - 1], |inlineOptions[k - 1]|, st, "");
      AtomsSettle(inlineOptions, k - 1, next, c, LastState(inlineOptions, k - 1, c))
    ensures AtomsSettle(inlineOptions, k, st, c, LastState(inlineOptions, k, c))
  {
    assert LastState(inlineOptions, k, c) == LastState(inlineOptions, k - 1, c);
    AtomThenRest(inlineOptions, k, st, c, LastState(inlineOptions, k - 1, c));
  }

  /** The last atom that mentions a letter not met yet settles it. */
  lemma SettleInAtom(inlineOptions: seq<string>, k: nat, st: Scan, c: char)
    requires 0 < k <= |inlineOptions| && |st.existOptions| != 5
    requires CountsOk(st, "") && c in OptionLetters && Settled(st, c) == NotSeen
    requires AtomState(inlineOptions[k - 1], |inlineOptions[k - 1]|, c) != NotSeen
    ensures AtomsSettle(inlineOptions, k, st, c, LastState(inlineOptions, k, c))
  {
    var s := inlineOptions[k - 1];
    var a := AtomState(s, |s|, c);
    assert LastState(inlineOptions, k, c) == a;
    OneAtomTracks(s, st, c);
    AtomsKeepSettled(inlineOptions, k - 1, ScanAtom(s, |s|, st, ""), c, a);
    AtomThenRest(inlineOptions, k, st, c, a);
  }

  /** A letter the scan has not met yet is settled by the atoms' last word on it. */
  lemma {:induction false} AtomsSettleUnseen(inlineOptions: seq<string>, k: nat, st: Scan, c: char)
    requires k <= |inlineOptions| && CountsOk(st, "") && c in OptionLetters && Settled(st, c) == NotSeen
    ensures AtomsSettle(inlineOptions, k, st, c, LastState(inlineOptions, k, c))
    decreases k
  {
    if k == 0 {
      assert ScanAtoms(inlineOptions, k, st) == st;
    } else {
      var s := inlineOptions[k - 1];
      if |st.existOptions| == 5 {
        AllFiveSeen(st.existOptions, c);
        assert false;
      }
      if AtomState(s, |s|, c) == NotSeen {
        OneAtomTracks(s, st, c);
        AtomsSettleUnseen(inlineOptions, k - 1, ScanAtom(s, |s|, st, ""), c);
        PassOverAtom(inlineOptions, k, st, c);
      } else {
        SettleInAtom(inlineOptions, k, st, c);
      }
    }
  }

  /**
   * The last setting wins: each option letter is switched on exactly when the sign
   * before its last occurrence is `+` or `?`, off exactly when it is `-`, and is left
   * out when it has no sign before it in its atom or does not occur.
   */
  lemma C2OptionsLastWins(inlineOptions: seq<string>, c: char)
    requires c in OptionLetters
    ensures var last := LastState(inlineOptions, |inlineOptions|, c);
      && CountUpper(OnLetters(inlineOptions), c) == (if last == TurnedOn then 1 else 0)
      && CountUpper(OffLetters(inlineOptions), c) == (if last == TurnedOff then 1 else 0)
  {
    var st := ScanAtoms(inlineOptions, |inlineOptions|, EmptyScan);
    AtomsSettleUnseen(inlineOptions, |inlineOptions|, EmptyScan, c);
    ScanAtomsCounts(inlineOptions, |inlineOptions|, EmptyScan);
    CountOkAt(st, "", c);
    CountUpperReverse(st.optionOpen, c);
    CountUpperReverse(st.optionClose, c);
  }

  /** `(?i-m)` then `(?m)`: the later atom switches m back on, and i stays on. */
  lemma LastWinsExample()
    ensures CountUpper(OnLetters(["(?i-m)", "(?m)"]), 'M') == 1
    ensures CountUpper(OffLetters(["(?i-m)", "(?m)"]), 'M') == 0
    ensures CountUpper(OnLetters(["(?i-m)", "(?m)"]), 'I') == 1
  {
    var atoms := ["(?i-m)", "(?m)"];
    var a, b := atoms[0], atoms[1];
    assert Upper('m') == 'M' && Upper('i') == 'I';
    assert SignBefore(b, 2) == TurnedOn && SignBefore(a, 2) == TurnedOn;
    assert AtomState(b, 4, 'M') == AtomState(b, 3, 'M') == TurnedOn;
    assert AtomState(b, 4, 'I') == AtomState(b, 2, 'I') == NotSeen;
    assert AtomState(a, 6, 'I') == AtomState(a, 4, 'I') == AtomState(a, 3, 'I') == TurnedOn;
    C2OptionsLastWins(atoms, 'M');
    C2OptionsLastWins(atoms, 'I');
  }
}
