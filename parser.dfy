/**
 * ParseAST (RegexParse.cs:124-733) as a function: the tokenizer's captures drive a
 * stack machine of frames, one block (prefix, quantifier, trivia) at a time. The
 * tokenizing regex itself is a foreign call and is the parameter `m`; what the
 * .NET engine answers (the Unicode half of IsWordChar, and whether it rejects the
 * pattern) is the parameter `engine`.
 */
module Parser {
  import opened Common
  import opened Nodes
  import opened Serializer
  import opened Registry
  import opened Escape
  import opened Condition
  import opened Frames
  import Quantifier

  /** The capture lists of the tokenizer's match; of groupCount only the count is used. */
  datatype Captures = Captures(
    prefix: seq<string>,
    q1: seq<string>,
    q2: seq<string>,
    inLineComment: seq<string>,
    groupNumber: seq<string>,
    groupCount: nat,
    groupName: seq<string>)

  /**
   * The loop's state: the frame stack (its top is the last element), the trivia
   * index, the groupNumber index, the last capture number handed out, and
   * conditionDirectContainsOption.
   */
  datatype State = State(stack: seq<Frame>, ci: nat, gi: nat, code: nat, containsOption: bool)

  /** The check at RegexParse.cs:153: prefix, q1 and q2 align, and there are at least as many trivia captures. */
  predicate CountsAlign(m: Captures)
  {
    |m.q1| == |m.prefix| && |m.q2| == |m.prefix| && |m.inLineComment| >= |m.prefix|
  }

  function InitialState(): State
  {
    State([RootFrame()], 0, 0, 0, false)
  }

  function Top(stack: seq<Frame>): Frame
    requires |stack| > 0
  {
    stack[|stack| - 1]
  }

  function WithTop(stack: seq<Frame>, f: Frame): (r: seq<Frame>)
    requires |stack| > 0
    ensures |r| == |stack| && r[..|r| - 1] == stack[..|stack| - 1] && Top(r) == f
  {
    stack[..|stack| - 1] + [f]
  }

  /** The block's quantifier: q1, a `?` when q2 was captured, simplified; a simplification that would throw is an error. */
  function BlockQuantifier(q1: string, q2: string): (r: Result<string>)
    ensures |q1| == 0 ==> r == Ok("")
  {
    if |q1| == 0 then Ok("")
    else match Quantifier.QuantifierSimplify(q1 + (if |q2| > 0 then "?" else ""))
      case None => Err(MalformedTokens)
      case Some(q) => Ok(q)
  }

  /**
   * The trivia loop: the captures from ci up to the next empty one become atoms of
   * the frame; the index ends just after that empty capture. Running off the end
   * of the list is the C# index error.
   */
  function SkipTrivia(comments: seq<string>, ci: nat, f: Frame): Result<(Frame, nat)>
    decreases |comments| - ci
  {
    if ci >= |comments| then Err(MalformedTokens)
    else if |comments[ci]| == 0 then Ok((f, ci + 1))
    else SkipTrivia(comments, ci + 1, AddNode(f, Trivia(comments[ci])))
  }

  /** The trivia loop on the top frame, for a block whose prefix does not change the stack's height. */
  function TriviaStep(m: Captures, st: State, f: Frame): Result<State>
    requires |st.stack| > 0
  {
    match SkipTrivia(m.inLineComment, st.ci, f)
    case Err(e) => Err(e)
    case Ok((g, ci)) => Ok(st.(stack := WithTop(st.stack, g), ci := ci))
  }

  /** A prefix starting with `(`: an inline-options atom, or a new frame (numbered when it is `(` with an empty groupNumber capture). */
  function OpenStep(m: Captures, st: State, prefix: string): Result<State>
    requires |st.stack| > 0 && |prefix| > 0 && prefix[0] == '('
  {
    if prefix[|prefix| - 1] == ')' then
      Ok(st.(stack := WithTop(st.stack, AddNode(Top(st.stack), NewSingle(prefix, InlineOptions))), ci := st.ci + 1))
    else
      var f := NewFrame(prefix);
      if |prefix| == 1 then
        if st.gi >= |m.groupNumber| then Err(MalformedTokens)
        else if |m.groupNumber[st.gi]| == 0 then
          Ok(st.(stack := st.stack + [f.(groupingNumber := st.code + 1)], gi := st.gi + 1, code := st.code + 1,
                 ci := st.ci + 1))
        else Ok(st.(stack := st.stack + [f], gi := st.gi + 1, ci := st.ci + 1))
      else Ok(st.(stack := st.stack + [f], ci := st.ci + 1))
  }

  /** How the popped frame closes: a conditional is assembled, any other frame folded into its bracket or construct. */
  function CloseFrame(f: Frame, style: int, reg: Registry, engine: Engine): Result<Assembled>
  {
    if f.kind == Conditional then AssembleCondition(f.alternation, f.nodes, style, reg, engine)
    else Ok(Assembled(CloseGroup(f, reg.named), false))
  }

  /** `)`: pop, close, quantify, append to the new top, then the trivia loop. Popping the root is an error. */
  function CloseStep(m: Captures, st: State, quantifier: string, style: int, reg: Registry,
                     engine: Engine): Result<State>
    requires |st.stack| > 0
  {
    var rest := st.stack[..|st.stack| - 1];
    match CloseFrame(Top(st.stack), style, reg, engine)
    case Err(e) => Err(e)
    case Ok(a) =>
      if |rest| == 0 then Err(MalformedTokens)
      else
        var st' := st.(stack := rest, containsOption := st.containsOption || a.containsOption);
        TriviaStep(m, st', AddNode(Top(rest), WithQuantifier(a.node, quantifier)))
  }

  /** `|`: a new branch in the top frame. */
  function BarStep(st: State): State
    requires |st.stack| > 0
  {
    st.(stack := WithTop(st.stack, NewBranch(Top(st.stack))), ci := st.ci + 1)
  }

  /** Any other prefix: a numeric escape splits, anything else is one quantified atom; then the trivia loop. */
  function AtomStep(m: Captures, st: State, prefix: string, quantifier: string, reg: Registry): Result<State>
    requires |st.stack| > 0 && |prefix| > 0
  {
    if prefix[0] == '\\' && |prefix| < 2 then Err(MalformedTokens)
    else if IsNumericEscape(prefix) then
      match NumericEscape(prefix, quantifier, reg.known)
      case Err(e) => Err(e)
      case Ok(ns) => TriviaStep(m, st, Top(st.stack).(nodes := Top(st.stack).nodes + ns))
    else TriviaStep(m, st, AddNode(Top(st.stack), WithQuantifier(NewSingle(prefix), quantifier)))
  }

  /** One iteration of the main loop. */
  function Step(m: Captures, i: nat, st: State, style: int, reg: Registry, engine: Engine): Result<State>
    requires CountsAlign(m) && i < |m.prefix| && |st.stack| > 0
  {
    var prefix := m.prefix[i];
    match BlockQuantifier(m.q1[i], m.q2[i])
    case Err(e) => Err(e)
    case Ok(quantifier) =>
      if |prefix| == 0 then TriviaStep(m, st, Top(st.stack))
      else if prefix[0] == '(' then OpenStep(m, st, prefix)
      else if prefix[0] == ')' then CloseStep(m, st, quantifier, style, reg, engine)
      else if prefix[0] == '|' then Ok(BarStep(st))
      else AtomStep(m, st, prefix, quantifier, reg)
  }

  lemma StepKeepsStack(m: Captures, i: nat, st: State, style: int, reg: Registry, engine: Engine)
    requires CountsAlign(m) && i < |m.prefix| && |st.stack| > 0
    requires Step(m, i, st, style, reg, engine).Ok?
    ensures |Step(m, i, st, style, reg, engine).value.stack| > 0
  {
    var prefix := m.prefix[i];
    var quantifier := BlockQuantifier(m.q1[i], m.q2[i]).value;
    if |prefix| == 0 {
      assert Step(m, i, st, style, reg, engine) == TriviaStep(m, st, Top(st.stack));
    } else if prefix[0] == '(' {
      assert Step(m, i, st, style, reg, engine) == OpenStep(m, st, prefix);
    } else if prefix[0] == ')' {
      assert Step(m, i, st, style, reg, engine) == CloseStep(m, st, quantifier, style, reg, engine);
    } else if prefix[0] != '|' {
      assert Step(m, i, st, style, reg, engine) == AtomStep(m, st, prefix, quantifier, reg);
    }
  }

  /** The main loop from block i on. */
  function Run(m: Captures, i: nat, st: State, style: int, reg: Registry, engine: Engine): Result<State>
    requires CountsAlign(m) && i <= |m.prefix| && |st.stack| > 0
    decreases |m.prefix| - i
  {
    if i == |m.prefix| then Ok(st)
    else
      var next := Step(m, i, st, style, reg, engine);
      if next.Err? then next
      else
        StepKeepsStack(m, i, st, style, reg, engine);
        Run(m, i + 1, next.value, style, reg, engine)
  }

  /** After the loop: exactly the root frame must be left; it folds into the root node. */
  function Finish(st: State, pattern: string): Result<(Node, string)>
  {
    if |st.stack| != 1 then Err(UnclosedGroups)
    else
      var root := FoldContents(st.stack[0], true);
      Ok((root, if st.containsOption then GetUnitPattern(root) else pattern))
  }

  /** ParseAST: the root node and patterndotNET5. */
  function Parse(pattern: string, style: int, m: Option<Captures>, engine: Engine): Result<(Node, string)>
  {
    if |pattern| == 0 then Ok((EmptySingle(), ""))
    else if m.None? then Err(PatternMismatch)
    else if !CountsAlign(m.value) then Err(InternalCountMismatch)
    else match RegistryOf(m.value.groupCount, m.value.groupName)
      case Err(e) => Err(e)
      case Ok(reg) =>
        match Run(m.value, 0, InitialState(), style, reg, engine)
        case Err(e) => Err(e)
        case Ok(st) => Finish(st, pattern)
  }

  // ---------------------------------------------------------------------------
  // What the loop keeps.

  /** How many of the captures are empty: the numbered groups among them. */
  function EmptyCount(s: seq<string>): nat
  {
    if |s| == 0 then 0 else EmptyCount(s[..|s| - 1]) + (if |s[|s| - 1]| == 0 then 1 else 0)
  }

  /** Numbered frames carry numbers from 1 to code that grow from the bottom of the stack to the top. */
  ghost predicate NumbersGrow(stack: seq<Frame>, code: nat)
  {
    && (forall k :: 0 <= k < |stack| ==> stack[k].groupingNumber == -1 || 1 <= stack[k].groupingNumber <= code)
    && (forall j, k :: 0 <= j < k < |stack| && stack[j].groupingNumber != -1 && stack[k].groupingNumber != -1 ==>
          stack[j].groupingNumber < stack[k].groupingNumber)
  }

  /**
   * The root bracket stays at the bottom, unnumbered; code counts the empty
   * groupNumber captures read so far; the numbers on the stack grow towards the top.
   */
  ghost predicate Invariant(m: Captures, st: State)
  {
    && |st.stack| > 0
    && st.stack[0].kind == LeftBracket && st.stack[0].groupingNumber == -1
    && st.gi <= |m.groupNumber| && st.code == EmptyCount(m.groupNumber[..st.gi])
    && NumbersGrow(st.stack, st.code)
  }

  /** Same frame header: only the contents may differ. */
  predicate SameHeader(f: Frame, g: Frame)
  {
    f.kind == g.kind && f.pattern == g.pattern && f.groupingNumber == g.groupingNumber
  }

  /** The trivia loop only appends atoms to the frame and moves past at least one capture. */
  lemma {:induction false} SkipTriviaHeader(comments: seq<string>, ci: nat, f: Frame)
    requires SkipTrivia(comments, ci, f).Ok?
    ensures var (g, ci') := SkipTrivia(comments, ci, f).value;
      SameHeader(f, g) && g.alternation == f.alternation && ci < ci' <= |comments|
    decreases |comments| - ci
  {
    if ci < |comments| && |comments[ci]| > 0 {
      SkipTriviaHeader(comments, ci + 1, AddNode(f, Trivia(comments[ci])));
    }
  }

  /** Replacing the top frame by one with the same header keeps the invariant, whatever the trivia index. */
  lemma WithTopKeeps(m: Captures, st: State, g: Frame, ci: nat)
    requires Invariant(m, st) && SameHeader(Top(st.stack), g)
    ensures Invariant(m, st.(stack := WithTop(st.stack, g), ci := ci))
  {
    var s := WithTop(st.stack, g);
    forall k | 0 <= k < |s| ensures SameHeader(st.stack[k], s[k]) {
      if k < |s| - 1 {
        assert s[k] == s[..|s| - 1][k];
      }
    }
  }

  lemma TriviaStepKeeps(m: Captures, st: State, f: Frame)
    requires Invariant(m, st) && SameHeader(Top(st.stack), f)
    requires TriviaStep(m, st, f).Ok?
    ensures Invariant(m, TriviaStep(m, st, f).value)
    ensures |TriviaStep(m, st, f).value.stack| == |st.stack|
  {
    SkipTriviaHeader(m.inLineComment, st.ci, f);
    var (g, ci) := SkipTrivia(m.inLineComment, st.ci, f).value;
    WithTopKeeps(m, st, g, ci);
  }

  lemma OpenStepKeeps(m: Captures, st: State, prefix: string)
    requires Invariant(m, st) && |prefix| > 0 && prefix[0] == '('
    requires OpenStep(m, st, prefix).Ok?
    ensures Invariant(m, OpenStep(m, st, prefix).value)
  {
    var st' := OpenStep(m, st, prefix).value;
    if prefix[|prefix| - 1] != ')' && |prefix| == 1 {
      assert m.groupNumber[..st.gi + 1][..st.gi] == m.groupNumber[..st.gi];
    } else if prefix[|prefix| - 1] == ')' {
      WithTopKeeps(m, st, AddNode(Top(st.stack), NewSingle(prefix, InlineOptions)), st.ci + 1);
    }
  }

  lemma CloseStepKeeps(m: Captures, st: State, quantifier: string, style: int, reg: Registry, engine: Engine)
    requires Invariant(m, st)
    requires CloseStep(m, st, quantifier, style, reg, engine).Ok?
    ensures Invariant(m, CloseStep(m, st, quantifier, style, reg, engine).value)
  {
    var rest := st.stack[..|st.stack| - 1];
    var a := CloseFrame(Top(st.stack), style, reg, engine).value;
    var st' := st.(stack := rest, containsOption := st.containsOption || a.containsOption);
    assert rest[0] == st.stack[0];
    TriviaStepKeeps(m, st', AddNode(Top(rest), WithQuantifier(a.node, quantifier)));
  }

  /** Every step keeps the invariant. */
  lemma StepKeeps(m: Captures, i: nat, st: State, style: int, reg: Registry, engine: Engine)
    requires CountsAlign(m) && i < |m.prefix| && Invariant(m, st)
    requires Step(m, i, st, style, reg, engine).Ok?
    ensures Invariant(m, Step(m, i, st, style, reg, engine).value)
  {
    var prefix := m.prefix[i];
    var quantifier := BlockQuantifier(m.q1[i], m.q2[i]).value;
    if |prefix| == 0 {
      TriviaStepKeeps(m, st, Top(st.stack));
    } else if prefix[0] == '(' {
      OpenStepKeeps(m, st, prefix);
    } else if prefix[0] == ')' {
      CloseStepKeeps(m, st, quantifier, style, reg, engine);
    } else if prefix[0] == '|' {
      WithTopKeeps(m, st, NewBranch(Top(st.stack)), st.ci + 1);
    } else if IsNumericEscape(prefix) {
      var ns := NumericEscape(prefix, quantifier, reg.known).value;
      TriviaStepKeeps(m, st, Top(st.stack).(nodes := Top(st.stack).nodes + ns));
    } else {
      TriviaStepKeeps(m, st, AddNode(Top(st.stack), WithQuantifier(NewSingle(prefix), quantifier)));
    }
  }

  /** The run from block i reaches r. */
  predicate RunsTo(m: Captures, i: nat, st: State, style: int, reg: Registry, engine: Engine, r: Result<State>)
    requires CountsAlign(m) && i <= |m.prefix| && |st.stack| > 0
  {
    Run(m, i, st, style, reg, engine) == r
  }

  /** Block i takes st to next. */
  predicate StepsTo(m: Captures, i: nat, st: State, style: int, reg: Registry, engine: Engine, next: State)
    requires CountsAlign(m) && i < |m.prefix| && |st.stack| > 0
  {
    Step(m, i, st, style, reg, engine) == Ok(next)
  }

  lemma StepKeepsTo(m: Captures, i: nat, st: State, style: int, reg: Registry, engine: Engine, next: State)
    requires CountsAlign(m) && i < |m.prefix| && Invariant(m, st)
    requires StepsTo(m, i, st, style, reg, engine, next)
    ensures Invariant(m, next)
  {
    StepKeeps(m, i, st, style, reg, engine);
  }

  /** A successful run from block i is a successful step followed by the run from block i + 1. */
  lemma RunUnfold(m: Captures, i: nat, st: State, style: int, reg: Registry, engine: Engine, r: Result<State>)
    returns (next: State)
    requires CountsAlign(m) && i < |m.prefix| && |st.stack| > 0
    requires r.Ok? && RunsTo(m, i, st, style, reg, engine, r)
    ensures StepsTo(m, i, st, style, reg, engine, next) && |next.stack| > 0
    ensures RunsTo(m, i + 1, next, style, reg, engine, r)
  {
    StepKeepsStack(m, i, st, style, reg, engine);
    next := Step(m, i, st, style, reg, engine).value;
  }

  /** The loop from block i on, reaching r, keeps the invariant. */
  lemma {:induction false} RunKeepsTo(m: Captures, i: nat, st: State, style: int, reg: Registry, engine: Engine,
                                      r: Result<State>)
    requires CountsAlign(m) && i <= |m.prefix| && Invariant(m, st)
    requires r.Ok? && RunsTo(m, i, st, style, reg, engine, r)
    ensures Invariant(m, r.value)
    decreases |m.prefix| - i
  {
    if i < |m.prefix| {
      var next := RunUnfold(m, i, st, style, reg, engine, r);
      StepKeepsTo(m, i, st, style, reg, engine, next);
      RunKeepsTo(m, i + 1, next, style, reg, engine, r);
    }
  }

  /** The whole loop keeps the invariant. */
  lemma RunKeeps(m: Captures, i: nat, st: State, style: int, reg: Registry, engine: Engine)
    requires CountsAlign(m) && i <= |m.prefix| && Invariant(m, st)
    requires Run(m, i, st, style, reg, engine).Ok?
    ensures Invariant(m, Run(m, i, st, style, reg, engine).value)
  {
    RunKeepsTo(m, i, st, style, reg, engine, Run(m, i, st, style, reg, engine));
  }

  /**
   * A plain `(` reads the next groupNumber capture: when it is empty the new frame
   * gets the next number, one more than the count of numbered groups before it,
   * and otherwise stays unnumbered.
   */
  lemma OpenNumbering(m: Captures, st: State)
    requires Invariant(m, st)
    requires OpenStep(m, st, "(").Ok?
    ensures var st' := OpenStep(m, st, "(").value;
      && st.gi < |m.groupNumber|
      && |st'.stack| == |st.stack| + 1 && st'.stack[..|st.stack|] == st.stack
      && st'.gi == st.gi + 1
      && (|m.groupNumber[st.gi]| == 0 ==>
            Top(st'.stack).groupingNumber == st'.code == EmptyCount(m.groupNumber[..st.gi + 1]) == st.code + 1)
      && (|m.groupNumber[st.gi]| > 0 ==> Top(st'.stack).groupingNumber == -1 && st'.code == st.code)
      && Top(st'.stack).kind == LeftBracket
  {
    assert m.groupNumber[..st.gi + 1][..st.gi] == m.groupNumber[..st.gi];
  }

  // ---------------------------------------------------------------------------
  // What ParseAST promises.

  /** An empty pattern gives `new ReSingle()` and ""; no tokenizer match, or captures that do not align, are errors. */
  lemma ParseEarlyOutcomes(pattern: string, style: int, m: Option<Captures>, engine: Engine)
    ensures |pattern| == 0 ==> Parse(pattern, style, m, engine) == Ok((EmptySingle(), ""))
    ensures |pattern| > 0 && m.None? ==> Parse(pattern, style, m, engine) == Err(PatternMismatch)
    ensures |pattern| > 0 && m.Some? && !CountsAlign(m.value) ==>
              Parse(pattern, style, m, engine) == Err(InternalCountMismatch)
  {
  }

  /**
   * After the loop: exactly one frame must be left, else the parse fails. The
   * root node renders as the root frame's branches, and patterndotNET5 is that
   * text when a conditional had to be rewritten and the pattern itself otherwise.
   */
  lemma FinishOutcome(st: State, pattern: string)
    ensures Finish(st, pattern) == Err(UnclosedGroups) <==> |st.stack| != 1
    ensures Finish(st, pattern).Ok? ==>
      var (root, patterndotNET5) := Finish(st, pattern).value;
      && GetUnitPattern(root) == FrameText(st.stack[0])
      && patterndotNET5 == (if st.containsOption then FrameText(st.stack[0]) else pattern)
  {
    if |st.stack| == 1 {
      FoldContentsText(st.stack[0], true);
    }
  }
}
