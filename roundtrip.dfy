/**
 * The round trip ParseAST is checked against (Program.cs:77-87): rendering the tree
 * with GetUnitPattern gives back the pattern. Here it is proved for the blocks the
 * tokenizer hands over: the root renders as the blocks' texts one after another,
 * provided no block's text is dropped by the builder and no conditional had to be
 * rewritten. The stack's text is the text read so far, which every step extends
 * by the block's text.
 */
module RoundTrip {
  import opened Common
  import opened Nodes
  import opened Serializer
  import opened Registry
  import opened Escape
  import opened Condition
  import opened Frames
  import opened Parser

  // ---------------------------------------------------------------------------
  // The text of the stack

  /** What opened the frame: `(`, `(` and the construct, or `(?`. */
  function Opener(f: Frame): string
  {
    match f.kind
    case LeftBracket => "("
    case GroupingConstruct => "(" + f.pattern
    case Conditional => "(?"
  }

  /** The root frame's text, then for each open frame its opener and its text. */
  function StackText(stack: seq<Frame>): string
    requires |stack| > 0
  {
    if |stack| == 1 then FrameText(stack[0])
    else StackText(stack[..|stack| - 1]) + Opener(Top(stack)) + FrameText(Top(stack))
  }

  /** A bracket's numbers and a construct's names are no part of its text in a frame: a bracket has no quantifier or construct of its own. */
  predicate CleanNode(n: Node)
  {
    n.PanelNode? && n.panel.addBracket ==> n.panel.quantifier == "" && n.panel.groupingConstruct == []
  }

  predicate CleanNodes(ns: seq<Node>)
  {
    forall j :: 0 <= j < |ns| ==> CleanNode(ns[j])
  }

  predicate CleanFrame(f: Frame)
  {
    CleanNodes(f.nodes) && forall a :: 0 <= a < |f.alternation| ==> CleanNodes(f.alternation[a])
  }

  predicate CleanStack(stack: seq<Frame>)
  {
    forall k :: 0 <= k < |stack| ==> CleanFrame(stack[k])
  }

  // ---------------------------------------------------------------------------
  // How a frame's text grows

  lemma LastBranchText(alternation: seq<seq<Node>>, x: seq<Node>)
    ensures BranchesText(alternation + [x])
         == (if |alternation| == 0 then "" else BranchesText(alternation) + "|") + SeqPattern(x)
  {
    var ls := alternation + [x];
    assert ls[..|ls| - 1] == alternation;
  }

  /** Appending nodes to the current branch appends their text. */
  lemma AddNodesText(f: Frame, ns: seq<Node>)
    ensures FrameText(f.(nodes := f.nodes + ns)) == FrameText(f) + SeqPattern(ns)
  {
    var head := if |f.alternation| == 0 then "" else BranchesText(f.alternation) + "|";
    LastBranchText(f.alternation, f.nodes + ns);
    SeqPatternAppend(f.nodes, ns);
    LastBranchText(f.alternation, f.nodes);
    Associate(head, SeqPattern(f.nodes), SeqPattern(ns));
  }

  lemma AddNodeText(f: Frame, n: Node)
    ensures FrameText(AddNode(f, n)) == FrameText(f) + GetUnitPattern(n)
  {
    AddNodesText(f, [n]);
    SeqPatternOne(n);
  }

  /** `|` appends a bar. */
  lemma NewBranchText(f: Frame)
    ensures FrameText(NewBranch(f)) == FrameText(f) + "|"
  {
    var g := NewBranch(f);
    var last := if |f.nodes| == 0 then [EmptySingle()] else f.nodes;
    LastBranchText(g.alternation, []);
    LastBranchText(f.alternation, last);
    LastBranchText(f.alternation, f.nodes);
    if |f.nodes| == 0 {
      SeqPatternOne(EmptySingle());
    }
  }

  /** The captured trivia from ci up to the next empty capture. */
  function TriviaText(comments: seq<string>, ci: nat): string
    decreases |comments| - ci
  {
    if ci >= |comments| || |comments[ci]| == 0 then "" else comments[ci] + TriviaText(comments, ci + 1)
  }

  /** The trivia loop appends the trivia's text and only clean atoms. */
  lemma {:induction false} SkipTriviaText(comments: seq<string>, ci: nat, f: Frame)
    requires SkipTrivia(comments, ci, f).Ok?
    ensures var (g, _) := SkipTrivia(comments, ci, f).value;
      && FrameText(g) == FrameText(f) + TriviaText(comments, ci)
      && (CleanFrame(f) ==> CleanFrame(g))
    decreases |comments| - ci
  {
    if ci < |comments| && |comments[ci]| > 0 {
      var f' := AddNode(f, Trivia(comments[ci]));
      SkipTriviaText(comments, ci + 1, f');
      AddNodeText(f, Trivia(comments[ci]));
    }
  }

  /** Concatenation regrouped, for the step that closes a frame. */
  lemma Regroup(below: string, opener: string, text: string, quantifier: string, trivia: string)
    ensures below + (opener + text + ")" + quantifier) + trivia == (below + opener + text) + ")" + quantifier + trivia
  {
  }

  lemma Associate(a: string, b: string, c: string)
    ensures (a + b) + c == a + (b + c)
  {
  }

  lemma Associate3(a: string, b: string, c: string, d: string)
    ensures a + b + c + d == a + (b + c + d)
  {
  }

  /** Replacing the top frame by one with the same header and more text extends the stack's text. */
  lemma GrowTop(stack: seq<Frame>, g: Frame, t: string)
    requires |stack| > 0 && SameHeader(Top(stack), g) && FrameText(g) == FrameText(Top(stack)) + t
    ensures StackText(WithTop(stack, g)) == StackText(stack) + t
  {
    var r := WithTop(stack, g);
    var top := Top(stack);
    if |stack| > 1 {
      var below := StackText(stack[..|stack| - 1]);
      assert StackText(r) == below + Opener(g) + FrameText(g);
      assert StackText(stack) == below + Opener(top) + FrameText(top);
      assert Opener(g) == Opener(top);
      Associate(below + Opener(top), FrameText(top), t);
    }
  }

  lemma CleanTop(stack: seq<Frame>, g: Frame)
    requires |stack| > 0 && CleanStack(stack) && CleanFrame(g)
    ensures CleanStack(WithTop(stack, g))
  {
    var s := WithTop(stack, g);
    forall k | 0 <= k < |s| ensures CleanFrame(s[k]) {
      if k < |s| - 1 {
        assert s[k] == s[..|s| - 1][k];
      }
    }
  }

  lemma CleanAdd(f: Frame, ns: seq<Node>)
    requires CleanFrame(f) && CleanNodes(ns)
    ensures CleanFrame(f.(nodes := f.nodes + ns))
  {
  }

  // ---------------------------------------------------------------------------
  // The blocks' texts

  /** The text block i stands for, given the trivia index when it starts and its simplified quantifier. */
  function BlockText(m: Captures, i: nat, ci: nat, quantifier: string): string
    requires i < |m.prefix|
  {
    var prefix := m.prefix[i];
    if |prefix| == 0 then TriviaText(m.inLineComment, ci)
    else if prefix[0] == '(' || prefix[0] == '|' then prefix
    else prefix + quantifier + TriviaText(m.inLineComment, ci)
  }

  /**
   * The builder keeps block i's text: a `(` or `|` block has no quantifier and no
   * trivia (which the builder would skip), a frame opener is `(` or `(?...`, a
   * closing prefix is `)` alone, and a conditional it closes needs no rewrite and
   * does not end in an empty no-branch (which the builder drops).
   */
  predicate PlainBlock(m: Captures, i: nat, st: State, style: int, reg: Registry, engine: Engine)
    requires CountsAlign(m) && i < |m.prefix| && |st.stack| > 0
  {
    var prefix := m.prefix[i];
    var nothingSkipped := |m.q1[i]| == 0 && (st.ci >= |m.inLineComment| || |m.inLineComment[st.ci]| == 0);
    if |prefix| == 0 then true
    else if prefix[0] == '(' then nothingSkipped && (prefix[|prefix| - 1] == ')' || |prefix| == 1 || prefix[1] == '?')
    else if prefix[0] == '|' then nothingSkipped && prefix == "|"
    else if prefix[0] == ')' then
      && prefix == ")"
      && var f := Top(st.stack);
         var a := AssembleCondition(f.alternation, f.nodes, style, reg, engine);
         f.kind == Conditional && a.Ok? ==> !a.value.containsOption && (|f.alternation| == 1 ==> |f.nodes| > 0)
    else true
  }

  /** The texts of blocks i onwards, as the loop reads them. */
  function RunText(m: Captures, i: nat, st: State, style: int, reg: Registry, engine: Engine): string
    requires CountsAlign(m) && i <= |m.prefix| && |st.stack| > 0
    decreases |m.prefix| - i
  {
    if i == |m.prefix| then ""
    else
      var next := Step(m, i, st, style, reg, engine);
      if next.Err? then ""
      else
        StepKeepsStack(m, i, st, style, reg, engine);
        BlockText(m, i, st.ci, BlockQuantifier(m.q1[i], m.q2[i]).value)
        + RunText(m, i + 1, next.value, style, reg, engine)
  }

  /** Every block from i on keeps its text. */
  predicate PlainRun(m: Captures, i: nat, st: State, style: int, reg: Registry, engine: Engine)
    requires CountsAlign(m) && i <= |m.prefix| && |st.stack| > 0
    decreases |m.prefix| - i
  {
    if i == |m.prefix| then true
    else
      var next := Step(m, i, st, style, reg, engine);
      if next.Err? then true
      else
        StepKeepsStack(m, i, st, style, reg, engine);
        PlainBlock(m, i, st, style, reg, engine) && PlainRun(m, i + 1, next.value, style, reg, engine)
  }

  // ---------------------------------------------------------------------------
  // Each step extends the stack's text by the block's text

  lemma TriviaStepText(m: Captures, st: State, f: Frame, t: string)
    requires |st.stack| > 0 && CleanStack(st.stack) && CleanFrame(f)
    requires SameHeader(Top(st.stack), f) && FrameText(f) == FrameText(Top(st.stack)) + t
    requires TriviaStep(m, st, f).Ok?
    ensures var st' := TriviaStep(m, st, f).value;
      StackText(st'.stack) == StackText(st.stack) + t + TriviaText(m.inLineComment, st.ci)
      && CleanStack(st'.stack) && !st'.containsOption == !st.containsOption
  {
    SkipTriviaText(m.inLineComment, st.ci, f);
    SkipTriviaHeader(m.inLineComment, st.ci, f);
    var (g, _) := SkipTrivia(m.inLineComment, st.ci, f).value;
    GrowTop(st.stack, g, t + TriviaText(m.inLineComment, st.ci));
    CleanTop(st.stack, g);
    Associate(StackText(st.stack), t, TriviaText(m.inLineComment, st.ci));
  }

  lemma OpenStepText(m: Captures, st: State, prefix: string)
    requires |st.stack| > 0 && CleanStack(st.stack) && |prefix| > 0 && prefix[0] == '('
    requires prefix[|prefix| - 1] == ')' || |prefix| == 1 || prefix[1] == '?'
    requires OpenStep(m, st, prefix).Ok?
    ensures var st' := OpenStep(m, st, prefix).value;
      StackText(st'.stack) == StackText(st.stack) + prefix && CleanStack(st'.stack)
      && st'.containsOption == st.containsOption
  {
    var st' := OpenStep(m, st, prefix).value;
    if prefix[|prefix| - 1] == ')' {
      var f := Top(st.stack);
      AddNodeText(f, NewSingle(prefix, InlineOptions));
      GrowTop(st.stack, AddNode(f, NewSingle(prefix, InlineOptions)), prefix);
      CleanTop(st.stack, AddNode(f, NewSingle(prefix, InlineOptions)));
    } else {
      NewFrameKinds(prefix);
      var f := Top(st'.stack);
      assert st'.stack == st.stack + [f];
      if |prefix| == 1 {
        assert prefix == "(";
      }
      assert Opener(f) == prefix;
      PushText(st.stack, f);
    }
  }

  /** A frame pushed empty adds its opener to the stack's text. */
  lemma PushText(stack: seq<Frame>, f: Frame)
    requires |stack| > 0 && CleanStack(stack) && f.nodes == [] && f.alternation == []
    ensures StackText(stack + [f]) == StackText(stack) + Opener(f) && CleanStack(stack + [f])
  {
    var s := stack + [f];
    assert s[..|s| - 1] == stack;
    assert FrameText(f) == "" by {
      assert f.alternation + [f.nodes] == [[]];
    }
    forall k | 0 <= k < |s| ensures CleanFrame(s[k]) {
      if k < |stack| {
        assert s[k] == stack[k];
      }
    }
  }

  /** A clean test panel renders as the group test it names. */
  lemma GroupTestText(c1: Panel, known: set<string>, engine: Engine)
    requires CleanNode(PanelNode(c1))
    ensures NamesKnownGroup(c1, known, engine) ==> PanelPattern(c1) == "(" + c1.sequenceNodes[0].pattern + ")"
  {
    if NamesKnownGroup(c1, known, engine) {
      SeqPatternOne(c1.sequenceNodes[0]);
      assert [c1.sequenceNodes[0]] == c1.sequenceNodes;
      assert Openers([]) == "";
    }
  }

  /** A conditional frame's text, read off its (at most two) branches. */
  lemma ConditionalFrameText(f: Frame)
    requires |f.alternation| <= 1 && (|f.alternation| == 1 ==> |f.nodes| > 0) && |Branches(f.alternation, f.nodes)| > 0
    ensures var b := Branches(f.alternation, f.nodes);
      FrameText(f) == SeqPattern(b[0]) + Bar(|b| == 2) + (if |b| == 2 then SeqPattern(b[1]) else "")
  {
    LastBranchText(f.alternation, f.nodes);
    if |f.alternation| == 1 {
      assert BranchesText(f.alternation) == SeqPattern(f.alternation[0]);
    }
  }

  /** The condition panel is the first node of the frame's first branch, so it is clean as well. */
  lemma FirstNodeClean(f: Frame)
    requires CleanFrame(f) && |f.alternation| <= 1
    requires var b := Branches(f.alternation, f.nodes); |b| > 0 && |b[0]| > 0
    ensures CleanNode(Branches(f.alternation, f.nodes)[0][0])
  {
    var b := Branches(f.alternation, f.nodes);
    if |f.alternation| == 1 {
      assert b[0] == f.alternation[0];
    } else {
      assert b[0] == f.nodes;
    }
  }

  /** The test's text and the rest of the first branch make up the first branch's text. */
  lemma JoinText(test: string, rest: string, first: string, bar: string, no: string, frame: string)
    requires first == test + rest && frame == first + bar + no
    ensures "(?" + test + rest + bar + no + ")" == "(?" + frame + ")"
  {
  }

  /** The first node of a conditional frame is its test, and renders as the test's text. */
  lemma ConditionalTestText(f: Frame, known: set<string>, engine: Engine)
    requires CleanFrame(f) && |f.alternation| <= 1
    requires var b := Branches(f.alternation, f.nodes); |b| > 0 && |b[0]| > 0 && b[0][0].PanelNode?
    ensures var c1 := Branches(f.alternation, f.nodes)[0][0].panel;
      (if NamesKnownGroup(c1, known, engine) then "(" + c1.sequenceNodes[0].pattern + ")" else PanelPattern(c1))
      == GetUnitPattern(Branches(f.alternation, f.nodes)[0][0])
  {
    var b: seq<seq<Node>> := Branches(f.alternation, f.nodes);
    FirstNodeClean(f);
    GroupTestText(b[0][0].panel, known, engine);
  }

  /** A conditional that needs no rewrite and keeps its no-branch renders as `(?`, its branches, `)`. */
  lemma ConditionalCloseText(f: Frame, style: int, reg: Registry, engine: Engine)
    requires f.kind == Conditional && CleanFrame(f)
    requires AssembleCondition(f.alternation, f.nodes, style, reg, engine).Ok?
    requires !AssembleCondition(f.alternation, f.nodes, style, reg, engine).value.containsOption
    requires |f.alternation| == 1 ==> |f.nodes| > 0
    ensures GetUnitPattern(AssembleCondition(f.alternation, f.nodes, style, reg, engine).value.node)
         == "(?" + FrameText(f) + ")"
  {
    AssembleConditionErrors(f.alternation, f.nodes, style, reg, engine);
    AssembleConditionText(f.alternation, f.nodes, style, reg, engine);
    var b: seq<seq<Node>> := Branches(f.alternation, f.nodes);
    ConditionalTestText(f, reg.known, engine);
    FirstBranchSplit(b[0]);
    ConditionalFrameText(f);
    var c1 := b[0][0].panel;
    var test := if NamesKnownGroup(c1, reg.known, engine) then "(" + c1.sequenceNodes[0].pattern + ")" else PanelPattern(c1);
    JoinText(test, SeqPattern(b[0][1..]), SeqPattern(b[0]), Bar(|b| == 2), if |b| == 2 then SeqPattern(b[1]) else "", FrameText(f));
  }

  /** Closing a frame renders it as its opener, its text and `)`. */
  lemma CloseFrameText(f: Frame, style: int, reg: Registry, engine: Engine)
    requires CleanFrame(f) && CloseFrame(f, style, reg, engine).Ok?
    requires f.kind == Conditional ==>
      !CloseFrame(f, style, reg, engine).value.containsOption && (|f.alternation| == 1 ==> |f.nodes| > 0)
    ensures var a := CloseFrame(f, style, reg, engine).value;
      GetUnitPattern(a.node) == Opener(f) + FrameText(f) + ")" && !a.containsOption && CleanNode(a.node)
  {
    if f.kind == Conditional {
      ConditionalCloseText(f, style, reg, engine);
      AssembleConditionFlags(f.alternation, f.nodes, style, reg, engine);
    } else {
      CloseGroupText(f, reg.named);
    }
  }

  /** The closed frame, quantified, goes onto the frame below it, then the trivia loop runs. */
  lemma PushBackText(m: Captures, st: State, a: Assembled, quantifier: string)
    requires |st.stack| > 1 && CleanStack(st.stack) && CleanNode(a.node) && !a.containsOption
    requires GetUnitPattern(a.node) == Opener(Top(st.stack)) + FrameText(Top(st.stack)) + ")"
    requires var rest := st.stack[..|st.stack| - 1];
      TriviaStep(m, st.(stack := rest), AddNode(Top(rest), WithQuantifier(a.node, quantifier))).Ok?
    ensures var rest := st.stack[..|st.stack| - 1];
      var st' := TriviaStep(m, st.(stack := rest), AddNode(Top(rest), WithQuantifier(a.node, quantifier))).value;
      StackText(st'.stack) == StackText(st.stack) + ")" + quantifier + TriviaText(m.inLineComment, st.ci)
      && CleanStack(st'.stack) && st'.containsOption == st.containsOption
  {
    var f := Top(st.stack);
    var rest := st.stack[..|st.stack| - 1];
    var n := WithQuantifier(a.node, quantifier);
    WithQuantifierPattern(a.node, quantifier);
    AddNodeText(Top(rest), n);
    assert CleanStack(rest) by {
      forall k | 0 <= k < |rest| ensures CleanFrame(rest[k]) {
        assert rest[k] == st.stack[k];
      }
    }
    assert CleanNode(n) by {
      if |quantifier| > 0 {
        assert !n.panel.addBracket;
      }
    }
    CleanAdd(Top(rest), [n]);
    TriviaStepText(m, st.(stack := rest), AddNode(Top(rest), n), GetUnitPattern(n));
    Regroup(StackText(rest), Opener(f), FrameText(f), quantifier, TriviaText(m.inLineComment, st.ci));
  }

  lemma CloseStepText(m: Captures, st: State, quantifier: string, style: int, reg: Registry, engine: Engine)
    requires |st.stack| > 0 && CleanStack(st.stack)
    requires CloseStep(m, st, quantifier, style, reg, engine).Ok?
    requires var f := Top(st.stack);
      var a := AssembleCondition(f.alternation, f.nodes, style, reg, engine);
      f.kind == Conditional && a.Ok? ==> !a.value.containsOption && (|f.alternation| == 1 ==> |f.nodes| > 0)
    ensures var st' := CloseStep(m, st, quantifier, style, reg, engine).value;
      StackText(st'.stack) == StackText(st.stack) + ")" + quantifier + TriviaText(m.inLineComment, st.ci)
      && CleanStack(st'.stack) && st'.containsOption == st.containsOption
  {
    var f := Top(st.stack);
    var a := CloseFrame(f, style, reg, engine).value;
    CloseFrameText(f, style, reg, engine);
    assert st.(stack := st.stack[..|st.stack| - 1], containsOption := st.containsOption || a.containsOption)
        == st.(stack := st.stack[..|st.stack| - 1]);
    PushBackText(m, st, a, quantifier);
  }

  lemma AtomStepText(m: Captures, st: State, prefix: string, quantifier: string, reg: Registry)
    requires |st.stack| > 0 && CleanStack(st.stack) && |prefix| > 0
    requires AtomStep(m, st, prefix, quantifier, reg).Ok?
    ensures var st' := AtomStep(m, st, prefix, quantifier, reg).value;
      StackText(st'.stack) == StackText(st.stack) + prefix + quantifier + TriviaText(m.inLineComment, st.ci)
      && CleanStack(st'.stack) && st'.containsOption == st.containsOption
  {
    var f := Top(st.stack);
    if IsNumericEscape(prefix) {
      var ns := NumericEscape(prefix, quantifier, reg.known).value;
      NumericEscapeText(prefix, quantifier, reg.known);
      AddNodesText(f, ns);
      assert CleanNodes(ns);
      CleanAdd(f, ns);
      TriviaStepText(m, st, f.(nodes := f.nodes + ns), prefix + quantifier);
      Associate(StackText(st.stack), prefix, quantifier);
    } else {
      var n := WithQuantifier(NewSingle(prefix), quantifier);
      WithQuantifierPattern(NewSingle(prefix), quantifier);
      AddNodeText(f, n);
      CleanAdd(f, [n]);
      TriviaStepText(m, st, AddNode(f, n), prefix + quantifier);
      Associate(StackText(st.stack), prefix, quantifier);
    }
  }

  /** A new branch keeps a clean frame clean. */
  lemma NewBranchClean(f: Frame)
    requires CleanFrame(f)
    ensures CleanFrame(NewBranch(f))
  {
    var g := NewBranch(f);
    forall a | 0 <= a < |g.alternation| ensures CleanNodes(g.alternation[a]) {
      if a < |f.alternation| {
        assert g.alternation[a] == f.alternation[a];
      }
    }
  }

  lemma BarStepText(st: State)
    requires |st.stack| > 0 && CleanStack(st.stack)
    ensures StackText(BarStep(st).stack) == StackText(st.stack) + "|" && CleanStack(BarStep(st).stack)
  {
    var f := Top(st.stack);
    NewBranchText(f);
    NewBranchClean(f);
    GrowTop(st.stack, NewBranch(f), "|");
    CleanTop(st.stack, NewBranch(f));
  }

  /** One block extends the stack's text by the block's text. */
  lemma StepText(m: Captures, i: nat, st: State, quantifier: string, style: int, reg: Registry,
                 engine: Engine)
    requires CountsAlign(m) && i < |m.prefix| && |st.stack| > 0 && CleanStack(st.stack)
    requires BlockQuantifier(m.q1[i], m.q2[i]) == Ok(quantifier)
    requires Step(m, i, st, style, reg, engine).Ok?
    requires PlainBlock(m, i, st, style, reg, engine)
    ensures var st' := Step(m, i, st, style, reg, engine).value;
      && StackText(st'.stack) == StackText(st.stack) + BlockText(m, i, st.ci, quantifier)
      && CleanStack(st'.stack) && st'.containsOption == st.containsOption
  {
    var prefix := m.prefix[i];
    if |prefix| == 0 || prefix[0] == '|' {
      TriviaOrBarText(m, i, st, quantifier, style, reg, engine);
    } else if prefix[0] == '(' {
      OpenText(m, i, st, quantifier, style, reg, engine);
    } else if prefix[0] == ')' {
      CloseText(m, i, st, quantifier, style, reg, engine);
    } else {
      AtomText(m, i, st, quantifier, style, reg, engine);
    }
  }

  lemma TriviaOrBarText(m: Captures, i: nat, st: State, quantifier: string, style: int, reg: Registry,
                 engine: Engine)
    requires CountsAlign(m) && i < |m.prefix| && |st.stack| > 0 && CleanStack(st.stack)
    requires BlockQuantifier(m.q1[i], m.q2[i]) == Ok(quantifier)
    requires Step(m, i, st, style, reg, engine).Ok?
    requires PlainBlock(m, i, st, style, reg, engine)
    requires |m.prefix[i]| == 0 || m.prefix[i][0] == '|'
    ensures var st' := Step(m, i, st, style, reg, engine).value;
      && StackText(st'.stack) == StackText(st.stack) + BlockText(m, i, st.ci, quantifier)
      && CleanStack(st'.stack) && st'.containsOption == st.containsOption
  {
    if |m.prefix[i]| == 0 {
      TriviaStepText(m, st, Top(st.stack), "");
    } else {
      BarStepText(st);
    }
  }

  lemma OpenText(m: Captures, i: nat, st: State, quantifier: string, style: int, reg: Registry,
                 engine: Engine)
    requires CountsAlign(m) && i < |m.prefix| && |st.stack| > 0 && CleanStack(st.stack)
    requires BlockQuantifier(m.q1[i], m.q2[i]) == Ok(quantifier)
    requires Step(m, i, st, style, reg, engine).Ok?
    requires PlainBlock(m, i, st, style, reg, engine)
    requires |m.prefix[i]| > 0 && m.prefix[i][0] == '('
    ensures var st' := Step(m, i, st, style, reg, engine).value;
      && StackText(st'.stack) == StackText(st.stack) + BlockText(m, i, st.ci, quantifier)
      && CleanStack(st'.stack) && st'.containsOption == st.containsOption
  {
    OpenStepText(m, st, m.prefix[i]);
  }

  lemma CloseText(m: Captures, i: nat, st: State, quantifier: string, style: int, reg: Registry,
                 engine: Engine)
    requires CountsAlign(m) && i < |m.prefix| && |st.stack| > 0 && CleanStack(st.stack)
    requires BlockQuantifier(m.q1[i], m.q2[i]) == Ok(quantifier)
    requires Step(m, i, st, style, reg, engine).Ok?
    requires PlainBlock(m, i, st, style, reg, engine)
    requires |m.prefix[i]| > 0 && m.prefix[i][0] == ')'
    ensures var st' := Step(m, i, st, style, reg, engine).value;
      && StackText(st'.stack) == StackText(st.stack) + BlockText(m, i, st.ci, quantifier)
      && CleanStack(st'.stack) && st'.containsOption == st.containsOption
  {
    assert Step(m, i, st, style, reg, engine) == CloseStep(m, st, quantifier, style, reg, engine);
    CloseStepText(m, st, quantifier, style, reg, engine);
    assert BlockText(m, i, st.ci, quantifier) == ")" + quantifier + TriviaText(m.inLineComment, st.ci);
    Associate3(StackText(st.stack), ")", quantifier, TriviaText(m.inLineComment, st.ci));
  }

  lemma AtomText(m: Captures, i: nat, st: State, quantifier: string, style: int, reg: Registry,
                 engine: Engine)
    requires CountsAlign(m) && i < |m.prefix| && |st.stack| > 0 && CleanStack(st.stack)
    requires BlockQuantifier(m.q1[i], m.q2[i]) == Ok(quantifier)
    requires Step(m, i, st, style, reg, engine).Ok?
    requires PlainBlock(m, i, st, style, reg, engine)
    requires |m.prefix[i]| > 0 && m.prefix[i][0] != '(' && m.prefix[i][0] != ')' && m.prefix[i][0] != '|'
    ensures var st' := Step(m, i, st, style, reg, engine).value;
      && StackText(st'.stack) == StackText(st.stack) + BlockText(m, i, st.ci, quantifier)
      && CleanStack(st'.stack) && st'.containsOption == st.containsOption
  {
    assert Step(m, i, st, style, reg, engine) == AtomStep(m, st, m.prefix[i], quantifier, reg);
    AtomStepText(m, st, m.prefix[i], quantifier, reg);
    Associate3(StackText(st.stack), m.prefix[i], quantifier, TriviaText(m.inLineComment, st.ci));
  }

  /** One pass of the loop moves the block's text from the run's text onto the stack's. */
  lemma RunStep(m: Captures, i: nat, st: State, style: int, reg: Registry, engine: Engine)
    requires CountsAlign(m) && i < |m.prefix| && |st.stack| > 0 && CleanStack(st.stack)
    requires Run(m, i, st, style, reg, engine).Ok?
    requires PlainRun(m, i, st, style, reg, engine)
    ensures Step(m, i, st, style, reg, engine).Ok?
    ensures var next := Step(m, i, st, style, reg, engine).value;
      && |next.stack| > 0 && CleanStack(next.stack) && next.containsOption == st.containsOption
      && Run(m, i, st, style, reg, engine) == Run(m, i + 1, next, style, reg, engine)
      && PlainRun(m, i + 1, next, style, reg, engine)
      && StackText(next.stack) + RunText(m, i + 1, next, style, reg, engine)
         == StackText(st.stack) + RunText(m, i, st, style, reg, engine)
  {
    StepKeepsStack(m, i, st, style, reg, engine);
    var quantifier := BlockQuantifier(m.q1[i], m.q2[i]).value;
    StepText(m, i, st, quantifier, style, reg, engine);
    var next := Step(m, i, st, style, reg, engine).value;
    Associate(StackText(st.stack), BlockText(m, i, st.ci, quantifier), RunText(m, i + 1, next, style, reg, engine));
  }

  /** The whole loop: the final stack's text is the initial one followed by every block's text. */
  lemma RunTextLemma(m: Captures, st0: State, style: int, reg: Registry, engine: Engine)
    requires CountsAlign(m) && |st0.stack| > 0 && CleanStack(st0.stack)
    requires Run(m, 0, st0, style, reg, engine).Ok?
    requires PlainRun(m, 0, st0, style, reg, engine)
    ensures var st' := Run(m, 0, st0, style, reg, engine).value;
      |st'.stack| > 0 && StackText(st'.stack) == StackText(st0.stack) + RunText(m, 0, st0, style, reg, engine)
      && st'.containsOption == st0.containsOption
  {
    var i, st := 0, st0;
    while i < |m.prefix|
      invariant i <= |m.prefix| && |st.stack| > 0 && CleanStack(st.stack) && st.containsOption == st0.containsOption
      invariant Run(m, i, st, style, reg, engine) == Run(m, 0, st0, style, reg, engine)
      invariant PlainRun(m, i, st, style, reg, engine)
      invariant StackText(st.stack) + RunText(m, i, st, style, reg, engine)
             == StackText(st0.stack) + RunText(m, 0, st0, style, reg, engine)
    {
      RunStep(m, i, st, style, reg, engine);
      st := Step(m, i, st, style, reg, engine).value;
      i := i + 1;
    }
  }

  /** Before the first block, the stack holds only the empty root frame. */
  lemma InitialText()
    ensures StackText(InitialState().stack) == "" && CleanStack(InitialState().stack)
  {
    assert RootFrame().alternation + [RootFrame().nodes] == [[]];
  }

  /** The loop from the empty root frame leaves a stack whose text is every block's text. */
  lemma RootRunText(m: Captures, style: int, reg: Registry, engine: Engine)
    requires CountsAlign(m) && Run(m, 0, InitialState(), style, reg, engine).Ok?
    requires PlainRun(m, 0, InitialState(), style, reg, engine)
    ensures var st := Run(m, 0, InitialState(), style, reg, engine).value;
      |st.stack| > 0 && !st.containsOption
      && StackText(st.stack) == RunText(m, 0, InitialState(), style, reg, engine)
  {
    InitialText();
    RunTextLemma(m, InitialState(), style, reg, engine);
  }

  /** A pattern the captures parse is the loop followed by the fold of the root frame. */
  lemma ParseRuns(pattern: string, style: int, m: Captures, engine: Engine)
    requires |pattern| > 0 && CountsAlign(m) && RegistryOf(m.groupCount, m.groupName).Ok?
    requires Parse(pattern, style, Some(m), engine).Ok?
    ensures var reg := RegistryOf(m.groupCount, m.groupName).value;
      var r := Run(m, 0, InitialState(), style, reg, engine);
      r.Ok? && Parse(pattern, style, Some(m), engine) == Finish(r.value, pattern)
  {
  }

  /**
   * The round trip: when every block keeps its text, the tree ParseAST returns
   * renders as the blocks' texts one after another, and patterndotNET5 is the
   * pattern itself.
   */
  lemma ParseRoundTrip(pattern: string, style: int, m: Captures, engine: Engine)
    requires |pattern| > 0 && CountsAlign(m) && RegistryOf(m.groupCount, m.groupName).Ok?
    requires var reg := RegistryOf(m.groupCount, m.groupName).value;
      PlainRun(m, 0, InitialState(), style, reg, engine)
    requires Parse(pattern, style, Some(m), engine).Ok?
    ensures var reg := RegistryOf(m.groupCount, m.groupName).value;
      var (root, patterndotNET5) := Parse(pattern, style, Some(m), engine).value;
      && GetUnitPattern(root) == RunText(m, 0, InitialState(), style, reg, engine)
      && patterndotNET5 == pattern
  {
    var reg := RegistryOf(m.groupCount, m.groupName).value;
    ParseRuns(pattern, style, m, engine);
    RootRunText(m, style, reg, engine);
    FinishOutcome(Run(m, 0, InitialState(), style, reg, engine).value, pattern);
  }
}
