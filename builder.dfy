/**
 * ParseAST (RegexParse.cs:124-733) as the C# code runs it: a loop over the blocks
 * that pushes and pops frames, counters advanced as it goes, and the inner loops
 * that attach trivia and fold branches. Each method is proved equal to the
 * functions of module Parser.
 */
module Builder {
  import opened Common
  import opened Nodes
  import opened Serializer
  import opened Registry
  import opened Escape
  import opened Condition
  import opened Frames
  import opened Parser
  import Quantifier

  /** The trivia loop (RegexParse.cs:536-545, 657-665, 669-678) on the top frame. */
  method AttachTrivia(comments: seq<string>, ci0: nat, f0: Frame) returns (r: Result<(Frame, nat)>)
    ensures r == SkipTrivia(comments, ci0, f0)
  {
    var ci := ci0;
    var f := f0;
    while ci < |comments| && |comments[ci]| > 0
      invariant ci >= ci0
      invariant SkipTrivia(comments, ci, f) == SkipTrivia(comments, ci0, f0)
      decreases |comments| - ci
    {
      var sc := comments[ci];
      if sc[0] == '(' {
        f := f.(nodes := f.nodes + [NewSingle(sc, InlineComment)]);
      } else if sc[0] == '#' {
        f := f.(nodes := f.nodes + [NewSingle(sc, EndofLineComment)]);
      } else {
        f := f.(nodes := f.nodes + [NewSingle(sc)]);
      }
      ci := ci + 1;
    }
    if ci >= |comments| {
      return Err(MalformedTokens);
    }
    return Ok((f, ci + 1));
  }

  /** The foreach over the branches at RegexParse.cs:463-472 and 702-711. */
  method FoldBranches(ls: seq<seq<Node>>, atRoot: bool) returns (list: seq<Node>)
    ensures list == BranchNodes(ls, atRoot)
  {
    list := [];
    var k := 0;
    while k < |ls|
      invariant k <= |ls|
      invariant list == BranchNodes(ls[..k], atRoot)
    {
      var l := ls[k];
      assert ls[..k + 1][..k] == ls[..k];
      if |l| == 1 {
        list := list + [if atRoot && l[0].Line? then PanelNode(PanelOf(l[0], "")) else l[0]];
      } else {
        list := list + [PanelNode(PanelOfList(l, ""))];
      }
      k := k + 1;
    }
    assert ls[..k] == ls;
  }

  /** The fold of a frame's contents (RegexParse.cs:458-503 for a group, 688-715 for the root). */
  method FoldFrame(f: Frame, atRoot: bool) returns (n: Node)
    ensures n == FoldContents(f, atRoot)
  {
    if |f.alternation| > 0 {
      var list := f.nodes;
      if |list| == 0 {
        list := [EmptySingle()];
      }
      var listList := f.alternation + [list];
      var branches := FoldBranches(listList, atRoot);
      n := Line(branches);
    } else if atRoot {
      n := if |f.nodes| == 1 then f.nodes[0] else PanelNode(PanelOfList(f.nodes, ""));
    } else {
      var list := f.nodes;
      if |list| == 0 {
        list := [EmptySingle()];
      }
      n := if |list| == 1 then list[0] else PanelNode(PanelOfList(list, ""));
    }
  }

  /** `)` after the pop: assemble a conditional, or fold and wrap a bracket or construct. */
  method Close(leftBracket: Frame, style: int, reg: Registry, engine: Engine) returns (r: Result<Assembled>)
    ensures r == CloseFrame(leftBracket, style, reg, engine)
  {
    if leftBracket.kind == Conditional {
      return AssembleCondition(leftBracket.alternation, leftBracket.nodes, style, reg, engine);
    }
    var result := FoldFrame(leftBracket, false);
    if leftBracket.kind == LeftBracket {
      result := PanelNode(PanelOf(result, "").(addBracket := true, groupingNumber := leftBracket.groupingNumber));
    } else {
      var panel := PanelOf(result, "").(groupingConstruct := [leftBracket.pattern]);
      panel := SetGroupAnotherName(panel, reg.named, leftBracket.pattern);
      result := PanelNode(panel);
    }
    return Ok(Assembled(result, false));
  }

  /** The quantifier of block i (RegexParse.cs:197-207). */
  method BlockQuantifierOf(q1: string, q2: string) returns (r: Result<string>)
    ensures r == BlockQuantifier(q1, q2)
  {
    var quantifier := "";
    if |q1| > 0 {
      quantifier := q1;
      if |q2| > 0 {
        quantifier := quantifier + "?";
      }
      assert quantifier == q1 + (if |q2| > 0 then "?" else "");
      var simplified := Quantifier.QuantifierSimplify(quantifier);
      if simplified.None? {
        return Err(MalformedTokens);
      }
      quantifier := simplified.value;
    }
    return Ok(quantifier);
  }

  /** The trivia loop on the top frame, then the frame goes back on the stack. */
  method TriviaBlock(mh: Captures, st: State, top: Frame) returns (r: Result<State>)
    requires |st.stack| > 0
    ensures r == TriviaStep(mh, st, top)
  {
    var attached := AttachTrivia(mh.inLineComment, st.ci, top);
    if attached.Err? {
      return Err(attached.error);
    }
    var (frame, nextIndex) := attached.value;
    return Ok(st.(stack := st.stack[..|st.stack| - 1] + [frame], ci := nextIndex));
  }

  /** A `(`-prefix (RegexParse.cs:212-230): an inline-options atom, or a pushed frame, numbered for a plain `(`. */
  method OpenBlock(mh: Captures, st: State, prefix: string) returns (r: Result<State>)
    requires |st.stack| > 0 && |prefix| > 0 && prefix[0] == '('
    ensures r == OpenStep(mh, st, prefix)
  {
    var stack := st.stack;
    var groupingNumberIndex, groupingNumberCode := st.gi, st.code;
    if prefix[|prefix| - 1] == ')' {
      var top := stack[|stack| - 1];
      stack := stack[..|stack| - 1] + [top.(nodes := top.nodes + [NewSingle(prefix, InlineOptions)])];
    } else {
      var frame := NewFrame(prefix);
      if |prefix| == 1 {
        if groupingNumberIndex >= |mh.groupNumber| {
          return Err(MalformedTokens);
        }
        if |mh.groupNumber[groupingNumberIndex]| == 0 {
          groupingNumberCode := groupingNumberCode + 1;
          frame := frame.(groupingNumber := groupingNumberCode);
        }
        groupingNumberIndex := groupingNumberIndex + 1;
      }
      stack := stack + [frame];
    }
    return Ok(State(stack, st.ci + 1, groupingNumberIndex, groupingNumberCode, st.containsOption));
  }

  /** A `)`-prefix (RegexParse.cs:231-547): pop, close, quantify, append to the new top, trivia. */
  method CloseBlock(mh: Captures, st: State, quantifier: string, style: int, reg: Registry, engine: Engine)
    returns (r: Result<State>)
    requires |st.stack| > 0
    ensures r == CloseStep(mh, st, quantifier, style, reg, engine)
  {
    var stack := st.stack;
    var leftBracket := stack[|stack| - 1];
    stack := stack[..|stack| - 1];
    var closed := Close(leftBracket, style, reg, engine);
    assert closed == CloseFrame(Top(st.stack), style, reg, engine);
    if closed.Err? {
      return Err(closed.error);
    }
    if |stack| == 0 {
      return Err(MalformedTokens);
    }
    var result := closed.value.node;
    if |quantifier| > 0 {
      result := PanelNode(PanelOf(result, quantifier));
    }
    assert result == WithQuantifier(closed.value.node, quantifier);
    var top := stack[|stack| - 1];
    top := top.(nodes := top.nodes + [result]);
    assert top == AddNode(Top(stack), result);
    r := TriviaBlock(mh, st.(stack := stack, containsOption := st.containsOption || closed.value.containsOption), top);
  }

  /** Any other non-empty prefix (RegexParse.cs:559-667): a numeric escape or an atom, then trivia. */
  method AtomBlock(mh: Captures, st: State, prefix: string, quantifier: string, reg: Registry) returns (r: Result<State>)
    requires |st.stack| > 0 && |prefix| > 0
    ensures r == AtomStep(mh, st, prefix, quantifier, reg)
  {
    if prefix[0] == '\\' && |prefix| < 2 {
      return Err(MalformedTokens);
    }
    var top := st.stack[|st.stack| - 1];
    if prefix[0] == '\\' && IsDigit(prefix[1]) {
      var result := NumericEscape(prefix, quantifier, reg.known);
      if result.Err? {
        return Err(result.error);
      }
      top := top.(nodes := top.nodes + result.value);
    } else {
      var single := NewSingle(prefix);
      if |quantifier| > 0 {
        top := top.(nodes := top.nodes + [PanelNode(PanelOf(single, quantifier))]);
      } else {
        top := top.(nodes := top.nodes + [single]);
      }
    }
    r := TriviaBlock(mh, st, top);
  }

  /** One pass of the main loop (RegexParse.cs:194-680). */
  method ProcessBlock(mh: Captures, i: nat, st: State, style: int, reg: Registry, engine: Engine)
    returns (r: Result<State>)
    requires CountsAlign(mh) && i < |mh.prefix| && |st.stack| > 0
    ensures r == Step(mh, i, st, style, reg, engine)
  {
    var prefix := mh.prefix[i];
    var q := BlockQuantifierOf(mh.q1[i], mh.q2[i]);
    if q.Err? {
      return Err(q.error);
    }
    var quantifier := q.value;
    if |prefix| == 0 {
      r := TriviaBlock(mh, st, st.stack[|st.stack| - 1]);
    } else if prefix[0] == '(' {
      r := OpenBlock(mh, st, prefix);
    } else if prefix[0] == ')' {
      r := CloseBlock(mh, st, quantifier, style, reg, engine);
    } else if prefix[0] == '|' {
      var top := st.stack[|st.stack| - 1];
      var alternation := top.alternation + [if |top.nodes| == 0 then [EmptySingle()] else top.nodes];
      r := Ok(st.(stack := st.stack[..|st.stack| - 1] + [top.(alternation := alternation, nodes := [])], ci := st.ci + 1));
    } else {
      r := AtomBlock(mh, st, prefix, quantifier, reg);
    }
  }

  /** ParseAST: the main loop over the blocks, then the root fold and patterndotNET5. */
  method ParseAST(pattern: string, style: int, m: Option<Captures>, engine: Engine)
    returns (r: Result<(Node, string)>)
    ensures r == Parse(pattern, style, m, engine)
  {
    if |pattern| == 0 {
      return Ok((EmptySingle(), ""));
    }
    if m.None? {
      return Err(PatternMismatch);
    }
    var mh := m.value;
    var blockLen := |mh.prefix|;
    if |mh.q1| != blockLen || |mh.q2| != blockLen || |mh.inLineComment| < blockLen {
      return Err(InternalCountMismatch);
    }
    var registry := BuildRegistry(mh.groupCount, mh.groupName);
    if registry.Err? {
      return Err(registry.error);
    }
    var reg := registry.value;

    var st := InitialState();
    var i := 0;
    while i < blockLen
      invariant i <= blockLen && |st.stack| > 0
      invariant Run(mh, i, st, style, reg, engine) == Run(mh, 0, InitialState(), style, reg, engine)
    {
      var next := ProcessBlock(mh, i, st, style, reg, engine);
      if next.Err? {
        return Err(next.error);
      }
      StepKeepsStack(mh, i, st, style, reg, engine);
      st := next.value;
      i := i + 1;
    }

    if |st.stack| > 1 {
      return Err(UnclosedGroups);
    }
    var rootNode := FoldFrame(st.stack[0], true);
    var patterndotNET5 := if st.containsOption then GetUnitPattern(rootNode) else pattern;
    return Ok((rootNode, patterndotNET5));
  }
}
