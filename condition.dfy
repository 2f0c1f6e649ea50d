/**
 * Assembly of a conditional construct `(?(c1)c2|c3)` when its frame closes
 * (RegexParse.cs:240-453): choosing the three parts, deciding between a group
 * condition and an expression condition, and the .NET5 compatibility rewrite that
 * keeps inline options from sitting directly inside a condition, either by wrapping
 * parts in `(?:...)` (style 1) or by recording cover flags for the serializer
 * (any other style).
 */
module Condition {
  import opened Common
  import opened Nodes
  import opened Serializer
  import opened Registry
  import opened Options
  import opened Escape

  /** The lookup on the second character of a construct: an options construct such as `?i:` or `?-x)`. */
  predicate OptionsConstruct(construct: string)
  {
    |construct| > 1 && IsOptionChar(construct[1])
  }

  /** The panel's outermost construct is an options construct. */
  predicate LeadsWithOptions(p: Panel)
  {
    |p.groupingConstruct| > 0 && OptionsConstruct(p.groupingConstruct[0])
  }

  /** A child that puts options directly into its branch: an options group, or an inline-options atom. */
  predicate UnitHasOptions(n: Node)
  {
    (n.PanelNode? && LeadsWithOptions(n.panel)) || (n.Single? && n.singleType == InlineOptions)
  }

  /** Inspects the children only when the panel is neither a construct nor a bracket. */
  predicate InspectsChildren(p: Panel)
  {
    |p.groupingConstruct| == 0 && !p.addBracket
  }

  /** Whether a branch (c2 or c3) directly contains inline options. */
  predicate DirectOptions(p: Panel)
  {
    if |p.groupingConstruct| > 0 then OptionsConstruct(p.groupingConstruct[0])
    else !p.addBracket && exists k :: 0 <= k < |p.sequenceNodes| && UnitHasOptions(p.sequenceNodes[k])
  }

  /** The texts of the inline-options atoms among ns, in order. */
  function OptionAtoms(ns: seq<Node>): (r: seq<string>)
    ensures |r| <= |ns|
  {
    if |ns| == 0 then []
    else
      var last := ns[|ns| - 1];
      OptionAtoms(ns[..|ns| - 1]) + (if last.Single? && last.singleType == InlineOptions then [last.pattern] else [])
  }

  /** The InlineOptions list: filled only while the children of c2 are inspected. */
  function InlineOptionList(c2: Panel): seq<string>
  {
    if InspectsChildren(c2) then OptionAtoms(c2.sequenceNodes) else []
  }

  /** `new RePanel(p, "")` with `?:` inserted as its only construct. */
  function Covered(p: Panel): (r: Panel)
    ensures r.sequenceNodes == [PanelNode(p)] && r.quantifier == "" && r.groupingConstruct == ["?:"]
    ensures !r.addBracket && !r.isCondition
  {
    PanelOf(PanelNode(p), "").(groupingConstruct := ["?:"])
  }

  /** Puts the options atom in front of c3: into its children when c3 is a plain sequence, else around it. */
  function PrefixOptions(c3: Panel, atom: Node): Panel
  {
    if |c3.groupingConstruct| == 0 && !c3.addBracket then c3.(sequenceNodes := [atom] + c3.sequenceNodes)
    else PanelOfList([atom, PanelNode(c3)], "")
  }

  /**
   * The test for a group condition: the condition's text, "" for an expression, or
   * an error. An unknown number is handed to the .NET engine, and the parse fails
   * only when the engine rejects the whole pattern; otherwise the test is read as
   * an expression.
   */
  function ConditionGroup(c1: Panel, known: set<string>, engine: Engine): Result<string>
  {
    if c1.addBracket && |c1.sequenceNodes| == 1 && c1.sequenceNodes[0].Single? then
      var s := c1.sequenceNodes[0].pattern;
      if |s| == 0 || !IsWordChar(s[0], engine.unicodeWord) then Ok("")
      else if IsDigit(s[0]) then
        if s in known then Ok(s)
        else if engine.rejectsPattern then Err(UndefinedGroupNumber(s))
        else Ok("")
      else Ok(if s in known then s else "")
    else Ok("")
  }

  /** The assembled condition, and whether it set conditionDirectContainsOption. */
  datatype Assembled = Assembled(node: Node, containsOption: bool)

  /** c1 carries options of its own that a group condition cannot have. */
  predicate FirstHasOptions(group: string, c1: Panel)
  {
    group == "" && LeadsWithOptions(c1)
  }

  /** c2's inline options must be repeated in front of a non-empty c3. */
  predicate AddsOptions(c2: Panel, c3: Panel)
  {
    DirectOptions(c2) && |c3.sequenceNodes| > 0 && |InlineOptionList(c2)| > 0
  }

  /** c3 is covered for its own options only when c2 has none. */
  predicate ThirdHasOptions(c2: Panel, c3: Panel)
  {
    !DirectOptions(c2) && DirectOptions(c3)
  }

  /** The options atom condensed from c2's inline options. */
  function OptionsAtomOf(c2: Panel): Node
  {
    NewSingle(C2OptionsText(InlineOptionList(c2)), InlineOptions)
  }

  /** c3 after the style-1 rewrite. */
  function ThirdPart(c2: Panel, c3: Panel): Panel
  {
    if AddsOptions(c2, c3) then Covered(PrefixOptions(c3, OptionsAtomOf(c2)))
    else if ThirdHasOptions(c2, c3) then Covered(c3)
    else c3
  }

  /** The cover flags recorded by any style other than 1. */
  function CoversOf(group: string, c1: Panel, c2: Panel, c3: Panel): Covers
  {
    Covers(FirstHasOptions(group, c1), DirectOptions(c2), AddsOptions(c2, c3) || ThirdHasOptions(c2, c3),
           if AddsOptions(c2, c3) then C2OptionsText(InlineOptionList(c2)) else "")
  }

  /** `new ReCondition(...)` for a group or an expression, with the fields the builder sets afterwards. */
  function Construct(group: string, c1: Panel, c2: Panel, c3: Panel, twoBranches: bool, covers: Covers,
                     named: map<string, string>): Cond
  {
    if |group| > 0 then
      CondOfGroup(group, c2, c3, "").(haveNoBanch := twoBranches, pattern2dotNET5 := covers,
                                      conditionGroup2RdName := if group in named then named[group] else "")
    else
      CondOfExpression(c1, c2, c3, "").(haveNoBanch := twoBranches,
                                        invalidateNearestNumberedGroup := |c1.groupingConstruct| > 0,
                                        pattern2dotNET5 := covers)
  }

  /** The compatibility rewrite and the choice of constructor. */
  function Rewrite(group: string, c1: Panel, c2: Panel, c3: Panel, twoBranches: bool, style: int,
                   named: map<string, string>): Assembled
  {
    var contains := FirstHasOptions(group, c1) || DirectOptions(c2) || ThirdHasOptions(c2, c3);
    if style == 1 then
      var c1' := if FirstHasOptions(group, c1) then Covered(c1) else c1;
      var c2' := if DirectOptions(c2) then Covered(c2) else c2;
      Assembled(CondNode(Construct(group, c1', c2', ThirdPart(c2, c3), twoBranches, NoCovers, named)), contains)
    else
      Assembled(CondNode(Construct(group, c1, c2, c3, twoBranches, CoversOf(group, c1, c2, c3), named)), contains)
  }

  /** The yes-branch after c1: the second node if it is the only other one and a panel, else a panel of the rest. */
  function YesBranch(first: seq<Node>): Panel
    requires |first| > 0
  {
    if |first| == 2 && first[1].PanelNode? then first[1].panel else PanelOfList(first[1..], "")
  }

  /** The no-branch: its only node if that is a panel, else a panel of its nodes; empty without a second branch. */
  function NoBranch(branches: seq<seq<Node>>): Panel
  {
    if |branches| == 2 then
      if |branches[1]| == 1 && branches[1][0].PanelNode? then branches[1][0].panel else PanelOfList(branches[1], "")
    else PanelOfList([], "")
  }

  /**
   * The `)` of a conditional frame, given the frame's branches so far and its
   * current node list. A second `|` is refused; an empty last branch is dropped;
   * the first node must be the condition panel.
   */
  function AssembleCondition(alternation: seq<seq<Node>>, current: seq<Node>, style: int, reg: Registry,
                             engine: Engine): Result<Assembled>
  {
    if |alternation| > 1 then Err(TooManyBars)
    else
      var branches := Branches(alternation, current);
      if |branches| == 0 || |branches[0]| == 0 || !branches[0][0].PanelNode? then Err(MalformedTokens)
      else
        var c1 := branches[0][0].panel;
        match ConditionGroup(c1, reg.known, engine)
        case Err(e) => Err(e)
        case Ok(group) =>
          Ok(Rewrite(group, c1, YesBranch(branches[0]), NoBranch(branches), |branches| == 2, style, reg.named))
  }

  // ---------------------------------------------------------------------------
  // What the rewrite promises.

  lemma CoveredPattern(p: Panel)
    ensures PanelPattern(Covered(p)) == "(?:" + PanelPattern(p) + ")"
  {
    var inner := PanelOf(PanelNode(p), "");
    PanelPatternConstruct(inner, "?:");
    assert inner.(groupingConstruct := ["?:"] + inner.groupingConstruct) == Covered(p);
    FreshPanelPattern(inner);
    SeqPatternOne(PanelNode(p));
  }

  lemma PrefixOptionsPattern(c3: Panel, text: string)
    ensures PanelPattern(PrefixOptions(c3, NewSingle(text, InlineOptions))) == text + PanelPattern(c3)
  {
    var atom := NewSingle(text, InlineOptions);
    SeqPatternOne(atom);
    if |c3.groupingConstruct| == 0 && !c3.addBracket {
      SeqPatternAppend([atom], c3.sequenceNodes);
      assert Openers([]) == "";
    } else {
      var both := PanelOfList([atom, PanelNode(c3)], "");
      FreshPanelPattern(both);
      assert [atom, PanelNode(c3)] == [atom] + [PanelNode(c3)];
      SeqPatternAppend([atom], [PanelNode(c3)]);
      SeqPatternOne(PanelNode(c3));
    }
  }

  /** The text of the first part: `(group)` for a group condition, else c1, covered when it leads with options. */
  function FirstPartText(group: string, c1: Panel): string
  {
    if |group| > 0 then "(" + group + ")" else Cover(FirstHasOptions(group, c1), PanelPattern(c1))
  }

  /** The text of the no-branch: covered, with the condensed options of c2 in front, when c2's options reach it. */
  function ThirdPartText(c2: Panel, c3: Panel): string
  {
    Cover(AddsOptions(c2, c3) || ThirdHasOptions(c2, c3),
          (if AddsOptions(c2, c3) then C2OptionsText(InlineOptionList(c2)) else "") + PanelPattern(c3))
  }

  /**
   * The .NET5-compatible text of a conditional, independent of the style: each
   * part that directly holds options is covered by `(?:...)`, and c2's options are
   * repeated in front of c3.
   */
  function CompatibleText(group: string, c1: Panel, c2: Panel, c3: Panel, twoBranches: bool): string
  {
    "(?" + FirstPartText(group, c1) + Cover(DirectOptions(c2), PanelPattern(c2)) + Bar(twoBranches)
    + ThirdPartText(c2, c3) + ")"
  }


  lemma ThirdPartPattern(c2: Panel, c3: Panel)
    ensures PanelPattern(ThirdPart(c2, c3)) == ThirdPartText(c2, c3)
  {
    if AddsOptions(c2, c3) {
      var text := C2OptionsText(InlineOptionList(c2));
      CoveredPattern(PrefixOptions(c3, OptionsAtomOf(c2)));
      PrefixOptionsPattern(c3, text);
    } else if ThirdHasOptions(c2, c3) {
      CoveredPattern(c3);
      assert "" + PanelPattern(c3) == PanelPattern(c3);
    } else {
      assert "" + PanelPattern(c3) == PanelPattern(c3);
    }
  }

  lemma CoverStyle1(flag: bool, p: Panel)
    ensures PanelPattern(if flag then Covered(p) else p) == Cover(flag, PanelPattern(p))
  {
    if flag {
      CoveredPattern(p);
    }
  }

  /** Marking c1 as the test does not change its text. */
  lemma ConditionMarkPattern(p: Panel)
    ensures PanelPattern(p.(isCondition := true)) == PanelPattern(p)
  {
    assert PanelBody(p.(isCondition := true)) == PanelBody(p);
  }

  /** The test part of a constructed condition. */
  lemma ConstructTest(group: string, c1: Panel, c2: Panel, c3: Panel, twoBranches: bool, covers: Covers,
                      named: map<string, string>)
    ensures CondTest(Construct(group, c1, c2, c3, twoBranches, covers, named))
         == if |group| > 0 then "(" + group + ")" else Cover(covers.c1Cover, PanelPattern(c1))
  {
    ConditionMarkPattern(c1);
  }

  /** Style 1 moves the covers into the tree; the text is the compatible text. */
  lemma RewriteTextStyle1(group: string, c1: Panel, c2: Panel, c3: Panel, twoBranches: bool, named: map<string, string>)
    ensures GetUnitPattern(Rewrite(group, c1, c2, c3, twoBranches, 1, named).node)
         == CompatibleText(group, c1, c2, c3, twoBranches)
  {
    var c1' := if FirstHasOptions(group, c1) then Covered(c1) else c1;
    var c2' := if DirectOptions(c2) then Covered(c2) else c2;
    var cond := Construct(group, c1', c2', ThirdPart(c2, c3), twoBranches, NoCovers, named);
    assert Rewrite(group, c1, c2, c3, twoBranches, 1, named).node == CondNode(cond);
    CoverStyle1(FirstHasOptions(group, c1), c1);
    CoverStyle1(DirectOptions(c2), c2);
    ThirdPartPattern(c2, c3);
    ConstructTest(group, c1', c2', ThirdPart(c2, c3), twoBranches, NoCovers, named);
    assert "" + PanelPattern(ThirdPart(c2, c3)) == PanelPattern(ThirdPart(c2, c3));
  }

  /** Any other style keeps the parts and records the covers; the text is the same compatible text. */
  lemma RewriteTextStyle0(group: string, c1: Panel, c2: Panel, c3: Panel, twoBranches: bool, style: int,
                          named: map<string, string>)
    requires style != 1
    ensures GetUnitPattern(Rewrite(group, c1, c2, c3, twoBranches, style, named).node)
         == CompatibleText(group, c1, c2, c3, twoBranches)
  {
    var covers := CoversOf(group, c1, c2, c3);
    var cond := Construct(group, c1, c2, c3, twoBranches, covers, named);
    assert Rewrite(group, c1, c2, c3, twoBranches, style, named).node == CondNode(cond);
    ConstructTest(group, c1, c2, c3, twoBranches, covers, named);
  }

  /**
   * Both rewrite styles render the same text and report options alike; style 1 leaves
   * no cover flags, and an expression condition is marked as invalidating the next
   * numbered group exactly when its c1 has a construct.
   */
  lemma RewriteStylesAgree(group: string, c1: Panel, c2: Panel, c3: Panel, twoBranches: bool, style: int,
                           named: map<string, string>)
    ensures var r := Rewrite(group, c1, c2, c3, twoBranches, style, named);
      var r1 := Rewrite(group, c1, c2, c3, twoBranches, 1, named);
      && GetUnitPattern(r.node) == GetUnitPattern(r1.node) == CompatibleText(group, c1, c2, c3, twoBranches)
      && r.containsOption == r1.containsOption
      && r.node.CondNode? && r.node.cond.haveNoBanch == twoBranches
      && r1.node.cond.pattern2dotNET5 == NoCovers
      && (|group| > 0 <==> r.node.cond.condition1.None?)
      && (|group| == 0 ==> (r.node.cond.invalidateNearestNumberedGroup <==> |c1.groupingConstruct| > 0))
  {
    RewriteTextStyle1(group, c1, c2, c3, twoBranches, named);
    if style != 1 {
      RewriteTextStyle0(group, c1, c2, c3, twoBranches, style, named);
    }
  }

  /** Without options anywhere the rewrite changes nothing: the text is the parts' own text. */
  lemma RewriteWithoutOptions(group: string, c1: Panel, c2: Panel, c3: Panel, twoBranches: bool, style: int,
                              named: map<string, string>)
    requires !Rewrite(group, c1, c2, c3, twoBranches, style, named).containsOption
    ensures GetUnitPattern(Rewrite(group, c1, c2, c3, twoBranches, style, named).node)
         == "(?" + (if |group| > 0 then "(" + group + ")" else PanelPattern(c1)) + PanelPattern(c2)
            + Bar(twoBranches) + PanelPattern(c3) + ")"
  {
    RewriteStylesAgree(group, c1, c2, c3, twoBranches, style, named);
  }

  // ---------------------------------------------------------------------------
  // What the assembly promises.

  /** c1 is a plain bracket around a single word-character atom naming a known group. */
  predicate NamesKnownGroup(c1: Panel, known: set<string>, engine: Engine)
  {
    c1.addBracket && |c1.sequenceNodes| == 1 && c1.sequenceNodes[0].Single?
    && var s := c1.sequenceNodes[0].pattern;
      |s| > 0 && IsWordChar(s[0], engine.unicodeWord) && s in known
  }

  /**
   * The test names a group exactly when it is a known one; an unknown number is an
   * error when the engine rejects the pattern; anything else is an expression.
   */
  lemma ConditionGroupCases(c1: Panel, known: set<string>, engine: Engine)
    ensures var r := ConditionGroup(c1, known, engine);
      && (r.Ok? && |r.value| > 0 <==> NamesKnownGroup(c1, known, engine))
      && (r.Ok? && |r.value| > 0 ==> r.value == c1.sequenceNodes[0].pattern)
      && (r.Err? <==> c1.addBracket && |c1.sequenceNodes| == 1 && c1.sequenceNodes[0].Single?
                      && var s := c1.sequenceNodes[0].pattern;
                         |s| > 0 && IsDigit(s[0]) && s !in known && engine.rejectsPattern)
      && (r.Err? ==> r.error == UndefinedGroupNumber(c1.sequenceNodes[0].pattern))
  {
    if c1.addBracket && |c1.sequenceNodes| == 1 && c1.sequenceNodes[0].Single? {
      var s := c1.sequenceNodes[0].pattern;
      if |s| > 0 && IsDigit(s[0]) {
        AsciiWordChars(s[0], engine.unicodeWord);
      }
    }
  }

  /** The yes-branch keeps the text of the first branch after the test. */
  lemma YesBranchPattern(first: seq<Node>)
    requires |first| > 0
    ensures PanelPattern(YesBranch(first)) == SeqPattern(first[1..])
  {
    if |first| == 2 && first[1].PanelNode? {
      assert first[1..] == [first[1]];
      SeqPatternOne(first[1]);
    } else {
      FreshPanelPattern(PanelOfList(first[1..], ""));
    }
  }

  /** The no-branch keeps the text of the second branch, and is empty without one. */
  lemma NoBranchPattern(branches: seq<seq<Node>>)
    ensures PanelPattern(NoBranch(branches)) == if |branches| == 2 then SeqPattern(branches[1]) else ""
  {
    if |branches| == 2 && |branches[1]| == 1 && branches[1][0].PanelNode? {
      SeqPatternOne(branches[1][0]);
    } else {
      FreshPanelPattern(NoBranch(branches));
    }
  }

  /** The first node of the first branch is split off as the test; the rest of the branch follows it. */
  lemma FirstBranchSplit(first: seq<Node>)
    requires |first| > 0
    ensures SeqPattern(first) == GetUnitPattern(first[0]) + SeqPattern(first[1..])
  {
    assert first == [first[0]] + first[1..];
    SeqPatternAppend([first[0]], first[1..]);
    SeqPatternOne(first[0]);
  }

  /** The branches a conditional frame hands to the rewrite, the last one dropped when empty. */
  function Branches(alternation: seq<seq<Node>>, current: seq<Node>): seq<seq<Node>>
  {
    if |current| > 0 then alternation + [current] else alternation
  }

  /** The error cases of the assembly, each in both directions. */
  lemma AssembleConditionErrors(alternation: seq<seq<Node>>, current: seq<Node>, style: int, reg: Registry,
                                engine: Engine)
    ensures var r := AssembleCondition(alternation, current, style, reg, engine);
      var b := Branches(alternation, current);
      && (r == Err(TooManyBars) <==> |alternation| > 1)
      && (r == Err(MalformedTokens) <==> |alternation| <= 1 && (|b| == 0 || |b[0]| == 0 || !b[0][0].PanelNode?))
      && (r.Ok? <==> |alternation| <= 1 && |b| > 0 && |b[0]| > 0 && b[0][0].PanelNode?
                     && ConditionGroup(b[0][0].panel, reg.known, engine).Ok?)
  {
    var b: seq<seq<Node>> := Branches(alternation, current);
    if |alternation| <= 1 && |b| > 0 && |b[0]| > 0 && b[0][0].PanelNode? {
      ConditionGroupCases(b[0][0].panel, reg.known, engine);
    }
  }

  /** A successful assembly: a no-branch exactly when the frame saw a `|` and something after it, a group test exactly when c1 names a known group. */
  lemma AssembleConditionFlags(alternation: seq<seq<Node>>, current: seq<Node>, style: int, reg: Registry,
                               engine: Engine)
    requires AssembleCondition(alternation, current, style, reg, engine).Ok?
    ensures var a := AssembleCondition(alternation, current, style, reg, engine).value;
      var c1 := Branches(alternation, current)[0][0].panel;
      && a.node.CondNode?
      && (a.node.cond.haveNoBanch <==> |alternation| == 1 && |current| > 0)
      && (a.node.cond.condition1.None? <==> NamesKnownGroup(c1, reg.known, engine))
  {
    var b: seq<seq<Node>> := Branches(alternation, current);
    var c1 := b[0][0].panel;
    ConditionGroupCases(c1, reg.known, engine);
    var group := ConditionGroup(c1, reg.known, engine).value;
    assert AssembleCondition(alternation, current, style, reg, engine).value
        == Rewrite(group, c1, YesBranch(b[0]), NoBranch(b), |b| == 2, style, reg.named);
    RewriteStylesAgree(group, c1, YesBranch(b[0]), NoBranch(b), |b| == 2, style, reg.named);
  }

  /**
   * When no option had to be moved, the assembled condition renders as `(?`, the
   * test, the rest of the first branch, `|` and the second branch when there is one, `)`.
   */
  lemma AssembleConditionText(alternation: seq<seq<Node>>, current: seq<Node>, style: int, reg: Registry,
                              engine: Engine)
    requires AssembleCondition(alternation, current, style, reg, engine).Ok?
    requires !AssembleCondition(alternation, current, style, reg, engine).value.containsOption
    ensures var a := AssembleCondition(alternation, current, style, reg, engine).value;
      var b := Branches(alternation, current);
      var c1 := b[0][0].panel;
      var test := if NamesKnownGroup(c1, reg.known, engine) then "(" + c1.sequenceNodes[0].pattern + ")"
                  else PanelPattern(c1);
      GetUnitPattern(a.node)
      == "(?" + test + SeqPattern(b[0][1..]) + Bar(|b| == 2) + (if |b| == 2 then SeqPattern(b[1]) else "") + ")"
  {
    var b: seq<seq<Node>> := Branches(alternation, current);
    var first := b[0];
    var c1 := first[0].panel;
    ConditionGroupCases(c1, reg.known, engine);
    var group := ConditionGroup(c1, reg.known, engine).value;
    assert AssembleCondition(alternation, current, style, reg, engine).value
        == Rewrite(group, c1, YesBranch(first), NoBranch(b), |b| == 2, style, reg.named);
    RewriteWithoutOptions(group, c1, YesBranch(first), NoBranch(b), |b| == 2, style, reg.named);
    YesBranchPattern(first);
    NoBranchPattern(b);
  }
}
