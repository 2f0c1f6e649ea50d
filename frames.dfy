/**
 * The builder's stack frames (RegexPrefix, RegexParse.cs:927-990) and what happens
 * when one closes: the contents fold into one node (RegexParse.cs:456-510, and the
 * root fold at 688-715), the frame's bracket or construct is put around it
 * (510-527), and a named construct looks up the other name of its groups
 * (SetGroupAnotherName, 1057-1084). Trivia atoms (inline comments, end-of-line
 * comments, ignored white space) are built here too (536-545).
 */
module Frames {
  import opened Common
  import opened Nodes
  import opened Serializer
  import Quantifier

  /** RegexPrefixType, without the Unit kind no frame ever has. */
  datatype PrefixType = GroupingConstruct | LeftBracket | Conditional

  /**
   * RegexPrefix: what opened the frame, the number of a numbered group (-1 when not
   * numbered), the current branch, and the branches closed by `|` so far.
   */
  datatype Frame = Frame(kind: PrefixType, pattern: string, groupingNumber: int, nodes: seq<Node>,
                         alternation: seq<seq<Node>>)

  /** `new RegexPrefix(prefix)` for a prefix that starts with `(`. */
  function NewFrame(prefix: string): Frame
    requires |prefix| > 0 && prefix[0] == '('
  {
    if |prefix| > 1 && prefix[1] == '?' then
      if |prefix| == 2 then Frame(Conditional, "", -1, [], [])
      else Frame(GroupingConstruct, prefix[1..], -1, [], [])
    else Frame(LeftBracket, "", -1, [], [])
  }

  /**
   * `(?` alone opens a conditional, any longer `(?...` a grouping construct whose
   * text, after the `(`, is kept; everything else is a bracket. A new frame is empty
   * and unnumbered.
   */
  lemma NewFrameKinds(prefix: string)
    requires |prefix| > 0 && prefix[0] == '('
    ensures var f := NewFrame(prefix);
      && (f.kind == Conditional <==> prefix == "(?")
      && (f.kind == GroupingConstruct <==> |prefix| > 2 && prefix[1] == '?')
      && (f.kind == GroupingConstruct ==> "(" + f.pattern == prefix)
      && (f.kind != GroupingConstruct ==> f.pattern == "")
      && f.groupingNumber == -1 && f.nodes == [] && f.alternation == []
  {
    if |prefix| == 2 && prefix[1] == '?' {
      assert prefix == "(?";
    }
    if |prefix| > 2 && prefix[1] == '?' {
      assert prefix == [prefix[0]] + prefix[1..];
    }
  }

  /** The virtual bracket at the bottom of the stack. */
  function RootFrame(): Frame
  {
    NewFrame("(")
  }

  /** `Peek().RegexNodeList.Add(n)` */
  function AddNode(f: Frame, n: Node): (r: Frame)
    ensures r.nodes == f.nodes + [n]
    ensures r == f.(nodes := r.nodes)
  {
    f.(nodes := f.nodes + [n])
  }

  /** `|`: the current branch (a `new ReSingle()` when empty) joins the closed branches and a new one starts. */
  function NewBranch(f: Frame): (r: Frame)
    ensures |r.alternation| == |f.alternation| + 1 && r.alternation[..|f.alternation|] == f.alternation
    ensures r.alternation[|f.alternation|] == (if |f.nodes| == 0 then [EmptySingle()] else f.nodes)
    ensures r.nodes == [] && r.kind == f.kind && r.pattern == f.pattern && r.groupingNumber == f.groupingNumber
  {
    f.(alternation := f.alternation + [if |f.nodes| == 0 then [EmptySingle()] else f.nodes], nodes := [])
  }

  // ---------------------------------------------------------------------------
  // Trivia

  /** The atom for a captured comment or run of ignored white space. */
  function Trivia(sc: string): (n: Node)
    requires |sc| > 0
    ensures n.Single? && n.pattern == sc && n.isReference == None
    ensures n.singleType == (if sc[0] == '(' then InlineComment else if sc[0] == '#' then EndofLineComment else Default)
  {
    if sc[0] == '(' then NewSingle(sc, InlineComment)
    else if sc[0] == '#' then NewSingle(sc, EndofLineComment)
    else NewSingle(sc)
  }

  // ---------------------------------------------------------------------------
  // SetGroupAnotherName

  /** A construct that may name groups: longer than three characters and closed by `'` or `>`. */
  predicate NamesGroups(construct: string)
  {
    |construct| > 3 && (construct[|construct| - 1] == '\'' || construct[|construct| - 1] == '>')
  }

  /** The capture name and the balancing name of `?<capture-balance>` (or `?'...'`); no `-` means no balancing name. */
  function CaptureAndBalance(construct: string): (string, string)
    requires NamesGroups(construct)
  {
    var sub := Quantifier.IndexOfFrom(construct, '-', 2);
    if sub > 0 then (construct[2..sub], construct[sub + 1..|construct| - 1])
    else (construct[2..|construct| - 1], "")
  }

  /** The names split the construct at its first `-` after the opening two characters, and lose nothing. */
  lemma CaptureAndBalanceSplit(construct: string)
    requires NamesGroups(construct)
    ensures var (capture, balance) := CaptureAndBalance(construct);
      var last := [construct[|construct| - 1]];
      && (forall k :: 0 <= k < |capture| ==> capture[k] != '-')
      && ('-' in construct[2..] ==> construct == construct[..2] + capture + "-" + balance + last)
      && ('-' !in construct[2..] ==> construct == construct[..2] + capture + last && balance == "")
  {
    var sub := Quantifier.IndexOfFrom(construct, '-', 2);
    var last := [construct[|construct| - 1]];
    if sub > 0 {
      assert '-' in construct[2..] by { assert construct[2..][sub - 2] == '-'; }
      assert construct == construct[..2] + construct[2..sub] + [construct[sub]] + construct[sub + 1..|construct| - 1] + last;
    } else {
      assert '-' !in construct[2..] by {
        forall k | 0 <= k < |construct| - 2 ensures construct[2..][k] != '-' {
          assert construct[2..][k] == construct[k + 2];
        }
      }
      assert construct == construct[..2] + construct[2..|construct| - 1] + last;
    }
  }

  /** `panel.SetGroupAnotherName(map, construct)`: records the registry's other name of each named group. */
  function SetGroupAnotherName(p: Panel, named: map<string, string>, construct: string): Panel
  {
    if NamesGroups(construct) then
      var (capture, balance) := CaptureAndBalance(construct);
      p.(captureGroup2rdName := if capture in named then named[capture] else p.captureGroup2rdName,
         balancingGroup2rdName := if balance in named then named[balance] else p.balancingGroup2rdName)
    else p
  }

  /**
   * Only the two other-name fields change, and each to the registry entry of its
   * name exactly when the construct names groups and the name is a key.
   */
  lemma SetGroupAnotherNameEffect(p: Panel, named: map<string, string>, construct: string)
    ensures var r := SetGroupAnotherName(p, named, construct);
      && r == p.(captureGroup2rdName := r.captureGroup2rdName, balancingGroup2rdName := r.balancingGroup2rdName)
      && PanelPattern(r) == PanelPattern(p)
      && (r.captureGroup2rdName != p.captureGroup2rdName ==>
            NamesGroups(construct) && CaptureAndBalance(construct).0 in named
            && r.captureGroup2rdName == named[CaptureAndBalance(construct).0])
      && (NamesGroups(construct) && CaptureAndBalance(construct).0 in named ==>
            r.captureGroup2rdName == named[CaptureAndBalance(construct).0])
      && (r.balancingGroup2rdName != p.balancingGroup2rdName ==>
            NamesGroups(construct) && CaptureAndBalance(construct).1 in named
            && r.balancingGroup2rdName == named[CaptureAndBalance(construct).1])
      && (NamesGroups(construct) && CaptureAndBalance(construct).1 in named ==>
            r.balancingGroup2rdName == named[CaptureAndBalance(construct).1])
  {
    var r := SetGroupAnotherName(p, named, construct);
    assert PanelBody(r) == PanelBody(p);
  }

  // ---------------------------------------------------------------------------
  // Folding a frame

  /** A branch as one node: its only node, else a panel of its nodes; at the root an alternation alone is wrapped. */
  function BranchNode(l: seq<Node>, atRoot: bool): Node
  {
    if |l| == 1 then (if atRoot && l[0].Line? then PanelNode(PanelOf(l[0], "")) else l[0])
    else PanelNode(PanelOfList(l, ""))
  }

  function BranchNodes(ls: seq<seq<Node>>, atRoot: bool): (r: seq<Node>)
    ensures |r| == |ls|
  {
    if |ls| == 0 then [] else BranchNodes(ls[..|ls| - 1], atRoot) + [BranchNode(ls[|ls| - 1], atRoot)]
  }

  /** The branches of a frame once the current one is closed; an empty last branch becomes `new ReSingle()`. */
  function ClosedBranches(f: Frame): seq<seq<Node>>
  {
    f.alternation + [if |f.nodes| == 0 then [EmptySingle()] else f.nodes]
  }

  /** The node a frame's contents fold into, before the frame's own bracket or construct is added. */
  function FoldContents(f: Frame, atRoot: bool): Node
  {
    if |f.alternation| > 0 then Line(BranchNodes(ClosedBranches(f), atRoot))
    else if atRoot then (if |f.nodes| == 1 then f.nodes[0] else PanelNode(PanelOfList(f.nodes, "")))
    else if |f.nodes| == 0 then EmptySingle()
    else if |f.nodes| == 1 then f.nodes[0]
    else PanelNode(PanelOfList(f.nodes, ""))
  }

  /** `)` on a bracket or construct frame: the folded contents inside a bracket (keeping the number) or the construct. */
  function CloseGroup(f: Frame, named: map<string, string>): Node
    requires f.kind != Conditional
  {
    var result := FoldContents(f, false);
    if f.kind == LeftBracket then
      PanelNode(PanelOf(result, "").(addBracket := true, groupingNumber := f.groupingNumber))
    else
      PanelNode(SetGroupAnotherName(PanelOf(result, "").(groupingConstruct := [f.pattern]), named, f.pattern))
  }

  /** The branches' texts joined by `|`. */
  function BranchesText(ls: seq<seq<Node>>): string
  {
    if |ls| == 0 then ""
    else if |ls| == 1 then SeqPattern(ls[0])
    else BranchesText(ls[..|ls| - 1]) + "|" + SeqPattern(ls[|ls| - 1])
  }

  /** The text a frame holds: its closed branches and the current one, joined by `|`. */
  function FrameText(f: Frame): string
  {
    BranchesText(f.alternation + [f.nodes])
  }

  lemma BranchNodeText(l: seq<Node>, atRoot: bool)
    ensures GetUnitPattern(BranchNode(l, atRoot)) == SeqPattern(l)
  {
    if |l| == 1 {
      SeqPatternOne(l[0]);
      if atRoot && l[0].Line? {
        FreshPanelPattern(PanelOf(l[0], ""));
      }
    } else {
      FreshPanelPattern(PanelOfList(l, ""));
    }
  }

  /** Each branch's node renders as the branch, in the same place. */
  lemma {:induction false} BranchNodesOrder(ls: seq<seq<Node>>, atRoot: bool)
    ensures forall k :: 0 <= k < |ls| ==> GetUnitPattern(BranchNodes(ls, atRoot)[k]) == SeqPattern(ls[k])
    decreases |ls|
  {
    if |ls| > 0 {
      BranchNodesOrder(ls[..|ls| - 1], atRoot);
      BranchNodeText(ls[|ls| - 1], atRoot);
    }
  }

  /** The alternation of the branch nodes renders as the branches joined by `|`. */
  lemma {:induction false} BranchNodesText(ls: seq<seq<Node>>, atRoot: bool)
    ensures LinePattern(BranchNodes(ls, atRoot)) == BranchesText(ls)
    decreases |ls|
  {
    if |ls| == 1 {
      BranchNodeText(ls[0], atRoot);
    } else if |ls| > 1 {
      var init := ls[..|ls| - 1];
      BranchNodesText(init, atRoot);
      BranchNodeText(ls[|ls| - 1], atRoot);
      var ns := BranchNodes(ls, atRoot);
      assert ns[..|ns| - 1] == BranchNodes(init, atRoot);
    }
  }

  /** Replacing an empty last branch by `new ReSingle()` does not change the text. */
  lemma ClosedBranchesText(f: Frame)
    ensures BranchesText(ClosedBranches(f)) == FrameText(f)
  {
    var ls := ClosedBranches(f);
    var ks := f.alternation + [f.nodes];
    assert ls[..|ls| - 1] == ks[..|ks| - 1];
    if |f.nodes| == 0 {
      SeqPatternOne(EmptySingle());
    }
  }

  /** Folding loses no text: the folded node renders as the frame's branches joined by `|`. */
  lemma FoldContentsText(f: Frame, atRoot: bool)
    ensures GetUnitPattern(FoldContents(f, atRoot)) == FrameText(f)
  {
    if |f.alternation| > 0 {
      BranchNodesText(ClosedBranches(f), atRoot);
      ClosedBranchesText(f);
    } else {
      assert f.alternation + [f.nodes] == [f.nodes];
      if |f.nodes| == 1 {
        SeqPatternOne(f.nodes[0]);
      } else if |f.nodes| > 1 || atRoot {
        FreshPanelPattern(PanelOfList(f.nodes, ""));
      }
    }
  }

  /**
   * Closing a bracket or construct frame gives back its text: `(`, the construct,
   * the branches, `)`. A bracket keeps its group number, a construct its text.
   */
  lemma CloseGroupText(f: Frame, named: map<string, string>)
    requires f.kind != Conditional
    ensures var n := CloseGroup(f, named);
      GetUnitPattern(n) == "(" + (if f.kind == GroupingConstruct then f.pattern else "") + FrameText(f) + ")"
    ensures var n := CloseGroup(f, named);
      && n.PanelNode? && n.panel.quantifier == ""
      && (f.kind == LeftBracket ==> n.panel.addBracket && n.panel.groupingNumber == f.groupingNumber
                                    && n.panel.groupingConstruct == [])
      && (f.kind == GroupingConstruct ==> !n.panel.addBracket && n.panel.groupingConstruct == [f.pattern])
  {
    var result := FoldContents(f, false);
    FoldContentsText(f, false);
    SeqPatternOne(result);
    if f.kind == LeftBracket {
      BracketText(result, f.groupingNumber);
    } else {
      ConstructText(result, named, f.pattern);
    }
  }

  /** A node in a fresh bracket renders inside `(` and `)`. */
  lemma BracketText(result: Node, number: int)
    ensures PanelPattern(PanelOf(result, "").(addBracket := true, groupingNumber := number))
         == "(" + SeqPattern([result]) + ")"
  {
    var p := PanelOf(result, "").(addBracket := true, groupingNumber := number);
    assert Openers([]) == "";
    assert PanelBody(p) == "(" + SeqPattern([result]) + "" + ")";
  }

  /** A node under a fresh construct renders inside `(`, the construct, and `)`. */
  lemma ConstructText(result: Node, named: map<string, string>, construct: string)
    ensures PanelPattern(SetGroupAnotherName(PanelOf(result, "").(groupingConstruct := [construct]), named, construct))
         == "(" + construct + SeqPattern([result]) + ")"
  {
    var inner := PanelOf(result, "");
    PanelPatternConstruct(inner, construct);
    assert inner.(groupingConstruct := [construct] + inner.groupingConstruct) == inner.(groupingConstruct := [construct]);
    FreshPanelPattern(inner);
    assert PanelPattern(inner) == SeqPattern([result]);
    SetGroupAnotherNameEffect(inner.(groupingConstruct := [construct]), named, construct);
  }
}
