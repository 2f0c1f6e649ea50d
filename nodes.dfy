/**
 * The four AST node kinds built by the parser: ReSingle (an atom), RePanel (a
 * sequence, a group or a quantified unit), Reline (an alternation) and ReCondition
 * (a conditional construct), together with their constructors.
 */
module Nodes {
  import opened Common

  /** The kinds of atom, in declaration order. */
  datatype SingleType =
    | Default
    | CharacterGroup
    | Backreference
    | PatternMiddleOption
    | InlineComment
    | Anchor
    | InlineOptions
    | CharacterClasses
    | EndofLineComment

  datatype Node =
    /** ReSingle: `isReference` is None unless a numeric escape decided it */
    | Single(pattern: string, singleType: SingleType, isReference: Option<bool>)
    | PanelNode(panel: Panel)
    /** Reline: branches in match-priority order */
    | Line(alternationNodes: seq<Node>)
    | CondNode(cond: Cond)

  /**
   * RePanel. `groupingConstruct` holds construct texts without their opening
   * paren (`?:`, `?>`, `?<name1-name2>`, `?i:` ...), outermost first.
   */
  datatype Panel = Panel(
    sequenceNodes: seq<Node>,
    quantifier: string,
    addBracket: bool,
    groupingNumber: int,
    captureGroup2rdName: string,
    balancingGroup2rdName: string,
    groupingConstruct: seq<string>,
    isCondition: bool)

  /** ReCondition.pattern2dotNET5: what the annotate-only rewrite asks the serializer to add. */
  datatype Covers = Covers(c1Cover: bool, c2Cover: bool, c3Cover: bool, c3AddOptions: string)

  /** ReCondition, `(?(c1)c2|c3)`; `condition1` is None when the group constructor built it. */
  datatype Cond = Cond(
    condition1: Option<Panel>,
    condition2: Panel,
    condition3: Panel,
    conditionGroup: string,
    conditionGroup2RdName: string,
    invalidateNearestNumberedGroup: bool,
    haveNoBanch: bool,
    pattern2dotNET5: Covers)

  const NoCovers := Covers(false, false, false, "")

  /** `new ReSingle()` */
  function EmptySingle(): (n: Node)
    ensures n.Single? && n.pattern == "" && n.singleType == Default && n.isReference == None
  {
    Single("", Default, None)
  }

  /** `new ReSingle(content, type)`; the type defaults to Default and no reference flag is set. */
  function NewSingle(content: string, kind: SingleType := Default): (n: Node)
    ensures n.Single? && n.pattern == content && n.singleType == kind && n.isReference == None
  {
    Single(content, kind, None)
  }

  /** The field values of a panel that no one has changed since its construction. */
  predicate FreshPanelFields(p: Panel)
  {
    && !p.addBracket
    && p.groupingNumber == 0
    && p.captureGroup2rdName == ""
    && p.balancingGroup2rdName == ""
    && p.groupingConstruct == []
    && !p.isCondition
  }

  /** `new RePanel(deduce, num)`: one child. */
  function PanelOf(deduce: Node, num: string): (p: Panel)
    ensures p.sequenceNodes == [deduce] && p.quantifier == num && FreshPanelFields(p)
  {
    Panel([deduce], num, false, 0, "", "", [], false)
  }

  /** `new RePanel(list, num)`: the given children, in order. */
  function PanelOfList(list: seq<Node>, num: string): (p: Panel)
    ensures p.sequenceNodes == list && p.quantifier == num && FreshPanelFields(p)
  {
    Panel(list, num, false, 0, "", "", [], false)
  }

  /** `new Reline(list)`: a copy of the branches, same length, same order. */
  function NewLine(regularDeduces: seq<Node>): (n: Node)
    ensures n.Line? && |n.alternationNodes| == |regularDeduces|
    ensures forall i :: 0 <= i < |regularDeduces| ==> n.alternationNodes[i] == regularDeduces[i]
  {
    Line(regularDeduces)
  }

  /** The property defaults of a ReCondition. */
  predicate CondDefaults(c: Cond)
  {
    && c.haveNoBanch
    && !c.invalidateNearestNumberedGroup
    && c.conditionGroup2RdName == ""
    && c.pattern2dotNET5 == NoCovers
  }

  /** `new ReCondition(c1, c2, c3, matchtimes)`: an expression condition; marks c1 as the test. */
  function CondOfExpression(c1: Panel, c2: Panel, c3: Panel, matchtimes: string): (c: Cond)
    ensures c.condition1 == Some(c1.(isCondition := true))
    ensures c.condition2 == c2 && c.condition3 == c3 && c.conditionGroup == ""
    ensures CondDefaults(c)
  {
    Cond(Some(c1.(isCondition := true)), c2, c3, "", "", false, true, NoCovers)
  }

  /** `new ReCondition(group, c2, c3, matchtimes)`: a group condition; condition1 stays unset. */
  function CondOfGroup(group: string, c2: Panel, c3: Panel, matchtimes: string): (c: Cond)
    ensures c.condition1 == None && c.conditionGroup == group
    ensures c.condition2 == c2 && c.condition3 == c3
    ensures CondDefaults(c)
  {
    Cond(None, c2, c3, group, "", false, true, NoCovers)
  }

  /** The quantifier wrap used throughout the builder: `new RePanel(node, q)` when q is not empty. */
  function WithQuantifier(n: Node, quantifier: string): (r: Node)
    ensures |quantifier| == 0 ==> r == n
    ensures |quantifier| > 0 ==> r == PanelNode(PanelOf(n, quantifier))
  {
    if |quantifier| > 0 then PanelNode(PanelOf(n, quantifier)) else n
  }
}
