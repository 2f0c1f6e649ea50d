/**
 * GetUnitPattern: renders a tree back to pattern text. The C# version appends to a
 * StringBuilder; here it returns the text it would append.
 */
module Serializer {
  import opened Common
  import opened Nodes

  function GetUnitPattern(d: Node): string
    decreases d, 2
  {
    match d
    case Single(p, _, _) => p
    case PanelNode(p) => PanelPattern(p)
    case Line(branches) => LinePattern(branches)
    case CondNode(c) => CondPattern(c)
  }

  /** Each construct opens with `(` and closes with `)`, the bracket inside them, the quantifier inside the bracket. */
  function PanelPattern(p: Panel): string
    decreases p, 1
  {
    Openers(p.groupingConstruct) + PanelBody(p) + Closers(|p.groupingConstruct|)
  }

  /** What sits between the construct openers and closers: the bracket, the children, the quantifier. */
  function PanelBody(p: Panel): string
    decreases p, 0
  {
    (if p.addBracket then "(" else "")
    + SeqPattern(p.sequenceNodes)
    + p.quantifier
    + (if p.addBracket then ")" else "")
  }

  /** The children of a panel, one after another. */
  function SeqPattern(ns: seq<Node>): string
    decreases ns, 0
  {
    if |ns| == 0 then "" else SeqPattern(ns[..|ns| - 1]) + GetUnitPattern(ns[|ns| - 1])
  }

  /** The branches of an alternation joined by `|`; an alternation without branches renders as nothing. */
  function LinePattern(ns: seq<Node>): string
    decreases ns, 0
  {
    if |ns| == 0 then ""
    else if |ns| == 1 then GetUnitPattern(ns[0])
    else LinePattern(ns[..|ns| - 1]) + "|" + GetUnitPattern(ns[|ns| - 1])
  }

  function Closers(n: nat): string
  {
    if n == 0 then "" else Closers(n - 1) + ")"
  }

  /** `(?`, the test, c2 (covered when flagged), `|` when there is a no-branch, c3 after its cover and options, `)`. */
  function CondPattern(c: Cond): string
    decreases c, 1
  {
    var cv := c.pattern2dotNET5;
    "(?" + CondTest(c) + Cover(cv.c2Cover, PanelPattern(c.condition2)) + Bar(c.haveNoBanch)
    + Cover(cv.c3Cover, cv.c3AddOptions + PanelPattern(c.condition3)) + ")"
  }

  /** A group condition renders as `(group)`; an expression condition as its panel, covered when flagged. */
  function CondTest(c: Cond): string
    decreases c, 0
  {
    if |c.conditionGroup| > 0 then "(" + c.conditionGroup + ")"
    else if c.condition1.Some? then Cover(c.pattern2dotNET5.c1Cover, PanelPattern(c.condition1.value))
    else ""
  }

  function Bar(present: bool): string
  {
    if present then "|" else ""
  }

  /** `(?:` text `)` when the cover flag is set. */
  function Cover(flag: bool, text: string): string
  {
    if flag then "(?:" + text + ")" else text
  }

  // ---------------------------------------------------------------------------
  // Rendering laws.

  /** The children of a panel render one after another, so splitting a sequence splits its text. */
  lemma {:induction false} SeqPatternAppend(a: seq<Node>, b: seq<Node>)
    ensures SeqPattern(a + b) == SeqPattern(a) + SeqPattern(b)
    decreases |b|
  {
    if |b| == 0 {
      assert a + b == a;
    } else {
      assert (a + b)[..|a + b| - 1] == a + b[..|b| - 1];
      assert (a + b)[|a + b| - 1] == b[|b| - 1];
      SeqPatternAppend(a, b[..|b| - 1]);
    }
  }

  lemma SeqPatternOne(n: Node)
    ensures SeqPattern([n]) == GetUnitPattern(n)
  {
    assert [n][..0] == [];
  }

  /** A panel nobody has decorated renders as its children followed by its quantifier. */
  lemma FreshPanelPattern(p: Panel)
    requires FreshPanelFields(p)
    ensures PanelPattern(p) == SeqPattern(p.sequenceNodes) + p.quantifier
  {
  }

  /** A quantifier wrap appends the quantifier to the text. */
  lemma WithQuantifierPattern(n: Node, quantifier: string)
    ensures GetUnitPattern(WithQuantifier(n, quantifier)) == GetUnitPattern(n) + quantifier
  {
    if |quantifier| > 0 {
      FreshPanelPattern(PanelOf(n, quantifier));
      SeqPatternOne(n);
    }
  }

  lemma ClosersPrepend(n: nat)
    ensures Closers(n + 1) == ")" + Closers(n)
    ensures |Closers(n)| == n
  {
    if n > 0 {
      ClosersPrepend(n - 1);
    }
  }

  /** `(` followed by the construct text, for each construct, outermost first. */
  function Openers(cs: seq<string>): string
  {
    Concat(seq(|cs|, i requires 0 <= i < |cs| => "(" + cs[i]))
  }

  lemma OpenersPrepend(c: string, cs: seq<string>)
    ensures Openers([c] + cs) == "(" + c + Openers(cs)
  {
    var whole := seq(|[c] + cs|, i requires 0 <= i < |[c] + cs| => "(" + ([c] + cs)[i]);
    var tail := seq(|cs|, i requires 0 <= i < |cs| => "(" + cs[i]);
    assert whole == ["(" + c] + tail;
    ConcatAppend(["(" + c], tail);
    assert Concat(["(" + c]) == "(" + c by { assert ["(" + c][..0] == []; }
  }

  /**
   * Inserting a construct at the front of `GroupingConstruct` encloses the panel's
   * text in `(` construct ... `)`; this is what the `?:` insertions of the
   * conditional rewrite rely on.
   */
  lemma PanelPatternConstruct(p: Panel, c: string)
    ensures PanelPattern(p.(groupingConstruct := [c] + p.groupingConstruct))
         == "(" + c + PanelPattern(p) + ")"
  {
    var n := |p.groupingConstruct|;
    var q := p.(groupingConstruct := [c] + p.groupingConstruct);
    OpenersPrepend(c, p.groupingConstruct);
    ClosersPrepend(n);
    assert Closers(n + 1) == Closers(n) + ")";
    var o := Openers(p.groupingConstruct);
    var body := PanelBody(p);
    assert PanelBody(q) == body;
    WrapInConstruct(c, o, body, Closers(n));
  }

  lemma WrapInConstruct(c: string, o: string, body: string, cl: string)
    ensures ("(" + c + o) + body + (cl + ")") == "(" + c + (o + body + cl) + ")"
  {
  }

  /** Two non-empty alternations joined render joined by one more `|`. */
  lemma {:induction false} LinePatternAppend(a: seq<Node>, b: seq<Node>)
    requires |a| > 0 && |b| > 0
    ensures LinePattern(a + b) == LinePattern(a) + "|" + LinePattern(b)
    decreases |b|
  {
    assert (a + b)[..|a + b| - 1] == a + b[..|b| - 1];
    assert (a + b)[|a + b| - 1] == b[|b| - 1];
    if |b| > 1 {
      LinePatternAppend(a, b[..|b| - 1]);
    } else {
      assert a + b[..|b| - 1] == a;
    }
  }
}
