# regexdev parser back end, in Dafny

regexdev is a .NET regular-expression debugger. Its parser first runs one large
.NET regex over the user's pattern. That regex splits the pattern into blocks:
a prefix, a quantifier (`q1` and a lazy mark `q2`), and the comments and ignored
white space after it. It also captures the group names, the groups that are
counted, and an empty-or-not marker for every plain `(`. `RegexParse.ParseAST`
then builds a syntax tree from those captures with an explicit stack of frames.
The tree has four node kinds:

- `ReSingle` is an atom.
- `RePanel` is a sequence with an optional bracket, grouping constructs and a quantifier.
- `Reline` is an alternation.
- `ReCondition` is a conditional construct.

On the way, `ParseAST` does several more things:

- It simplifies quantifiers.
- It numbers the plain capturing groups.
- It gives every named group a second, numeric name.
- It decides whether `\digits...` is a back-reference or an octal escape.
- It rewrites conditional constructs that hold inline options into a form that
  also runs on .NET 5 and later.

`GetUnitPattern` renders a tree back to pattern text.

This project models that back end and proves what each part promises.

- **Input.** The token capture lists are the input (`Parser.Captures`).
- **Nodes.** The four node classes are datatypes (`Nodes`).
- **Serializer.** `GetUnitPattern` is a recursive function (`Serializer`).
- **Imperative parts as methods.** These are proved equal to functional
  specifications:
  - the main loop of `ParseAST`;
  - its trivia and fold loops;
  - the group-registry loops;
  - `GetC2OptionsCanEffectC3`.

  The methods are in modules `Builder`, `Registry` and `Options`. The
  specifications are in `Parser`, `Frames`, `Registry` and `Options`.
- **Properties proved about the specifications:**
  - the quantifier table;
  - the registry's numbering;
  - the frame-numbering invariant;
  - the cases of the numeric-escape split;
  - the error cases of conditional assembly;
  - the agreement of the two rewrite styles;
  - the round trip of the whole parse: the rendered tree is each block's
    prefix, simplified quantifier and comments, in order.

Modules, in dependency order:

- `Common`: results, errors, decimal text.
- `Nodes`: the node kinds and their constructors.
- `Serializer`: `GetUnitPattern` and its rendering laws.
- `Quantifier`: `QuantifierSimplify`.
- `Registry`: the group set and name-number map.
- `Options`: `GetC2OptionsCanEffectC3`.
- `Escape`: the ASCII half of `IsWordChar`, and numeric escapes.
- `Condition`: conditional assembly and the .NET 5 rewrite.
- `Frames`: `RegexPrefix`, folding, and `SetGroupAnotherName`.
- `Parser`: one loop step and the whole parse, as functions, plus the stack invariant.
- `RoundTrip`: the text of the stack and the round-trip theorem.
- `Builder`: `ParseAST` and its loops as methods.

## Model

| member | source | states |
|---|---|---|
| Common.NatToString | RegexDev/RegexParse.cs:159-160 | `int.ToString()` of a natural number is a non-empty run of decimal digits |
| Common.DigitsValueOfNatToString | RegexDev/RegexParse.cs:159-160 | reading the decimal text back as a number gives the number again |
| Common.NatToStringInjective | RegexDev/RegexParse.cs:172-179 | two numbers with the same text are equal, so a freshly generated number string cannot clash with another one |
| Common.LeadingDigits | RegexDev/RegexParse.cs:567 | the begin-number match is the longest prefix made only of digits: it is a prefix, all digits, and the next character (if any) is not a digit |
| Nodes.EmptySingle | RegexDev/ReSingle.cs:8-18 | `new ReSingle()` is an atom with empty text, type Default and no reference flag |
| Nodes.NewSingle | RegexDev/ReSingle.cs:20-25 | `new ReSingle(content, type)` keeps the content and the type (Default when omitted); the reference flag stays unset |
| Nodes.PanelOf | RegexDev/RePanel.cs:34-39 | `new RePanel(node, q)` has exactly that one child and quantifier q; every other field has its default: no bracket, number 0, empty alias names, no construct, not a test |
| Nodes.PanelOfList | RegexDev/RePanel.cs:41-45 | `new RePanel(list, q)` has the list's children in order, quantifier q, and default fields |
| Nodes.NewLine | RegexDev/Reline.cs:10 | `new Reline(list)` has as many branches as the list, each `AlternationNodes[i]` equal to `list[i]` |
| Nodes.CondOfExpression | RegexDev/ReCondition.cs:27-32 | the expression constructor stores c1 marked as the test, c2 and c3, with an empty group and every other field at its default; `matchtimes` plays no part |
| Nodes.CondOfGroup | RegexDev/ReCondition.cs:34-39 | the group constructor stores the group, c2 and c3, leaves condition1 unset and every other field at its default |
| Nodes.WithQuantifier | RegexDev/RegexParse.cs:532-535 | an empty quantifier leaves a node as it is; a non-empty one wraps the node as the only child of a fresh panel carrying the quantifier |
| Serializer.GetUnitPattern | RegexDev/RegexParse.cs:47-106 | defines the rendering by node kind: an atom is its text, a panel `PanelPattern`, an alternation `LinePattern`, a conditional `CondPattern`; its laws are the Serializer lemmas below and the round trip |
| Serializer.PanelPattern | RegexDev/RegexParse.cs:62-78 | defines a panel's text as `(` and the construct for each construct, outermost first, then the bracket, the children and the quantifier inside the bracket, then one `)` per construct; `PanelPatternConstruct` and `FreshPanelPattern` state its laws |
| Serializer.CondPattern | RegexDev/RegexParse.cs:79-104 | defines a conditional's text as `(?`, the test (`(group)`, or c1 under its cover), c2 under its cover, `|` when there is a no-branch, c3 after its options under its cover, and `)`; `ConstructTest` and `RewriteStylesAgree` state its laws |
| Serializer.SeqPatternAppend | RegexDev/RegexParse.cs:70-73 | the children of a sequence render one after another, so the text of a concatenation of sequences is the concatenation of their texts |
| Serializer.FreshPanelPattern | RegexDev/RegexParse.cs:62-78 | a panel with default fields renders as its children followed by its quantifier |
| Serializer.WithQuantifierPattern | RegexDev/RegexParse.cs:74 | wrapping a node with a quantifier appends the quantifier to its text |
| Serializer.OpenersPrepend | RegexDev/RegexParse.cs:64-68 | each construct, outermost first, is written as `(` and its text |
| Serializer.ClosersPrepend | RegexDev/RegexParse.cs:76-77 | one `)` is written per construct |
| Serializer.PanelPatternConstruct | RegexDev/RegexParse.cs:64-78 | inserting a construct c at the front of a panel's construct list wraps its text as `(` c text `)` |
| Serializer.LinePatternAppend | RegexDev/RegexParse.cs:49-57 | two non-empty alternations render joined by exactly one more `|` |
| Quantifier.IndexOfFrom | RegexDev/RegexParse.cs:1013 | `IndexOf(',', 2)` is -1 when there is no comma from position 2 on, and otherwise the first position holding one |
| Quantifier.QuantifierSimplify | RegexDev/RegexParse.cs:1005-1049 | a quantifier that does not start with `{` (`*`, `+`, `?` and their lazy forms) is returned unchanged |
| Quantifier.SimplifyNeverLonger | RegexDev/RegexParse.cs:1005-1049 | the simplified quantifier is never longer than the one read |
| Quantifier.SimplifyMatchesTable | RegexDev/RegexParse.cs:1005-1049 | on every token shape the tokenizer captures (`*`, `+`, `?`, `{n}`, `{n,}`, `{n,m}`, each optionally lazy) the C# slicing yields the canonical table: `{1}` and `{1,1}` vanish, lazy `{n}?` loses the mark, `{0,}` and `{1,}` (or a maximum of 2147483647) become `*` and `+`, `{0,1}` becomes `?`, `{n,n}` becomes `{n}`, and everything else is kept |
| Quantifier.ExactlyRow | RegexDev/RegexParse.cs:1014-1019 | the no-comma branch computes the table's row for `{n}` |
| Quantifier.AtLeastRow | RegexDev/RegexParse.cs:1029-1033 | the empty-maximum branch computes the table's row for `{n,}` |
| Quantifier.BetweenRow | RegexDev/RegexParse.cs:1034-1045 | the two-bound branch computes the table's row for `{n,m}` |
| Quantifier.CommaForm | RegexDev/RegexParse.cs:1020-1028 | with a comma and a non-empty maximum, the two slices taken are exactly the texts between `{` and the comma and between the comma and `}` |
| Quantifier.BetweenSlices | RegexDev/RegexParse.cs:1022-1027 | for `{n,m}`, optionally lazy, the first comma after position 2 follows n, and the slices are n and m |
| Quantifier.SimplifyIdempotent | RegexDev/RegexParse.cs:1005-1049 | simplifying a canonical quantifier again changes nothing |
| Quantifier.StarExample | RegexDev/RegexParse.cs:1031 | `{0,}` becomes `*` |
| Quantifier.LazyPlusExample | RegexDev/RegexParse.cs:1032 | `{1,}?` becomes `+?` |
| Quantifier.UnboundedExample | RegexDev/RegexParse.cs:1036-1037 | `{0,2147483647}` becomes `*` |
| Quantifier.LazyOptionalExample | RegexDev/RegexParse.cs:1040-1041 | `{0,1}?` becomes `??` |
| Quantifier.OnceExample | RegexDev/RegexParse.cs:1042-1043 | `{1,1}` becomes the empty quantifier |
| Quantifier.LazyOnceExample | RegexDev/RegexParse.cs:1017 | `{1}?` becomes the empty quantifier |
| Quantifier.RangeExample | RegexDev/RegexParse.cs:1034-1048 | `{2,5}?` is kept as it is |
| Quantifier.LeadingZeroExample | RegexDev/RegexParse.cs:1044 | `{2,02}` is kept: the bounds are compared as text, not as numbers |
| Registry.Assign | RegexDev/RegexParse.cs:168-183 | defines the numbering loop from one name on: an empty name is the C# index error, a digit-first or already numbered name is skipped, any other gets `NextFree` from the running index and is added in both directions; `AssignKeeps` and `AssignFailsOnEmptyName` state its laws |
| Registry.RegistryOf | RegexDev/RegexParse.cs:156-184 | defines the registry as the numbering loop run over the set of "1".."groupCount" and the declared names; `RegistryProperties` states what it holds |
| Registry.NextFree | RegexDev/RegexParse.cs:172-177 | the inner while stops at the first number from the current index on whose text is not yet in the set |
| Registry.BuildRegistry | RegexDev/RegexParse.cs:156-184 | the two loops filling the HashSet and the Dictionary compute the registry `RegistryOf` specifies |
| Registry.RegistryProperties | RegexDev/RegexParse.cs:156-184 | the set holds "1".."groupCount" and every declared name; each name not starting with a digit maps to a number above groupCount that is not a plain group or declared name and maps back to it; numbers grow in first-appearance order; digit-first names get no number; the map holds no other key and the set no other string than those generated numbers; and each name gets the first free number, so every number between groupCount and it is taken |
| Registry.AssignFailsOnEmptyName | RegexDev/RegexParse.cs:170 | the numbering loop fails exactly when some declared name is empty (its first character cannot be read) |
| Registry.AssignKeeps | RegexDev/RegexParse.cs:168-183 | running the numbering loop to the end keeps the registry invariant |
| Registry.StepSkip | RegexDev/RegexParse.cs:170-171 | a digit-first or already numbered name leaves the registry as it is and keeps the invariant |
| Registry.StepNewPairs | RegexDev/RegexParse.cs:178-179 | adding both directions keeps every name mapped to a fresh number that maps back |
| Registry.StepNewKeys | RegexDev/RegexParse.cs:178-182 | after a new name is numbered, the map's keys are exactly the names read so far and their numbers |
| Registry.StepNewOrdered | RegexDev/RegexParse.cs:172-178 | the number given to a new name is greater than every number given before |
| Registry.StepNewBounded | RegexDev/RegexParse.cs:172-177 | every generated number stays at most the running index |
| Registry.StepNewExtras | RegexDev/RegexParse.cs:178-182 | after a new name is numbered, every string the set holds beyond the plain groups and declared names is a generated number paired with a name both ways |
| Registry.StepNewDense | RegexDev/RegexParse.cs:172-182 | after a new name is numbered, every number between groupCount and the running index is taken, and so is every number below any generated one |
| Options.C2OptionsText | RegexDev/RegexParse.cs:325-364 | defines the options text as `(?`, the on letters, and `-` with the off letters when there are any, then `)`; the letters are the scan's builders read back to front; `C2OptionsLastWins`, `C2OptionsDistinct` and `C2OptionsLetters` state its laws |
| Options.ScanAtoms | RegexDev/RegexParse.cs:330-360 | defines the outer loop over the atoms, last atom first, stopping once five letters are seen; `ScanAtomsCounts`, `ScanAtomsLetters` and `AtomsSettleUnseen` state its laws |
| Options.Reverse | RegexDev/RegexParse.cs:361-362 | reversing the builders' text puts character i at position length-1-i |
| Options.GetC2OptionsCanEffectC3 | RegexDev/RegexParse.cs:325-364 | the nested backward loops with their builders and letter set compute `(?on-off)` as `C2OptionsText` defines it |
| Options.C2OptionsDistinct | RegexDev/RegexParse.cs:329-358 | each option letter appears at most once, in either case, across the on and off letters combined, and there are at most five |
| Options.C2OptionsLetters | RegexDev/RegexParse.cs:352-358 | every on or off letter is a character of one of the inline-option atoms |
| Options.OnOffCount | RegexDev/RegexParse.cs:354-357 | a letter the scan has seen is collected at most once, on or off |
| Options.ScanCharCounts | RegexDev/RegexParse.cs:337-358 | one character of the inner loop keeps the counting invariant: seen letters are option letters, each collected at most once |
| Options.ScanCharLetters | RegexDev/RegexParse.cs:352-357 | one character of the inner loop collects only characters of the atom |
| Options.ScanAtomCounts | RegexDev/RegexParse.cs:335-359 | the inner loop over one atom keeps the counting invariant |
| Options.ScanAtomLetters | RegexDev/RegexParse.cs:335-359 | the inner loop over one atom keeps the provenance invariant |
| Options.ScanAtomsCounts | RegexDev/RegexParse.cs:330-360 | the outer loop over the atoms keeps the counting invariant |
| Options.ScanAtomsLetters | RegexDev/RegexParse.cs:330-360 | the outer loop over the atoms keeps the provenance invariant |
| Options.OptionLettersLength | RegexDev/RegexParse.cs:332 | a string of option letters is as long as its five per-letter counts added up, which bounds it by the five-letter cut-off |
| Options.SignBefore | RegexDev/RegexParse.cs:335-351 | the sign that governs a letter read backwards is the nearest `+`/`?` (on) or `-` (off) before it in its atom, or none |
| Options.ScanAtomTracks | RegexDev/RegexParse.cs:335-359 | the inner loop over one atom settles each option letter as the reference says: if it was already settled it stays so, otherwise it takes the sign before its last occurrence in the atom |
| Options.OneAtomTracks | RegexDev/RegexParse.cs:335-359 | a whole atom, scanned from its end with empty builders, keeps the counting invariant and settles each letter by its last occurrence in the atom unless an atom after it already did |
| Options.AtomsSettleUnseen | RegexDev/RegexParse.cs:330-360 | the outer loop settles each letter not yet seen by the last atom that mentions it, and by the sign before its last occurrence there; the five-letter cut-off only stops the scan once every letter is settled |
| Options.C2OptionsLastWins | RegexDev/RegexParse.cs:325-364 | for each option letter, the on letters hold it (once, in either case) exactly when the sign before its last occurrence across all atoms is `+` or `?`, and the off letters exactly when that sign is `-`; a letter with no sign before it, or not mentioned, is in neither |
| Options.LastWinsExample | RegexDev/RegexParse.cs:325-364 | for the atoms `(?i-m)` then `(?m)`, `m` ends up on (the later atom wins) and never off, and `i` ends up on |
| Condition.ConditionGroup | RegexDev/RegexParse.cs:258-271 | defines the group test: a bracket around one atom whose text starts with a word character is a group when the set knows it; an unknown digit-first text is an error when the .NET engine rejects the pattern, and is otherwise read as an expression; `ConditionGroupCases` states its cases |
| Condition.Rewrite | RegexDev/RegexParse.cs:275-453 | defines the .NET 5 rewrite and the constructor choice: style 1 covers the parts that hold options in the tree, any other style records cover flags; `RewriteStylesAgree`, `RewriteTextStyle1`, `RewriteTextStyle0` and `RewriteWithoutOptions` state its laws |
| Condition.AssembleCondition | RegexDev/RegexParse.cs:240-453 | defines the `)` of a conditional frame: a second `|` is an error, the first node must be the test panel, then the group test and the rewrite; `AssembleConditionErrors`, `AssembleConditionFlags` and `AssembleConditionText` state its laws |
| Condition.OptionAtoms | RegexDev/RegexParse.cs:312-318 | the InlineOptions list collects at most one entry per child of c2 |
| Condition.Covered | RegexDev/RegexParse.cs:290-291 | the style-1 cover is a fresh panel around the part with `?:` as its only construct |
| Condition.CoveredPattern | RegexDev/RegexParse.cs:290-291 | covering a part renders it inside `(?:` and `)` |
| Condition.PrefixOptionsPattern | RegexDev/RegexParse.cs:374-377 | putting the condensed options atom in front of c3, into its children or around it, renders as the atom's text followed by c3 |
| Condition.ThirdPartPattern | RegexDev/RegexParse.cs:370-380 | the style-1 no-branch renders as the compatible no-branch text (covered, with c2's options in front) |
| Condition.CoverStyle1 | RegexDev/RegexParse.cs:286-294 | covering c1 in the tree renders the same as recording the c1 cover flag |
| Condition.ConditionMarkPattern | RegexDev/ReCondition.cs:29 | marking c1 as the test does not change its text |
| Condition.ConstructTest | RegexDev/RegexParse.cs:82-93 | the test part of a built condition renders as `(group)` for a group condition, else as c1 under its cover flag |
| Condition.RewriteTextStyle1 | RegexDev/RegexParse.cs:275-426 | the style-1 tree rewrite renders as the .NET 5 compatible text |
| Condition.RewriteTextStyle0 | RegexDev/RegexParse.cs:275-426 | any other style, which only records cover flags, renders as the same compatible text |
| Condition.RewriteStylesAgree | RegexDev/RegexParse.cs:275-453 | both styles give the same text, set conditionDirectContainsOption alike, record `HaveNoBanch` as two branches, leave style 1 without cover flags, use the group constructor exactly for a group test, and invalidate the nearest numbered group exactly when c1 has a construct |
| Condition.RewriteWithoutOptions | RegexDev/RegexParse.cs:275-426 | when no part holds options the rewrite changes nothing: the text is `(?`, the test, c2, the bar, c3 and `)` |
| Condition.ConditionGroupCases | RegexDev/RegexParse.cs:258-271 | the test names a group exactly when c1 is a bracket around one atom starting with a word character that is a known group; a digit-first unknown name is an error exactly when the .NET engine rejects the pattern; anything else is an expression |
| Condition.YesBranchPattern | RegexDev/RegexParse.cs:246-248 | the yes-branch renders as the first branch without its first node |
| Condition.NoBranchPattern | RegexDev/RegexParse.cs:249-256 | the no-branch renders as the second branch, and as nothing without one |
| Condition.FirstBranchSplit | RegexDev/RegexParse.cs:245-248 | the first branch's text is the test's text followed by the rest of the branch |
| Condition.AssembleConditionErrors | RegexDev/RegexParse.cs:242-271 | assembly fails with "too many `|`" exactly when the frame has two closed branches; it fails as malformed exactly when the first node is missing or not a panel; otherwise it succeeds exactly when the group test does, which fails only for an unknown digit-first test in a pattern the .NET engine rejects |
| Condition.AssembleConditionFlags | RegexDev/RegexParse.cs:427-453 | a built condition has a no-branch exactly when a `|` was followed by something, and has no condition1 exactly when the test names a known group |
| Condition.AssembleConditionText | RegexDev/RegexParse.cs:240-455 | without options the condition renders as `(?`, the test, the rest of the first branch, the bar and the second branch, then `)` |
| Escape.IsWordChar | RegexDev/RegexParse.cs:20-44 | defines the word test: the bitmap for characters below 128, the Unicode test (a parameter) above; `AsciiWordChars` states what the bitmap holds |
| Escape.NumericEscape | RegexDev/RegexParse.cs:563-646 | defines the split of `\digits...`: a known digit run is a back-reference, an unknown single digit an error, otherwise up to three octal digits; `NumericEscapeCases`, `NumericEscapeReference`, `NumericEscapeQuantifier` and `NumericEscapeText` state its laws |
| Escape.AsciiWordChars | RegexDev/RegexParse.cs:34-43 | on ASCII the bitmap says "word character" exactly for `[0-9A-Za-z_]` |
| Escape.BitmapEntry | RegexDev/RegexParse.cs:34-38 | each bit of each byte of the table, position by position, is the class of the character 8*byte+bit |
| Escape.EscapeNumber | RegexDev/RegexParse.cs:567 | the number is the longest digit run right after the backslash |
| Escape.OctalLength | RegexDev/RegexParse.cs:601-607 | the octal length is up to three leading octal digits, stopping at the first 8 or 9 |
| Escape.NumericEscapeCases | RegexDev/RegexParse.cs:563-608 | an unknown single digit is an undefined-group error, an unknown run starting with 8 or 9 an unrecognized escape, and every other escape succeeds, each in both directions |
| Escape.NumericEscapeReference | RegexDev/RegexParse.cs:563-644 | the first node is the escape atom, flagged as a back-reference exactly when the digit run is a known group, and starts with `\` and the whole run (reference) or the octal digits (not); the other atoms carry no flag |
| Escape.NumericEscapeQuantifier | RegexDev/RegexParse.cs:575-642 | a quantifier ends up on the last node only; when an octal escape leaves more than one character, it binds to the last character alone |
| Escape.NumericEscapeText | RegexDev/RegexParse.cs:563-645 | the nodes render as the escape followed by its quantifier: the split loses no text |
| Frames.NewFrame | RegexDev/RegexParse.cs:948-980 | defines `new RegexPrefix(prefix)` for a prefix starting with `(`; `NewFrameKinds` states its cases |
| Frames.NewFrameKinds | RegexDev/RegexParse.cs:948-980 | `(?` alone is a conditional frame, any longer `(?...` a construct whose pattern is the prefix without `(`, and `(` a bracket; every new frame is unnumbered and empty |
| Frames.AddNode | RegexDev/RegexParse.cs:537 | adding to the top frame appends one node to its current branch and changes nothing else |
| Frames.NewBranch | RegexDev/RegexParse.cs:550-557 | `|` closes the current branch (one empty atom if it was empty) after the closed ones, starts an empty branch and keeps the frame's header |
| Frames.Trivia | RegexDev/RegexParse.cs:539-547 | a captured comment becomes an atom with its text: InlineComment for `(`, EndofLineComment for `#`, Default for white space |
| Frames.CaptureAndBalanceSplit | RegexDev/RegexParse.cs:1066-1072 | the capture name holds no `-`, and the two names split the construct at its first `-` after the opening two characters without losing text |
| Frames.SetGroupAnotherName | RegexDev/RegexParse.cs:1057-1084 | defines the alias update of a construct that names groups; `SetGroupAnotherNameEffect` states what it changes |
| Frames.SetGroupAnotherNameEffect | RegexDev/RegexParse.cs:1057-1084 | only the two alias names may change, the text does not, and an alias is set exactly to the registry's other name of a capture or balancing name it knows |
| Frames.BranchNodes | RegexDev/RegexParse.cs:463-472 | the fold yields one node per branch |
| Frames.BranchNodeText | RegexDev/RegexParse.cs:463-472 | each branch's node renders as the branch |
| Frames.BranchNodesOrder | RegexDev/RegexParse.cs:463-472 | the k-th node renders as the k-th branch: branch order is kept |
| Frames.BranchNodesText | RegexDev/RegexParse.cs:458-475 | the alternation of the branch nodes renders as the branches joined by `|` |
| Frames.ClosedBranchesText | RegexDev/RegexParse.cs:460-461 | replacing an empty last branch by an empty atom does not change the text |
| Frames.FoldContents | RegexDev/RegexParse.cs:456-513 | defines the fold of a frame: with closed branches an alternation of one node per branch, at the root the only node or a panel, in a group an empty atom, the only node or a panel; `FoldContentsText` and `BranchNodesOrder` state its laws |
| Frames.CloseGroup | RegexDev/RegexParse.cs:515-528 | defines the `)` of a bracket or construct frame; `CloseGroupText` states what it renders as and keeps |
| Frames.FoldContentsText | RegexDev/RegexParse.cs:456-513 | folding a frame (alternation, one node, several nodes or none) loses no text, at the root or in a group |
| Frames.CloseGroupText | RegexDev/RegexParse.cs:515-528 | a closed bracket renders inside `(` `)` and keeps its number; a closed construct renders inside `(` construct `)` and carries the construct |
| Frames.BracketText | RegexDev/RegexParse.cs:517 | a node inside a fresh bracket panel renders inside `(` and `)` |
| Frames.ConstructText | RegexDev/RegexParse.cs:522-527 | a node under a fresh construct, after the aliases are set, renders inside `(`, the construct and `)` |
| Parser.SkipTrivia | RegexDev/RegexParse.cs:539-548 | defines the trivia loop: the captures up to the next empty one become atoms, and running out of captures is the C# index error; `SkipTriviaHeader` and `SkipTriviaText` state its laws |
| Parser.TriviaStep | RegexDev/RegexParse.cs:674-683 | defines the block with an empty prefix: the trivia loop on the top frame; `TriviaStepKeeps` and `TriviaStepText` state its laws |
| Parser.OpenStep | RegexDev/RegexParse.cs:212-231 | defines the `(` branch: an inline-options atom, or a pushed frame, numbered with the next number for `(` with an empty groupNumber capture; `OpenNumbering`, `OpenStepKeeps` and `OpenStepText` state its laws |
| Parser.CloseFrame | RegexDev/RegexParse.cs:240-530 | defines how the popped frame closes: a conditional is assembled, any other frame closed by `CloseGroup`; `CloseFrameText` states its text |
| Parser.CloseStep | RegexDev/RegexParse.cs:232-549 | defines the `)` branch: pop, close, error when the root would be popped, quantify, add to the new top, then the trivia loop; `CloseStepKeeps` and `CloseStepText` state its laws |
| Parser.BarStep | RegexDev/RegexParse.cs:550-557 | defines the `|` branch as `NewBranch` on the top frame; `BarStepText` states its text |
| Parser.AtomStep | RegexDev/RegexParse.cs:559-669 | defines the atom branch: a numeric escape splits, any other prefix is one quantified atom, then the trivia loop; `AtomStepText` states its text |
| Parser.Step | RegexDev/RegexParse.cs:194-685 | defines one pass of the main loop by the prefix's first character; `StepKeeps` and `StepText` state its laws |
| Parser.Run | RegexDev/RegexParse.cs:188-685 | defines the main loop over all blocks, stopping at the first error; `RunKeeps` and `RunTextLemma` state its laws |
| Parser.Finish | RegexDev/RegexParse.cs:688-729 | defines the end of `ParseAST`; `FinishOutcome` states its outcomes |
| Parser.Parse | RegexDev/RegexParse.cs:125-732 | defines `ParseAST` as a function: the early outcomes, the registry, the loop and the end; `ParseEarlyOutcomes` and `ParseRoundTrip` state its laws |
| Parser.WithTop | RegexDev/RegexParse.cs:552-556 | replacing the top frame keeps the stack's height and every frame below it |
| Parser.BlockQuantifier | RegexDev/RegexParse.cs:196-206 | a block without `q1` has the empty quantifier |
| Parser.StepKeepsStack | RegexDev/RegexParse.cs:194-685 | a successful step never leaves the stack empty |
| Parser.SkipTriviaHeader | RegexDev/RegexParse.cs:539-548 | the trivia loop only appends to the current branch and moves past at least one capture |
| Parser.WithTopKeeps | RegexDev/RegexParse.cs:552-556 | replacing the top by a frame with the same header keeps the stack invariant |
| Parser.TriviaStepKeeps | RegexDev/RegexParse.cs:674-683 | the trivia loop keeps the stack invariant and the stack's height |
| Parser.OpenStepKeeps | RegexDev/RegexParse.cs:212-231 | an opening prefix keeps the stack invariant |
| Parser.CloseStepKeeps | RegexDev/RegexParse.cs:232-549 | a closing prefix keeps the stack invariant |
| Parser.StepKeeps | RegexDev/RegexParse.cs:194-685 | every loop step keeps the stack invariant: unnumbered root bracket at the bottom, code equal to the number of empty groupNumber captures read, numbers growing towards the top |
| Parser.RunKeeps | RegexDev/RegexParse.cs:194-685 | the whole loop keeps the stack invariant |
| Parser.RunKeepsTo | RegexDev/RegexParse.cs:194-685 | the loop from any block on, run to a successful end, keeps the stack invariant, one step at a time |
| Parser.OpenNumbering | RegexDev/RegexParse.cs:219-226 | a plain `(` reads one groupNumber capture and pushes a bracket numbered with the next number exactly when that capture is empty, so brackets are numbered 1, 2, 3 in opening order |
| Parser.ParseEarlyOutcomes | RegexDev/RegexParse.cs:128-154 | an empty pattern yields an empty atom and empty patterndotNET5; no tokenizer match is a mismatch error; misaligned capture counts are an internal error |
| Parser.FinishOutcome | RegexDev/RegexParse.cs:688-729 | the end fails exactly when more than the root frame is left; the root renders as the root frame's text, and patterndotNET5 is the pattern unless a conditional held options, when it is the rendering |
| Builder.AttachTrivia | RegexDev/RegexParse.cs:539-548 | the trivia loop computes `SkipTrivia`, including the error when the captures run out |
| Builder.FoldBranches | RegexDev/RegexParse.cs:463-472 | the foreach over the branches computes `BranchNodes` |
| Builder.FoldFrame | RegexDev/RegexParse.cs:456-513 | the fold of a frame's lists computes `FoldContents` |
| Builder.Close | RegexDev/RegexParse.cs:240-530 | closing the popped frame computes `CloseFrame` |
| Builder.BlockQuantifierOf | RegexDev/RegexParse.cs:197-206 | the quantifier code computes `BlockQuantifier` |
| Builder.TriviaBlock | RegexDev/RegexParse.cs:674-683 | the empty-prefix block computes `TriviaStep` |
| Builder.OpenBlock | RegexDev/RegexParse.cs:212-231 | the `(` branch, with its push and counters, computes `OpenStep` |
| Builder.CloseBlock | RegexDev/RegexParse.cs:232-549 | the `)` branch, with its pop, wrap, add and trivia loop, computes `CloseStep` |
| Builder.AtomBlock | RegexDev/RegexParse.cs:559-669 | the atom branch computes `AtomStep` |
| Builder.ProcessBlock | RegexDev/RegexParse.cs:194-685 | one pass of the main loop computes `Step` |
| Builder.ParseAST | RegexDev/RegexParse.cs:125-732 | the whole method computes `Parse`: its root node and patterndotNET5, or the error |
| RoundTrip.AddNodesText | RegexDev/RegexParse.cs:645 | adding nodes to a frame appends their text to the frame's text |
| RoundTrip.AddNodeText | RegexDev/RegexParse.cs:537 | adding one node appends its text |
| RoundTrip.NewBranchText | RegexDev/RegexParse.cs:550-557 | `|` appends `|` to the frame's text |
| RoundTrip.SkipTriviaText | RegexDev/RegexParse.cs:539-548 | the trivia loop appends the comments' texts to the frame's text |
| RoundTrip.TriviaStepText | RegexDev/RegexParse.cs:674-683 | a trivia step extends the stack's text by the comments' texts |
| RoundTrip.OpenStepText | RegexDev/RegexParse.cs:212-231 | an opening prefix extends the stack's text by the prefix |
| RoundTrip.BarStepText | RegexDev/RegexParse.cs:550-557 | `|` extends the stack's text by `|` |
| RoundTrip.GroupTestText | RegexDev/RegexParse.cs:82-87 | a group test renders the same as the bracket it was read from |
| RoundTrip.ConditionalCloseText | RegexDev/RegexParse.cs:240-455 | a conditional assembled without options renders as `(?` and the frame's text and `)` |
| RoundTrip.CloseFrameText | RegexDev/RegexParse.cs:240-530 | any closed frame renders as its opener, its text and `)` |
| RoundTrip.CloseStepText | RegexDev/RegexParse.cs:232-549 | a closing prefix extends the stack's text by `)`, the quantifier and the comments' texts |
| RoundTrip.AtomStepText | RegexDev/RegexParse.cs:559-669 | an atom extends the stack's text by the prefix, the quantifier and the comments' texts |
| RoundTrip.StepText | RegexDev/RegexParse.cs:194-685 | every step whose block keeps its text extends the stack's text by that block's text |
| RoundTrip.RunTextLemma | RegexDev/RegexParse.cs:194-685 | the whole loop extends the stack's text by the texts of all blocks |
| RoundTrip.RootRunText | RegexDev/RegexParse.cs:188-685 | starting from the root bracket, the stack's text after the loop is the text of all blocks |
| RoundTrip.ParseRoundTrip | Program.cs:77-87 | when every block keeps its text, the parsed tree renders as each block in turn: its prefix, its simplified quantifier, then its comments; patterndotNET5 is the pattern itself |

## Left out

- The tokenizing regex (`ParsePatternRegex`) runs inside the .NET regex engine. It is a foreign call, so its match is the parameter `m: Option<Captures>`, with None for no match. Its captures are not tied to the pattern text, so the round trip speaks of the blocks' text, not of `pattern`. `GetBeginNumberRegex` is modelled as the leading ASCII digits after `\`; Unicode decimal digits are not modelled.
- Escape.IsWordChar: takes the Unicode-category test for characters above 127 as the parameter `unicodeWord` (the parser passes `engine.unicodeWord`), because it depends on Unicode tables. Only the ASCII bitmap is modelled and proved.
- The `new Regex(pattern)` calls ask the .NET engine for its own error message. Where the C# code throws right after the call, the model returns a plain error and the message text is not modelled. For a digit-first group test the set does not know, the call is the only way out: whether `new Regex(pattern)` throws there is the parameter `engine.rejectsPattern` (the .NET engine is not part of this model). When it holds, the parse fails with `UndefinedGroupNumber`; when it does not (for example `(?(0)a)`, or `(?(01)a)(b)` where .NET reads `01` as group 1), the test is an expression, as in the C# code.
- Options.Upper: folds case on ASCII letters only, as under the invariant culture. C# `char.ToUpper` follows the current culture; under tr-TR `i` becomes `İ` and no longer matches `I`. So C2OptionsDistinct and C2OptionsLastWins describe the program under a culture that folds ASCII letters as ASCII, and culture-sensitive case folding is not modelled.
- Stopwatch timing and `regexMatchTime` are instrumentation and are left out.
- The second `Parse` method is an unfinished skeleton that always returns an empty atom. It is not part of this model.
- RegexParserUtils.cs, RegexNodeJson.cs and Program.cs are presentation and console code, not part of this model.
- Every C# runtime exception the code can raise on malformed captures becomes `Err(MalformedTokens)`. This covers an index out of range, popping the root, a conditional whose first node is not a panel, and `\` without a digit. Most of these never come from the real tokenizer. One does: in `(?(?#c)a|b)` the conditional opener's lookahead also accepts `(?#`, so the conditional's first node is the comment atom. C# then fails with a null reference when it reads that node as a panel, and the model returns `Err(MalformedTokens)`; both sides fail.
- Quantifier.QuantifierSimplify: returns None where the C# slicing would throw (`{` or `{?`). No captured quantifier has that shape.
- Condition.OptionsConstruct: the InlineOptionThirdCharsLookup test on a construct is false for a construct shorter than two characters or with a non-ASCII second character, where C# would throw. Constructs from the tokenizer are always `?` and an ASCII character.
- Serializer.LinePattern: renders an alternation without branches as nothing, where C# would throw. The builder only builds alternations of at least two branches.
- Serializer.CondTest: renders an expression condition whose condition1 is unset as nothing, where C# would throw. The builder never builds such a condition.
- `RePanel` and `ReCondition` are mutable classes, and `new RePanel(list, q)` aliases the caller's list. They are modelled as immutable datatypes instead. Every in-place change the builder makes is on a node that nothing else can reach any more, so the model sees the same trees. These changes are `GroupingConstruct.Insert`, `SequenceNodes.Insert` and `iscondition = true`. Sharing between nodes is not modelled. The frame stack, frames, counters, set and map of `ParseAST` are locals of the `Builder` methods, updated step by step.
- RoundTrip.ParseRoundTrip: proved only for runs in which every block keeps its text (`PlainRun`), and "the text of a block" is its prefix, its simplified quantifier and then its comments, not its source text. So the theorem does not give back the pattern in these cases:
  - a quantifier that simplifies to a different text (`a{1}` renders as `a`, `a{0,}` as `a*`);
  - a comment between a prefix and its quantifier, which the tokenizer captures before the quantifier and the builder places after it (`(a)(?#c)+` renders as `(a)+(?#c)`).

  The builder drops text in these cases:
  - a quantifier or comment after `(` or `|`;
  - a `)` carrying more than `)`;
  - a conditional that has to be rewritten for .NET 5 (there the text changes on purpose);
  - a conditional whose no-branch is empty.
