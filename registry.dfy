/**
 * The group registry built before the AST (RegexParse.cs:156-184): the set of every
 * known group identity, and a two-way map between each named group and the number
 * string it is given.
 */
module Registry {
  import opened Common

  datatype Registry = Registry(known: set<string>, named: map<string, string>)

  /** "1" .. "n", the numbers of the plain capturing groups. */
  function NumberStrings(n: nat): set<string>
  {
    set i: nat | 1 <= i <= n :: NatToString(i)
  }

  /** The set as it stands before any name is numbered. */
  function InitialKnown(groupCount: nat, groupNames: seq<string>): set<string>
  {
    NumberStrings(groupCount) + (set k | 0 <= k < |groupNames| :: groupNames[k])
  }

  /** The first number from `k` on whose text is not yet known (the inner `while` of the registry). */
  function NextFree(known: set<string>, k: nat): (r: nat)
    ensures r >= k && NatToString(r) !in known
    ensures forall j :: k <= j < r ==> NatToString(j) in known
    decreases |known|
  {
    if NatToString(k) in known then
      var r := NextFree(known - {NatToString(k)}, k + 1);
      assert NatToString(r) != NatToString(k) by {
        if NatToString(r) == NatToString(k) { NatToStringInjective(r, k); }
      }
      r
    else k
  }

  predicate StartsWithDigit(name: string)
  {
    |name| > 0 && IsDigit(name[0])
  }

  /**
   * The numbering loop from position i on, as a function: `next` is
   * namedGroupNumberIndex. A name whose first character cannot be read makes the
   * C# code throw.
   */
  function Assign(names: seq<string>, i: nat, known: set<string>, named: map<string, string>, next: nat): Result<Registry>
    requires i <= |names|
    decreases |names| - i
  {
    if i == |names| then Ok(Registry(known, named))
    else if |names[i]| == 0 then Err(MalformedTokens)
    else if IsDigit(names[i][0]) || names[i] in named then Assign(names, i + 1, known, named, next)
    else
      var k := NextFree(known, next);
      var numberStr := NatToString(k);
      Assign(names, i + 1, known + {numberStr}, named[names[i] := numberStr][numberStr := names[i]], k)
  }

  function RegistryOf(groupCount: nat, groupNames: seq<string>): Result<Registry>
  {
    Assign(groupNames, 0, InitialKnown(groupCount, groupNames), map[], groupCount + 1)
  }

  /** The registry as the C# code builds it, with a HashSet and a Dictionary filled in loops. */
  method BuildRegistry(groupCount: nat, groupNames: seq<string>) returns (r: Result<Registry>)
    ensures r == RegistryOf(groupCount, groupNames)
  {
    var known: set<string> := {};
    var i := 1;
    while i <= groupCount
      invariant 1 <= i <= groupCount + 1
      invariant known == NumberStrings(i - 1)
    {
      known := known + {NatToString(i)};
      i := i + 1;
    }
    i := 0;
    while i < |groupNames|
      invariant 0 <= i <= |groupNames|
      invariant known == NumberStrings(groupCount) + (set k | 0 <= k < i :: groupNames[k])
    {
      known := known + {groupNames[i]};
      i := i + 1;
    }
    var named: map<string, string> := map[];
    var namedGroupNumberIndex: nat := groupCount + 1;
    i := 0;
    while i < |groupNames|
      invariant 0 <= i <= |groupNames|
      invariant Assign(groupNames, i, known, named, namedGroupNumberIndex) == RegistryOf(groupCount, groupNames)
    {
      var name := groupNames[i];
      if |name| == 0 {
        return Err(MalformedTokens);
      }
      if !IsDigit(name[0]) && name !in named {
        ghost var start := namedGroupNumberIndex;
        var numberStr := NatToString(namedGroupNumberIndex);
        while numberStr in known
          invariant start <= namedGroupNumberIndex <= NextFree(known, start)
          invariant numberStr == NatToString(namedGroupNumberIndex)
          decreases NextFree(known, start) - namedGroupNumberIndex
        {
          namedGroupNumberIndex := namedGroupNumberIndex + 1;
          numberStr := NatToString(namedGroupNumberIndex);
        }
        named := named[name := numberStr][numberStr := name];
        known := known + {numberStr};
      }
      i := i + 1;
    }
    r := Ok(Registry(known, named));
  }

  // ---------------------------------------------------------------------------
  // What the registry promises.

  predicate AllDigitText(s: string)
  {
    |s| > 0 && forall k :: 0 <= k < |s| ==> IsDigit(s[k])
  }

  /** The number a generated string stands for. */
  function NumberOf(s: string): nat
    requires AllDigitText(s)
  {
    DigitsValue(s)
  }

  /** `s` is the text of a number above the plain-group count. */
  predicate GeneratedNumber(s: string, groupCount: nat)
  {
    AllDigitText(s) && s == NatToString(NumberOf(s)) && NumberOf(s) > groupCount
  }

  /** names[j] is the first occurrence of its name. */
  predicate FirstAppearance(names: seq<string>, j: nat)
    requires j < |names|
  {
    names[j] !in names[..j]
  }

  /** A name that gets a number: declared, and not starting with a digit. */
  predicate Renumbered(name: string)
  {
    |name| > 0 && !IsDigit(name[0])
  }

  /** Each renumbered key maps to a generated number outside `init`, which maps back to it. */
  ghost predicate PairsOk(known: set<string>, named: map<string, string>, init: set<string>, groupCount: nat)
  {
    forall key :: key in named && Renumbered(key) ==>
      named[key] in known && named[key] !in init && GeneratedNumber(named[key], groupCount)
      && named[key] in named && named[named[key]] == key
  }

  /** Every other key is a generated number, and every renumbered key has been read. */
  ghost predicate KeysOk(names: seq<string>, i: nat, known: set<string>, named: map<string, string>, init: set<string>)
    requires i <= |names|
  {
    forall key :: key in named ==>
      if Renumbered(key) then key in names[..i] else key in known && key !in init
  }

  /** Every renumbered name read so far has a number. */
  ghost predicate Covered(names: seq<string>, i: nat, named: map<string, string>)
    requires i <= |names|
  {
    forall a :: a in names[..i] && Renumbered(a) ==> a in named
  }

  /** The numbers grow in first-appearance order. */
  ghost predicate Ordered(names: seq<string>, i: nat, named: map<string, string>)
    requires i <= |names|
  {
    forall p, q ::
      (0 <= p < q < i && FirstAppearance(names, p) && FirstAppearance(names, q)
       && Renumbered(names[p]) && Renumbered(names[q])) ==>
      && names[p] in named && names[q] in named
      && AllDigitText(named[names[p]]) && AllDigitText(named[names[q]])
      && NumberOf(named[names[p]]) < NumberOf(named[names[q]])
  }

  /** Every generated number is at most namedGroupNumberIndex. */
  ghost predicate Bounded(known: set<string>, init: set<string>, next: nat)
  {
    forall s :: s in known && s !in init && AllDigitText(s) ==> NumberOf(s) <= next
  }

  /** The registry after names[..i]. */
  ghost predicate Core(names: seq<string>, i: nat, known: set<string>, named: map<string, string>, init: set<string>, groupCount: nat)
    requires i <= |names|
  {
    && init <= known
    && PairsOk(known, named, init, groupCount)
    && KeysOk(names, i, known, named, init)
    && Covered(names, i, named)
    && Ordered(names, i, named)
  }

  lemma PrefixGrows(names: seq<string>, i: nat)
    requires i < |names|
    ensures names[..i + 1] == names[..i] + [names[i]]
    ensures forall x :: x in names[..i + 1] <==> x in names[..i] || x == names[i]
  {
    assert names[..i + 1] == names[..i] + [names[i]];
  }

  /** A name that is numeric or already numbered leaves the registry as it is. */
  lemma StepSkip(names: seq<string>, i: nat, known: set<string>, named: map<string, string>, init: set<string>, groupCount: nat)
    requires i < |names| && |names[i]| > 0 && (IsDigit(names[i][0]) || names[i] in named)
    requires Core(names, i, known, named, init, groupCount)
    ensures Core(names, i + 1, known, named, init, groupCount)
  {
    PrefixGrows(names, i);
    forall p, q | 0 <= p < q < i + 1 && FirstAppearance(names, p) && FirstAppearance(names, q)
        && Renumbered(names[p]) && Renumbered(names[q])
      ensures names[p] in named && names[q] in named
        && AllDigitText(named[names[p]]) && AllDigitText(named[names[q]])
        && NumberOf(named[names[p]]) < NumberOf(named[names[q]])
    {
      if q == i {
        assert false;
      }
    }
  }

  lemma StepNewPairs(known: set<string>, named: map<string, string>, init: set<string>, groupCount: nat, a: string, k: nat)
    requires PairsOk(known, named, init, groupCount) && init <= known && Renumbered(a) && a !in named
    requires k > groupCount && NatToString(k) !in known
    ensures PairsOk(known + {NatToString(k)}, named[a := NatToString(k)][NatToString(k) := a], init, groupCount)
  {
    var s := NatToString(k);
    DigitsValueOfNatToString(k);
    assert GeneratedNumber(s, groupCount);
    assert !Renumbered(s);
  }

  lemma StepNewKeys(names: seq<string>, i: nat, known: set<string>, named: map<string, string>, init: set<string>, k: nat)
    requires i < |names| && Renumbered(names[i]) && names[i] !in named
    requires KeysOk(names, i, known, named, init) && init <= known && NatToString(k) !in known
    ensures KeysOk(names, i + 1, known + {NatToString(k)}, named[names[i] := NatToString(k)][NatToString(k) := names[i]], init)
  {
    PrefixGrows(names, i);
    assert !Renumbered(NatToString(k));
  }

  lemma StepNewOrdered(names: seq<string>, i: nat, known: set<string>, named: map<string, string>, init: set<string>,
                       groupCount: nat, next: nat)
    requires i < |names| && Renumbered(names[i]) && names[i] !in named
    requires Core(names, i, known, named, init, groupCount) && Bounded(known, init, next)
    ensures var k := NextFree(known, next);
      Ordered(names, i + 1, named[names[i] := NatToString(k)][NatToString(k) := names[i]])
  {
    var k := NextFree(known, next);
    var s := NatToString(k);
    var named' := named[names[i] := s][s := names[i]];
    PrefixGrows(names, i);
    DigitsValueOfNatToString(k);
    forall p, q | 0 <= p < q < i + 1 && FirstAppearance(names, p) && FirstAppearance(names, q)
        && Renumbered(names[p]) && Renumbered(names[q])
      ensures names[p] in named' && names[q] in named'
        && AllDigitText(named'[names[p]]) && AllDigitText(named'[names[q]])
        && NumberOf(named'[names[p]]) < NumberOf(named'[names[q]])
    {
      assert names[p] in names[..i];
      assert names[p] in named;
      if q == i {
        var t := named[names[p]];
        assert t in known && t !in init && GeneratedNumber(t, groupCount);
        assert named'[names[p]] == t;
        assert NumberOf(t) <= next;
        assert t != s by { assert s !in known; }
        assert NumberOf(t) != k by { assert t == NatToString(NumberOf(t)); }
      } else {
        assert names[q] in names[..i];
        assert names[q] in named;
      }
    }
  }

  lemma StepNewBounded(known: set<string>, init: set<string>, next: nat)
    requires Bounded(known, init, next)
    ensures Bounded(known + {NatToString(NextFree(known, next))}, init, NextFree(known, next))
  {
    DigitsValueOfNatToString(NextFree(known, next));
  }

  /** Every known string outside `init` is a generated number, paired with a renumbered name. */
  ghost predicate Extras(known: set<string>, named: map<string, string>, init: set<string>)
  {
    forall s :: s in known && s !in init ==> s in named && Renumbered(named[s]) && named[s] in named && named[named[s]] == s
  }

  /** Every number between the plain groups and namedGroupNumberIndex is taken. */
  ghost predicate Dense(known: set<string>, groupCount: nat, next: nat)
  {
    forall j: nat :: groupCount < j < next ==> NatToString(j) in known
  }

  /** Below every generated number, each number above the plain groups is taken. */
  ghost predicate Gapless(known: set<string>, init: set<string>, groupCount: nat)
  {
    forall s :: s in known && s !in init && AllDigitText(s) ==>
      forall j: nat :: groupCount < j < NumberOf(s) ==> NatToString(j) in known
  }

  lemma StepNewExtras(known: set<string>, named: map<string, string>, init: set<string>, groupCount: nat, a: string, k: nat)
    requires Extras(known, named, init) && PairsOk(known, named, init, groupCount)
    requires Renumbered(a) && a !in named && NatToString(k) !in known
    ensures Extras(known + {NatToString(k)}, named[a := NatToString(k)][NatToString(k) := a], init)
  {
    var t := NatToString(k);
    var named' := named[a := t][t := a];
    assert !Renumbered(t);
    forall s | s in known + {t} && s !in init
      ensures s in named' && Renumbered(named'[s]) && named'[s] in named' && named'[named'[s]] == s
    {
      if s != t {
        var b := named[s];
        assert GeneratedNumber(named[b], groupCount);
        assert !Renumbered(s);
        assert b != a && b != t;
      }
    }
  }

  lemma StepNewDense(known: set<string>, init: set<string>, groupCount: nat, next: nat)
    requires Dense(known, groupCount, next) && Gapless(known, init, groupCount) && init <= known
    ensures var k := NextFree(known, next);
      Dense(known + {NatToString(k)}, groupCount, k) && Gapless(known + {NatToString(k)}, init, groupCount)
  {
    var k := NextFree(known, next);
    DigitsValueOfNatToString(k);
  }

  /** Running the numbering loop to the end keeps Core. */
  lemma {:induction false} AssignKeeps(names: seq<string>, i: nat, known: set<string>, named: map<string, string>,
                                      init: set<string>, next: nat, groupCount: nat)
    requires i <= |names| && next > groupCount
    requires Core(names, i, known, named, init, groupCount) && Bounded(known, init, next)
    requires Extras(known, named, init) && Dense(known, groupCount, next) && Gapless(known, init, groupCount)
    requires Assign(names, i, known, named, next).Ok?
    ensures var reg := Assign(names, i, known, named, next).value;
      && Core(names, |names|, reg.known, reg.named, init, groupCount)
      && Extras(reg.known, reg.named, init) && Gapless(reg.known, init, groupCount)
    decreases |names| - i
  {
    if i < |names| {
      var a := names[i];
      if IsDigit(a[0]) || a in named {
        StepSkip(names, i, known, named, init, groupCount);
        AssignKeeps(names, i + 1, known, named, init, next, groupCount);
      } else {
        var k := NextFree(known, next);
        var s := NatToString(k);
        StepNewPairs(known, named, init, groupCount, a, k);
        StepNewKeys(names, i, known, named, init, k);
        StepNewOrdered(names, i, known, named, init, groupCount, next);
        StepNewBounded(known, init, next);
        StepNewExtras(known, named, init, groupCount, a, k);
        StepNewDense(known, init, groupCount, next);
        PrefixGrows(names, i);
        assert Covered(names, i + 1, named[a := s][s := a]);
        AssignKeeps(names, i + 1, known + {s}, named[a := s][s := a], init, k, groupCount);
      }
    }
  }

  /** The properties of the finished registry. */
  lemma RegistryProperties(groupCount: nat, groupNames: seq<string>)
    requires RegistryOf(groupCount, groupNames).Ok?
    ensures var reg := RegistryOf(groupCount, groupNames).value;
      var init := InitialKnown(groupCount, groupNames);
      && (forall i: nat :: 1 <= i <= groupCount ==> NatToString(i) in reg.known)
      && (forall a :: a in groupNames ==> a in reg.known)
      && (forall a :: a in groupNames && Renumbered(a) ==>
            a in reg.named && reg.named[a] in reg.named && reg.named[reg.named[a]] == a
            && reg.named[a] in reg.known && reg.named[a] !in init
            && GeneratedNumber(reg.named[a], groupCount))
      && (forall a :: a in groupNames && StartsWithDigit(a) ==> a !in reg.named)
      && Ordered(groupNames, |groupNames|, reg.named)
      // nothing else is registered
      && (forall key :: key in reg.named ==>
            if Renumbered(key) then key in groupNames else key in reg.known && key !in init)
      && (forall s :: s in reg.known && s !in init ==>
            s in reg.named && Renumbered(reg.named[s]) && reg.named[s] in groupNames && reg.named[reg.named[s]] == s)
      // each name gets the first free number: none below it is left unused
      && (forall a :: a in groupNames && Renumbered(a) ==>
            forall j: nat :: groupCount < j < NumberOf(reg.named[a]) ==> NatToString(j) in reg.known)
  {
    var init := InitialKnown(groupCount, groupNames);
    assert groupNames[..0] == [];
    AssignKeeps(groupNames, 0, init, map[], init, groupCount + 1, groupCount);
    var reg := RegistryOf(groupCount, groupNames).value;
    assert groupNames[..|groupNames|] == groupNames;
    assert KeysOk(groupNames, |groupNames|, reg.known, reg.named, init);
    forall i: nat | 1 <= i <= groupCount ensures NatToString(i) in reg.known {
      assert NatToString(i) in NumberStrings(groupCount);
    }
    forall a | a in groupNames ensures a in init {
      var k :| 0 <= k < |groupNames| && groupNames[k] == a;
    }
  }

  /** Building the registry fails exactly when a declared name is empty. */
  lemma {:induction false} AssignFailsOnEmptyName(names: seq<string>, i: nat, known: set<string>, named: map<string, string>, next: nat)
    requires i <= |names|
    ensures Assign(names, i, known, named, next).Err? <==> exists k :: i <= k < |names| && names[k] == ""
    decreases |names| - i
  {
    if i < |names| {
      if |names[i]| == 0 {
      } else if IsDigit(names[i][0]) || names[i] in named {
        AssignFailsOnEmptyName(names, i + 1, known, named, next);
      } else {
        var k := NextFree(known, next);
        var numberStr := NatToString(k);
        AssignFailsOnEmptyName(names, i + 1, known + {numberStr}, named[names[i] := numberStr][numberStr := names[i]], k);
      }
    }
  }
}
