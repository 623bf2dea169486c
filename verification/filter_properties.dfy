/**
 * What `Filter.run` means, stated against independent definitions: each
 * attribute assertion in terms of the stored values, the combinators in
 * terms of three-valued logic, and the error path in terms of the tree.
 */
module FilterProperties {
  import opened Wrappers
  import opened Strings
  import opened SubstringMatch
  import opened MatchingRule
  import opened LdapFilter

  /** A present attribute is TRUE, a missing one FALSE, whatever its values. */
  lemma PresentMeaning(a: string, av: Attributes)
    ensures Run(Present(a), av) == Ok(Tri.True) <==> a in av
    ensures Run(Present(a), av) == Ok(Tri.False) <==> a !in av
  {
  }

  /** An unknown tag raises `OperationsError` naming that tag, whatever the attributes. */
  lemma UnknownRaises(tag: string, av: Attributes)
    ensures Run(Unknown(tag), av) == Err(OperationsError(tag))
  {
  }

  /** The constant filters ignore the attributes, and Undefined stays distinct from FALSE. */
  lemma ConstantsMeaning(av: Attributes)
    ensures Run(Filter.True, av) == Ok(Tri.True)
    ensures Run(Filter.False, av) == Ok(Tri.False)
    ensures Run(Undef, av) == Ok(Tri.Undefined) && Run(Undef, av) != Run(Filter.False, av)
  {
  }

  /** Attribute assertions on a missing attribute are FALSE: never Undefined, never an error. */
  lemma MissingAttributeIsFalse(a: string, rule: Option<Rule>, v: string,
                                ini: Option<string>, any: seq<string>, fin: Option<string>, av: Attributes)
    requires a !in av
    ensures Run(Present(a), av) == Ok(Tri.False)
    ensures Run(Eq(a, rule, v), av) == Ok(Tri.False)
    ensures Run(Ge(a, rule, v), av) == Ok(Tri.False)
    ensures Run(Le(a, rule, v), av) == Ok(Tri.False)
    ensures Run(Substrings(a, rule, ini, any, fin), av) == Ok(Tri.False)
  {
  }

  /** Equality is TRUE exactly when some stored value equals the asserted one under the rule, FALSE otherwise. */
  lemma EqMeaning(a: string, rule: Option<Rule>, v: string, av: Attributes)
    ensures Run(Eq(a, rule, v), av).Ok? && Run(Eq(a, rule, v), av).value != Tri.Undefined
    ensures Run(Eq(a, rule, v), av) == Ok(Tri.True) <==>
      a in av && exists i :: 0 <= i < |av[a]| && Equal(rule, av[a][i], v)
  {
  }

  /** With no rule, equality is membership of the asserted value among the stored ones. */
  lemma EqExactIsMembership(a: string, v: string, av: Attributes)
    ensures Run(Eq(a, None, v), av) == Ok(Tri.True) <==> a in av && v in av[a]
  {
    if a in av && v in av[a] {
      var i :| 0 <= i < |av[a]| && av[a][i] == v;
      assert Equal(None, av[a][i], v);
    }
  }

  /** Under `caseIgnoreMatch` a stored value matches when it agrees with the asserted one up to ASCII case. */
  lemma EqCaseIgnoreMeaning(a: string, v: string, av: Attributes)
    ensures Run(Eq(a, Some(CaseIgnoreMatch), v), av) == Ok(Tri.True) <==>
      a in av && exists x :: x in av[a] && Downcase(x) == Downcase(v)
  {
    if a in av && exists x :: x in av[a] && Downcase(x) == Downcase(v) {
      var x :| x in av[a] && Downcase(x) == Downcase(v);
      var i :| 0 <= i < |av[a]| && av[a][i] == x;
      assert Equal(Some(CaseIgnoreMatch), av[a][i], v);
    }
  }

  /** A stored value always matches itself, under every rule. */
  lemma EqReflexive(a: string, rule: Option<Rule>, v: string, av: Attributes)
    requires a in av && v in av[a]
    ensures Run(Eq(a, rule, v), av) == Ok(Tri.True)
  {
    var i :| 0 <= i < |av[a]| && av[a][i] == v;
    assert Equal(rule, av[a][i], v);
  }

  /** The asserted value may be given in any case under `caseIgnoreMatch`. */
  lemma EqCaseIgnoreIgnoresCase(a: string, v: string, av: Attributes)
    ensures Run(Eq(a, Some(CaseIgnoreMatch), Downcase(v)), av) == Run(Eq(a, Some(CaseIgnoreMatch), v), av)
  {
    DowncaseIdempotent(v);
  }

  /** `ge` is TRUE exactly when some stored value sorts at or after the asserted one. */
  lemma GeMeaning(a: string, v: string, av: Attributes)
    ensures Run(Ge(a, None, v), av).Ok? && Run(Ge(a, None, v), av).value != Tri.Undefined
    ensures Run(Ge(a, None, v), av) == Ok(Tri.True) <==>
      a in av && exists x :: x in av[a] && LexLeByFirstDifference(v, x)
  {
    if a in av {
      forall x | x in av[a]
        ensures AtLeast(None, x, v) <==> LexLeByFirstDifference(v, x)
      {
        LexLeMeaning(v, x);
      }
    }
  }

  /** `le` is TRUE exactly when some stored value sorts at or before the asserted one. */
  lemma LeMeaning(a: string, v: string, av: Attributes)
    ensures Run(Le(a, None, v), av).Ok? && Run(Le(a, None, v), av).value != Tri.Undefined
    ensures Run(Le(a, None, v), av) == Ok(Tri.True) <==>
      a in av && exists x :: x in av[a] && LexLeByFirstDifference(x, v)
  {
    if a in av {
      forall x | x in av[a]
        ensures AtMost(None, x, v) <==> LexLeByFirstDifference(x, v)
      {
        LexLeMeaning(x, v);
      }
    }
  }

  /** A value equal to the asserted one satisfies both `ge` and `le`. */
  lemma EqualSatisfiesGeAndLe(a: string, rule: Option<Rule>, v: string, av: Attributes)
    requires Run(Eq(a, rule, v), av) == Ok(Tri.True)
    ensures Run(Ge(a, rule, v), av) == Ok(Tri.True)
    ensures Run(Le(a, rule, v), av) == Ok(Tri.True)
  {
    var i :| 0 <= i < |av[a]| && Equal(rule, av[a][i], v);
    EqualIsBetween(rule, av[a][i], v);
  }

  /** For a single-valued attribute, `ge` and `le` together hold exactly when equality does. */
  lemma GeAndLeIsEq(a: string, rule: Option<Rule>, x: string, v: string, av: Attributes)
    requires a in av && av[a] == [x]
    ensures Run(Ge(a, rule, v), av) == Ok(Tri.True) && Run(Le(a, rule, v), av) == Ok(Tri.True)
            <==> Run(Eq(a, rule, v), av) == Ok(Tri.True)
  {
    if Run(Ge(a, rule, v), av) == Ok(Tri.True) && Run(Le(a, rule, v), av) == Ok(Tri.True) {
      BetweenIsEqual(rule, x, v);
      assert Equal(rule, av[a][0], v);
    }
    if Run(Eq(a, rule, v), av) == Ok(Tri.True) {
      EqualSatisfiesGeAndLe(a, rule, v, av);
    }
  }

  /** Exact substring matching: TRUE exactly when some stored value splits around the segments in order. */
  lemma SubstringsMeaning(a: string, ini: Option<string>, any: seq<string>, fin: Option<string>, av: Attributes)
    ensures Run(Substrings(a, None, ini, any, fin), av).Ok?
    ensures Run(Substrings(a, None, ini, any, fin), av).value != Tri.Undefined
    ensures Run(Substrings(a, None, ini, any, fin), av) == Ok(Tri.True) <==>
      a in av && exists x :: x in av[a] && Matches(x, NormalizeOpt(None, ini), any, NormalizeOpt(None, fin))
  {
    if a in av {
      forall x | x in av[a]
        ensures HasSubstrings(None, x, ini, any, fin) <==>
                Matches(x, NormalizeOpt(None, ini), any, NormalizeOpt(None, fin))
      {
        ExactSubstringsMeaning(x, ini, any, fin);
      }
    }
  }

  /** Under every rule, `substrings` is TRUE or FALSE: a present attribute with no matching value gives FALSE, not Undefined. */
  lemma SubstringsNeverUndefined(a: string, rule: Option<Rule>, ini: Option<string>, any: seq<string>,
                                 fin: Option<string>, av: Attributes)
    ensures Run(Substrings(a, rule, ini, any, fin), av).Ok?
    ensures Run(Substrings(a, rule, ini, any, fin), av) != Ok(Tri.Undefined)
    ensures a in av && (forall k :: 0 <= k < |av[a]| ==> !HasSubstrings(rule, av[a][k], ini, any, fin)) ==>
      Run(Substrings(a, rule, ini, any, fin), av) == Ok(Tri.False)
  {
  }

  /** The case-folded value splits around the case-folded segments. */
  ghost predicate FoldedMatches(rule: Rule, x: string, ini: Option<string>, any: seq<string>, fin: Option<string>)
  {
    Matches(Downcase(x), NormalizeOpt(Some(rule), ini), NormalizeAll(Some(rule), any), NormalizeOpt(Some(rule), fin))
  }

  /** Under a named rule the same split is sought between the case-folded value and segments. */
  lemma SubstringsCaseIgnoreMeaning(a: string, rule: Rule, ini: Option<string>, any: seq<string>,
                                    fin: Option<string>, av: Attributes)
    ensures Run(Substrings(a, Some(rule), ini, any, fin), av).Ok?
    ensures Run(Substrings(a, Some(rule), ini, any, fin), av).value != Tri.Undefined
    ensures Run(Substrings(a, Some(rule), ini, any, fin), av) == Ok(Tri.True) <==>
      a in av && exists x :: x in av[a] && FoldedMatches(rule, x, ini, any, fin)
  {
    if a in av {
      forall x | x in av[a]
        ensures HasSubstrings(Some(rule), x, ini, any, fin) <==> FoldedMatches(rule, x, ini, any, fin)
      {
        FoldedValueMatches(rule, x, ini, any, fin);
      }
    }
  }

  lemma FoldedValueMatches(rule: Rule, x: string, ini: Option<string>, any: seq<string>, fin: Option<string>)
    ensures HasSubstrings(Some(rule), x, ini, any, fin) <==> FoldedMatches(rule, x, ini, any, fin)
  {
    SubstringsMatchMeaning(Downcase(x), NormalizeOpt(Some(rule), ini), NormalizeAll(Some(rule), any),
                           NormalizeOpt(Some(rule), fin));
  }

  function DowncaseOpt(seg: Option<string>): Option<string>
  {
    match seg
    case None => None
    case Some(s) => Some(Downcase(s))
  }

  lemma NormalizeAllIdempotent(rule: Option<Rule>, segs: seq<string>)
    ensures NormalizeAll(rule, NormalizeAll(rule, segs)) == NormalizeAll(rule, segs)
  {
    forall k | 0 <= k < |segs|
      ensures NormalizeAll(rule, NormalizeAll(rule, segs))[k] == NormalizeAll(rule, segs)[k]
    {
      NormalizeIdempotent(rule, segs[k]);
    }
  }

  /** Under a named rule the segments may be written in any mixture of cases. */
  lemma SubstringsCaseIgnoreIgnoresCase(a: string, rule: Rule, ini: Option<string>, any: seq<string>,
                                        fin: Option<string>, av: Attributes)
    ensures Run(Substrings(a, Some(rule), DowncaseOpt(ini), NormalizeAll(Some(rule), any), DowncaseOpt(fin)), av)
         == Run(Substrings(a, Some(rule), ini, any, fin), av)
  {
    NormalizeAllIdempotent(Some(rule), any);
    if ini.Some? {
      DowncaseIdempotent(ini.value);
    }
    if fin.Some? {
      DowncaseIdempotent(fin.value);
    }
    assert forall x :: HasSubstrings(Some(rule), x, DowncaseOpt(ini), NormalizeAll(Some(rule), any), DowncaseOpt(fin))
                    == HasSubstrings(Some(rule), x, ini, any, fin);
  }

  predicate IsEmptySegment(seg: Option<string>)
  {
    seg.None? || seg == Some("")
  }

  /** With every segment absent or empty, substrings is TRUE exactly when the attribute has a value. */
  lemma SubstringsEmptySegments(a: string, rule: Option<Rule>, ini: Option<string>, any: seq<string>,
                                fin: Option<string>, av: Attributes)
    requires IsEmptySegment(ini) && IsEmptySegment(fin)
    requires forall k :: 0 <= k < |any| ==> any[k] == ""
    ensures Run(Substrings(a, rule, ini, any, fin), av) == Ok(Tri.True) <==> a in av && |av[a]| > 0
  {
    if a in av && |av[a]| > 0 {
      var x := av[a][0];
      assert forall k :: 0 <= k < |any| ==> NormalizeAll(rule, any)[k] == "";
      EmptySegmentsMatchEverything(Normalize(rule, x), NormalizeAll(rule, any));
      assert HasSubstrings(rule, av[a][0], ini, any, fin);
    }
  }

  /** `not` inverts TRUE and FALSE, keeps Undefined, and passes an error through. */
  lemma NotMeaning(f: Filter, av: Attributes)
    ensures Run(f, av) == Ok(Tri.True) <==> Run(Not(f), av) == Ok(Tri.False)
    ensures Run(f, av) == Ok(Tri.False) <==> Run(Not(f), av) == Ok(Tri.True)
    ensures Run(f, av) == Ok(Tri.Undefined) <==> Run(Not(f), av) == Ok(Tri.Undefined)
    ensures Run(f, av).Err? ==> Run(Not(f), av) == Run(f, av)
  {
  }

  /** Negating twice gives back the original result. */
  lemma NotNot(f: Filter, av: Attributes)
    ensures Run(Not(Not(f)), av) == Run(f, av)
  {
  }

  /** When every child evaluates, `and` is the three-valued conjunction of their results. */
  lemma {:induction false} AndMeaning(fs: seq<Filter>, av: Attributes)
    requires forall i :: 0 <= i < |fs| ==> Run(fs[i], av).Ok?
    ensures Run(And(fs), av).Ok?
    ensures Run(And(fs), av) == Ok(Tri.False) <==> exists i :: 0 <= i < |fs| && Run(fs[i], av) == Ok(Tri.False)
    ensures Run(And(fs), av) == Ok(Tri.True) <==> forall i :: 0 <= i < |fs| ==> Run(fs[i], av) == Ok(Tri.True)
    decreases |fs|
  {
    if |fs| > 0 {
      AndMeaning(fs[1..], av);
      assert forall i :: 1 <= i < |fs| ==> fs[i] == fs[1..][i - 1];
      assert And(fs[1..]).children == fs[1..];
    }
  }

  /** When every child evaluates, `or` is the three-valued disjunction of their results. */
  lemma {:induction false} OrMeaning(fs: seq<Filter>, av: Attributes)
    requires forall i :: 0 <= i < |fs| ==> Run(fs[i], av).Ok?
    ensures Run(Or(fs), av).Ok?
    ensures Run(Or(fs), av) == Ok(Tri.True) <==> exists i :: 0 <= i < |fs| && Run(fs[i], av) == Ok(Tri.True)
    ensures Run(Or(fs), av) == Ok(Tri.False) <==> forall i :: 0 <= i < |fs| ==> Run(fs[i], av) == Ok(Tri.False)
    decreases |fs|
  {
    if |fs| > 0 {
      OrMeaning(fs[1..], av);
      assert forall i :: 1 <= i < |fs| ==> fs[i] == fs[1..][i - 1];
    }
  }

  /** `and` stops at its first FALSE child: later children, even unknown ones, are not evaluated. */
  lemma {:induction false} AndStopsAtFalse(fs: seq<Filter>, k: nat, av: Attributes)
    requires k < |fs| && Run(fs[k], av) == Ok(Tri.False)
    requires forall i :: 0 <= i < k ==> Run(fs[i], av).Ok?
    ensures Run(And(fs), av) == Ok(Tri.False)
    decreases k
  {
    if k > 0 && Run(fs[0], av) != Ok(Tri.False) {
      AndStopsAtFalse(fs[1..], k - 1, av);
    }
  }

  /** `or` stops at its first TRUE child. */
  lemma {:induction false} OrStopsAtTrue(fs: seq<Filter>, k: nat, av: Attributes)
    requires k < |fs| && Run(fs[k], av) == Ok(Tri.True)
    requires forall i :: 0 <= i < k ==> Run(fs[i], av).Ok?
    ensures Run(Or(fs), av) == Ok(Tri.True)
    decreases k
  {
    if k > 0 && Run(fs[0], av) != Ok(Tri.True) {
      OrStopsAtTrue(fs[1..], k - 1, av);
    }
  }

  function NegateAll(fs: seq<Filter>): (r: seq<Filter>)
    ensures |r| == |fs| && forall i :: 0 <= i < |fs| ==> r[i] == Not(fs[i])
    decreases |fs|
  {
    if |fs| == 0 then [] else [Not(fs[0])] + NegateAll(fs[1..])
  }

  function NegateResult(r: Result<Tri, LdapError>): Result<Tri, LdapError>
  {
    match r
    case Ok(t) => Ok(Negate(t))
    case Err(e) => Err(e)
  }

  lemma {:induction false} NegatedConjunction(fs: seq<Filter>, av: Attributes)
    ensures NegateResult(RunAnd(fs, av)) == RunOr(NegateAll(fs), av)
    decreases |fs|
  {
    if |fs| > 0 {
      var ns := NegateAll(fs);
      assert ns[1..] == NegateAll(fs[1..]);
      NegatedConjunction(fs[1..], av);
      var r0 := Run(fs[0], av);
      assert Run(ns[0], av) == NegateResult(r0);
      if r0.Ok? && r0.value != Tri.False {
        var rest := RunAnd(fs[1..], av);
        assert RunOr(ns[1..], av) == NegateResult(rest);
      }
    }
  }

  lemma {:induction false} NegatedDisjunction(fs: seq<Filter>, av: Attributes)
    ensures NegateResult(RunOr(fs, av)) == RunAnd(NegateAll(fs), av)
    decreases |fs|
  {
    if |fs| > 0 {
      var ns := NegateAll(fs);
      assert ns[1..] == NegateAll(fs[1..]);
      NegatedDisjunction(fs[1..], av);
      var r0 := Run(fs[0], av);
      assert Run(ns[0], av) == NegateResult(r0);
      if r0.Ok? && r0.value != Tri.True {
        var rest := RunOr(fs[1..], av);
        assert RunAnd(ns[1..], av) == NegateResult(rest);
      }
    }
  }

  /** De Morgan: `not and` is `or` of the negations, errors and short-circuiting included. */
  lemma NotAndIsOrNot(fs: seq<Filter>, av: Attributes)
    ensures Run(Not(And(fs)), av) == Run(Or(NegateAll(fs)), av)
  {
    assert Run(Not(And(fs)), av) == NegateResult(RunAnd(fs, av));
    NegatedConjunction(fs, av);
  }

  /** De Morgan: `not or` is `and` of the negations. */
  lemma NotOrIsAndNot(fs: seq<Filter>, av: Attributes)
    ensures Run(Not(Or(fs)), av) == Run(And(NegateAll(fs)), av)
  {
    assert Run(Not(Or(fs)), av) == NegateResult(RunOr(fs, av));
    NegatedDisjunction(fs, av);
  }
}
