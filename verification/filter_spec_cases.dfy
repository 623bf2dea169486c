/**
 * The examples of spec/filter_spec.rb, one lemma per assertion, named after
 * its line, over the same entry `Input`. RSpec's `be_true` and `be_false`
 * test truthiness, so `BeFalse` admits FALSE and Undefined alike, while
 * `be_nil` asks for Undefined itself. A `reduce(:&)` that should be true
 * needs every listed filter TRUE; a `reduce(:|)` that should be false needs
 * every one falsy.
 */
module FilterSpecCases {
  import opened Wrappers
  import opened Strings
  import opened SubstringMatch
  import opened MatchingRule
  import opened LdapFilter

  const Input: Attributes := map["foo" := ["abc", "def"], "bar" := ["wibblespong"]]

  /** `MatchingRule.find('caseIgnoreMatch')` */
  const CaseIgnore: Option<Rule> := Find("caseIgnoreMatch")

  /** `MatchingRule.find('caseIgnoreIA5SubstringsMatch')` */
  const CaseIgnoreIA5: Option<Rule> := Find("caseIgnoreIA5SubstringsMatch")

  predicate BeTrue(r: Result<Tri, LdapError>) { r == Ok(Tri.True) }

  predicate BeFalse(r: Result<Tri, LdapError>) { r.Ok? && r.value != Tri.True }

  predicate BeNil(r: Result<Tri, LdapError>) { r == Ok(Tri.Undefined) }

  /** A substrings filter on `foo` asks the rule about its two values. */
  lemma FooValues(rule: Option<Rule>, ini: Option<string>, any: seq<string>, fin: Option<string>)
    ensures Run(Substrings("foo", rule, ini, any, fin), Input)
         == Ok(FromBool(HasSubstrings(rule, "abc", ini, any, fin) || HasSubstrings(rule, "def", ini, any, fin)))
  {
    assert Input["foo"] == ["abc", "def"];
  }

  /** The values of `foo` are already in lower case, so every rule leaves them alone. */
  lemma FooNormalized(rule: Option<Rule>)
    ensures Normalize(rule, "abc") == "abc" && Normalize(rule, "def") == "def"
  {
    DowncaseFixedPoints("abc");
    DowncaseFixedPoints("def");
  }

  /** The same question, once the rule has normalised the asserted segments to `i`, `a` and `f`. */
  lemma FooSubstrings(rule: Option<Rule>, ini: Option<string>, any: seq<string>, fin: Option<string>,
                      i: string, a: seq<string>, f: string)
    requires NormalizeOpt(rule, ini) == i && NormalizeAll(rule, any) == a && NormalizeOpt(rule, fin) == f
    ensures Run(Substrings("foo", rule, ini, any, fin), Input)
         == Ok(FromBool(SubstringsMatch("abc", i, a, f) || SubstringsMatch("def", i, a, f)))
  {
    FooValues(rule, ini, any, fin);
    FooNormalized(rule);
  }

  /** Exact matching leaves the segments as they are. */
  lemma {:induction false} ExactSegments(any: seq<string>)
    ensures NormalizeAll(None, any) == any
    decreases |any|
  {
    if |any| > 0 {
      ExactSegments(any[1..]);
      assert any == [any[0]] + any[1..];
    }
  }

  /** `t` is `s` with its ASCII capitals lowered. */
  lemma Folded(s: string, t: string)
    requires |s| == |t| && forall k :: 0 <= k < |s| ==> LowerChar(s[k]) == t[k]
    ensures Downcase(s) == t
  {
  }

  /** An ordering filter on `bar` compares the asserted value with its single value. */
  lemma BarOrdering(asserted: string)
    ensures Run(Ge("bar", None, asserted), Input) == Ok(FromBool(LexLe(asserted, "wibblespong")))
    ensures Run(Le("bar", None, asserted), Input) == Ok(FromBool(LexLe("wibblespong", asserted)))
  {
    assert Input["bar"] == ["wibblespong"];
  }

  /** The stored value is a proper prefix of the asserted one, so it sorts strictly first. */
  lemma WibbleOrder()
    ensures LexLe("wibblespong", "wibblespong2") && !LexLe("wibblespong2", "wibblespong")
  {
    assert "wibblespong2"[0..11] == "wibblespong";
    ProperPrefixSortsFirst("wibblespong", "wibblespong2");
  }

  /** spec/filter_spec.rb:21, a present attribute */
  lemma Line21()
    ensures BeTrue(Run(Present("foo"), Input))
  {
  }

  /** spec/filter_spec.rb:25, a missing attribute */
  lemma Line25()
    ensures BeFalse(Run(Present("foofoo"), Input))
  {
  }

  /** spec/filter_spec.rb:33-35, an unknown filter type raises OperationsError */
  lemma Line34()
    ensures Run(Unknown("whatever"), map[]).Err? && Run(Unknown("whatever"), map[]).error.OperationsError?
  {
  }

  /** spec/filter_spec.rb:43 */
  lemma Line43()
    ensures BeTrue(Run(Filter.True, map[]))
  {
  }

  /** spec/filter_spec.rb:47 */
  lemma Line47()
    ensures BeFalse(Run(Filter.False, map[]))
  {
  }

  /** spec/filter_spec.rb:51, `be_nil`: Undefined itself */
  lemma Line51()
    ensures BeNil(Run(Undef, map[]))
  {
  }

  /** spec/filter_spec.rb:59 */
  lemma Line59()
    ensures BeTrue(Run(Eq("foo", None, "abc"), Input))
  {
  }

  /** spec/filter_spec.rb:63-65 */
  lemma Line63()
    ensures BeTrue(Run(Eq("foo", None, "abc"), Input)) && BeTrue(Run(Eq("foo", None, "def"), Input))
  {
  }

  /** spec/filter_spec.rb:69 */
  lemma Line69()
    ensures BeFalse(Run(Eq("foo", None, "not_matched"), Input))
  {
  }

  /** spec/filter_spec.rb:73 */
  lemma Line73()
    ensures BeFalse(Run(Eq("not_attr", None, "abc"), Input))
  {
  }

  /** spec/filter_spec.rb:87 */
  lemma Line87()
    ensures BeTrue(Run(Eq("foo", CaseIgnore, "abc"), Input))
  {
  }

  /** spec/filter_spec.rb:91, a value in another case */
  lemma Line91()
    ensures BeTrue(Run(Eq("foo", CaseIgnore, "ABC"), Input))
  {
    assert Downcase("ABC") == "abc";
  }

  /** spec/filter_spec.rb:95-97 */
  lemma Line95()
    ensures BeTrue(Run(Eq("foo", None, "abc"), Input)) && BeTrue(Run(Eq("foo", None, "def"), Input))
  {
  }

  /** spec/filter_spec.rb:101-103 */
  lemma Line101()
    ensures BeTrue(Run(Eq("foo", CaseIgnore, "abC"), Input)) && BeTrue(Run(Eq("foo", CaseIgnore, "dEf"), Input))
  {
    assert Downcase("abC") == "abc" && Downcase("dEf") == "def";
  }

  /** spec/filter_spec.rb:107 */
  lemma Line107()
    ensures BeFalse(Run(Eq("foo", CaseIgnore, "not_matched"), Input))
  {
  }

  /** spec/filter_spec.rb:111 */
  lemma Line111()
    ensures BeFalse(Run(Eq("not_attr", CaseIgnore, "abc"), Input))
  {
  }

  /** spec/filter_spec.rb:119, an equal value */
  lemma Line119()
    ensures BeTrue(Run(Ge("foo", None, "abc"), Input))
  {
  }

  /** spec/filter_spec.rb:123, a greater value */
  lemma Line123()
    ensures BeTrue(Run(Ge("foo", None, "a"), Input))
  {
  }

  /** spec/filter_spec.rb:127, only a lesser value */
  lemma Line127()
    ensures BeFalse(Run(Ge("bar", None, "wibblespong2"), Input))
  {
    BarOrdering("wibblespong2");
    WibbleOrder();
  }

  /** spec/filter_spec.rb:131 */
  lemma Line131()
    ensures BeFalse(Run(Ge("not_attr", None, "abc"), Input))
  {
  }

  /** spec/filter_spec.rb:138, an equal value */
  lemma Line138()
    ensures BeTrue(Run(Le("foo", None, "abc"), Input))
  {
  }

  /** spec/filter_spec.rb:142, only greater values */
  lemma Line142()
    ensures BeFalse(Run(Le("foo", None, "a"), Input))
  {
  }

  /** spec/filter_spec.rb:146, a lesser value */
  lemma Line146()
    ensures BeTrue(Run(Le("bar", None, "wibblespong2"), Input))
  {
    BarOrdering("wibblespong2");
    WibbleOrder();
  }

  /** spec/filter_spec.rb:150 */
  lemma Line150()
    ensures BeFalse(Run(Le("not_attr", None, "abc"), Input))
  {
  }

  /** spec/filter_spec.rb:160 */
  lemma Line160()
    ensures BeTrue(Run(Substrings("foo", None, Some("a"), [], None), Input))
  {
    FooSubstrings(None, Some("a"), [], None, "a", [], "");
    NoSegmentsMeaning("abc", "a", "");
    assert IsPrefix("a", "abc") && IsSuffix("", "abc");
  }

  /** spec/filter_spec.rb:161 */
  lemma Line161()
    ensures BeTrue(Run(Substrings("foo", None, Some("ab"), [], None), Input))
  {
    FooSubstrings(None, Some("ab"), [], None, "ab", [], "");
    NoSegmentsMeaning("abc", "ab", "");
    assert IsPrefix("ab", "abc") && IsSuffix("", "abc");
  }

  /** spec/filter_spec.rb:162 */
  lemma Line162()
    ensures BeTrue(Run(Substrings("foo", None, Some("abc"), [], None), Input))
  {
    FooSubstrings(None, Some("abc"), [], None, "abc", [], "");
    NoSegmentsMeaning("abc", "abc", "");
    assert IsPrefix("abc", "abc") && IsSuffix("", "abc");
  }

  /** spec/filter_spec.rb:163 */
  lemma Line163()
    ensures BeTrue(Run(Substrings("foo", None, Some("def"), [], None), Input))
  {
    FooSubstrings(None, Some("def"), [], None, "def", [], "");
    NoSegmentsMeaning("abc", "def", "");
    MismatchNotOccurs("abc", "def", 0, 0);
    NoSegmentsMeaning("def", "def", "");
    assert IsPrefix("def", "def") && IsSuffix("", "def");
  }

  /** spec/filter_spec.rb:168 */
  lemma Line168()
    ensures BeFalse(Run(Substrings("foo", None, Some("b"), [], None), Input))
  {
    FooSubstrings(None, Some("b"), [], None, "b", [], "");
    NoSegmentsMeaning("abc", "b", "");
    MismatchNotOccurs("abc", "b", 0, 0);
    NoSegmentsMeaning("def", "b", "");
    MismatchNotOccurs("def", "b", 0, 0);
  }

  /** spec/filter_spec.rb:169 */
  lemma Line169()
    ensures BeFalse(Run(Substrings("foo", None, Some("bc"), [], None), Input))
  {
    FooSubstrings(None, Some("bc"), [], None, "bc", [], "");
    NoSegmentsMeaning("abc", "bc", "");
    MismatchNotOccurs("abc", "bc", 0, 0);
    NoSegmentsMeaning("def", "bc", "");
    MismatchNotOccurs("def", "bc", 0, 0);
  }

  /** spec/filter_spec.rb:170 */
  lemma Line170()
    ensures BeFalse(Run(Substrings("foo", None, Some("ac"), [], None), Input))
  {
    FooSubstrings(None, Some("ac"), [], None, "ac", [], "");
    NoSegmentsMeaning("abc", "ac", "");
    MismatchNotOccurs("abc", "ac", 0, 1);
    NoSegmentsMeaning("def", "ac", "");
    MismatchNotOccurs("def", "ac", 0, 0);
  }

  /** spec/filter_spec.rb:171 */
  lemma Line171()
    ensures BeFalse(Run(Substrings("foo", None, Some("bd"), [], None), Input))
  {
    FooSubstrings(None, Some("bd"), [], None, "bd", [], "");
    NoSegmentsMeaning("abc", "bd", "");
    MismatchNotOccurs("abc", "bd", 0, 0);
    NoSegmentsMeaning("def", "bd", "");
    MismatchNotOccurs("def", "bd", 0, 0);
  }

  /** spec/filter_spec.rb:175 */
  lemma Line175()
    ensures BeTrue(Run(Substrings("foo", None, Some(""), [], None), Input))
  {
    FooSubstrings(None, Some(""), [], None, "", [], "");
    NoSegmentsMeaning("abc", "", "");
    assert IsPrefix("", "abc") && IsSuffix("", "abc");
  }

  /** spec/filter_spec.rb:179 */
  lemma Line179()
    ensures BeFalse(Run(Substrings("not_attr", None, Some(""), [], None), Input))
  {
  }

  /** spec/filter_spec.rb:180 */
  lemma Line180()
    ensures BeFalse(Run(Substrings("not_attr", None, Some("abc"), [], None), Input))
  {
  }

  /** spec/filter_spec.rb:188 */
  lemma Line188()
    ensures BeTrue(Run(Substrings("foo", None, Some(""), ["a"], None), Input))
  {
    ExactSegments(["a"]);
    FooSubstrings(None, Some(""), ["a"], None, "", ["a"], "");
    OneSegmentMeaning("abc", "", "a", "");
    assert IsPrefix("", "abc") && IsSuffix("", "abc");
    assert OccursAt("abc", "a", 0);
  }

  /** spec/filter_spec.rb:189 */
  lemma Line189()
    ensures BeTrue(Run(Substrings("foo", None, Some("a"), ["b"], None), Input))
  {
    ExactSegments(["b"]);
    FooSubstrings(None, Some("a"), ["b"], None, "a", ["b"], "");
    OneSegmentMeaning("abc", "a", "b", "");
    assert IsPrefix("a", "abc") && IsSuffix("", "abc");
    assert OccursAt("abc", "b", 1);
  }

  /** spec/filter_spec.rb:190 */
  lemma Line190()
    ensures BeTrue(Run(Substrings("foo", None, Some("ab"), ["c"], None), Input))
  {
    ExactSegments(["c"]);
    FooSubstrings(None, Some("ab"), ["c"], None, "ab", ["c"], "");
    OneSegmentMeaning("abc", "ab", "c", "");
    assert IsPrefix("ab", "abc") && IsSuffix("", "abc");
    assert OccursAt("abc", "c", 2);
  }

  /** spec/filter_spec.rb:191 */
  lemma Line191()
    ensures BeTrue(Run(Substrings("foo", None, Some("abc"), [""], None), Input))
  {
    ExactSegments([""]);
    FooSubstrings(None, Some("abc"), [""], None, "abc", [""], "");
    OneSegmentMeaning("abc", "abc", "", "");
    assert IsPrefix("abc", "abc") && IsSuffix("", "abc");
    assert OccursAt("abc", "", 3);
  }

  /** spec/filter_spec.rb:192 */
  lemma Line192()
    ensures BeTrue(Run(Substrings("foo", None, Some("d"), [""], None), Input))
  {
    ExactSegments([""]);
    FooSubstrings(None, Some("d"), [""], None, "d", [""], "");
    OneSegmentMeaning("abc", "d", "", "");
    MismatchNotOccurs("abc", "d", 0, 0);
    OneSegmentMeaning("def", "d", "", "");
    assert IsPrefix("d", "def") && IsSuffix("", "def");
    assert OccursAt("def", "", 1);
  }

  /** spec/filter_spec.rb:197 */
  lemma Line197()
    ensures BeFalse(Run(Substrings("foo", None, Some("b"), [""], None), Input))
  {
    ExactSegments([""]);
    FooSubstrings(None, Some("b"), [""], None, "b", [""], "");
    OneSegmentMeaning("abc", "b", "", "");
    MismatchNotOccurs("abc", "b", 0, 0);
    OneSegmentMeaning("def", "b", "", "");
    MismatchNotOccurs("def", "b", 0, 0);
  }

  /** spec/filter_spec.rb:198 */
  lemma Line198()
    ensures BeFalse(Run(Substrings("foo", None, Some("b"), ["c"], None), Input))
  {
    ExactSegments(["c"]);
    FooSubstrings(None, Some("b"), ["c"], None, "b", ["c"], "");
    OneSegmentMeaning("abc", "b", "c", "");
    MismatchNotOccurs("abc", "b", 0, 0);
    OneSegmentMeaning("def", "b", "c", "");
    MismatchNotOccurs("def", "b", 0, 0);
  }

  /** spec/filter_spec.rb:199 */
  lemma Line199()
    ensures BeFalse(Run(Substrings("foo", None, Some("ac"), [], None), Input))
  {
    FooSubstrings(None, Some("ac"), [], None, "ac", [], "");
    NoSegmentsMeaning("abc", "ac", "");
    MismatchNotOccurs("abc", "ac", 0, 1);
    NoSegmentsMeaning("def", "ac", "");
    MismatchNotOccurs("def", "ac", 0, 0);
  }

  /** spec/filter_spec.rb:203 */
  lemma Line203()
    ensures BeTrue(Run(Substrings("foo", None, Some(""), [""], None), Input))
  {
    ExactSegments([""]);
    FooSubstrings(None, Some(""), [""], None, "", [""], "");
    OneSegmentMeaning("abc", "", "", "");
    assert IsPrefix("", "abc") && IsSuffix("", "abc");
    assert OccursAt("abc", "", 0);
  }

  /** spec/filter_spec.rb:207 */
  lemma Line207()
    ensures BeFalse(Run(Substrings("not_attr", None, Some(""), [""], None), Input))
  {
  }

  /** spec/filter_spec.rb:208 */
  lemma Line208()
    ensures BeFalse(Run(Substrings("not_attr", None, Some(""), ["abc"], None), Input))
  {
  }

  /** spec/filter_spec.rb:209 */
  lemma Line209()
    ensures BeFalse(Run(Substrings("not_attr", None, Some("abc"), [""], None), Input))
  {
  }

  /** spec/filter_spec.rb:210 */
  lemma Line210()
    ensures BeFalse(Run(Substrings("not_attr", None, Some("a"), ["b"], None), Input))
  {
  }

  /** spec/filter_spec.rb:218 */
  lemma Line218()
    ensures BeTrue(Run(Substrings("foo", None, None, [], Some("c")), Input))
  {
    FooSubstrings(None, None, [], Some("c"), "", [], "c");
    NoSegmentsMeaning("abc", "", "c");
    assert IsPrefix("", "abc") && IsSuffix("c", "abc");
  }

  /** spec/filter_spec.rb:219 */
  lemma Line219()
    ensures BeTrue(Run(Substrings("foo", None, None, [], Some("bc")), Input))
  {
    FooSubstrings(None, None, [], Some("bc"), "", [], "bc");
    NoSegmentsMeaning("abc", "", "bc");
    assert IsPrefix("", "abc") && IsSuffix("bc", "abc");
  }

  /** spec/filter_spec.rb:220 */
  lemma Line220()
    ensures BeTrue(Run(Substrings("foo", None, None, [], Some("abc")), Input))
  {
    FooSubstrings(None, None, [], Some("abc"), "", [], "abc");
    NoSegmentsMeaning("abc", "", "abc");
    assert IsPrefix("", "abc") && IsSuffix("abc", "abc");
  }

  /** spec/filter_spec.rb:224 */
  lemma Line224()
    ensures BeFalse(Run(Substrings("foo", None, None, [], Some("d")), Input))
  {
    FooSubstrings(None, None, [], Some("d"), "", [], "d");
    NoSegmentsMeaning("abc", "", "d");
    MismatchNotOccurs("abc", "d", 2, 0);
    NoSegmentsMeaning("def", "", "d");
    MismatchNotOccurs("def", "d", 2, 0);
  }

  /** spec/filter_spec.rb:227 */
  lemma Line227()
    ensures BeTrue(Run(Substrings("foo", None, None, [], Some("")), Input))
  {
    FooSubstrings(None, None, [], Some(""), "", [], "");
    NoSegmentsMeaning("abc", "", "");
    assert IsPrefix("", "abc") && IsSuffix("", "abc");
  }

  /** spec/filter_spec.rb:231 */
  lemma Line231()
    ensures BeFalse(Run(Substrings("not_attr", None, None, [], Some("")), Input))
  {
  }

  /** spec/filter_spec.rb:232 */
  lemma Line232()
    ensures BeFalse(Run(Substrings("not_attr", None, None, [], Some("c")), Input))
  {
  }

  /** spec/filter_spec.rb:233 */
  lemma Line233()
    ensures BeFalse(Run(Substrings("not_attr", None, None, [], Some("bc")), Input))
  {
  }

  /** spec/filter_spec.rb:234 */
  lemma Line234()
    ensures BeFalse(Run(Substrings("not_attr", None, None, [], Some("abc")), Input))
  {
  }

  /** spec/filter_spec.rb:235 */
  lemma Line235()
    ensures BeFalse(Run(Substrings("not_attr", None, None, [], Some("0abc")), Input))
  {
  }

  /** spec/filter_spec.rb:243 */
  lemma Line243()
    ensures BeTrue(Run(Substrings("foo", None, None, [""], Some("c")), Input))
  {
    ExactSegments([""]);
    FooSubstrings(None, None, [""], Some("c"), "", [""], "c");
    OneSegmentMeaning("abc", "", "", "c");
    assert IsPrefix("", "abc") && IsSuffix("c", "abc");
    assert OccursAt("abc", "", 0);
  }

  /** spec/filter_spec.rb:244 */
  lemma Line244()
    ensures BeTrue(Run(Substrings("foo", None, None, ["b"], Some("c")), Input))
  {
    ExactSegments(["b"]);
    FooSubstrings(None, None, ["b"], Some("c"), "", ["b"], "c");
    OneSegmentMeaning("abc", "", "b", "c");
    assert IsPrefix("", "abc") && IsSuffix("c", "abc");
    assert OccursAt("abc", "b", 1);
  }

  /** spec/filter_spec.rb:245 */
  lemma Line245()
    ensures BeTrue(Run(Substrings("foo", None, None, ["ab"], Some("c")), Input))
  {
    ExactSegments(["ab"]);
    FooSubstrings(None, None, ["ab"], Some("c"), "", ["ab"], "c");
    OneSegmentMeaning("abc", "", "ab", "c");
    assert IsPrefix("", "abc") && IsSuffix("c", "abc");
    assert OccursAt("abc", "ab", 0);
  }

  /** spec/filter_spec.rb:250 */
  lemma Line250()
    ensures BeFalse(Run(Substrings("foo", None, None, ["b"], Some("d")), Input))
  {
    ExactSegments(["b"]);
    FooSubstrings(None, None, ["b"], Some("d"), "", ["b"], "d");
    OneSegmentMeaning("abc", "", "b", "d");
    MismatchNotOccurs("abc", "d", 2, 0);
    OneSegmentMeaning("def", "", "b", "d");
    MismatchNotOccurs("def", "d", 2, 0);
  }

  /** spec/filter_spec.rb:251 */
  lemma Line251()
    ensures BeFalse(Run(Substrings("foo", None, None, ["ab"], Some("d")), Input))
  {
    ExactSegments(["ab"]);
    FooSubstrings(None, None, ["ab"], Some("d"), "", ["ab"], "d");
    OneSegmentMeaning("abc", "", "ab", "d");
    MismatchNotOccurs("abc", "d", 2, 0);
    OneSegmentMeaning("def", "", "ab", "d");
    MismatchNotOccurs("def", "d", 2, 0);
  }

  /** spec/filter_spec.rb:252 */
  lemma Line252()
    ensures BeFalse(Run(Substrings("foo", None, None, ["abc"], Some("d")), Input))
  {
    ExactSegments(["abc"]);
    FooSubstrings(None, None, ["abc"], Some("d"), "", ["abc"], "d");
    OneSegmentMeaning("abc", "", "abc", "d");
    MismatchNotOccurs("abc", "d", 2, 0);
    OneSegmentMeaning("def", "", "abc", "d");
    MismatchNotOccurs("def", "d", 2, 0);
  }

  /** spec/filter_spec.rb:256 */
  lemma Line256()
    ensures BeTrue(Run(Substrings("foo", None, None, [""], Some("")), Input))
  {
    ExactSegments([""]);
    FooSubstrings(None, None, [""], Some(""), "", [""], "");
    OneSegmentMeaning("abc", "", "", "");
    assert IsPrefix("", "abc") && IsSuffix("", "abc");
    assert OccursAt("abc", "", 0);
  }

  /** spec/filter_spec.rb:260 */
  lemma Line260()
    ensures BeFalse(Run(Substrings("not_attr", None, None, [""], Some("")), Input))
  {
  }

  /** spec/filter_spec.rb:261 */
  lemma Line261()
    ensures BeFalse(Run(Substrings("not_attr", None, None, [""], Some("abc")), Input))
  {
  }

  /** spec/filter_spec.rb:262 */
  lemma Line262()
    ensures BeFalse(Run(Substrings("not_attr", None, None, ["abc"], Some("")), Input))
  {
  }

  /** spec/filter_spec.rb:263 */
  lemma Line263()
    ensures BeFalse(Run(Substrings("not_attr", None, None, ["b"], Some("c")), Input))
  {
  }

  /** spec/filter_spec.rb:271 */
  lemma Line271()
    ensures BeTrue(Run(Substrings("foo", None, Some("a"), [""], Some("c")), Input))
  {
    ExactSegments([""]);
    FooSubstrings(None, Some("a"), [""], Some("c"), "a", [""], "c");
    OneSegmentMeaning("abc", "a", "", "c");
    assert IsPrefix("a", "abc") && IsSuffix("c", "abc");
    assert OccursAt("abc", "", 1);
  }

  /** spec/filter_spec.rb:272 */
  lemma Line272()
    ensures BeTrue(Run(Substrings("foo", None, Some("a"), ["b"], Some("c")), Input))
  {
    ExactSegments(["b"]);
    FooSubstrings(None, Some("a"), ["b"], Some("c"), "a", ["b"], "c");
    OneSegmentMeaning("abc", "a", "b", "c");
    assert IsPrefix("a", "abc") && IsSuffix("c", "abc");
    assert OccursAt("abc", "b", 1);
  }

  /** spec/filter_spec.rb:273 */
  lemma Line273()
    ensures BeTrue(Run(Substrings("foo", None, Some(""), ["ab"], Some("c")), Input))
  {
    ExactSegments(["ab"]);
    FooSubstrings(None, Some(""), ["ab"], Some("c"), "", ["ab"], "c");
    OneSegmentMeaning("abc", "", "ab", "c");
    assert IsPrefix("", "abc") && IsSuffix("c", "abc");
    assert OccursAt("abc", "ab", 0);
  }

  /** spec/filter_spec.rb:274 */
  lemma Line274()
    ensures BeTrue(Run(Substrings("foo", None, Some("a"), ["b"], Some("")), Input))
  {
    ExactSegments(["b"]);
    FooSubstrings(None, Some("a"), ["b"], Some(""), "a", ["b"], "");
    OneSegmentMeaning("abc", "a", "b", "");
    assert IsPrefix("a", "abc") && IsSuffix("", "abc");
    assert OccursAt("abc", "b", 1);
  }

  /** spec/filter_spec.rb:279 */
  lemma Line279()
    ensures BeFalse(Run(Substrings("foo", None, Some("x"), ["b"], Some("c")), Input))
  {
    ExactSegments(["b"]);
    FooSubstrings(None, Some("x"), ["b"], Some("c"), "x", ["b"], "c");
    OneSegmentMeaning("abc", "x", "b", "c");
    MismatchNotOccurs("abc", "x", 0, 0);
    OneSegmentMeaning("def", "x", "b", "c");
    MismatchNotOccurs("def", "x", 0, 0);
  }

  /** spec/filter_spec.rb:280 */
  lemma Line280()
    ensures BeFalse(Run(Substrings("foo", None, Some("a"), ["x"], Some("c")), Input))
  {
    ExactSegments(["x"]);
    FooSubstrings(None, Some("a"), ["x"], Some("c"), "a", ["x"], "c");
    OneSegmentMeaning("abc", "a", "x", "c");
    assert IsPrefix("a", "abc") && IsSuffix("c", "abc");
    MismatchNotOccurs("abc", "x", 1, 0);
    OneSegmentMeaning("def", "a", "x", "c");
    MismatchNotOccurs("def", "a", 0, 0);
  }

  /** spec/filter_spec.rb:281 */
  lemma Line281()
    ensures BeFalse(Run(Substrings("foo", None, Some("a"), ["b"], Some("x")), Input))
  {
    ExactSegments(["b"]);
    FooSubstrings(None, Some("a"), ["b"], Some("x"), "a", ["b"], "x");
    OneSegmentMeaning("abc", "a", "b", "x");
    MismatchNotOccurs("abc", "x", 2, 0);
    OneSegmentMeaning("def", "a", "b", "x");
    MismatchNotOccurs("def", "a", 0, 0);
  }

  /** spec/filter_spec.rb:285 */
  lemma Line285()
    ensures BeTrue(Run(Substrings("foo", None, Some(""), [""], Some("")), Input))
  {
    ExactSegments([""]);
    FooSubstrings(None, Some(""), [""], Some(""), "", [""], "");
    OneSegmentMeaning("abc", "", "", "");
    assert IsPrefix("", "abc") && IsSuffix("", "abc");
    assert OccursAt("abc", "", 0);
  }

  /** spec/filter_spec.rb:289 */
  lemma Line289()
    ensures BeFalse(Run(Substrings("not_attr", None, Some(""), [""], Some("")), Input))
  {
  }

  /** spec/filter_spec.rb:290 */
  lemma Line290()
    ensures BeFalse(Run(Substrings("not_attr", None, Some(""), [""], Some("abc")), Input))
  {
  }

  /** spec/filter_spec.rb:291 */
  lemma Line291()
    ensures BeFalse(Run(Substrings("not_attr", None, Some(""), ["abc"], Some("")), Input))
  {
  }

  /** spec/filter_spec.rb:292 */
  lemma Line292()
    ensures BeFalse(Run(Substrings("not_attr", None, Some("abc"), ["abc"], Some("")), Input))
  {
  }

  /** spec/filter_spec.rb:293 */
  lemma Line293()
    ensures BeFalse(Run(Substrings("not_attr", None, Some("a"), ["b"], Some("c")), Input))
  {
  }

  /** spec/filter_spec.rb:307 */
  lemma Line307()
    ensures BeTrue(Run(Substrings("foo", CaseIgnoreIA5, Some("a"), [], None), Input))
  {
    FindName(CaseIgnoreIA5SubstringsMatch);
    Folded("a", "a");
    FooSubstrings(CaseIgnoreIA5, Some("a"), [], None, "a", [], "");
    NoSegmentsMeaning("abc", "a", "");
    assert IsPrefix("a", "abc") && IsSuffix("", "abc");
  }

  /** spec/filter_spec.rb:308 */
  lemma Line308()
    ensures BeTrue(Run(Substrings("foo", CaseIgnoreIA5, Some("A"), [], None), Input))
  {
    FindName(CaseIgnoreIA5SubstringsMatch);
    Folded("A", "a");
    FooSubstrings(CaseIgnoreIA5, Some("A"), [], None, "a", [], "");
    NoSegmentsMeaning("abc", "a", "");
    assert IsPrefix("a", "abc") && IsSuffix("", "abc");
  }

  /** spec/filter_spec.rb:309 */
  lemma Line309()
    ensures BeTrue(Run(Substrings("foo", CaseIgnoreIA5, Some("ab"), [], None), Input))
  {
    FindName(CaseIgnoreIA5SubstringsMatch);
    Folded("ab", "ab");
    FooSubstrings(CaseIgnoreIA5, Some("ab"), [], None, "ab", [], "");
    NoSegmentsMeaning("abc", "ab", "");
    assert IsPrefix("ab", "abc") && IsSuffix("", "abc");
  }

  /** spec/filter_spec.rb:310 */
  lemma Line310()
    ensures BeTrue(Run(Substrings("foo", CaseIgnoreIA5, Some("AB"), [], None), Input))
  {
    FindName(CaseIgnoreIA5SubstringsMatch);
    Folded("AB", "ab");
    FooSubstrings(CaseIgnoreIA5, Some("AB"), [], None, "ab", [], "");
    NoSegmentsMeaning("abc", "ab", "");
    assert IsPrefix("ab", "abc") && IsSuffix("", "abc");
  }

  /** spec/filter_spec.rb:311 */
  lemma Line311()
    ensures BeTrue(Run(Substrings("foo", CaseIgnoreIA5, Some("aB"), [], None), Input))
  {
    FindName(CaseIgnoreIA5SubstringsMatch);
    Folded("aB", "ab");
    FooSubstrings(CaseIgnoreIA5, Some("aB"), [], None, "ab", [], "");
    NoSegmentsMeaning("abc", "ab", "");
    assert IsPrefix("ab", "abc") && IsSuffix("", "abc");
  }

  /** spec/filter_spec.rb:312 */
  lemma Line312()
    ensures BeTrue(Run(Substrings("foo", CaseIgnoreIA5, Some("Ab"), [], None), Input))
  {
    FindName(CaseIgnoreIA5SubstringsMatch);
    Folded("Ab", "ab");
    FooSubstrings(CaseIgnoreIA5, Some("Ab"), [], None, "ab", [], "");
    NoSegmentsMeaning("abc", "ab", "");
    assert IsPrefix("ab", "abc") && IsSuffix("", "abc");
  }

  /** spec/filter_spec.rb:313 */
  lemma Line313()
    ensures BeTrue(Run(Substrings("foo", CaseIgnoreIA5, Some("a"), ["b"], None), Input))
  {
    FindName(CaseIgnoreIA5SubstringsMatch);
    Folded("a", "a");
    Folded("b", "b");
    FooSubstrings(CaseIgnoreIA5, Some("a"), ["b"], None, "a", ["b"], "");
    OneSegmentMeaning("abc", "a", "b", "");
    assert IsPrefix("a", "abc") && IsSuffix("", "abc");
    assert OccursAt("abc", "b", 1);
  }

  /** spec/filter_spec.rb:314 */
  lemma Line314()
    ensures BeTrue(Run(Substrings("foo", CaseIgnoreIA5, Some("A"), ["b"], None), Input))
  {
    FindName(CaseIgnoreIA5SubstringsMatch);
    Folded("A", "a");
    Folded("b", "b");
    FooSubstrings(CaseIgnoreIA5, Some("A"), ["b"], None, "a", ["b"], "");
    OneSegmentMeaning("abc", "a", "b", "");
    assert IsPrefix("a", "abc") && IsSuffix("", "abc");
    assert OccursAt("abc", "b", 1);
  }

  /** spec/filter_spec.rb:315 */
  lemma Line315()
    ensures BeTrue(Run(Substrings("foo", CaseIgnoreIA5, Some("a"), ["B"], None), Input))
  {
    FindName(CaseIgnoreIA5SubstringsMatch);
    Folded("a", "a");
    Folded("B", "b");
    FooSubstrings(CaseIgnoreIA5, Some("a"), ["B"], None, "a", ["b"], "");
    OneSegmentMeaning("abc", "a", "b", "");
    assert IsPrefix("a", "abc") && IsSuffix("", "abc");
    assert OccursAt("abc", "b", 1);
  }

  /** spec/filter_spec.rb:316 */
  lemma Line316()
    ensures BeTrue(Run(Substrings("foo", CaseIgnoreIA5, Some("A"), ["B"], None), Input))
  {
    FindName(CaseIgnoreIA5SubstringsMatch);
    Folded("A", "a");
    Folded("B", "b");
    FooSubstrings(CaseIgnoreIA5, Some("A"), ["B"], None, "a", ["b"], "");
    OneSegmentMeaning("abc", "a", "b", "");
    assert IsPrefix("a", "abc") && IsSuffix("", "abc");
    assert OccursAt("abc", "b", 1);
  }

  /** spec/filter_spec.rb:317 */
  lemma Line317()
    ensures BeTrue(Run(Substrings("foo", CaseIgnoreIA5, Some("a"), ["b"], Some("c")), Input))
  {
    FindName(CaseIgnoreIA5SubstringsMatch);
    Folded("a", "a");
    Folded("c", "c");
    Folded("b", "b");
    FooSubstrings(CaseIgnoreIA5, Some("a"), ["b"], Some("c"), "a", ["b"], "c");
    OneSegmentMeaning("abc", "a", "b", "c");
    assert IsPrefix("a", "abc") && IsSuffix("c", "abc");
    assert OccursAt("abc", "b", 1);
  }

  /** spec/filter_spec.rb:318 */
  lemma Line318()
    ensures BeTrue(Run(Substrings("foo", CaseIgnoreIA5, Some("A"), ["b"], Some("c")), Input))
  {
    FindName(CaseIgnoreIA5SubstringsMatch);
    Folded("A", "a");
    Folded("c", "c");
    Folded("b", "b");
    FooSubstrings(CaseIgnoreIA5, Some("A"), ["b"], Some("c"), "a", ["b"], "c");
    OneSegmentMeaning("abc", "a", "b", "c");
    assert IsPrefix("a", "abc") && IsSuffix("c", "abc");
    assert OccursAt("abc", "b", 1);
  }

  /** spec/filter_spec.rb:319 */
  lemma Line319()
    ensures BeTrue(Run(Substrings("foo", CaseIgnoreIA5, Some("A"), ["B"], Some("c")), Input))
  {
    FindName(CaseIgnoreIA5SubstringsMatch);
    Folded("A", "a");
    Folded("c", "c");
    Folded("B", "b");
    FooSubstrings(CaseIgnoreIA5, Some("A"), ["B"], Some("c"), "a", ["b"], "c");
    OneSegmentMeaning("abc", "a", "b", "c");
    assert IsPrefix("a", "abc") && IsSuffix("c", "abc");
    assert OccursAt("abc", "b", 1);
  }

  /** spec/filter_spec.rb:320 */
  lemma Line320()
    ensures BeTrue(Run(Substrings("foo", CaseIgnoreIA5, Some("A"), ["B"], Some("C")), Input))
  {
    FindName(CaseIgnoreIA5SubstringsMatch);
    Folded("A", "a");
    Folded("C", "c");
    Folded("B", "b");
    FooSubstrings(CaseIgnoreIA5, Some("A"), ["B"], Some("C"), "a", ["b"], "c");
    OneSegmentMeaning("abc", "a", "b", "c");
    assert IsPrefix("a", "abc") && IsSuffix("c", "abc");
    assert OccursAt("abc", "b", 1);
  }

  /** spec/filter_spec.rb:321 */
  lemma Line321()
    ensures BeTrue(Run(Substrings("foo", CaseIgnoreIA5, Some("a"), ["B"], Some("C")), Input))
  {
    FindName(CaseIgnoreIA5SubstringsMatch);
    Folded("a", "a");
    Folded("C", "c");
    Folded("B", "b");
    FooSubstrings(CaseIgnoreIA5, Some("a"), ["B"], Some("C"), "a", ["b"], "c");
    OneSegmentMeaning("abc", "a", "b", "c");
    assert IsPrefix("a", "abc") && IsSuffix("c", "abc");
    assert OccursAt("abc", "b", 1);
  }

  /** spec/filter_spec.rb:322 */
  lemma Line322()
    ensures BeTrue(Run(Substrings("foo", CaseIgnoreIA5, Some("a"), ["b"], Some("C")), Input))
  {
    FindName(CaseIgnoreIA5SubstringsMatch);
    Folded("a", "a");
    Folded("C", "c");
    Folded("b", "b");
    FooSubstrings(CaseIgnoreIA5, Some("a"), ["b"], Some("C"), "a", ["b"], "c");
    OneSegmentMeaning("abc", "a", "b", "c");
    assert IsPrefix("a", "abc") && IsSuffix("c", "abc");
    assert OccursAt("abc", "b", 1);
  }

  /** spec/filter_spec.rb:323 */
  lemma Line323()
    ensures BeTrue(Run(Substrings("foo", CaseIgnoreIA5, Some("a"), ["B"], Some("c")), Input))
  {
    FindName(CaseIgnoreIA5SubstringsMatch);
    Folded("a", "a");
    Folded("c", "c");
    Folded("B", "b");
    FooSubstrings(CaseIgnoreIA5, Some("a"), ["B"], Some("c"), "a", ["b"], "c");
    OneSegmentMeaning("abc", "a", "b", "c");
    assert IsPrefix("a", "abc") && IsSuffix("c", "abc");
    assert OccursAt("abc", "b", 1);
  }

  /** spec/filter_spec.rb:324 */
  lemma Line324()
    ensures BeTrue(Run(Substrings("foo", CaseIgnoreIA5, Some("def"), [], None), Input))
  {
    FindName(CaseIgnoreIA5SubstringsMatch);
    Folded("def", "def");
    FooSubstrings(CaseIgnoreIA5, Some("def"), [], None, "def", [], "");
    NoSegmentsMeaning("abc", "def", "");
    MismatchNotOccurs("abc", "def", 0, 0);
    NoSegmentsMeaning("def", "def", "");
    assert IsPrefix("def", "def") && IsSuffix("", "def");
  }

  /** spec/filter_spec.rb:325 */
  lemma Line325()
    ensures BeTrue(Run(Substrings("foo", CaseIgnoreIA5, Some("dEf"), [], None), Input))
  {
    FindName(CaseIgnoreIA5SubstringsMatch);
    Folded("dEf", "def");
    FooSubstrings(CaseIgnoreIA5, Some("dEf"), [], None, "def", [], "");
    NoSegmentsMeaning("abc", "def", "");
    MismatchNotOccurs("abc", "def", 0, 0);
    NoSegmentsMeaning("def", "def", "");
    assert IsPrefix("def", "def") && IsSuffix("", "def");
  }

  /** spec/filter_spec.rb:330 */
  lemma Line330()
    ensures BeFalse(Run(Substrings("foo", CaseIgnoreIA5, Some("b"), [], None), Input))
  {
    FindName(CaseIgnoreIA5SubstringsMatch);
    Folded("b", "b");
    FooSubstrings(CaseIgnoreIA5, Some("b"), [], None, "b", [], "");
    NoSegmentsMeaning("abc", "b", "");
    MismatchNotOccurs("abc", "b", 0, 0);
    NoSegmentsMeaning("def", "b", "");
    MismatchNotOccurs("def", "b", 0, 0);
  }

  /** spec/filter_spec.rb:331 */
  lemma Line331()
    ensures BeFalse(Run(Substrings("foo", CaseIgnoreIA5, Some("bc"), [], None), Input))
  {
    FindName(CaseIgnoreIA5SubstringsMatch);
    Folded("bc", "bc");
    FooSubstrings(CaseIgnoreIA5, Some("bc"), [], None, "bc", [], "");
    NoSegmentsMeaning("abc", "bc", "");
    MismatchNotOccurs("abc", "bc", 0, 0);
    NoSegmentsMeaning("def", "bc", "");
    MismatchNotOccurs("def", "bc", 0, 0);
  }

  /** spec/filter_spec.rb:332 */
  lemma Line332()
    ensures BeFalse(Run(Substrings("foo", CaseIgnoreIA5, Some("ac"), [], None), Input))
  {
    FindName(CaseIgnoreIA5SubstringsMatch);
    Folded("ac", "ac");
    FooSubstrings(CaseIgnoreIA5, Some("ac"), [], None, "ac", [], "");
    NoSegmentsMeaning("abc", "ac", "");
    MismatchNotOccurs("abc", "ac", 0, 1);
    NoSegmentsMeaning("def", "ac", "");
    MismatchNotOccurs("def", "ac", 0, 0);
  }

  /** spec/filter_spec.rb:333 */
  lemma Line333()
    ensures BeFalse(Run(Substrings("foo", CaseIgnoreIA5, Some("bd"), [], None), Input))
  {
    FindName(CaseIgnoreIA5SubstringsMatch);
    Folded("bd", "bd");
    FooSubstrings(CaseIgnoreIA5, Some("bd"), [], None, "bd", [], "");
    NoSegmentsMeaning("abc", "bd", "");
    MismatchNotOccurs("abc", "bd", 0, 0);
    NoSegmentsMeaning("def", "bd", "");
    MismatchNotOccurs("def", "bd", 0, 0);
  }

  /** spec/filter_spec.rb:337 */
  lemma Line337()
    ensures BeTrue(Run(Substrings("foo", CaseIgnoreIA5, Some(""), [""], Some("")), Input))
  {
    FindName(CaseIgnoreIA5SubstringsMatch);
    Folded("", "");
    FooSubstrings(CaseIgnoreIA5, Some(""), [""], Some(""), "", [""], "");
    OneSegmentMeaning("abc", "", "", "");
    assert IsPrefix("", "abc") && IsSuffix("", "abc");
    assert OccursAt("abc", "", 0);
  }

  /** spec/filter_spec.rb:341 */
  lemma Line341()
    ensures BeFalse(Run(Substrings("not_attr", CaseIgnoreIA5, Some(""), [], None), Input))
  {
  }

  /** spec/filter_spec.rb:342 */
  lemma Line342()
    ensures BeFalse(Run(Substrings("not_attr", CaseIgnoreIA5, Some("abc"), [], None), Input))
  {
  }

  /** spec/filter_spec.rb:349 */
  lemma Line349()
    ensures BeTrue(Run(And([Filter.True, Filter.True]), map[]))
  {
  }

  /** spec/filter_spec.rb:352 */
  lemma Line352()
    ensures BeFalse(Run(And([Filter.True, Filter.False]), map[]))
  {
  }

  /** spec/filter_spec.rb:355 */
  lemma Line355()
    ensures BeFalse(Run(And([Filter.False, Filter.False]), map[]))
  {
  }

  /** spec/filter_spec.rb:358 */
  lemma Line358()
    ensures BeFalse(Run(And([Filter.False, Filter.True]), map[]))
  {
  }

  /** spec/filter_spec.rb:364 */
  lemma Line364()
    ensures BeTrue(Run(Or([Filter.True, Filter.True]), map[]))
  {
  }

  /** spec/filter_spec.rb:367 */
  lemma Line367()
    ensures BeTrue(Run(Or([Filter.True, Filter.False]), map[]))
  {
  }

  /** spec/filter_spec.rb:370 */
  lemma Line370()
    ensures BeFalse(Run(Or([Filter.False, Filter.False]), map[]))
  {
  }

  /** spec/filter_spec.rb:373 */
  lemma Line373()
    ensures BeTrue(Run(Or([Filter.False, Filter.True]), map[]))
  {
  }

  /** spec/filter_spec.rb:379 */
  lemma Line379()
    ensures BeFalse(Run(Not(Eq("foo", None, "abc")), Input))
  {
  }

  /** spec/filter_spec.rb:383 */
  lemma Line383()
    ensures BeFalse(Run(Not(Present("foo")), Input))
  {
  }

  /** spec/filter_spec.rb:387 */
  lemma Line387()
    ensures BeFalse(Run(Not(Filter.True), Input))
  {
  }

  /** spec/filter_spec.rb:391 */
  lemma Line391()
    ensures BeTrue(Run(Not(Filter.False), Input))
  {
  }

  /** spec/filter_spec.rb:395 */
  lemma Line395()
    ensures BeFalse(Run(Not(Undef), Input))
  {
  }

  /** spec/filter_spec.rb:399 */
  lemma Line399()
    ensures BeFalse(Run(Not(Ge("foo", None, "abc")), Input))
  {
  }

  /** spec/filter_spec.rb:403 */
  lemma Line403()
    ensures BeFalse(Run(Not(Le("foo", None, "abc")), Input))
  {
  }

  /** spec/filter_spec.rb:407 */
  lemma Line407()
    ensures BeFalse(Run(Not(Substrings("foo", None, Some("a"), ["b"], Some("c"))), Input))
  {
    Line272();
  }

  /** spec/filter_spec.rb:411 */
  lemma Line411()
    ensures BeFalse(Run(Not(And([Filter.True, Filter.True])), Input))
  {
  }

  /** spec/filter_spec.rb:415 */
  lemma Line415()
    ensures BeFalse(Run(Not(Or([Filter.True, Filter.True])), Input))
  {
  }
}
