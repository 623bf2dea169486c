# LDAP search-filter evaluation, modelled in Dafny

This project models the search-filter evaluator of ruby-ldapserver,
`LDAP::Server::Filter.run(filter, attrs)`, and the matching rules it uses
(`LDAP::Server::MatchingRule.find`). The evaluator takes a decoded filter
tree and the attributes of one directory entry, a map from attribute name
to its list of string values. It answers TRUE, FALSE or Undefined, which
Ruby writes `true`, `false` and `nil`, as in section 4.5.1.7 of RFC 4511.
A node whose tag it does not know raises `OperationsError`.

The repository's implementation file for the evaluator is not part of this
model. The behaviour modelled here is what `spec/filter_spec.rb` asserts
about it, and every one of its assertions is restated and proved as a
lemma.

Modules, in dependency order:

- `Wrappers` (`wrappers.dfy`): `Option` and `Result`.
- `Strings` (`strings.dfy`): occurrence of a pattern at a position,
  leftmost search from a cursor, Ruby's `String#<=>` order (proved to be
  the first-difference order and a total order), and ASCII case folding.
- `SubstringMatch` (`substring_match.dfy`): the substring assertion. The
  operational matcher is a leftmost-greedy cursor scan. It is proved to
  decide exactly the declarative reading: initial, then the `any`
  segments in order without overlap, then final.
- `MatchingRule` (`matching_rule.dfy`): the rule registry and how each rule
  compares a stored value with an asserted one. The `nil` rule slot means
  exact matching. `caseIgnoreMatch` (section 4.2.11 of RFC 4517) and
  `caseIgnoreIA5SubstringsMatch` (section 4.2.8 of RFC 4517) compare
  ASCII-folded strings.
- `LdapFilter` (`filter.dfy`): the filter tree, the tri-state result and
  `Run`.
- `FilterProperties` (`filter_properties.dfy`): what `Run` means for each
  kind of node, for all inputs. This covers the Kleene truth tables of
  `and`/`or`/`not`, short-circuiting, and De Morgan's laws.
- `FilterSpecCases` (`filter_spec_cases.dfy`): one lemma per assertion of
  `spec/filter_spec.rb`, over the same entry
  `{'foo' => ['abc', 'def'], 'bar' => ['wibblespong']}`.

Ruby's test matchers are read as RSpec 2 reads them:

- `be_true` and `be_false` test truthiness. A `should be_false` result may
  therefore be FALSE or Undefined, but it may not be an exception.
- `be_nil` asks for Undefined itself.
- A list combined with `reduce(:&)` that should be true needs every member
  TRUE.
- A list combined with `reduce(:|)` that should be false needs every member
  falsy.

The filter encoding follows the tests. `[:substrings, a, rule, initial,
any..., final]` becomes `Substrings(a, rule, initial, any, final)`, where
`nil` in the initial or final slot is `None`. A missing initial or final
constrains exactly as much as an empty one.

## Model

| member | source | states |
|---|---|---|
| LdapFilter.Run | spec/filter_spec.rb:30-38 | every tree without an unknown tag evaluates to a truth value, and an `OperationsError` names a tag that occurs as an unknown node of the tree |
| LdapFilter.RunAnd | spec/filter_spec.rb:347-360 | a conjunction whose children hold no unknown tag gives a truth value, and an error it raises names an unknown tag of one of its children |
| LdapFilter.RunOr | spec/filter_spec.rb:362-375 | a disjunction whose children hold no unknown tag gives a truth value, and an error it raises names an unknown tag of one of its children |
| LdapFilter.Negate | spec/filter_spec.rb:377-417 | negation maps Undefined, and only Undefined, to Undefined, and flips TRUE and FALSE |
| LdapFilter.Conj | spec/filter_spec.rb:347-360 | Kleene conjunction: TRUE exactly when both sides are TRUE, FALSE exactly when either side is FALSE |
| LdapFilter.Disj | spec/filter_spec.rb:362-375 | Kleene disjunction: TRUE exactly when either side is TRUE, FALSE exactly when both sides are FALSE |
| MatchingRule.Find | spec/filter_spec.rb:82-84 | `MatchingRule.find` returns a rule whose name is the one looked up, and returns nothing exactly when no rule has that name |
| MatchingRule.FindName | spec/filter_spec.rb:301-304 | each rule is found by its own name |
| MatchingRule.Equal | spec/filter_spec.rb:56-112 | two values equal under any rule have the same length |
| MatchingRule.AtLeast | spec/filter_spec.rb:116-134 | any two values are ordered: one is at least the other, or at most it |
| MatchingRule.AtMost | spec/filter_spec.rb:136-152 | a value equal to the asserted one is at most it |
| MatchingRule.HasSubstrings | spec/filter_spec.rb:157-345 | a value with the substrings is at least as long as initial, the segments and final together |
| MatchingRule.Normalize | spec/filter_spec.rb:90-92 | the comparison form keeps the length; it is the string itself without a rule and the letter-by-letter ASCII lower case under a named rule |
| MatchingRule.NormalizeIdempotent | spec/filter_spec.rb:100-104 | normalising an already normalised string changes nothing |
| MatchingRule.ExactEqualMeaning | spec/filter_spec.rb:58-60 | without a rule, a stored value equals the asserted one exactly when the strings are identical |
| MatchingRule.CaseIgnoreEqualMeaning | spec/filter_spec.rb:86-104 | under a named rule two strings are equal exactly when they have the same length and agree letter by letter up to ASCII case |
| MatchingRule.EqualIsBetween | spec/filter_spec.rb:116-152 | a value equal to the asserted one is both at least and at most it, under every rule |
| MatchingRule.BetweenIsEqual | spec/filter_spec.rb:116-152 | a value both at least and at most the asserted one is equal to it, under every rule |
| MatchingRule.ExactSubstringsMeaning | spec/filter_spec.rb:157-296 | without a rule, a value has the substrings exactly when it splits as initial, gap, each `any` segment in order with gaps, final |
| MatchingRule.AnyValue | spec/filter_spec.rb:68-74 | an attribute assertion holds exactly when the attribute is present and some stored value satisfies the rule |
| Strings.IndexFrom | spec/filter_spec.rb:185-213 | the search returns the leftmost occurrence at or after the cursor, and nothing exactly when there is none |
| Strings.LexLeMeaning | spec/filter_spec.rb:116-152 | the string order puts `a` before `b` exactly when `a` is a prefix of `b` or the first differing character of `a` is smaller |
| Strings.LexLe | spec/filter_spec.rb:116-152 | Ruby's string order is reflexive: every string is at most itself |
| Strings.LexLeAntisymmetric | spec/filter_spec.rb:116-152 | two strings each at most the other are equal |
| Strings.LexLeTransitive | spec/filter_spec.rb:116-152 | the string order is transitive |
| Strings.LexLeTotal | spec/filter_spec.rb:116-152 | any two strings are comparable |
| Strings.ProperPrefixSortsFirst | spec/filter_spec.rb:126-128 | a proper prefix sorts strictly before the longer string |
| Strings.Downcase | spec/filter_spec.rb:86-104 | folding keeps the length, lowers each character on its own, and leaves no ASCII capital |
| Strings.DowncaseIdempotent | spec/filter_spec.rb:100-104 | folding twice is folding once |
| Strings.DowncaseEqualMeaning | spec/filter_spec.rb:100-104 | two strings fold to the same lower case exactly when they have the same length and agree letter by letter up to ASCII case |
| Strings.DowncaseFixedPoints | spec/filter_spec.rb:86-88 | folding leaves a string unchanged exactly when it has no ASCII capital |
| SubstringMatch.ScanFrom | spec/filter_spec.rb:185-213 | a successful scan ends at or after the cursor plus the combined length of the segments, and within the value |
| SubstringMatch.SubstringsMatch | spec/filter_spec.rb:157-296 | a matching value is at least as long as initial, the segments and final together |
| SubstringMatch.ScanSound | spec/filter_spec.rb:185-213 | whatever the greedy scan finds is a genuine in-order, non-overlapping placement of the segments |
| SubstringMatch.ScanComplete | spec/filter_spec.rb:185-213 | when the segments fit in order before a bound, the greedy scan finds them and ends no later than that bound |
| SubstringMatch.SubstringsMatchMeaning | spec/filter_spec.rb:157-296 | the greedy matcher accepts a value exactly when it splits as initial, gap, each segment in order with gaps, final |
| SubstringMatch.EmptySegmentsMatchEverything | spec/filter_spec.rb:202-204 | empty segments everywhere match every value |
| SubstringMatch.NoSegmentsMeaning | spec/filter_spec.rb:157-238 | with no middle segments, a value matches exactly when it starts with initial and ends with final and the two do not overlap |
| SubstringMatch.OneSegmentMeaning | spec/filter_spec.rb:240-296 | with one middle segment, a value matches exactly when it has the prefix and suffix and the segment occurs between them |
| FilterProperties.PresentMeaning | spec/filter_spec.rb:20-26 | `present` is TRUE exactly when the attribute is in the entry and FALSE exactly when it is not |
| FilterProperties.UnknownRaises | spec/filter_spec.rb:32-36 | an unknown tag raises `OperationsError` carrying that tag |
| FilterProperties.ConstantsMeaning | spec/filter_spec.rb:42-52 | `true`, `false` and `undef` give TRUE, FALSE and Undefined on every entry, and Undefined differs from FALSE |
| FilterProperties.MissingAttributeIsFalse | spec/filter_spec.rb:72-74 | on a missing attribute, `present`, `eq`, `ge`, `le` and `substrings` all give FALSE, never Undefined and never an error |
| FilterProperties.EqMeaning | spec/filter_spec.rb:56-112 | `eq` always gives TRUE or FALSE, and TRUE exactly when the attribute is present and some value is equal under the rule |
| FilterProperties.EqExactIsMembership | spec/filter_spec.rb:58-74 | without a rule, `eq` is TRUE exactly when the asserted value is one of the stored values |
| FilterProperties.EqCaseIgnoreMeaning | spec/filter_spec.rb:86-112 | under `caseIgnoreMatch`, `eq` is TRUE exactly when some stored value has the same ASCII lower-case folding as the asserted one |
| FilterProperties.EqReflexive | spec/filter_spec.rb:58-60 | asserting a stored value itself gives TRUE under every rule |
| FilterProperties.EqCaseIgnoreIgnoresCase | spec/filter_spec.rb:90-92 | under `caseIgnoreMatch` an asserted value and its lower-case form give the same result |
| FilterProperties.GeMeaning | spec/filter_spec.rb:116-134 | without a rule, `ge` gives TRUE or FALSE, and TRUE exactly when some stored value is a prefix-extension of, or first differs above, the asserted one |
| FilterProperties.LeMeaning | spec/filter_spec.rb:136-152 | without a rule, `le` gives TRUE or FALSE, and TRUE exactly when some stored value is a prefix of, or first differs below, the asserted one |
| FilterProperties.EqualSatisfiesGeAndLe | spec/filter_spec.rb:118-138 | whenever `eq` is TRUE, `ge` and `le` with the same value are TRUE |
| FilterProperties.GeAndLeIsEq | spec/filter_spec.rb:116-152 | for a single-valued attribute, `ge` and `le` both TRUE exactly when `eq` is TRUE |
| FilterProperties.SubstringsMeaning | spec/filter_spec.rb:157-296 | without a rule, `substrings` never fails and is never Undefined, and is TRUE exactly when some stored value splits as initial, the segments in order, final |
| FilterProperties.SubstringsNeverUndefined | spec/filter_spec.rb:166-183 | under every rule `substrings` never fails and is never Undefined; a present attribute with no matching value gives FALSE |
| FilterProperties.SubstringsCaseIgnoreMeaning | spec/filter_spec.rb:301-345 | under a named rule, `substrings` never fails and is never Undefined, and is TRUE exactly when some case-folded stored value splits around the case-folded segments |
| FilterProperties.FoldedValueMatches | spec/filter_spec.rb:305-326 | under a named rule, one stored value has the substrings exactly when its folded form splits around the folded segments |
| FilterProperties.NormalizeAllIdempotent | spec/filter_spec.rb:305-326 | normalising already normalised segments changes nothing |
| FilterProperties.SubstringsCaseIgnoreIgnoresCase | spec/filter_spec.rb:305-326 | under a named rule, writing the segments in lower case leaves the result unchanged |
| FilterProperties.SubstringsEmptySegments | spec/filter_spec.rb:174-183 | with every segment empty, `substrings` is TRUE exactly when the attribute is present with at least one value |
| FilterProperties.NotMeaning | spec/filter_spec.rb:377-417 | `not` turns TRUE into FALSE and back, keeps Undefined, and passes an error through |
| FilterProperties.NotNot | spec/filter_spec.rb:386-392 | a double negation gives back the original result, error included |
| FilterProperties.AndMeaning | spec/filter_spec.rb:347-360 | when no child fails, `and` is FALSE exactly when some child is FALSE and TRUE exactly when every child is TRUE |
| FilterProperties.OrMeaning | spec/filter_spec.rb:362-375 | when no child fails, `or` is TRUE exactly when some child is TRUE and FALSE exactly when every child is FALSE |
| FilterProperties.AndStopsAtFalse | spec/filter_spec.rb:351-359 | `and` gives FALSE at the first FALSE child whatever follows, even a child that would fail |
| FilterProperties.OrStopsAtTrue | spec/filter_spec.rb:363-368 | `or` gives TRUE at the first TRUE child whatever follows, even a child that would fail |
| FilterProperties.NegatedConjunction | spec/filter_spec.rb:410-412 | negating the result of a conjunction equals the disjunction of the negated children, errors included |
| FilterProperties.NegatedDisjunction | spec/filter_spec.rb:414-416 | negating the result of a disjunction equals the conjunction of the negated children, errors included |
| FilterProperties.NotAndIsOrNot | spec/filter_spec.rb:410-412 | `not and(fs)` evaluates like `or` of the negated children |
| FilterProperties.NotOrIsAndNot | spec/filter_spec.rb:414-416 | `not or(fs)` evaluates like `and` of the negated children |
| FilterSpecCases.BarOrdering | spec/filter_spec.rb:126-147 | ordering filters on `bar` compare the asserted value with its single value `wibblespong` |
| FilterSpecCases.WibbleOrder | spec/filter_spec.rb:126-147 | `wibblespong` sorts strictly before `wibblespong2` |
| FilterSpecCases.Line21 | spec/filter_spec.rb:21 | `Run(Present("foo"), Input)` gives TRUE |
| FilterSpecCases.Line25 | spec/filter_spec.rb:25 | `Run(Present("foofoo"), Input)` gives FALSE or Undefined, not an error |
| FilterSpecCases.Line34 | spec/filter_spec.rb:33-35 | `Run(Unknown("whatever"), map[])` raises `OperationsError` |
| FilterSpecCases.Line43 | spec/filter_spec.rb:43 | `Run(Filter.True, map[])` gives TRUE |
| FilterSpecCases.Line47 | spec/filter_spec.rb:47 | `Run(Filter.False, map[])` gives FALSE or Undefined, not an error |
| FilterSpecCases.Line51 | spec/filter_spec.rb:51 | `Run(Undef, map[])` gives Undefined |
| FilterSpecCases.Line59 | spec/filter_spec.rb:59 | `Run(Eq("foo", None, "abc"), Input)` gives TRUE |
| FilterSpecCases.Line63 | spec/filter_spec.rb:63-65 | both `Run(Eq("foo", None, "abc"), Input)` and `Run(Eq("foo", None, "def"), Input)` give TRUE |
| FilterSpecCases.Line69 | spec/filter_spec.rb:69 | `Run(Eq("foo", None, "not_matched"), Input)` gives FALSE or Undefined, not an error |
| FilterSpecCases.Line73 | spec/filter_spec.rb:73 | `Run(Eq("not_attr", None, "abc"), Input)` gives FALSE or Undefined, not an error |
| FilterSpecCases.Line87 | spec/filter_spec.rb:87 | `Run(Eq("foo", CaseIgnore, "abc"), Input)` gives TRUE |
| FilterSpecCases.Line91 | spec/filter_spec.rb:91 | `Run(Eq("foo", CaseIgnore, "ABC"), Input)` gives TRUE |
| FilterSpecCases.Line95 | spec/filter_spec.rb:95-97 | both `Run(Eq("foo", None, "abc"), Input)` and `Run(Eq("foo", None, "def"), Input)` give TRUE |
| FilterSpecCases.Line101 | spec/filter_spec.rb:101-103 | both `Run(Eq("foo", CaseIgnore, "abC"), Input)` and `Run(Eq("foo", CaseIgnore, "dEf"), Input)` give TRUE |
| FilterSpecCases.Line107 | spec/filter_spec.rb:107 | `Run(Eq("foo", CaseIgnore, "not_matched"), Input)` gives FALSE or Undefined, not an error |
| FilterSpecCases.Line111 | spec/filter_spec.rb:111 | `Run(Eq("not_attr", CaseIgnore, "abc"), Input)` gives FALSE or Undefined, not an error |
| FilterSpecCases.Line119 | spec/filter_spec.rb:119 | `Run(Ge("foo", None, "abc"), Input)` gives TRUE |
| FilterSpecCases.Line123 | spec/filter_spec.rb:123 | `Run(Ge("foo", None, "a"), Input)` gives TRUE |
| FilterSpecCases.Line127 | spec/filter_spec.rb:127 | `Run(Ge("bar", None, "wibblespong2"), Input)` gives FALSE or Undefined, not an error |
| FilterSpecCases.Line131 | spec/filter_spec.rb:131 | `Run(Ge("not_attr", None, "abc"), Input)` gives FALSE or Undefined, not an error |
| FilterSpecCases.Line138 | spec/filter_spec.rb:138 | `Run(Le("foo", None, "abc"), Input)` gives TRUE |
| FilterSpecCases.Line142 | spec/filter_spec.rb:142 | `Run(Le("foo", None, "a"), Input)` gives FALSE or Undefined, not an error |
| FilterSpecCases.Line146 | spec/filter_spec.rb:146 | `Run(Le("bar", None, "wibblespong2"), Input)` gives TRUE |
| FilterSpecCases.Line150 | spec/filter_spec.rb:150 | `Run(Le("not_attr", None, "abc"), Input)` gives FALSE or Undefined, not an error |
| FilterSpecCases.Line160 | spec/filter_spec.rb:160 | `Run(Substrings("foo", None, Some("a"), [], None), Input)` gives TRUE |
| FilterSpecCases.Line161 | spec/filter_spec.rb:161 | `Run(Substrings("foo", None, Some("ab"), [], None), Input)` gives TRUE |
| FilterSpecCases.Line162 | spec/filter_spec.rb:162 | `Run(Substrings("foo", None, Some("abc"), [], None), Input)` gives TRUE |
| FilterSpecCases.Line163 | spec/filter_spec.rb:163 | `Run(Substrings("foo", None, Some("def"), [], None), Input)` gives TRUE |
| FilterSpecCases.Line168 | spec/filter_spec.rb:168 | `Run(Substrings("foo", None, Some("b"), [], None), Input)` gives FALSE or Undefined, not an error |
| FilterSpecCases.Line169 | spec/filter_spec.rb:169 | `Run(Substrings("foo", None, Some("bc"), [], None), Input)` gives FALSE or Undefined, not an error |
| FilterSpecCases.Line170 | spec/filter_spec.rb:170 | `Run(Substrings("foo", None, Some("ac"), [], None), Input)` gives FALSE or Undefined, not an error |
| FilterSpecCases.Line171 | spec/filter_spec.rb:171 | `Run(Substrings("foo", None, Some("bd"), [], None), Input)` gives FALSE or Undefined, not an error |
| FilterSpecCases.Line175 | spec/filter_spec.rb:175 | `Run(Substrings("foo", None, Some(""), [], None), Input)` gives TRUE |
| FilterSpecCases.Line179 | spec/filter_spec.rb:179 | `Run(Substrings("not_attr", None, Some(""), [], None), Input)` gives FALSE or Undefined, not an error |
| FilterSpecCases.Line180 | spec/filter_spec.rb:180 | `Run(Substrings("not_attr", None, Some("abc"), [], None), Input)` gives FALSE or Undefined, not an error |
| FilterSpecCases.Line188 | spec/filter_spec.rb:188 | `Run(Substrings("foo", None, Some(""), ["a"], None), Input)` gives TRUE |
| FilterSpecCases.Line189 | spec/filter_spec.rb:189 | `Run(Substrings("foo", None, Some("a"), ["b"], None), Input)` gives TRUE |
| FilterSpecCases.Line190 | spec/filter_spec.rb:190 | `Run(Substrings("foo", None, Some("ab"), ["c"], None), Input)` gives TRUE |
| FilterSpecCases.Line191 | spec/filter_spec.rb:191 | `Run(Substrings("foo", None, Some("abc"), [""], None), Input)` gives TRUE |
| FilterSpecCases.Line192 | spec/filter_spec.rb:192 | `Run(Substrings("foo", None, Some("d"), [""], None), Input)` gives TRUE |
| FilterSpecCases.Line197 | spec/filter_spec.rb:197 | `Run(Substrings("foo", None, Some("b"), [""], None), Input)` gives FALSE or Undefined, not an error |
| FilterSpecCases.Line198 | spec/filter_spec.rb:198 | `Run(Substrings("foo", None, Some("b"), ["c"], None), Input)` gives FALSE or Undefined, not an error |
| FilterSpecCases.Line199 | spec/filter_spec.rb:199 | `Run(Substrings("foo", None, Some("ac"), [], None), Input)` gives FALSE or Undefined, not an error |
| FilterSpecCases.Line203 | spec/filter_spec.rb:203 | `Run(Substrings("foo", None, Some(""), [""], None), Input)` gives TRUE |
| FilterSpecCases.Line207 | spec/filter_spec.rb:207 | `Run(Substrings("not_attr", None, Some(""), [""], None), Input)` gives FALSE or Undefined, not an error |
| FilterSpecCases.Line208 | spec/filter_spec.rb:208 | `Run(Substrings("not_attr", None, Some(""), ["abc"], None), Input)` gives FALSE or Undefined, not an error |
| FilterSpecCases.Line209 | spec/filter_spec.rb:209 | `Run(Substrings("not_attr", None, Some("abc"), [""], None), Input)` gives FALSE or Undefined, not an error |
| FilterSpecCases.Line210 | spec/filter_spec.rb:210 | `Run(Substrings("not_attr", None, Some("a"), ["b"], None), Input)` gives FALSE or Undefined, not an error |
| FilterSpecCases.Line218 | spec/filter_spec.rb:218 | `Run(Substrings("foo", None, None, [], Some("c")), Input)` gives TRUE |
| FilterSpecCases.Line219 | spec/filter_spec.rb:219 | `Run(Substrings("foo", None, None, [], Some("bc")), Input)` gives TRUE |
| FilterSpecCases.Line220 | spec/filter_spec.rb:220 | `Run(Substrings("foo", None, None, [], Some("abc")), Input)` gives TRUE |
| FilterSpecCases.Line224 | spec/filter_spec.rb:224 | `Run(Substrings("foo", None, None, [], Some("d")), Input)` gives FALSE or Undefined, not an error |
| FilterSpecCases.Line227 | spec/filter_spec.rb:227 | `Run(Substrings("foo", None, None, [], Some("")), Input)` gives TRUE |
| FilterSpecCases.Line231 | spec/filter_spec.rb:231 | `Run(Substrings("not_attr", None, None, [], Some("")), Input)` gives FALSE or Undefined, not an error |
| FilterSpecCases.Line232 | spec/filter_spec.rb:232 | `Run(Substrings("not_attr", None, None, [], Some("c")), Input)` gives FALSE or Undefined, not an error |
| FilterSpecCases.Line233 | spec/filter_spec.rb:233 | `Run(Substrings("not_attr", None, None, [], Some("bc")), Input)` gives FALSE or Undefined, not an error |
| FilterSpecCases.Line234 | spec/filter_spec.rb:234 | `Run(Substrings("not_attr", None, None, [], Some("abc")), Input)` gives FALSE or Undefined, not an error |
| FilterSpecCases.Line235 | spec/filter_spec.rb:235 | `Run(Substrings("not_attr", None, None, [], Some("0abc")), Input)` gives FALSE or Undefined, not an error |
| FilterSpecCases.Line243 | spec/filter_spec.rb:243 | `Run(Substrings("foo", None, None, [""], Some("c")), Input)` gives TRUE |
| FilterSpecCases.Line244 | spec/filter_spec.rb:244 | `Run(Substrings("foo", None, None, ["b"], Some("c")), Input)` gives TRUE |
| FilterSpecCases.Line245 | spec/filter_spec.rb:245 | `Run(Substrings("foo", None, None, ["ab"], Some("c")), Input)` gives TRUE |
| FilterSpecCases.Line250 | spec/filter_spec.rb:250 | `Run(Substrings("foo", None, None, ["b"], Some("d")), Input)` gives FALSE or Undefined, not an error |
| FilterSpecCases.Line251 | spec/filter_spec.rb:251 | `Run(Substrings("foo", None, None, ["ab"], Some("d")), Input)` gives FALSE or Undefined, not an error |
| FilterSpecCases.Line252 | spec/filter_spec.rb:252 | `Run(Substrings("foo", None, None, ["abc"], Some("d")), Input)` gives FALSE or Undefined, not an error |
| FilterSpecCases.Line256 | spec/filter_spec.rb:256 | `Run(Substrings("foo", None, None, [""], Some("")), Input)` gives TRUE |
| FilterSpecCases.Line260 | spec/filter_spec.rb:260 | `Run(Substrings("not_attr", None, None, [""], Some("")), Input)` gives FALSE or Undefined, not an error |
| FilterSpecCases.Line261 | spec/filter_spec.rb:261 | `Run(Substrings("not_attr", None, None, [""], Some("abc")), Input)` gives FALSE or Undefined, not an error |
| FilterSpecCases.Line262 | spec/filter_spec.rb:262 | `Run(Substrings("not_attr", None, None, ["abc"], Some("")), Input)` gives FALSE or Undefined, not an error |
| FilterSpecCases.Line263 | spec/filter_spec.rb:263 | `Run(Substrings("not_attr", None, None, ["b"], Some("c")), Input)` gives FALSE or Undefined, not an error |
| FilterSpecCases.Line271 | spec/filter_spec.rb:271 | `Run(Substrings("foo", None, Some("a"), [""], Some("c")), Input)` gives TRUE |
| FilterSpecCases.Line272 | spec/filter_spec.rb:272 | `Run(Substrings("foo", None, Some("a"), ["b"], Some("c")), Input)` gives TRUE |
| FilterSpecCases.Line273 | spec/filter_spec.rb:273 | `Run(Substrings("foo", None, Some(""), ["ab"], Some("c")), Input)` gives TRUE |
| FilterSpecCases.Line274 | spec/filter_spec.rb:274 | `Run(Substrings("foo", None, Some("a"), ["b"], Some("")), Input)` gives TRUE |
| FilterSpecCases.Line279 | spec/filter_spec.rb:279 | `Run(Substrings("foo", None, Some("x"), ["b"], Some("c")), Input)` gives FALSE or Undefined, not an error |
| FilterSpecCases.Line280 | spec/filter_spec.rb:280 | `Run(Substrings("foo", None, Some("a"), ["x"], Some("c")), Input)` gives FALSE or Undefined, not an error |
| FilterSpecCases.Line281 | spec/filter_spec.rb:281 | `Run(Substrings("foo", None, Some("a"), ["b"], Some("x")), Input)` gives FALSE or Undefined, not an error |
| FilterSpecCases.Line285 | spec/filter_spec.rb:285 | `Run(Substrings("foo", None, Some(""), [""], Some("")), Input)` gives TRUE |
| FilterSpecCases.Line289 | spec/filter_spec.rb:289 | `Run(Substrings("not_attr", None, Some(""), [""], Some("")), Input)` gives FALSE or Undefined, not an error |
| FilterSpecCases.Line290 | spec/filter_spec.rb:290 | `Run(Substrings("not_attr", None, Some(""), [""], Some("abc")), Input)` gives FALSE or Undefined, not an error |
| FilterSpecCases.Line291 | spec/filter_spec.rb:291 | `Run(Substrings("not_attr", None, Some(""), ["abc"], Some("")), Input)` gives FALSE or Undefined, not an error |
| FilterSpecCases.Line292 | spec/filter_spec.rb:292 | `Run(Substrings("not_attr", None, Some("abc"), ["abc"], Some("")), Input)` gives FALSE or Undefined, not an error |
| FilterSpecCases.Line293 | spec/filter_spec.rb:293 | `Run(Substrings("not_attr", None, Some("a"), ["b"], Some("c")), Input)` gives FALSE or Undefined, not an error |
| FilterSpecCases.Line307 | spec/filter_spec.rb:307 | `Run(Substrings("foo", CaseIgnoreIA5, Some("a"), [], None), Input)` gives TRUE |
| FilterSpecCases.Line308 | spec/filter_spec.rb:308 | `Run(Substrings("foo", CaseIgnoreIA5, Some("A"), [], None), Input)` gives TRUE |
| FilterSpecCases.Line309 | spec/filter_spec.rb:309 | `Run(Substrings("foo", CaseIgnoreIA5, Some("ab"), [], None), Input)` gives TRUE |
| FilterSpecCases.Line310 | spec/filter_spec.rb:310 | `Run(Substrings("foo", CaseIgnoreIA5, Some("AB"), [], None), Input)` gives TRUE |
| FilterSpecCases.Line311 | spec/filter_spec.rb:311 | `Run(Substrings("foo", CaseIgnoreIA5, Some("aB"), [], None), Input)` gives TRUE |
| FilterSpecCases.Line312 | spec/filter_spec.rb:312 | `Run(Substrings("foo", CaseIgnoreIA5, Some("Ab"), [], None), Input)` gives TRUE |
| FilterSpecCases.Line313 | spec/filter_spec.rb:313 | `Run(Substrings("foo", CaseIgnoreIA5, Some("a"), ["b"], None), Input)` gives TRUE |
| FilterSpecCases.Line314 | spec/filter_spec.rb:314 | `Run(Substrings("foo", CaseIgnoreIA5, Some("A"), ["b"], None), Input)` gives TRUE |
| FilterSpecCases.Line315 | spec/filter_spec.rb:315 | `Run(Substrings("foo", CaseIgnoreIA5, Some("a"), ["B"], None), Input)` gives TRUE |
| FilterSpecCases.Line316 | spec/filter_spec.rb:316 | `Run(Substrings("foo", CaseIgnoreIA5, Some("A"), ["B"], None), Input)` gives TRUE |
| FilterSpecCases.Line317 | spec/filter_spec.rb:317 | `Run(Substrings("foo", CaseIgnoreIA5, Some("a"), ["b"], Some("c")), Input)` gives TRUE |
| FilterSpecCases.Line318 | spec/filter_spec.rb:318 | `Run(Substrings("foo", CaseIgnoreIA5, Some("A"), ["b"], Some("c")), Input)` gives TRUE |
| FilterSpecCases.Line319 | spec/filter_spec.rb:319 | `Run(Substrings("foo", CaseIgnoreIA5, Some("A"), ["B"], Some("c")), Input)` gives TRUE |
| FilterSpecCases.Line320 | spec/filter_spec.rb:320 | `Run(Substrings("foo", CaseIgnoreIA5, Some("A"), ["B"], Some("C")), Input)` gives TRUE |
| FilterSpecCases.Line321 | spec/filter_spec.rb:321 | `Run(Substrings("foo", CaseIgnoreIA5, Some("a"), ["B"], Some("C")), Input)` gives TRUE |
| FilterSpecCases.Line322 | spec/filter_spec.rb:322 | `Run(Substrings("foo", CaseIgnoreIA5, Some("a"), ["b"], Some("C")), Input)` gives TRUE |
| FilterSpecCases.Line323 | spec/filter_spec.rb:323 | `Run(Substrings("foo", CaseIgnoreIA5, Some("a"), ["B"], Some("c")), Input)` gives TRUE |
| FilterSpecCases.Line324 | spec/filter_spec.rb:324 | `Run(Substrings("foo", CaseIgnoreIA5, Some("def"), [], None), Input)` gives TRUE |
| FilterSpecCases.Line325 | spec/filter_spec.rb:325 | `Run(Substrings("foo", CaseIgnoreIA5, Some("dEf"), [], None), Input)` gives TRUE |
| FilterSpecCases.Line330 | spec/filter_spec.rb:330 | `Run(Substrings("foo", CaseIgnoreIA5, Some("b"), [], None), Input)` gives FALSE or Undefined, not an error |
| FilterSpecCases.Line331 | spec/filter_spec.rb:331 | `Run(Substrings("foo", CaseIgnoreIA5, Some("bc"), [], None), Input)` gives FALSE or Undefined, not an error |
| FilterSpecCases.Line332 | spec/filter_spec.rb:332 | `Run(Substrings("foo", CaseIgnoreIA5, Some("ac"), [], None), Input)` gives FALSE or Undefined, not an error |
| FilterSpecCases.Line333 | spec/filter_spec.rb:333 | `Run(Substrings("foo", CaseIgnoreIA5, Some("bd"), [], None), Input)` gives FALSE or Undefined, not an error |
| FilterSpecCases.Line337 | spec/filter_spec.rb:337 | `Run(Substrings("foo", CaseIgnoreIA5, Some(""), [""], Some("")), Input)` gives TRUE |
| FilterSpecCases.Line341 | spec/filter_spec.rb:341 | `Run(Substrings("not_attr", CaseIgnoreIA5, Some(""), [], None), Input)` gives FALSE or Undefined, not an error |
| FilterSpecCases.Line342 | spec/filter_spec.rb:342 | `Run(Substrings("not_attr", CaseIgnoreIA5, Some("abc"), [], None), Input)` gives FALSE or Undefined, not an error |
| FilterSpecCases.Line349 | spec/filter_spec.rb:349 | `Run(And([Filter.True, Filter.True]), map[])` gives TRUE |
| FilterSpecCases.Line352 | spec/filter_spec.rb:352 | `Run(And([Filter.True, Filter.False]), map[])` gives FALSE or Undefined, not an error |
| FilterSpecCases.Line355 | spec/filter_spec.rb:355 | `Run(And([Filter.False, Filter.False]), map[])` gives FALSE or Undefined, not an error |
| FilterSpecCases.Line358 | spec/filter_spec.rb:358 | `Run(And([Filter.False, Filter.True]), map[])` gives FALSE or Undefined, not an error |
| FilterSpecCases.Line364 | spec/filter_spec.rb:364 | `Run(Or([Filter.True, Filter.True]), map[])` gives TRUE |
| FilterSpecCases.Line367 | spec/filter_spec.rb:367 | `Run(Or([Filter.True, Filter.False]), map[])` gives TRUE |
| FilterSpecCases.Line370 | spec/filter_spec.rb:370 | `Run(Or([Filter.False, Filter.False]), map[])` gives FALSE or Undefined, not an error |
| FilterSpecCases.Line373 | spec/filter_spec.rb:373 | `Run(Or([Filter.False, Filter.True]), map[])` gives TRUE |
| FilterSpecCases.Line379 | spec/filter_spec.rb:379 | `Run(Not(Eq("foo", None, "abc")), Input)` gives FALSE or Undefined, not an error |
| FilterSpecCases.Line383 | spec/filter_spec.rb:383 | `Run(Not(Present("foo")), Input)` gives FALSE or Undefined, not an error |
| FilterSpecCases.Line387 | spec/filter_spec.rb:387 | `Run(Not(Filter.True), Input)` gives FALSE or Undefined, not an error |
| FilterSpecCases.Line391 | spec/filter_spec.rb:391 | `Run(Not(Filter.False), Input)` gives TRUE |
| FilterSpecCases.Line395 | spec/filter_spec.rb:395 | `Run(Not(Undef), Input)` gives FALSE or Undefined, not an error |
| FilterSpecCases.Line399 | spec/filter_spec.rb:399 | `Run(Not(Ge("foo", None, "abc")), Input)` gives FALSE or Undefined, not an error |
| FilterSpecCases.Line403 | spec/filter_spec.rb:403 | `Run(Not(Le("foo", None, "abc")), Input)` gives FALSE or Undefined, not an error |
| FilterSpecCases.Line407 | spec/filter_spec.rb:407 | `Run(Not(Substrings("foo", None, Some("a"), ["b"], Some("c"))), Input)` gives FALSE or Undefined, not an error |
| FilterSpecCases.Line411 | spec/filter_spec.rb:411 | `Run(Not(And([Filter.True, Filter.True])), Input)` gives FALSE or Undefined, not an error |
| FilterSpecCases.Line415 | spec/filter_spec.rb:415 | `Run(Not(Or([Filter.True, Filter.True])), Input)` gives FALSE or Undefined, not an error |

## Left out

- The implementation of `LDAP::Server::Filter` (the `ldap/server/filter` file the test file requires) and of `LDAP::Server::MatchingRule` are not part of this model. The evaluator is modelled from the assertions of `spec/filter_spec.rb`, so behaviour those assertions leave open is a modelling choice, listed below.
- `and` and `or` over Undefined children follow Kleene's three-valued logic, and `not` keeps Undefined. No assertion of the test file decides these cases; they are the choice of section 4.5.1.7 of RFC 4511.
- An empty `and` is TRUE and an empty `or` is FALSE, as for the absolute true and false filters of RFC 4526. RFC 4511 itself requires at least one child (`SET SIZE (1..MAX)` in section 4.5.1), and the tests never build an empty `and` or `or`.
- The order in which `and` and `or` visit their children is left to right, stopping at the first FALSE (resp. TRUE) child, so an unknown tag after that child is never reached. The tests do not show the evaluation order.
- Under a named rule, `ge` and `le` compare case-folded strings. The tests use ordering filters only without a rule. Likewise `eq` under `caseIgnoreIA5SubstringsMatch` and `substrings` under `caseIgnoreMatch` fold case in the model, and no test combines them.
- Looking up a rule name that is not registered: `MatchingRule.Find` returns `None`, which the filter treats as exact matching. Whether the library raises instead is not visible, and no test looks up an unknown name.
- Only two named rules are modelled, the two the tests look up. Other entries of the registry are not part of this model.
- String preparation of RFC 4518 (Unicode normalisation, insignificant space handling) is left out. Both named rules fold ASCII capitals only. If the library folds with `String#downcase`, Ruby 2.4 and later would also fold non-ASCII letters, which this model does not.
- Ruby's `String#<=>` compares bytes, and the model compares characters. The two agree on the ASCII strings the tests use.
- Filters arrive here already decoded, as the test file passes them. The BER codec, operation dispatch, connection sessions, concurrency and the password cache are outside this model (wire I/O and concurrency).
- `samples/servers/mysql.rb` (a TCP server backed by a SQL database) and `samples/lib/gem.rb` (an install-time `require` shim) are I/O and packaging glue, not modelled.
- FilterProperties.GeMeaning: stated for the exact (`nil`) rule only, the only rule the ordering tests use.
- FilterProperties.LeMeaning: stated for the exact (`nil`) rule only, the only rule the ordering tests use.
- FilterProperties.AndMeaning: stated when no child fails. Failing children are covered by `LdapFilter.RunAnd` and `FilterProperties.AndStopsAtFalse`.
- FilterProperties.OrMeaning: stated when no child fails. Failing children are covered by `LdapFilter.RunOr` and `FilterProperties.OrStopsAtTrue`.
