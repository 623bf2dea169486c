/**
 * Matching rules (`LDAP::Server::MatchingRule`): how an asserted value is
 * compared with the stored values of an attribute. A filter either names a
 * rule or leaves the slot `nil`, in which case exact matching applies.
 * Both named rules compare ASCII-case-folded strings (sections 4.2.11 and
 * 4.2.8 of RFC 4517); RFC 4518 string preparation beyond case folding is
 * not modelled.
 */
module MatchingRule {
  import opened Wrappers
  import opened Strings
  import opened SubstringMatch

  datatype Rule = CaseIgnoreMatch | CaseIgnoreIA5SubstringsMatch

  function Name(rule: Rule): string
  {
    match rule
    case CaseIgnoreMatch => "caseIgnoreMatch"
    case CaseIgnoreIA5SubstringsMatch => "caseIgnoreIA5SubstringsMatch"
  }

  /** `MatchingRule.find`: look a rule up by its exact, case-sensitive name. */
  function Find(name: string): (r: Option<Rule>)
    ensures r.Some? ==> Name(r.value) == name
    ensures r.None? <==> forall rule: Rule :: Name(rule) != name
  {
    if name == "caseIgnoreMatch" then Some(CaseIgnoreMatch)
    else if name == "caseIgnoreIA5SubstringsMatch" then Some(CaseIgnoreIA5SubstringsMatch)
    else None
  }

  lemma FindName(rule: Rule)
    ensures Find(Name(rule)) == Some(rule)
  {
  }

  /** The form a string is compared in: itself for exact matching, ASCII-folded under a named rule. */
  function Normalize(rule: Option<Rule>, s: string): (r: string)
    ensures |r| == |s|
    ensures rule.None? ==> r == s
    ensures rule.Some? ==> forall i :: 0 <= i < |s| ==> r[i] == LowerChar(s[i])
  {
    if rule.None? then s else Downcase(s)
  }

  function NormalizeAll(rule: Option<Rule>, segs: seq<string>): (r: seq<string>)
    ensures |r| == |segs|
    ensures forall k :: 0 <= k < |segs| ==> r[k] == Normalize(rule, segs[k])
    decreases |segs|
  {
    if |segs| == 0 then [] else [Normalize(rule, segs[0])] + NormalizeAll(rule, segs[1..])
  }

  function NormalizeOpt(rule: Option<Rule>, seg: Option<string>): string
  {
    match seg
    case None => ""
    case Some(s) => Normalize(rule, s)
  }

  lemma NormalizeIdempotent(rule: Option<Rule>, s: string)
    ensures Normalize(rule, Normalize(rule, s)) == Normalize(rule, s)
  {
    if rule.Some? {
      DowncaseIdempotent(s);
    }
  }

  /** Values equal under any rule have the same length: folding never merges strings of different lengths. */
  predicate Equal(rule: Option<Rule>, stored: string, asserted: string)
    ensures Equal(rule, stored, asserted) ==> |stored| == |asserted|
  {
    Normalize(rule, stored) == Normalize(rule, asserted)
  }

  /** `stored >= asserted` in the rule's comparison form; each value is at least or at most any other. */
  predicate AtLeast(rule: Option<Rule>, stored: string, asserted: string)
    ensures AtLeast(rule, stored, asserted) || AtMost(rule, stored, asserted)
  {
    LexLeTotal(Normalize(rule, asserted), Normalize(rule, stored));
    LexLe(Normalize(rule, asserted), Normalize(rule, stored))
  }

  /** `stored <= asserted` in the rule's comparison form; a value equal to the asserted one is at most it. */
  predicate AtMost(rule: Option<Rule>, stored: string, asserted: string)
    ensures Equal(rule, stored, asserted) ==> AtMost(rule, stored, asserted)
  {
    LexLe(Normalize(rule, stored), Normalize(rule, asserted))
  }

  /** A missing initial or final segment constrains exactly as much as an empty one. */
  predicate HasSubstrings(rule: Option<Rule>, stored: string,
                          initial: Option<string>, any: seq<string>, final: Option<string>)
    ensures HasSubstrings(rule, stored, initial, any, final) ==>
      |NormalizeOpt(rule, initial)| + TotalLength(NormalizeAll(rule, any)) + |NormalizeOpt(rule, final)| <= |stored|
  {
    SubstringsMatch(Normalize(rule, stored), NormalizeOpt(rule, initial),
                    NormalizeAll(rule, any), NormalizeOpt(rule, final))
  }

  /** Exact matching is string equality. */
  lemma ExactEqualMeaning(stored: string, asserted: string)
    ensures Equal(None, stored, asserted) <==> stored == asserted
  {
  }

  /** Under a named rule two strings are equal when they agree letter by letter up to ASCII case. */
  lemma CaseIgnoreEqualMeaning(rule: Rule, stored: string, asserted: string)
    ensures Equal(Some(rule), stored, asserted) <==>
      |stored| == |asserted| &&
      forall i :: 0 <= i < |stored| ==> LowerChar(stored[i]) == LowerChar(asserted[i])
  {
    DowncaseEqualMeaning(stored, asserted);
  }

  /** The ordering rules agree with equality: equal strings are both at least and at most each other. */
  lemma EqualIsBetween(rule: Option<Rule>, stored: string, asserted: string)
    requires Equal(rule, stored, asserted)
    ensures AtLeast(rule, stored, asserted) && AtMost(rule, stored, asserted)
  {
    LexLeTotal(Normalize(rule, stored), Normalize(rule, asserted));
  }

  /** And conversely, a value both at least and at most the asserted one is equal to it. */
  lemma BetweenIsEqual(rule: Option<Rule>, stored: string, asserted: string)
    requires AtLeast(rule, stored, asserted) && AtMost(rule, stored, asserted)
    ensures Equal(rule, stored, asserted)
  {
    LexLeAntisymmetric(Normalize(rule, stored), Normalize(rule, asserted));
  }

  /** Exact substring matching is the declarative split of the value around the segments. */
  lemma ExactSubstringsMeaning(stored: string, initial: Option<string>, any: seq<string>, final: Option<string>)
    ensures HasSubstrings(None, stored, initial, any, final) <==>
      Matches(stored, NormalizeOpt(None, initial), any, NormalizeOpt(None, final))
  {
    assert NormalizeAll(None, any) == any;
    SubstringsMatchMeaning(stored, NormalizeOpt(None, initial), any, NormalizeOpt(None, final));
  }

  /** Whether some stored value satisfies `p`; `None` is Ruby's `nil` for a missing attribute. */
  function AnyValue(vals: Option<seq<string>>, p: string -> bool): (r: bool)
    ensures r <==> vals.Some? && exists i :: 0 <= i < |vals.value| && p(vals.value[i])
  {
    vals.Some? && AnyOf(vals.value, p)
  }

  function AnyOf(vs: seq<string>, p: string -> bool): (r: bool)
    ensures r <==> exists i :: 0 <= i < |vs| && p(vs[i])
    decreases |vs|
  {
    if |vs| == 0 then false
    else p(vs[0]) || AnyOf(vs[1..], p)
  }
}
