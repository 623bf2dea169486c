/**
 * `LDAP::Server::Filter.run`: evaluation of a decoded search filter against
 * the attributes of one entry, giving TRUE, FALSE or Undefined as in
 * section 4.5.1.7 of RFC 4511 (Ruby returns `true`, `false` and `nil`).
 * A node with a tag outside the known set raises `OperationsError`.
 */
module LdapFilter {
  import opened Wrappers
  import opened MatchingRule

  datatype Tri = True | False | Undefined

  /** The result code the evaluator raises, carrying the tag it did not recognise. */
  datatype LdapError = OperationsError(tag: string)

  /** Attribute name to its values; the names are matched case-sensitively as given. */
  type Attributes = map<string, seq<string>>

  /**
   * The filter tree. `rule == None` is the `nil` rule slot (exact matching);
   * in `Substrings`, `initial` and `final` are `None` when the slot is `nil`.
   */
  datatype Filter =
    | Present(attr: string)
    | True
    | False
    | Undef
    | Eq(attr: string, rule: Option<Rule>, value: string)
    | Ge(attr: string, rule: Option<Rule>, value: string)
    | Le(attr: string, rule: Option<Rule>, value: string)
    | Substrings(attr: string, rule: Option<Rule>, initial: Option<string>, any: seq<string>, final: Option<string>)
    | And(children: seq<Filter>)
    | Or(children: seq<Filter>)
    | Not(child: Filter)
    | Unknown(tag: string)

  /** Some node of the tree has a tag the evaluator does not know. */
  predicate HasUnknown(f: Filter)
    decreases f
  {
    match f
    case Unknown(_) => true
    case And(fs) => exists i :: 0 <= i < |fs| && HasUnknown(fs[i])
    case Or(fs) => exists i :: 0 <= i < |fs| && HasUnknown(fs[i])
    case Not(g) => HasUnknown(g)
    case _ => false
  }

  /** Some node of the tree is `Unknown(tag)`. */
  predicate HasUnknownTag(f: Filter, tag: string)
    decreases f
  {
    match f
    case Unknown(t) => t == tag
    case And(fs) => exists i :: 0 <= i < |fs| && HasUnknownTag(fs[i], tag)
    case Or(fs) => exists i :: 0 <= i < |fs| && HasUnknownTag(fs[i], tag)
    case Not(g) => HasUnknownTag(g, tag)
    case _ => false
  }

  function FromBool(b: bool): Tri
  {
    if b then Tri.True else Tri.False
  }

  /** Negation swaps TRUE and FALSE and keeps Undefined. */
  function Negate(t: Tri): (r: Tri)
    ensures r == Tri.Undefined <==> t == Tri.Undefined
    ensures t != Tri.Undefined ==> r != t
  {
    match t
    case True => Tri.False
    case False => Tri.True
    case Undefined => Tri.Undefined
  }

  /** Kleene conjunction of two truth values. */
  function Conj(a: Tri, b: Tri): (r: Tri)
    ensures r == Tri.True <==> a.True? && b.True?
    ensures r == Tri.False <==> a.False? || b.False?
  {
    if a == Tri.False || b == Tri.False then Tri.False
    else if a == Tri.Undefined || b == Tri.Undefined then Tri.Undefined
    else Tri.True
  }

  /** Kleene disjunction of two truth values. */
  function Disj(a: Tri, b: Tri): (r: Tri)
    ensures r == Tri.True <==> a.True? || b.True?
    ensures r == Tri.False <==> a.False? && b.False?
  {
    if a == Tri.True || b == Tri.True then Tri.True
    else if a == Tri.Undefined || b == Tri.Undefined then Tri.Undefined
    else Tri.False
  }

  /** `av[attr]`: the stored values, or `None` (Ruby's `nil`) when the attribute is missing. */
  function Lookup(av: Attributes, attr: string): Option<seq<string>>
  {
    if attr in av then Some(av[attr]) else None
  }

  /**
   * Evaluate `f` against `av`. `And` and `Or` evaluate their children left to
   * right and stop at the first FALSE (resp. TRUE) child, so an unknown tag
   * after that child is never reached. An error names a tag that occurs in
   * the tree.
   */
  function Run(f: Filter, av: Attributes): (r: Result<Tri, LdapError>)
    ensures !HasUnknown(f) ==> r.Ok?
    ensures r.Err? ==> HasUnknownTag(f, r.error.tag)
    decreases f
  {
    match f
    case Present(a) => Ok(FromBool(a in av))
    case True => Ok(Tri.True)
    case False => Ok(Tri.False)
    case Undef => Ok(Tri.Undefined)
    case Eq(a, rule, v) => Ok(FromBool(AnyValue(Lookup(av, a), x => Equal(rule, x, v))))
    case Ge(a, rule, v) => Ok(FromBool(AnyValue(Lookup(av, a), x => AtLeast(rule, x, v))))
    case Le(a, rule, v) => Ok(FromBool(AnyValue(Lookup(av, a), x => AtMost(rule, x, v))))
    case Substrings(a, rule, ini, any, fin) =>
      Ok(FromBool(AnyValue(Lookup(av, a), x => HasSubstrings(rule, x, ini, any, fin))))
    case And(fs) => RunAnd(fs, av)
    case Or(fs) => RunOr(fs, av)
    case Not(g) =>
      (match Run(g, av)
       case Ok(t) => Ok(Negate(t))
       case Err(e) => Err(e))
    case Unknown(tag) => Err(OperationsError(tag))
  }

  function RunAnd(fs: seq<Filter>, av: Attributes): (r: Result<Tri, LdapError>)
    ensures (forall i :: 0 <= i < |fs| ==> !HasUnknown(fs[i])) ==> r.Ok?
    ensures r.Err? ==> exists i :: 0 <= i < |fs| && HasUnknownTag(fs[i], r.error.tag)
    decreases fs
  {
    if |fs| == 0 then Ok(Tri.True)
    else match Run(fs[0], av)
      case Err(e) => Err(e)
      case Ok(t) =>
        if t == Tri.False then Ok(Tri.False)
        else match RunAnd(fs[1..], av)
          case Err(e) => Err(e)
          case Ok(rest) => Ok(Conj(t, rest))
  }

  function RunOr(fs: seq<Filter>, av: Attributes): (r: Result<Tri, LdapError>)
    ensures (forall i :: 0 <= i < |fs| ==> !HasUnknown(fs[i])) ==> r.Ok?
    ensures r.Err? ==> exists i :: 0 <= i < |fs| && HasUnknownTag(fs[i], r.error.tag)
    decreases fs
  {
    if |fs| == 0 then Ok(Tri.False)
    else match Run(fs[0], av)
      case Err(e) => Err(e)
      case Ok(t) =>
        if t == Tri.True then Ok(Tri.True)
        else match RunOr(fs[1..], av)
          case Err(e) => Err(e)
          case Ok(rest) => Ok(Disj(t, rest))
  }
}
