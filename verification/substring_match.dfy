/**
 * The substring assertion of a `:substrings` filter: a value matches when it
 * starts with the initial segment, then holds each `any` segment in order
 * without overlap, and ends with the final segment (section 4.2.6 of RFC 4517
 * for the exact rule). The matcher is a leftmost-greedy cursor scan; the
 * lemmas at the end show that greedy search loses no match.
 */
module SubstringMatch {
  import opened Wrappers
  import opened Strings

  /** The combined length of the segments. */
  function TotalLength(segs: seq<string>): nat
    decreases |segs|
  {
    if |segs| == 0 then 0 else |segs[0]| + TotalLength(segs[1..])
  }

  /**
   * Match `segs` in order in `s`, starting at cursor `c`; each search begins
   * where the previous match ended. The result is the cursor after the last
   * segment, or `None` when some segment is not found.
   */
  function ScanFrom(s: string, segs: seq<string>, c: nat): (r: Option<nat>)
    requires c <= |s|
    ensures r.Some? ==> c + TotalLength(segs) <= r.value <= |s|
    decreases |segs|
  {
    if |segs| == 0 then Some(c)
    else match IndexFrom(s, segs[0], c)
      case None => None
      case Some(i) => ScanFrom(s, segs[1..], i + |segs[0]|)
  }

  /**
   * The operational matcher: initial prefix, greedy scan of `any`, final
   * suffix after the cursor. A match needs room for every segment.
   */
  predicate SubstringsMatch(x: string, initial: string, any: seq<string>, final: string)
    ensures SubstringsMatch(x, initial, any, final) ==> |initial| + TotalLength(any) + |final| <= |x|
  {
    IsPrefix(initial, x) &&
    match ScanFrom(x, any, |initial|)
    case None => false
    case Some(c) => c + |final| <= |x| && IsSuffix(final, x)
  }

  /** The segments occur in `s[lo..hi]`, in order and without overlapping. */
  ghost predicate FitsIn(s: string, segs: seq<string>, lo: int, hi: int)
    decreases |segs|
  {
    if |segs| == 0 then lo <= hi
    else exists i :: lo <= i && i + |segs[0]| <= hi && OccursAt(s, segs[0], i)
                     && FitsIn(s, segs[1..], i + |segs[0]|, hi)
  }

  /**
   * The declarative reading: `x` splits as
   * initial ++ _ ++ any[0] ++ _ ++ ... ++ any[n-1] ++ _ ++ final.
   */
  ghost predicate Matches(x: string, initial: string, any: seq<string>, final: string)
  {
    IsPrefix(initial, x) && IsSuffix(final, x) && FitsIn(x, any, |initial|, |x| - |final|)
  }

  lemma FitsInLowerBound(s: string, segs: seq<string>, lo: int, lo': int, hi: int)
    requires lo <= lo' && FitsIn(s, segs, lo', hi)
    ensures FitsIn(s, segs, lo, hi)
  {
    if |segs| > 0 {
      var i :| lo' <= i && i + |segs[0]| <= hi && OccursAt(s, segs[0], i)
               && FitsIn(s, segs[1..], i + |segs[0]|, hi);
      assert lo <= i;
    }
  }

  lemma {:induction false} FitsInUpperBound(s: string, segs: seq<string>, lo: int, hi: int, hi': int)
    requires hi <= hi' && FitsIn(s, segs, lo, hi)
    ensures FitsIn(s, segs, lo, hi')
    decreases |segs|
  {
    if |segs| > 0 {
      var i :| lo <= i && i + |segs[0]| <= hi && OccursAt(s, segs[0], i)
               && FitsIn(s, segs[1..], i + |segs[0]|, hi);
      FitsInUpperBound(s, segs[1..], i + |segs[0]|, hi, hi');
    }
  }

  /** Whatever the greedy scan finds is a genuine in-order placement of the segments. */
  lemma {:induction false} ScanSound(s: string, segs: seq<string>, c: nat)
    requires c <= |s| && ScanFrom(s, segs, c).Some?
    ensures FitsIn(s, segs, c, ScanFrom(s, segs, c).value)
    decreases |segs|
  {
    if |segs| > 0 {
      var i := IndexFrom(s, segs[0], c).value;
      ScanSound(s, segs[1..], i + |segs[0]|);
      assert OccursAt(s, segs[0], i);
    }
  }

  /** An occurrence at or after the cursor means the search finds one, no later than it. */
  lemma FoundNoLater(s: string, seg: string, c: nat, i: int)
    requires c <= i && c <= |s| && OccursAt(s, seg, i)
    ensures IndexFrom(s, seg, c).Some? && IndexFrom(s, seg, c).value <= i
  {
  }

  /** One step of the scan: after the first segment is found at `j`, the rest is scanned from its end. */
  lemma ScanStep(s: string, segs: seq<string>, c: nat, j: nat)
    requires |segs| > 0 && c <= |s| && IndexFrom(s, segs[0], c) == Some(j)
    ensures j + |segs[0]| <= |s|
    ensures ScanFrom(s, segs, c) == ScanFrom(s, segs[1..], j + |segs[0]|)
  {
  }

  /** If the segments fit anywhere before `hi`, the greedy scan finds them and ends no later than `hi`. */
  lemma {:induction false} ScanComplete(s: string, segs: seq<string>, c: nat, hi: int)
    requires c <= |s| && FitsIn(s, segs, c, hi)
    ensures ScanFrom(s, segs, c).Some? && ScanFrom(s, segs, c).value <= hi
    decreases |segs|, 1
  {
    if |segs| > 0 {
      var i :| c <= i && i + |segs[0]| <= hi && OccursAt(s, segs[0], i)
               && FitsIn(s, segs[1..], i + |segs[0]|, hi);
      ScanCompleteFrom(s, segs, c, hi, i);
    }
  }

  /** The step of `ScanComplete` once a placement of the first segment at `i` is fixed. */
  lemma {:induction false} ScanCompleteFrom(s: string, segs: seq<string>, c: nat, hi: int, i: int)
    requires |segs| > 0 && c <= |s| && c <= i && i + |segs[0]| <= hi
    requires OccursAt(s, segs[0], i) && FitsIn(s, segs[1..], i + |segs[0]|, hi)
    ensures ScanFrom(s, segs, c).Some? && ScanFrom(s, segs, c).value <= hi
    decreases |segs|, 0
  {
    FoundNoLater(s, segs[0], c, i);
    var j := IndexFrom(s, segs[0], c).value;
    var k := j + |segs[0]|;
    FitsInLowerBound(s, segs[1..], k, i + |segs[0]|, hi);
    ScanComplete(s, segs[1..], k, hi);
    ScanStep(s, segs, c, j);
  }

  /** Leftmost-greedy matching with no backtracking decides the declarative assertion exactly. */
  lemma SubstringsMatchMeaning(x: string, initial: string, any: seq<string>, final: string)
    ensures SubstringsMatch(x, initial, any, final) <==> Matches(x, initial, any, final)
  {
    if SubstringsMatch(x, initial, any, final) {
      var c := ScanFrom(x, any, |initial|).value;
      ScanSound(x, any, |initial|);
      FitsInUpperBound(x, any, |initial|, c, |x| - |final|);
    }
    if Matches(x, initial, any, final) {
      ScanComplete(x, any, |initial|, |x| - |final|);
    }
  }

  /** Empty segments constrain nothing: only a value must exist. */
  lemma EmptySegmentsMatchEverything(x: string, any: seq<string>)
    requires forall k :: 0 <= k < |any| ==> any[k] == ""
    ensures SubstringsMatch(x, "", any, "")
  {
    EmptySegmentsScan(x, any, 0);
  }

  lemma {:induction false} EmptySegmentsScan(s: string, segs: seq<string>, c: nat)
    requires c <= |s|
    requires forall k :: 0 <= k < |segs| ==> segs[k] == ""
    ensures ScanFrom(s, segs, c) == Some(c)
    decreases |segs|
  {
    if |segs| > 0 {
      assert OccursAt(s, segs[0], c);
      EmptySegmentsScan(s, segs[1..], c);
    }
  }

  /** With no middle segments, a value matches when it has the prefix and the suffix and they do not overlap. */
  lemma NoSegmentsMeaning(x: string, initial: string, final: string)
    ensures SubstringsMatch(x, initial, [], final) <==>
      IsPrefix(initial, x) && IsSuffix(final, x) && |initial| + |final| <= |x|
  {
  }

  /** With one middle segment, it must occur somewhere between the prefix and the suffix. */
  lemma OneSegmentMeaning(x: string, initial: string, seg: string, final: string)
    ensures SubstringsMatch(x, initial, [seg], final) <==>
      IsPrefix(initial, x) && IsSuffix(final, x) &&
      exists i :: |initial| <= i && i + |seg| + |final| <= |x| && OccursAt(x, seg, i)
  {
    SubstringsMatchMeaning(x, initial, [seg], final);
    OneSegmentFits(x, seg, |initial|, |x| - |final|);
  }

  lemma OneSegmentFits(s: string, seg: string, lo: int, hi: int)
    ensures FitsIn(s, [seg], lo, hi) <==> exists i :: lo <= i && i + |seg| <= hi && OccursAt(s, seg, i)
  {
    assert [seg][0] == seg && [seg][1..] == [];
    if exists i :: lo <= i && i + |seg| <= hi && OccursAt(s, seg, i) {
      var i :| lo <= i && i + |seg| <= hi && OccursAt(s, seg, i);
      assert FitsIn(s, [], i + |seg|, hi);
    }
  }
}
