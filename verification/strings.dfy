/**
 * String primitives the matching rules are built from: occurrence of a
 * segment at a position, leftmost search, the lexicographic order Ruby's
 * `String#<=>` uses, and ASCII case folding.
 */
module Strings {
  import opened Wrappers

  /** `pat` occurs in `s` starting at position `i`. */
  predicate OccursAt(s: string, pat: string, i: int)
  {
    0 <= i && i + |pat| <= |s| && s[i..i + |pat|] == pat
  }

  predicate IsPrefix(pre: string, s: string)
  {
    OccursAt(s, pre, 0)
  }

  predicate IsSuffix(suf: string, s: string)
  {
    OccursAt(s, suf, |s| - |suf|)
  }

  /** Leftmost position at or after `from` where `pat` occurs in `s`. */
  function IndexFrom(s: string, pat: string, from: nat): (r: Option<nat>)
    requires from <= |s|
    ensures r.Some? ==> from <= r.value && OccursAt(s, pat, r.value)
    ensures r.Some? ==> forall j :: from <= j < r.value ==> !OccursAt(s, pat, j)
    ensures r.None? <==> forall j :: from <= j ==> !OccursAt(s, pat, j)
    decreases |s| - from
  {
    if from + |pat| > |s| then None
    else if s[from..from + |pat|] == pat then assert OccursAt(s, pat, from); Some(from)
    else IndexFrom(s, pat, from + 1)
  }

  /** One mismatching character rules an occurrence out. */
  lemma MismatchNotOccurs(s: string, pat: string, i: int, k: int)
    requires 0 <= k < |pat| && 0 <= i && i + k < |s| && s[i + k] != pat[k]
    ensures !OccursAt(s, pat, i)
  {
  }

  /**
   * `a <= b` on Ruby strings: compare character by character, and a string
   * sorts before every longer string it is a prefix of. For UTF-8 data the
   * byte order Ruby uses coincides with this code-point order.
   */
  predicate LexLe(a: string, b: string)
    ensures a == b ==> LexLe(a, b)
    decreases |a|
  {
    |a| == 0 || (|b| > 0 && (a[0] < b[0] || (a[0] == b[0] && LexLe(a[1..], b[1..]))))
  }

  /** The textbook definition of the same order: a prefix, or a first difference that is smaller. */
  ghost predicate LexLeByFirstDifference(a: string, b: string)
  {
    IsPrefix(a, b) || exists k :: 0 <= k < |a| && k < |b| && a[..k] == b[..k] && a[k] < b[k]
  }

  lemma {:induction false} LexLeMeaning(a: string, b: string)
    ensures LexLe(a, b) <==> LexLeByFirstDifference(a, b)
    decreases |a|
  {
    if |a| == 0 {
      assert IsPrefix(a, b);
    } else if |b| == 0 {
      assert !IsPrefix(a, b);
    } else if a[0] < b[0] {
      assert a[..0] == b[..0];
    } else if a[0] > b[0] {
      if |a| <= |b| {
        assert b[0..|a|][0] == b[0];
      }
    } else {
      LexLeMeaning(a[1..], b[1..]);
      if LexLe(a[1..], b[1..]) {
        if IsPrefix(a[1..], b[1..]) {
          assert b[0..|a|] == [b[0]] + b[1..][0..|a| - 1];
          assert a == [a[0]] + a[1..];
          assert IsPrefix(a, b);
        } else {
          var k :| 0 <= k < |a[1..]| && k < |b[1..]| && a[1..][..k] == b[1..][..k] && a[1..][k] < b[1..][k];
          assert a[..k + 1] == [a[0]] + a[1..][..k];
          assert b[..k + 1] == [b[0]] + b[1..][..k];
          assert a[k + 1] < b[k + 1];
        }
      } else {
        if IsPrefix(a, b) {
          PrefixTail(a, b);
        }
        forall k | 0 <= k < |a| && k < |b| && a[..k] == b[..k]
          ensures !(a[k] < b[k])
        {
          if k > 0 {
            assert a[1..][..k - 1] == a[..k][1..];
            assert b[1..][..k - 1] == b[..k][1..];
            assert !(a[1..][k - 1] < b[1..][k - 1]);
          }
        }
      }
    }
  }

  /** Dropping the first character keeps a prefix a prefix. */
  lemma PrefixTail(a: string, b: string)
    requires |a| > 0 && IsPrefix(a, b)
    ensures IsPrefix(a[1..], b[1..])
  {
    assert b[1..][0..|a| - 1] == b[0..|a|][1..];
  }

  lemma {:induction false} LexLeAntisymmetric(a: string, b: string)
    requires LexLe(a, b) && LexLe(b, a)
    ensures a == b
    decreases |a|
  {
    if |a| > 0 {
      LexLeAntisymmetric(a[1..], b[1..]);
      assert a == [a[0]] + a[1..];
      assert b == [b[0]] + b[1..];
    }
  }

  lemma {:induction false} LexLeTransitive(a: string, b: string, c: string)
    requires LexLe(a, b) && LexLe(b, c)
    ensures LexLe(a, c)
    decreases |a|
  {
    if |a| > 0 && a[0] == b[0] && b[0] == c[0] {
      LexLeTransitive(a[1..], b[1..], c[1..]);
    }
  }

  lemma {:induction false} LexLeTotal(a: string, b: string)
    ensures LexLe(a, b) || LexLe(b, a)
    decreases |a|
  {
    if |a| > 0 && |b| > 0 && a[0] == b[0] {
      LexLeTotal(a[1..], b[1..]);
    }
  }

  /** A proper prefix sorts strictly before the longer string. */
  lemma {:induction false} ProperPrefixSortsFirst(a: string, b: string)
    requires IsPrefix(a, b) && |a| < |b|
    ensures LexLe(a, b) && !LexLe(b, a)
    decreases |a|
  {
    if |a| > 0 {
      assert a[0] == b[0..|a|][0];
      assert b[1..][0..|a| - 1] == b[0..|a|][1..];
      ProperPrefixSortsFirst(a[1..], b[1..]);
    }
  }

  predicate IsUpper(c: char)
  {
    'A' <= c <= 'Z'
  }

  /** ASCII lower-casing of one character; every other character is left alone. */
  function LowerChar(c: char): (r: char)
    ensures !IsUpper(r)
    ensures !IsUpper(c) ==> r == c
    ensures IsUpper(c) ==> r as int - c as int == 'a' as int - 'A' as int
  {
    if IsUpper(c) then (c as int - 'A' as int + 'a' as int) as char else c
  }

  /** ASCII case folding of a whole string: same length, and no capital letter is left. */
  function Downcase(s: string): (r: string)
    ensures |r| == |s|
    ensures forall i :: 0 <= i < |s| ==> r[i] == LowerChar(s[i])
    ensures forall i :: 0 <= i < |r| ==> !IsUpper(r[i])
  {
    seq(|s|, i requires 0 <= i < |s| => LowerChar(s[i]))
  }

  lemma DowncaseIdempotent(s: string)
    ensures Downcase(Downcase(s)) == Downcase(s)
  {
  }

  /** A string is its own folding exactly when it holds no ASCII capital. */
  lemma DowncaseFixedPoints(s: string)
    ensures Downcase(s) == s <==> forall i :: 0 <= i < |s| ==> !IsUpper(s[i])
  {
    if Downcase(s) == s {
      forall i | 0 <= i < |s|
        ensures !IsUpper(s[i])
      {
        assert Downcase(s)[i] == LowerChar(s[i]);
      }
    }
  }

  /** Strings that agree letter by letter up to ASCII case fold to the same string. */
  lemma DowncaseAgreeing(a: string, b: string)
    requires |a| == |b| && forall i :: 0 <= i < |a| ==> LowerChar(a[i]) == LowerChar(b[i])
    ensures Downcase(a) == Downcase(b)
  {
    var da, db := Downcase(a), Downcase(b);
    assert |da| == |db|;
    forall i | 0 <= i < |a|
      ensures da[i] == db[i]
    {
    }
  }

  /** Two strings fold to the same string exactly when they agree letter by letter up to ASCII case. */
  lemma DowncaseEqualMeaning(a: string, b: string)
    ensures Downcase(a) == Downcase(b) <==>
      |a| == |b| && forall i :: 0 <= i < |a| ==> LowerChar(a[i]) == LowerChar(b[i])
  {
    if |a| == |b| && forall i :: 0 <= i < |a| ==> LowerChar(a[i]) == LowerChar(b[i]) {
      DowncaseAgreeing(a, b);
    }
  }
}
