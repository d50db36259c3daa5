/**
 * The ordering and prefix test the shell uses on wide strings: `<` is lexicographic
 * comparison, character code by character code, and a prefix is a leading run.
 */
module WideString {

  /**
   * Lexicographic "less than" on strings: the first differing character decides, and a
   * proper prefix sorts before the strings it begins.
   */
  function Less(a: string, b: string): (r: bool)
    ensures r ==> a != b
    ensures IsPrefix(a, b) && a != b ==> r
  {
    if |a| == 0 then |b| > 0
    else if |b| == 0 then false
    else if a[0] != b[0] then a[0] < b[0]
    else Less(a[1..], b[1..])
  }

  /** `p` is a leading run of `s`. */
  function IsPrefix(p: string, s: string): (r: bool)
    ensures r <==> |p| <= |s| && forall i :: 0 <= i < |p| ==> p[i] == s[i]
  {
    |p| <= |s| && s[..|p|] == p
  }

  lemma {:induction false} LessTransitive(a: string, b: string, c: string)
    requires Less(a, b) && Less(b, c)
    ensures Less(a, c)
  {
    if |a| > 0 && |b| > 0 && |c| > 0 && a[0] == b[0] && b[0] == c[0] {
      LessTransitive(a[1..], b[1..], c[1..]);
    }
  }

  lemma {:induction false} LessTotal(a: string, b: string)
    ensures a == b || Less(a, b) || Less(b, a)
  {
    if |a| > 0 && |b| > 0 && a[0] == b[0] {
      LessTotal(a[1..], b[1..]);
      if a[1..] == b[1..] {
        assert a == [a[0]] + a[1..] && b == [b[0]] + b[1..];
      }
    }
  }

  /** A prefix of a string never sorts after it. */
  lemma {:induction false} PrefixNotGreater(p: string, s: string)
    requires IsPrefix(p, s)
    ensures !Less(s, p)
  {
    if |p| > 0 {
      assert s[0] == p[0];
      assert IsPrefix(p[1..], s[1..]) by {
        assert s[1..][..|p| - 1] == s[..|p|][1..];
      }
      PrefixNotGreater(p[1..], s[1..]);
    }
  }

  /**
   * Anything sorting between a prefix `p` of `s` and `s` itself has `p` as a prefix too.
   */
  lemma {:induction false} BetweenPrefixAndString(p: string, q: string, s: string)
    requires IsPrefix(p, s) && Less(p, q) && !Less(s, q)
    ensures IsPrefix(p, q)
  {
    if |p| > 0 {
      assert s[0] == p[0];
      assert IsPrefix(p[1..], s[1..]) by {
        assert s[1..][..|p| - 1] == s[..|p|][1..];
      }
      assert q[0] == p[0];
      BetweenPrefixAndString(p[1..], q[1..], s[1..]);
      assert q[..|p|] == [q[0]] + q[1..][..|p| - 1];
      assert p == [p[0]] + p[1..];
    }
  }
}
