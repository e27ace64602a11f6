/** Facts about strings shared by the callback and authorization modules. */
module Text {

  /** Length of the `state` and `nonce` values generated for one run. */
  const CorrelationTokenLength := 24

  /** A correlation value as the generator produces it: 24 lowercase letters. */
  predicate IsCorrelationToken(s: string) {
    |s| == CorrelationTokenLength && forall i :: 0 <= i < |s| ==> 'a' <= s[i] <= 'z'
  }

  /** `t` occurs in `s` as a contiguous slice. */
  ghost predicate Contains(s: string, t: string) {
    exists i, j :: 0 <= i <= j <= |s| && s[i..j] == t
  }

  lemma ContainsAt(s: string, t: string, i: nat)
    requires i + |t| <= |s| && s[i..i + |t|] == t
    ensures Contains(s, t)
  {
    assert s[i..i + |t|] == t;
  }

  lemma ContainsInfix(pre: string, t: string, post: string)
    ensures Contains(pre + t + post, t)
  {
    ContainsAt(pre + t + post, t, |pre|);
  }

  /** Each of the three parts `x`, `y`, `z` occurs in `a + x + b + y + c + z + d`. */
  lemma ContainsEachOfThree(a: string, x: string, b: string, y: string, c: string, z: string, d: string)
    ensures Contains(a + x + b + y + c + z + d, x)
    ensures Contains(a + x + b + y + c + z + d, y)
    ensures Contains(a + x + b + y + c + z + d, z)
  {
    var s := a + x + b + y + c + z + d;
    assert s == a + x + (b + y + c + z + d);
    ContainsInfix(a, x, b + y + c + z + d);
    assert s == (a + x + b) + y + (c + z + d);
    ContainsInfix(a + x + b, y, c + z + d);
    assert s == (a + x + b + y + c) + z + d;
    ContainsInfix(a + x + b + y + c, z, d);
  }

  /** How `a + x + b + y + c + z + d` splits into `a`, `x`, `b + y + c` and `z + d`. */
  lemma SplitSeven(a: string, x: string, b: string, y: string, c: string, z: string, d: string)
    ensures var s := a + x + b + y + c + z + d;
      && |s| == |a| + |x| + |b + y + c| + |z + d|
      && s[..|a|] == a
      && s[|a|..|a| + |x|] == x
      && s[|a| + |x|..|s| - |z + d|] == b + y + c
      && s[|s| - |z + d|..] == z + d
  {
    var s := a + x + b + y + c + z + d;
    assert s == a + x + (b + y + c) + (z + d);
  }

  /** What occurs in `s` still occurs once `s` is followed by more text. */
  lemma ContainsExtend(s: string, t: string, mid: string, post: string)
    requires Contains(s, t)
    ensures Contains(s + mid + post, t)
  {
    var i, j :| 0 <= i <= j <= |s| && s[i..j] == t;
    assert (s + mid + post)[i..j] == t;
  }

  /** The middle of a middle part occurs in the whole. */
  lemma ContainsInMiddle(pre: string, open: string, t: string, close: string, post: string)
    ensures Contains(pre + (open + t + close) + post, t)
  {
    assert pre + (open + t + close) + post == (pre + open) + t + (close + post);
    ContainsInfix(pre + open, t, close + post);
  }

  /** The query component after the last '&' of `s` (all of `s` when it has none):
      the parameter a query parser reads last. */
  function AfterLastAmpersand(s: string): (r: string)
    ensures |r| <= |s| && r == s[|s| - |r|..]
    ensures '&' !in r
    ensures |r| < |s| ==> s[|s| - |r| - 1] == '&'
    decreases |s|
  {
    if s == [] then ""
    else if s[|s| - 1] == '&' then ""
    else
      var init := s[..|s| - 1];
      var r := AfterLastAmpersand(init);
      assert s[|s| - |r| - 1..] == init[|init| - |r|..] + [s[|s| - 1]];
      assert |r| < |init| ==> s[|s| - |r| - 2] == init[|init| - |r| - 1];
      r + [s[|s| - 1]]
  }

  /** Appending "&" and an ampersand-free `t` makes `t` the last component,
      whatever `p` holds. */
  lemma {:induction false} AfterLastAmpersandOfAppend(p: string, t: string)
    requires '&' !in t
    ensures AfterLastAmpersand(p + "&" + t) == t
  {
    var s := p + "&" + t;
    assert s[|p|] == '&';
    assert forall k :: |p| < k < |s| ==> s[k] == t[k - |p| - 1];
  }

  lemma CorrelationTokenHasNoAmpersand(s: string)
    requires IsCorrelationToken(s)
    ensures '&' !in s
  {
  }
}
