/** The handful of Python string operations the controller and the bot rely on,
    over `string` = `seq<char>` (one char per Unicode code point, as in Python 3). */
module Text {

  /** `s.startswith(p)`. */
  predicate IsPrefix(p: string, s: string) {
    |p| <= |s| && s[..|p|] == p
  }

  /** `s.endswith(p)`. */
  predicate IsSuffix(p: string, s: string) {
    |p| <= |s| && s[|s| - |p|..] == p
  }

  /** `sub in s`. */
  predicate Contains(s: string, sub: string)
    decreases |s|
  {
    IsPrefix(sub, s) || (|s| > 0 && Contains(s[1..], sub))
  }

  lemma PrefixOfAppend(p: string, rest: string)
    ensures IsPrefix(p, p + rest)
  {
    assert (p + rest)[..|p|] == p;
  }

  /** A string is its prefix followed by the rest. */
  lemma PrefixSplit(p: string, s: string)
    requires IsPrefix(p, s)
    ensures s == p + s[|p|..]
  {
  }

  lemma PrefixTransitive(p: string, q: string, s: string)
    requires IsPrefix(p, q) && IsPrefix(q, s)
    ensures IsPrefix(p, s)
  {
    assert s[..|p|] == s[..|q|][..|p|];
  }

  /** Two patterns that differ at some position cannot both start `s`. */
  lemma PrefixesDisagree(p: string, q: string, s: string, i: nat)
    requires i < |p| && i < |q| && p[i] != q[i] && IsPrefix(q, s)
    ensures !IsPrefix(p, s)
  {
    assert s[i] == s[..|q|][i];
  }

  lemma SuffixOfAppend(front: string, p: string)
    ensures IsSuffix(p, front + p)
  {
    assert (front + p)[|front + p| - |p|..] == p;
  }

  /** Whatever surrounds it, a string contains itself. */
  lemma {:induction false} ContainsInfix(front: string, sub: string, back: string)
    ensures Contains(front + sub + back, sub)
    decreases |front|
  {
    if |front| == 0 {
      assert front + sub + back == sub + back;
      PrefixOfAppend(sub, back);
    } else {
      assert (front + sub + back)[1..] == front[1..] + sub + back;
      ContainsInfix(front[1..], sub, back);
    }
  }

  /** Text appended after an occurrence does not remove it. */
  lemma {:induction false} ContainsAppend(a: string, b: string, sub: string)
    requires Contains(a, sub)
    ensures Contains(a + b, sub)
    decreases |a|
  {
    if IsPrefix(sub, a) {
      assert (a + b)[..|sub|] == a[..|sub|];
    } else {
      assert (a + b)[1..] == a[1..] + b;
      ContainsAppend(a[1..], b, sub);
    }
  }

  /** Text put before an occurrence does not remove it. */
  lemma {:induction false} ContainsPrepend(a: string, b: string, sub: string)
    requires Contains(b, sub)
    ensures Contains(a + b, sub)
    decreases |a|
  {
    if |a| > 0 {
      assert (a + b)[1..] == a[1..] + b;
      ContainsPrepend(a[1..], b, sub);
    } else {
      assert a + b == b;
    }
  }

  /** `str.lower()` on one code point: ASCII and Latin-1 upper-case letters
      map to their lower-case forms; everything else is unchanged. */
  function LowerChar(c: char): char {
    if 'A' <= c <= 'Z' || ('\U{00C0}' <= c <= '\U{00DE}' && c != '\U{00D7}')
    then (c as int + 32) as char
    else c
  }

  predicate IsUpper(c: char) {
    'A' <= c <= 'Z' || ('\U{00C0}' <= c <= '\U{00DE}' && c != '\U{00D7}')
  }

  /** `str.lower()`. */
  function Lower(s: string): (r: string)
    ensures |r| == |s|
    ensures forall i :: 0 <= i < |s| ==> !IsUpper(r[i])
    ensures forall i :: 0 <= i < |s| && !IsUpper(s[i]) ==> r[i] == s[i]
    ensures forall i :: 0 <= i < |s| && IsUpper(s[i]) ==> r[i] as int == s[i] as int + 32
  {
    seq(|s|, i requires 0 <= i < |s| => LowerChar(s[i]))
  }

  /** Python's `<` on `str`: code-point lexicographic order, where a proper
      prefix sorts first. */
  predicate LexLess(a: string, b: string)
    decreases |a|
  {
    |b| > 0 && (|a| == 0 || a[0] < b[0] || (a[0] == b[0] && LexLess(a[1..], b[1..])))
  }

  lemma {:induction false} LexLessTransitive(a: string, b: string, c: string)
    requires LexLess(a, b) && LexLess(b, c)
    ensures LexLess(a, c)
    decreases |a|
  {
    if |a| > 0 && a[0] == c[0] {
      LexLessTransitive(a[1..], b[1..], c[1..]);
    }
  }

  lemma {:induction false} LexLessTotal(a: string, b: string)
    requires a != b
    ensures LexLess(a, b) || LexLess(b, a)
    decreases |a|
  {
    if |a| > 0 && |b| > 0 && a[0] == b[0] {
      assert a == [a[0]] + a[1..] && b == [b[0]] + b[1..];
      LexLessTotal(a[1..], b[1..]);
    }
  }
}
