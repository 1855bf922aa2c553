/** The string operations of Python's `str` that the community blueprint applies to form
    input: `strip`, `lstrip`, `split` on one character and `join`. */
module CommunityText {

  /** `c.isspace()`: the characters `str.strip()` removes and the regular-expression class
      `\s` matches in a `str` pattern (ASCII whitespace, the information separators
      0x1C-0x1F, and the Unicode space and line/paragraph separators). */
  predicate IsSpace(c: char)
  {
    || c == ' ' || ('\t' <= c <= '\r') || ('\U{1C}' <= c <= '\U{1F}')
    || c == '\U{85}' || c == '\U{A0}' || c == '\U{1680}' || ('\U{2000}' <= c <= '\U{200A}')
    || c == '\U{2028}' || c == '\U{2029}' || c == '\U{202F}' || c == '\U{205F}' || c == '\U{3000}'
  }

  predicate IsComma(c: char)
  {
    c == ','
  }

  predicate IsHash(c: char)
  {
    c == '#'
  }

  /** Number of leading characters of `s` that satisfy `p`. */
  function Leading(s: string, p: char -> bool): (k: nat)
    ensures k <= |s|
    ensures forall i :: 0 <= i < k ==> p(s[i])
    ensures k < |s| ==> !p(s[k])
  {
    if s != [] && p(s[0]) then 1 + Leading(s[1..], p) else 0
  }

  /** Number of trailing characters of `s` that satisfy `p`. */
  function Trailing(s: string, p: char -> bool): (k: nat)
    ensures k <= |s|
    ensures forall i :: |s| - k <= i < |s| ==> p(s[i])
    ensures k < |s| ==> !p(s[|s| - 1 - k])
  {
    if s != [] && p(s[|s| - 1]) then 1 + Trailing(s[..|s| - 1], p) else 0
  }

  /** `s.lstrip(chars)`, the stripped characters being those `p` accepts: the longest suffix
      of `s` that does not start with such a character. */
  function LStrip(s: string, p: char -> bool): (r: string)
    ensures |r| <= |s| && r == s[|s| - |r|..]
    ensures r != [] ==> !p(r[0])
    ensures forall i :: 0 <= i < |s| - |r| ==> p(s[i])
  {
    s[Leading(s, p)..]
  }

  /** `s.strip()`: `s` without its leading and trailing whitespace. */
  function Strip(s: string): (r: string)
    ensures |r| <= |s|
    ensures r != [] ==> !IsSpace(r[0]) && !IsSpace(r[|r| - 1])
    ensures forall c :: c in r ==> c in s
    ensures (forall c :: c in s ==> !IsSpace(c)) ==> r == s
  {
    var t := s[Leading(s, IsSpace)..];
    var r := t[..|t| - Trailing(t, IsSpace)];
    assert forall c :: c in r ==> c in t;
    r
  }

  /** Surrounding whitespace is what `strip` removes, and nothing more. */
  lemma StripPadded(a: string, x: string, b: string)
    requires forall i :: 0 <= i < |a| ==> IsSpace(a[i])
    requires forall i :: 0 <= i < |b| ==> IsSpace(b[i])
    requires x != [] ==> !IsSpace(x[0]) && !IsSpace(x[|x| - 1])
    ensures Strip(a + x + b) == x
  {
    var s := a + x + b;
    var k := Leading(s, IsSpace);
    if x != [] {
      assert s[|a|] == x[0];
      assert k == |a|;
      var t := s[k..];
      assert t == x + b;
      assert t[|x| - 1] == x[|x| - 1];
      assert Trailing(t, IsSpace) == |b|;
      assert t[..|x|] == x;
    } else {
      assert s == a + b;
      assert k == |s|;
    }
  }

  /** `s.split(c)` generalised to a set of separator characters (`re.split` on a character
      class): the pieces between consecutive separators, empty pieces included. */
  function SplitOn(s: string, sep: char -> bool): (r: seq<string>)
    ensures |r| >= 1
    ensures forall i :: 0 <= i < |r| ==> forall c :: c in r[i] ==> !sep(c) && c in s
  {
    if s == [] then [[]]
    else
      var rest := SplitOn(s[1..], sep);
      if sep(s[0]) then [[]] + rest
      else
        var head := [s[0]] + rest[0];
        assert forall c :: c in head ==> c == s[0] || c in rest[0];
        [head] + rest[1..]
  }

  /** `c.join(xs)`. */
  function JoinWith(xs: seq<string>, c: char): string
  {
    if xs == [] then []
    else if |xs| == 1 then xs[0]
    else xs[0] + [c] + JoinWith(xs[1..], c)
  }

  /** A separator-free prefix is glued to the first piece. */
  lemma {:induction false} SplitPrefix(x: string, t: string, sep: char -> bool)
    requires forall i :: 0 <= i < |x| ==> !sep(x[i])
    ensures SplitOn(x + t, sep) == [x + SplitOn(t, sep)[0]] + SplitOn(t, sep)[1..]
  {
    if x != [] {
      SplitPrefix(x[1..], t, sep);
      assert (x + t)[1..] == x[1..] + t;
      assert [x[0]] + (x[1..] + SplitOn(t, sep)[0]) == x + SplitOn(t, sep)[0];
    } else {
      var r := SplitOn(t, sep);
      assert x + t == t && x + r[0] == r[0];
      assert r == [r[0]] + r[1..];
    }
  }

  /** Splitting at the joining character gives back the joined pieces, when no piece holds a
      separator. */
  lemma {:induction false} SplitJoin(xs: seq<string>, c: char, sep: char -> bool)
    requires |xs| >= 1 && sep(c)
    requires forall k :: 0 <= k < |xs| ==> forall i :: 0 <= i < |xs[k]| ==> !sep(xs[k][i])
    ensures SplitOn(JoinWith(xs, c), sep) == xs
  {
    if |xs| == 1 {
      SplitPrefix(xs[0], [], sep);
      assert xs[0] + [] == xs[0];
    } else {
      var rest := JoinWith(xs[1..], c);
      SplitJoin(xs[1..], c, sep);
      assert JoinWith(xs, c) == xs[0] + ([c] + rest);
      SplitPrefix(xs[0], [c] + rest, sep);
      assert ([c] + rest)[1..] == rest;
      assert SplitOn([c] + rest, sep) == [[]] + xs[1..];
      assert xs[0] + [] == xs[0];
      assert xs == [xs[0]] + xs[1..];
    }
  }

  /** Joining the pieces of a split with the one separator character gives back the string. */
  lemma {:induction false} JoinSplit(s: string, c: char, sep: char -> bool)
    requires forall x :: sep(x) <==> x == c
    ensures JoinWith(SplitOn(s, sep), c) == s
  {
    if s != [] {
      var rest := SplitOn(s[1..], sep);
      JoinSplit(s[1..], c, sep);
      if sep(s[0]) {
        assert SplitOn(s, sep) == [[]] + rest;
        assert ([[]] + rest)[1..] == rest;
        assert s == [c] + s[1..];
      } else if |rest| == 1 {
        assert s == [s[0]] + s[1..];
      } else {
        var xs := SplitOn(s, sep);
        assert xs[1..] == rest[1..];
        assert JoinWith(rest, c) == rest[0] + [c] + JoinWith(rest[1..], c);
        assert s == [s[0]] + s[1..];
      }
    }
  }
}
