/**
 * The two string operations the seed-mode parser normalises its input
 * with: trimming Unicode white space from both ends, and lowering ASCII
 * letters while leaving every other character as it is.
 */
module Text {

  /** A character with the Unicode White_Space property, the set that trimming removes. */
  predicate IsWhitespace(c: char)
  {
    var n := c as int;
    (0x09 <= n <= 0x0D) || n == 0x20 || n == 0x85 || n == 0xA0 || n == 0x1680 ||
    (0x2000 <= n <= 0x200A) || n == 0x2028 || n == 0x2029 || n == 0x202F ||
    n == 0x205F || n == 0x3000
  }

  /** Every character of `s` is white space. */
  predicate AllWhitespace(s: string)
  {
    forall i :: 0 <= i < |s| ==> IsWhitespace(s[i])
  }

  /** Neither end of `s` is white space (trivially so for the empty string). */
  predicate Trimmed(s: string)
  {
    s == [] || (!IsWhitespace(s[0]) && !IsWhitespace(s[|s| - 1]))
  }

  /** `s` without its leading white space. */
  function TrimStart(s: string): (r: string)
    ensures |r| <= |s| && r == s[|s| - |r|..]
    ensures AllWhitespace(s[..|s| - |r|])
    ensures r == [] || !IsWhitespace(r[0])
  {
    if s != [] && IsWhitespace(s[0]) then TrimStart(s[1..]) else s
  }

  /** `s` without its trailing white space. */
  function TrimEnd(s: string): (r: string)
    ensures |r| <= |s| && r == s[..|r|]
    ensures AllWhitespace(s[|r|..])
    ensures r == [] || !IsWhitespace(r[|r| - 1])
  {
    if s != [] && IsWhitespace(s[|s| - 1]) then TrimEnd(s[..|s| - 1]) else s
  }

  /** `s` without leading and trailing white space. */
  function Trim(s: string): (r: string)
    ensures Trimmed(r)
  {
    TrimEnd(TrimStart(s))
  }

  /** One character lowered if it is an ASCII capital, kept otherwise. */
  function AsciiLower(c: char): (r: char)
  {
    if 'A' <= c <= 'Z' then (c as int + 32) as char else c
  }

  /** `s` with every ASCII capital replaced by its small letter. */
  function ToAsciiLowercase(s: string): (r: string)
    ensures |r| == |s|
    ensures forall i :: 0 <= i < |s| ==> r[i] == AsciiLower(s[i])
  {
    seq(|s|, i requires 0 <= i < |s| => AsciiLower(s[i]))
  }

  // ---------------------------------------------------------------------
  // Properties

  /** Trimming removes exactly the white space around a core whose ends are not white space. */
  lemma TrimPadded(pre: string, core: string, post: string)
    requires AllWhitespace(pre) && AllWhitespace(post) && Trimmed(core)
    ensures Trim(pre + core + post) == core
  {
    assert pre + core + post == pre + (core + post);
    TrimStartPadded(pre, core + post);
    if core == [] {
      assert core + post == post;
      assert TrimEnd([]) == [];
    } else {
      assert TrimStart(core + post) == core + post;
      TrimEndPadded(core, post);
    }
  }

  /** Leading white space is dropped whatever follows it. */
  lemma {:induction false} TrimStartPadded(pre: string, rest: string)
    requires AllWhitespace(pre)
    ensures TrimStart(pre + rest) == TrimStart(rest)
    decreases |pre|
  {
    if pre == [] {
      assert pre + rest == rest;
    } else {
      assert (pre + rest)[1..] == pre[1..] + rest;
      TrimStartPadded(pre[1..], rest);
    }
  }

  /** Trailing white space is dropped from a core that does not end in white space. */
  lemma {:induction false} TrimEndPadded(core: string, post: string)
    requires AllWhitespace(post) && (core == [] || !IsWhitespace(core[|core| - 1]))
    ensures TrimEnd(core + post) == core
    decreases |post|
  {
    if post == [] {
      assert core + post == core;
    } else {
      var shorter := post[..|post| - 1];
      assert (core + post)[..|core + post| - 1] == core + shorter;
      TrimEndPadded(core, shorter);
    }
  }

  /** Trimming twice is trimming once. */
  lemma TrimIdempotent(s: string)
    ensures Trim(Trim(s)) == Trim(s)
  {
    var t := Trim(s);
    assert t == [] + t + [];
    TrimPadded([], t, []);
  }

  /** Lowering never produces an ASCII capital, so lowering twice is lowering once. */
  lemma AsciiLowercaseIdempotent(s: string)
    ensures forall i :: 0 <= i < |s| ==> !('A' <= ToAsciiLowercase(s)[i] <= 'Z')
    ensures ToAsciiLowercase(ToAsciiLowercase(s)) == ToAsciiLowercase(s)
  {
  }

  /** Lowering keeps white space and non-white space apart: ASCII letters are not white space. */
  lemma LowerKeepsWhitespace(c: char)
    ensures IsWhitespace(AsciiLower(c)) == IsWhitespace(c)
  {
  }

  /** Lowering commutes with dropping leading white space. */
  lemma {:induction false} TrimStartLowered(s: string)
    ensures TrimStart(ToAsciiLowercase(s)) == ToAsciiLowercase(TrimStart(s))
    decreases |s|
  {
    if s != [] {
      var l := ToAsciiLowercase(s);
      LowerKeepsWhitespace(s[0]);
      if IsWhitespace(s[0]) {
        assert l[1..] == ToAsciiLowercase(s[1..]);
        TrimStartLowered(s[1..]);
        assert TrimStart(l) == TrimStart(l[1..]);
      } else {
        assert TrimStart(l) == l;
      }
    }
  }

  /** Lowering commutes with dropping trailing white space. */
  lemma {:induction false} TrimEndLowered(s: string)
    ensures TrimEnd(ToAsciiLowercase(s)) == ToAsciiLowercase(TrimEnd(s))
    decreases |s|
  {
    if s != [] {
      var l := ToAsciiLowercase(s);
      LowerKeepsWhitespace(s[|s| - 1]);
      if IsWhitespace(s[|s| - 1]) {
        assert l[..|s| - 1] == ToAsciiLowercase(s[..|s| - 1]);
        TrimEndLowered(s[..|s| - 1]);
        assert TrimEnd(l) == TrimEnd(l[..|s| - 1]);
      } else {
        assert TrimEnd(l) == l;
      }
    }
  }

  /** Lowering commutes with trimming. */
  lemma TrimLowered(s: string)
    ensures Trim(ToAsciiLowercase(s)) == ToAsciiLowercase(Trim(s))
  {
    TrimStartLowered(s);
    TrimEndLowered(TrimStart(s));
  }
}
