/**
 * The string methods the game applies to every typed line: str.strip(),
 * str.upper() and str.lower(). Whitespace is Python's (the characters for
 * which str.isspace() holds); case mapping covers the ASCII letters.
 */
module Text {

  /** Python's str.isspace() on a single character. */
  predicate IsSpace(c: char)
  {
    || c == ' '
    || '\t' <= c <= '\r'
    || '\U{1C}' <= c <= '\U{1F}'
    || c == '\U{85}' || c == '\U{A0}' || c == '\U{1680}'
    || '\U{2000}' <= c <= '\U{200A}'
    || c == '\U{2028}' || c == '\U{2029}' || c == '\U{202F}'
    || c == '\U{205F}' || c == '\U{3000}'
  }

  predicate IsLowerLetter(c: char) { 'a' <= c <= 'z' }

  predicate IsUpperLetter(c: char) { 'A' <= c <= 'Z' }

  function UpperChar(c: char): char
  {
    if IsLowerLetter(c) then (c as int - 32) as char else c
  }

  function LowerChar(c: char): char
  {
    if IsUpperLetter(c) then (c as int + 32) as char else c
  }

  /** s and t are the same string up to the case of their letters. */
  predicate SameIgnoringCase(s: string, t: string)
  {
    |s| == |t| && forall i :: 0 <= i < |s| ==> LowerChar(s[i]) == LowerChar(t[i])
  }

  /** s without its leading whitespace. */
  function TrimStart(s: string): (r: string)
    ensures |r| <= |s|
  {
    if s != [] && IsSpace(s[0]) then TrimStart(s[1..]) else s
  }

  /** s without its trailing whitespace. */
  function TrimEnd(s: string): (r: string)
    ensures |r| <= |s|
  {
    if s != [] && IsSpace(s[|s| - 1]) then TrimEnd(s[..|s| - 1]) else s
  }

  /** The number of whitespace characters in front of s. */
  function Leading(s: string): nat
  {
    |s| - |TrimStart(s)|
  }

  /** Python's s.strip(). */
  function Strip(s: string): (r: string)
    ensures |r| <= |s|
  {
    TrimEnd(TrimStart(s))
  }

  /** Python's s.upper() on ASCII letters. */
  function Upper(s: string): (r: string)
    ensures |r| == |s|
  {
    seq(|s|, i requires 0 <= i < |s| => UpperChar(s[i]))
  }

  /** Python's s.lower() on ASCII letters. */
  function Lower(s: string): (r: string)
    ensures |r| == |s|
  {
    seq(|s|, i requires 0 <= i < |s| => LowerChar(s[i]))
  }

  /** TrimStart cuts a run of whitespace from the front and stops at the first other character. */
  lemma {:induction false} TrimStartShape(s: string)
    ensures TrimStart(s) == s[Leading(s)..]
    ensures forall i :: 0 <= i < Leading(s) ==> IsSpace(s[i])
    ensures TrimStart(s) == [] || !IsSpace(TrimStart(s)[0])
  {
    if s != [] && IsSpace(s[0]) {
      TrimStartShape(s[1..]);
      assert s[1..][Leading(s[1..])..] == s[Leading(s)..];
    }
  }

  /** TrimEnd cuts a run of whitespace from the back and stops at the last other character. */
  lemma {:induction false} TrimEndShape(s: string)
    ensures TrimEnd(s) == s[..|TrimEnd(s)|]
    ensures forall i :: |TrimEnd(s)| <= i < |s| ==> IsSpace(s[i])
    ensures TrimEnd(s) == [] || !IsSpace(TrimEnd(s)[|TrimEnd(s)| - 1])
  {
    if s != [] && IsSpace(s[|s| - 1]) {
      var n := |s| - 1;
      TrimEndShape(s[..n]);
      assert s[..n][..|TrimEnd(s)|] == s[..|TrimEnd(s)|];
    }
  }

  /**
   * s.strip() is the piece of s left once the whitespace at both ends is cut
   * away: everything cut is whitespace and the piece neither starts nor ends
   * with whitespace.
   */
  lemma StripShape(s: string)
    ensures Leading(s) + |Strip(s)| <= |s|
    ensures Strip(s) == s[Leading(s)..Leading(s) + |Strip(s)|]
    ensures forall i :: 0 <= i < Leading(s) ==> IsSpace(s[i])
    ensures forall i :: Leading(s) + |Strip(s)| <= i < |s| ==> IsSpace(s[i])
    ensures Strip(s) == [] || (!IsSpace(Strip(s)[0]) && !IsSpace(Strip(s)[|Strip(s)| - 1]))
  {
    var t := TrimStart(s);
    TrimStartShape(s);
    TrimEndShape(t);
    var k := Leading(s);
    assert forall i :: k + |Strip(s)| <= i < |s| ==> s[i] == t[i - k];
  }

  /** s.upper() changes only the case of letters and leaves no lower-case letter. */
  lemma UpperShape(s: string)
    ensures SameIgnoringCase(Upper(s), s)
    ensures forall i :: 0 <= i < |s| ==> !IsLowerLetter(Upper(s)[i])
  {
  }

  /** s.lower() changes only the case of letters and leaves no upper-case letter. */
  lemma LowerShape(s: string)
    ensures SameIgnoringCase(Lower(s), s)
    ensures forall i :: 0 <= i < |s| ==> !IsUpperLetter(Lower(s)[i])
  {
  }

  lemma {:induction false} TrimStartPadded(w: string, u: string)
    requires forall i :: 0 <= i < |w| ==> IsSpace(w[i])
    requires u == [] || !IsSpace(u[0])
    ensures TrimStart(w + u) == u
  {
    if w == [] {
      assert w + u == u;
    } else {
      assert (w + u)[0] == w[0];
      assert (w + u)[1..] == w[1..] + u;
      TrimStartPadded(w[1..], u);
    }
  }

  lemma {:induction false} TrimEndPadded(u: string, w: string)
    requires u == [] || !IsSpace(u[|u| - 1])
    requires forall i :: 0 <= i < |w| ==> IsSpace(w[i])
    ensures TrimEnd(u + w) == u
  {
    if w == [] {
      assert u + w == u;
    } else {
      var n := |w| - 1;
      assert (u + w)[|u + w| - 1] == w[n];
      assert (u + w)[..|u + w| - 1] == u + w[..n];
      TrimEndPadded(u, w[..n]);
    }
  }

  /**
   * Strip is characterised by what it keeps: whitespace around a piece that
   * neither starts nor ends with whitespace is exactly what it removes.
   */
  lemma StripPadded(w1: string, t: string, w2: string)
    requires forall i :: 0 <= i < |w1| ==> IsSpace(w1[i])
    requires forall i :: 0 <= i < |w2| ==> IsSpace(w2[i])
    requires t == [] || (!IsSpace(t[0]) && !IsSpace(t[|t| - 1]))
    ensures Strip(w1 + t + w2) == t
  {
    if t == [] {
      assert w1 + t + w2 == (w1 + w2) + t;
      TrimStartPadded(w1 + w2, t);
    } else {
      assert w1 + t + w2 == w1 + (t + w2);
      TrimStartPadded(w1, t + w2);
      TrimEndPadded(t, w2);
    }
  }

  /** Stripping twice is stripping once. */
  lemma StripIdempotent(s: string)
    ensures Strip(Strip(s)) == Strip(s)
  {
    var r := Strip(s);
    StripShape(s);
    assert [] + r + [] == r;
    StripPadded([], r, []);
  }

  lemma LowerCharInjective(x: char, y: char)
    requires !IsLowerLetter(x) && !IsLowerLetter(y)
    requires LowerChar(x) == LowerChar(y)
    ensures x == y
  {
  }

  /**
   * Comparing s.upper() with a string that has no lower-case letter is a
   * case-insensitive comparison of s with it.
   */
  lemma UpperMatches(s: string, t: string)
    requires forall i :: 0 <= i < |t| ==> !IsLowerLetter(t[i])
    ensures Upper(s) == t <==> SameIgnoringCase(s, t)
  {
    var u := Upper(s);
    UpperShape(s);
    if SameIgnoringCase(s, t) {
      forall i | 0 <= i < |u|
        ensures u[i] == t[i]
      {
        LowerCharInjective(u[i], t[i]);
      }
    }
  }

  /**
   * Comparing s.lower() with a string that has no upper-case letter is a
   * case-insensitive comparison of s with it.
   */
  lemma LowerMatches(s: string, t: string)
    requires forall i :: 0 <= i < |t| ==> !IsUpperLetter(t[i])
    ensures Lower(s) == t <==> SameIgnoringCase(s, t)
  {
    var l := Lower(s);
    LowerShape(s);
    if SameIgnoringCase(s, t) {
      assert forall i :: 0 <= i < |l| ==> l[i] == LowerChar(l[i]) == LowerChar(t[i]) == t[i];
    }
  }
}
