/**
  * The string clean-up the registry applies to user names and room names:
  * `s.trim().toLowerCase()`.
  */
module Text {

  /** The characters `String.prototype.trim` strips: the WhiteSpace and
    * LineTerminator code points of ECMAScript. */
  predicate IsWhitespace(c: char)
  {
    || c == '\t' || c == '\n' || c == '\U{B}' || c == '\U{C}' || c == '\r'
    || c == ' ' || c == '\U{A0}' || c == '\U{1680}'
    || ('\U{2000}' <= c <= '\U{200A}')
    || c == '\U{2028}' || c == '\U{2029}' || c == '\U{202F}' || c == '\U{205F}'
    || c == '\U{3000}' || c == '\U{FEFF}'
  }

  predicate AllWhitespace(s: string)
  {
    forall i :: 0 <= i < |s| ==> IsWhitespace(s[i])
  }

  /** Neither the first nor the last character is whitespace. */
  predicate NoEdgeWhitespace(s: string)
  {
    s == [] || (!IsWhitespace(s[0]) && !IsWhitespace(s[|s| - 1]))
  }

  predicate IsUpper(c: char)
  {
    'A' <= c <= 'Z'
  }

  /** A string that trimming and lower-casing leave as it is. */
  predicate IsNormal(s: string)
  {
    NoEdgeWhitespace(s) && forall i :: 0 <= i < |s| ==> !IsUpper(s[i])
  }

  /** Drops the leading whitespace. */
  function TrimStart(s: string): (r: string)
    ensures |r| <= |s|
    ensures r == [] || !IsWhitespace(r[0])
  {
    if s != [] && IsWhitespace(s[0]) then TrimStart(s[1..]) else s
  }

  /** Drops the trailing whitespace. */
  function TrimEnd(s: string): (r: string)
    ensures |r| <= |s|
    ensures r == [] || !IsWhitespace(r[|r| - 1])
    ensures r == [] || r[0] == s[0]
  {
    if s != [] && IsWhitespace(s[|s| - 1]) then TrimEnd(s[..|s| - 1]) else s
  }

  /** `TrimStart` keeps a suffix and drops only whitespace before it. */
  lemma {:induction false} TrimStartDrops(s: string)
    ensures TrimStart(s) == s[|s| - |TrimStart(s)|..]
    ensures AllWhitespace(s[..|s| - |TrimStart(s)|])
  {
    if s != [] && IsWhitespace(s[0]) {
      TrimStartDrops(s[1..]);
      var n := |s| - |TrimStart(s)|;
      assert s[1..][n - 1..] == s[n..];
      assert forall i :: 1 <= i < n ==> s[i] == s[1..][..n - 1][i - 1];
    }
  }

  /** `TrimEnd` keeps a prefix and drops only whitespace after it. */
  lemma {:induction false} TrimEndDrops(s: string)
    ensures TrimEnd(s) == s[..|TrimEnd(s)|]
    ensures AllWhitespace(s[|TrimEnd(s)|..])
  {
    if s != [] && IsWhitespace(s[|s| - 1]) {
      TrimEndDrops(s[..|s| - 1]);
      var n := |TrimEnd(s)|;
      assert s[..|s| - 1][..n] == s[..n];
      assert forall i :: n <= i < |s| - 1 ==> s[i] == s[..|s| - 1][n..][i - n];
    }
  }

  /** `String.prototype.trim`. */
  function Trim(s: string): (r: string)
    ensures |r| <= |s|
    ensures NoEdgeWhitespace(r)
  {
    TrimEnd(TrimStart(s))
  }

  /** Trimming leaves nothing exactly when the string is all whitespace. */
  lemma TrimEmpty(s: string)
    ensures Trim(s) == [] <==> AllWhitespace(s)
  {
    var t := TrimStart(s);
    TrimStartDrops(s);
    TrimEndDrops(t);
    if t != [] {
      assert t[0] == s[|s| - |t|];
      assert TrimEnd(t) != [] by {
        assert t[|TrimEnd(t)|..] == t ==> AllWhitespace(t);
      }
    } else {
      assert s == s[..|s| - |t|];
    }
  }

  /** `toLowerCase` on one character; only the ASCII letters are mapped. */
  function LowerChar(c: char): (r: char)
    ensures !IsUpper(r)
    ensures IsWhitespace(r) == IsWhitespace(c)
    ensures IsUpper(c) || r == c
    ensures IsUpper(c) ==> 'a' <= r <= 'z' && r as int - 'a' as int == c as int - 'A' as int
  {
    if IsUpper(c) then (c as int + 32) as char else c
  }

  /** `String.prototype.toLowerCase`, character by character. */
  function Lower(s: string): (r: string)
    ensures |r| == |s|
    ensures forall i :: 0 <= i < |s| ==> r[i] == LowerChar(s[i])
  {
    seq(|s|, i requires 0 <= i < |s| => LowerChar(s[i]))
  }

  /** `s.trim().toLowerCase()`, the one normalisation used for user names and
    * room names alike. */
  function Normalize(s: string): (r: string)
    ensures IsNormal(r)
  {
    Lower(Trim(s))
  }

  /** A name normalises to the empty string exactly when it is all
    * whitespace (`!username` in the source). */
  lemma NormalizeEmpty(s: string)
    ensures Normalize(s) == [] <==> AllWhitespace(s)
  {
    TrimEmpty(s);
  }

  /** Two characters are the same letter in either ASCII case, or equal. */
  predicate SameCharUpToCase(c: char, d: char)
  {
    || c == d
    || ('A' <= c <= 'Z' && d as int == c as int + ('a' as int - 'A' as int))
    || ('A' <= d <= 'Z' && c as int == d as int + ('a' as int - 'A' as int))
  }

  /** Two strings that differ at most in the ASCII case of their letters. */
  predicate SameUpToCase(a: string, b: string)
  {
    |a| == |b| && forall i :: 0 <= i < |a| ==> SameCharUpToCase(a[i], b[i])
  }

  /** Stripping leading whitespace treats strings equal up to case alike. */
  lemma {:induction false} TrimStartUpToCase(a: string, b: string)
    requires SameUpToCase(a, b)
    ensures SameUpToCase(TrimStart(a), TrimStart(b))
  {
    if a != [] {
      assert SameCharUpToCase(a[0], b[0]);
      if IsWhitespace(a[0]) {
        assert SameUpToCase(a[1..], b[1..]);
        TrimStartUpToCase(a[1..], b[1..]);
      }
    }
  }

  /** Stripping trailing whitespace treats strings equal up to case alike. */
  lemma {:induction false} TrimEndUpToCase(a: string, b: string)
    requires SameUpToCase(a, b)
    ensures SameUpToCase(TrimEnd(a), TrimEnd(b))
  {
    if a != [] {
      assert SameCharUpToCase(a[|a| - 1], b[|b| - 1]);
      if IsWhitespace(a[|a| - 1]) {
        assert SameUpToCase(a[..|a| - 1], b[..|b| - 1]);
        TrimEndUpToCase(a[..|a| - 1], b[..|b| - 1]);
      }
    }
  }

  /** Names that differ only in the ASCII case of their letters normalise to
    * the same string, so they collide in the registry's in-use check. */
  lemma NormalizeIgnoresCase(a: string, b: string)
    requires SameUpToCase(a, b)
    ensures Normalize(a) == Normalize(b)
  {
    TrimStartUpToCase(a, b);
    TrimEndUpToCase(TrimStart(a), TrimStart(b));
    LowerUpToCase(Trim(a), Trim(b));
  }

  /** Lower-casing maps strings equal up to case to one string. */
  lemma LowerUpToCase(a: string, b: string)
    requires SameUpToCase(a, b)
    ensures Lower(a) == Lower(b)
  {
    forall i | 0 <= i < |a| ensures Lower(a)[i] == Lower(b)[i] {
      assert SameCharUpToCase(a[i], b[i]);
    }
  }

  /** Trimming changes a string exactly when it has whitespace at an edge. */
  lemma TrimFixpoint(s: string)
    ensures Trim(s) == s <==> NoEdgeWhitespace(s)
  {
    if NoEdgeWhitespace(s) && s != [] {
      assert TrimStart(s) == s;
      assert TrimEnd(s) == s;
    }
  }

  /** The normal strings are exactly the fixed points of `Normalize`. */
  lemma NormalizeFixpoint(s: string)
    ensures Normalize(s) == s <==> IsNormal(s)
  {
    if IsNormal(s) {
      TrimFixpoint(s);
      assert Lower(s) == s;
    }
  }

  /** Normalising an already-normalised value changes nothing. */
  lemma NormalizeIdempotent(s: string)
    ensures Normalize(Normalize(s)) == Normalize(s)
  {
    NormalizeFixpoint(Normalize(s));
  }
}
