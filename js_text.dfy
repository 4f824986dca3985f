/** The JavaScript string primitives both core files rely on: the regular
    expression classes `\s`, `\w` and `\d`, and `String.prototype.trim`.
    Strings are sequences of Unicode scalar values; every character outside
    the Basic Multilingual Plane belongs to none of the three classes, so
    treating it as one character or as two UTF-16 code units changes no
    result below. */
module JsText {
  import opened SeqFacts

  /** `\s` in a regular expression, which is also the set `trim` removes:
      the WhiteSpace and LineTerminator characters of ECMAScript. */
  predicate IsJsSpace(c: char)
  {
    c in JsSpaces
  }

  /** The ECMAScript WhiteSpace and LineTerminator characters. */
  const JsSpaces: set<char> := {
    '\t', '\n', '\U{000B}', '\U{000C}', '\r', ' ', '\U{00A0}', '\U{1680}',
    '\U{2000}', '\U{2001}', '\U{2002}', '\U{2003}', '\U{2004}', '\U{2005}',
    '\U{2006}', '\U{2007}', '\U{2008}', '\U{2009}', '\U{200A}',
    '\U{2028}', '\U{2029}', '\U{202F}', '\U{205F}', '\U{3000}', '\U{FEFF}'
  }

  /** `\d` without the `u` flag: an ASCII digit. */
  predicate IsDigit(c: char)
  {
    '0' <= c <= '9'
  }

  /** `\w` without the `u` flag: an ASCII letter, digit or underscore. */
  predicate IsWordChar(c: char)
  {
    ('a' <= c <= 'z') || ('A' <= c <= 'Z') || IsDigit(c) || c == '_'
  }

  predicate AllSpace(s: string)
  {
    forall i :: 0 <= i < |s| ==> IsJsSpace(s[i])
  }

  /** A string with no whitespace at either end. */
  predicate IsTrimmed(s: string)
  {
    s == [] || (!IsJsSpace(s[0]) && !IsJsSpace(s[|s| - 1]))
  }

  /** Removes the leading whitespace: the result is the suffix of `s` that
      starts at its first non-space character. */
  function TrimStart(s: string): (r: string)
    ensures |r| <= |s| && r == s[|s| - |r|..]
    ensures AllSpace(s[..|s| - |r|])
    ensures r == [] || !IsJsSpace(r[0])
  {
    if s != [] && IsJsSpace(s[0]) then
      var r := TrimStart(s[1..]);
      SuffixOfSuffix(s, 1, s[1..], r);
      SpaceBeforeSpaces(s, r);
      r
    else s
  }

  lemma SpaceBeforeSpaces(s: string, r: string)
    requires |r| < |s| && IsJsSpace(s[0]) && AllSpace(s[1..|s| - |r|])
    ensures AllSpace(s[..|s| - |r|])
  {
    var pre := s[..|s| - |r|];
    forall i | 0 <= i < |pre| ensures IsJsSpace(pre[i]) {
      if i > 0 {
        assert pre[i] == s[1..|s| - |r|][i - 1];
      }
    }
  }

  /** Removes the trailing whitespace: the result is the prefix of `s` that
      ends at its last non-space character. */
  function TrimEnd(s: string): (r: string)
    ensures |r| <= |s| && r == s[..|r|]
    ensures AllSpace(s[|r|..])
    ensures r == [] || !IsJsSpace(r[|r| - 1])
  {
    if s != [] && IsJsSpace(s[|s| - 1]) then TrimEnd(s[..|s| - 1]) else s
  }

  /** `String.prototype.trim`. */
  function Trim(s: string): (r: string)
    ensures |r| <= |TrimStart(s)| && r == TrimStart(s)[..|r|]
    ensures AllSpace(TrimStart(s)[|r|..])
    ensures IsTrimmed(r)
  {
    TrimEnd(TrimStart(s))
  }

  /** `TrimStart` applied to a suffix of `s`, stated in positions of `s`. */
  lemma TrimStartOfSuffix(s: string, i: nat, r: string)
    requires i <= |s| && r == TrimStart(s[i..])
    ensures |r| <= |s| - i
    ensures r == s[|s| - |r|..]
    ensures AllSpace(s[i..|s| - |r|])
    ensures r == [] || !IsJsSpace(r[0])
  {
    SuffixOfSuffix(s, i, s[i..], r);
  }

  /** `trim` cuts its input into leading whitespace, the result, and
      trailing whitespace (the first and last parts are whitespace by the
      contracts of `TrimStart` and `Trim`). */
  lemma TrimDecomposition(s: string)
    ensures s == s[..|s| - |TrimStart(s)|] + Trim(s) + TrimStart(s)[|Trim(s)|..]
  {
    var u, r := TrimStart(s), Trim(s);
    assert u == s[|s| - |u|..];
    assert r == u[..|r|];
    Decompose(s, u, r);
  }

  /** Every character `trim` keeps occurs in its input. */
  lemma TrimKeepsCharacters(s: string, c: char)
    requires c in Trim(s)
    ensures c in s
  {
    assert c in TrimStart(s);
  }

  /** The characterisation of `trim`: whatever whitespace surrounds a string
      with no whitespace at its ends, `trim` returns exactly that string. */
  lemma TrimUnique(p: string, t: string, q: string)
    requires AllSpace(p) && AllSpace(q) && IsTrimmed(t)
    ensures Trim(p + t + q) == t
  {
    TrimStartDropsSpace(p, t + q);
    Assoc(p, t, q);
    if t == [] {
      TrimStartAllSpace(q);
    } else {
      assert TrimStart(t + q) == t + q by { assert (t + q)[0] == t[0]; }
      TrimEndDropsSpace(t, q);
    }
  }

  lemma {:induction false} TrimStartDropsSpace(p: string, u: string)
    requires AllSpace(p)
    ensures TrimStart(p + u) == TrimStart(u)
  {
    if p == [] {
      EmptyLeft(u);
    } else {
      ConsTail(p, u);
      TrimStartDropsSpace(p[1..], u);
    }
  }

  lemma {:induction false} TrimStartAllSpace(q: string)
    requires AllSpace(q)
    ensures TrimStart(q) == [] && TrimEnd([]) == []
  {
    if q != [] {
      TrimStartAllSpace(q[1..]);
    }
  }

  lemma {:induction false} TrimEndDropsSpace(t: string, q: string)
    requires AllSpace(q) && IsTrimmed(t) && t != []
    ensures TrimEnd(t + q) == t
  {
    if q == [] {
      EmptyRight(t);
    } else {
      assert (t + q)[..|t + q| - 1] == t + q[..|q| - 1];
      TrimEndDropsSpace(t, q[..|q| - 1]);
    }
  }

  /** A string with no whitespace at its ends is left as it is. */
  lemma TrimTrimmed(t: string)
    requires IsTrimmed(t)
    ensures Trim(t) == t
  {
    EmptyLeft(t);
    EmptyRight(t);
    TrimUnique([], t, []);
  }

  /** `trim` is idempotent. */
  lemma TrimIdempotent(s: string)
    ensures Trim(Trim(s)) == Trim(s)
  {
    TrimTrimmed(Trim(s));
  }

  /** Whitespace appended at the end does not change what `trim` returns. */
  lemma TrimAppendSpace(s: string, q: string)
    requires AllSpace(q)
    ensures Trim(s + q) == Trim(s)
  {
    TrimDecomposition(s);
    var p, t, rest := s[..|s| - |TrimStart(s)|], Trim(s), TrimStart(s)[|Trim(s)|..];
    Assoc(p + t, rest, q);
    TrimUnique(p, t, rest + q);
  }
}
