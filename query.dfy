/** `processQuery`: the sanitising and punctuation of the learner's query
    before it is placed into the system prompt, and the placement itself. */
module QueryNormalizer {
  import opened JsText
  import opened SeqFacts

  /** A character the pattern `[^\w\s-.,?!]` does not match, so that
      `replace(..., '')` keeps it. The `-` between `\s` and `.` stands for
      itself: a class escape cannot bound a range. */
  predicate IsAllowed(c: char)
  {
    IsWordChar(c) || IsJsSpace(c) || c == '-' || c == '.' || c == ',' || c == '?' || c == '!'
  }

  predicate AllAllowed(s: string)
  {
    forall i :: 0 <= i < |s| ==> IsAllowed(s[i])
  }

  /** `query.replace(/[^\w\s-.,?!]/g, '')`: deletes every disallowed
      character. */
  function Sanitize(q: string): (r: string)
    ensures |r| <= |q|
    ensures AllAllowed(r)
  {
    if q == [] then [] else (if IsAllowed(q[0]) then [q[0]] else []) + Sanitize(q[1..])
  }

  /** Deleting characters one at a time: the result for a concatenation is
      the concatenation of the results. */
  lemma {:induction false} SanitizeConcat(a: string, b: string)
    ensures Sanitize(a + b) == Sanitize(a) + Sanitize(b)
  {
    if a == [] {
      EmptyLeft(b);
      EmptyLeft(Sanitize(b));
    } else {
      var h := if IsAllowed(a[0]) then [a[0]] else [];
      calc {
        Sanitize(a + b);
        == { ConsTail(a, b); }
        h + Sanitize(a[1..] + b);
        == { SanitizeConcat(a[1..], b); }
        h + (Sanitize(a[1..]) + Sanitize(b));
        == { Assoc(h, Sanitize(a[1..]), Sanitize(b)); }
        h + Sanitize(a[1..]) + Sanitize(b);
      }
    }
  }

  /** Allowed characters are all kept, in order. */
  lemma {:induction false} SanitizeKeepsAllowed(q: string)
    requires AllAllowed(q)
    ensures Sanitize(q) == q
  {
    if q != [] {
      SanitizeKeepsAllowed(q[1..]);
    }
  }

  /** Disallowed characters are all deleted. */
  lemma {:induction false} SanitizeDropsDisallowed(q: string)
    requires forall i :: 0 <= i < |q| ==> !IsAllowed(q[i])
    ensures Sanitize(q) == []
  {
    if q != [] {
      SanitizeDropsDisallowed(q[1..]);
    }
  }

  /** `processQuery`. */
  function ProcessQuery(query: string): (r: string)
  {
    var sanitized := Trim(Sanitize(query));
    if |sanitized| > 0 && sanitized[|sanitized| - 1] == '?' then sanitized else sanitized + "?"
  }

  /** The form every processed query has: only allowed characters, no
      whitespace at the start, and a final `?`. */
  predicate IsCanonical(s: string)
  {
    && |s| > 0
    && s[|s| - 1] == '?'
    && AllAllowed(s)
    && !IsJsSpace(s[0])
  }

  lemma ProcessQueryIsCanonical(query: string)
    ensures IsCanonical(ProcessQuery(query))
  {
    var t := Trim(Sanitize(query));
    TrimKeepsAllowed(Sanitize(query));
    if !(|t| > 0 && t[|t| - 1] == '?') {
      QuestionMarkKeepsAllowed(t);
      assert (t + "?")[0] == if t == [] then '?' else t[0];
    }
  }

  lemma TrimKeepsAllowed(s: string)
    requires AllAllowed(s)
    ensures AllAllowed(Trim(s))
  {
    AllowedInSuffix(s, TrimStart(s));
    AllowedInPrefix(TrimStart(s), Trim(s));
  }

  lemma AllowedInSuffix(s: string, u: string)
    requires AllAllowed(s) && |u| <= |s| && u == s[|s| - |u|..]
    ensures AllAllowed(u)
  {
    forall i | 0 <= i < |u| ensures IsAllowed(u[i]) {
      assert u[i] == s[|s| - |u| + i];
    }
  }

  lemma AllowedInPrefix(u: string, r: string)
    requires AllAllowed(u) && |r| <= |u| && r == u[..|r|]
    ensures AllAllowed(r)
  {
    forall i | 0 <= i < |r| ensures IsAllowed(r[i]) {
      assert r[i] == u[i];
    }
  }

  lemma QuestionMarkKeepsAllowed(t: string)
    requires AllAllowed(t)
    ensures AllAllowed(t + "?")
  {
    forall i | 0 <= i < |t| + 1 ensures IsAllowed((t + "?")[i]) {
      if i < |t| { assert (t + "?")[i] == t[i]; }
    }
  }

  /** A canonical query is a fixed point, and only a canonical one is. */
  lemma FixedPoints(query: string)
    ensures ProcessQuery(query) == query <==> IsCanonical(query)
  {
    if IsCanonical(query) {
      CanonicalIsFixed(query);
    } else {
      ProcessQueryIsCanonical(query);
    }
  }

  lemma CanonicalIsFixed(query: string)
    requires IsCanonical(query)
    ensures ProcessQuery(query) == query
  {
    SanitizeKeepsAllowed(query);
    assert !IsJsSpace(query[|query| - 1]);
    TrimTrimmed(query);
  }

  /** `processQuery` is idempotent. */
  lemma ProcessQueryIdempotent(query: string)
    ensures ProcessQuery(ProcessQuery(query)) == ProcessQuery(query)
  {
    ProcessQueryIsCanonical(query);
    FixedPoints(ProcessQuery(query));
  }

  /** A query with nothing but whitespace and disallowed characters, the
      empty one included, becomes exactly `?`. */
  lemma NothingLeftGivesQuestionMark(query: string)
    requires forall i :: 0 <= i < |query| ==> !IsAllowed(query[i]) || IsJsSpace(query[i])
    ensures ProcessQuery(query) == "?"
  {
    AllSpaceSurvivesSanitize(query);
    assert [] + [] + Sanitize(query) == Sanitize(query);
    TrimUnique([], [], Sanitize(query));
  }

  lemma {:induction false} AllSpaceSurvivesSanitize(q: string)
    requires forall i :: 0 <= i < |q| ==> !IsAllowed(q[i]) || IsJsSpace(q[i])
    ensures AllSpace(Sanitize(q))
  {
    if q != [] {
      AllSpaceSurvivesSanitize(q[1..]);
    }
  }

  /** A processed query holds no `$`, so `String.prototype.replace` inserts
      it literally (none of its `$`-patterns can occur). */
  lemma NoDollar(query: string)
    ensures '$' !in ProcessQuery(query)
  {
    ProcessQueryIsCanonical(query);
    AllowedHasNoDollar(ProcessQuery(query));
  }

  lemma AllowedHasNoDollar(s: string)
    requires AllAllowed(s)
    ensures '$' !in s
  {
    forall i | 0 <= i < |s| ensures s[i] != '$' {
      assert IsAllowed(s[i]);
    }
  }

  /** A query that is already clean and trimmed but lacks the final `?`
      only gains the `?`. */
  lemma QuestionMarkAppended(query: string)
    requires AllAllowed(query) && IsTrimmed(query)
    requires query == [] || query[|query| - 1] != '?'
    ensures ProcessQuery(query) == query + "?"
  {
    SanitizeKeepsAllowed(query);
    TrimTrimmed(query);
    ProcessQueryOf(query, query);
  }

  /** `processQuery` in terms of the sanitised and trimmed query `t`. */
  lemma ProcessQueryOf(query: string, t: string)
    requires t == Trim(Sanitize(query))
    ensures ProcessQuery(query) == if |t| > 0 && t[|t| - 1] == '?' then t else t + "?"
  {
  }

  /** Disallowed characters are deleted wherever they stand. */
  lemma DisallowedIgnored(a: string, b: string, c: string)
    requires forall i :: 0 <= i < |b| ==> !IsAllowed(b[i])
    ensures ProcessQuery(a + b + c) == ProcessQuery(a + c)
  {
    SanitizeConcat(a + b, c);
    SanitizeConcat(a, b);
    SanitizeConcat(a, c);
    SanitizeDropsDisallowed(b);
    assert Sanitize(a) + [] == Sanitize(a);
  }

  // The three examples below name their input through a parameter, so that
  // the verifier does not unfold the functions on the literal.

  lemma ExampleAlreadyQuestion(query: string)
    requires query == "already a question?"
    ensures ProcessQuery(query) == query
  {
    assert IsCanonical(query);
    FixedPoints(query);
  }

  lemma ExampleNoPunctuation(query: string)
    requires query == "no punctuation"
    ensures ProcessQuery(query) == "no punctuation?"
  {
    QuestionMarkAppended(query);
  }

  lemma ExampleWeirdChars(a: string, b: string, c: string)
    requires a == "weird" && b == "@#" && c == "chars!!"
    ensures ProcessQuery(a + b + c) == a + c + "?"
  {
    assert AllAllowed(a) && AllAllowed(c);
    assert AllAllowed(a + c) by {
      forall i | 0 <= i < |a + c| ensures IsAllowed((a + c)[i]) {
        if i < |a| { assert (a + c)[i] == a[i]; } else { assert (a + c)[i] == c[i - |a|]; }
      }
    }
    assert (a + c)[0] == a[0] && (a + c)[|a + c| - 1] == c[|c| - 1];
    QuestionMarkAppended(a + c);
    DisallowedIgnored(a, b, c);
  }

  // ------------------------------------------------------ prompt placement

  /** `pattern` occurs in `s` starting at index `k`. */
  predicate OccursAt(s: string, pattern: string, k: int)
  {
    0 <= k && k + |pattern| <= |s| && s[k..k + |pattern|] == pattern
  }

  /** The index of the first occurrence of `pattern` in `s` at or after
      `from`, or -1 when there is none. */
  function IndexOf(s: string, pattern: string, from: nat): (r: int)
    requires from <= |s|
    ensures r == -1 || (from <= r && OccursAt(s, pattern, r))
    ensures forall k :: from <= k && (r == -1 || k < r) ==> !OccursAt(s, pattern, k)
    decreases |s| - from
  {
    if |s| - from < |pattern| then -1
    else if s[from..from + |pattern|] == pattern then from
    else IndexOf(s, pattern, from + 1)
  }

  /** `template.replace(pattern, replacement)` with a string pattern and a
      replacement holding no `$` (so none of the `$&`, `$$`, `` $` `` or `$'`
      patterns can occur): only the first occurrence is replaced. */
  function ReplaceFirst(template: string, pattern: string, replacement: string): string
    requires '$' !in replacement
  {
    var i := IndexOf(template, pattern, 0);
    if i == -1 then template else template[..i] + replacement + template[i + |pattern|..]
  }

  /** Line 179: the processed query, in double quotes, takes the place of the
      first `{QUERY}` in the system prompt. */
  function CustomizePrompt(template: string, query: string): string
  {
    QuotedNoDollar(query);
    ReplaceFirst(template, "{QUERY}", Quoted(query))
  }

  /** The replacement text line 179 passes: the processed query in double
      quotes. */
  function Quoted(query: string): string
  {
    "\"" + ProcessQuery(query) + "\""
  }

  lemma QuotedNoDollar(query: string)
    ensures '$' !in Quoted(query)
  {
    NoDollar(query);
  }

  /** Cut the template at its first `{QUERY}`: the part before is kept, the
      placeholder becomes the quoted query, and the rest is kept as it is,
      later placeholders included. */
  lemma CustomizePromptSplits(before: string, after: string, query: string)
    requires forall k :: !OccursAt(before, "{QUERY}", k)
    ensures CustomizePrompt(before + "{QUERY}" + after, query) ==
      before + ("\"" + ProcessQuery(query) + "\"") + after
  {
    QuotedNoDollar(query);
    ReplaceFirstPlaceholder(before, after, Quoted(query));
  }

  lemma ReplaceFirstPlaceholder(before: string, after: string, replacement: string)
    requires forall k :: !OccursAt(before, "{QUERY}", k)
    requires '$' !in replacement
    ensures ReplaceFirst(before + "{QUERY}" + after, "{QUERY}", replacement) ==
      before + replacement + after
  {
    var t := before + "{QUERY}" + after;
    var n := |before|;
    assert t[n..n + 7] == "{QUERY}";
    assert OccursAt(t, "{QUERY}", n);
    forall k | 0 <= k < n ensures !OccursAt(t, "{QUERY}", k) {
      if k + 7 <= n {
        assert t[k..k + 7] == before[k..k + 7];
        assert !OccursAt(before, "{QUERY}", k);
      } else {
        assert t[k..k + 7][n - k] == '{';
      }
    }
    assert IndexOf(t, "{QUERY}", 0) == n;
    assert t[..n] == before;
    assert t[n + 7..] == after;
  }

  /** A template with no `{QUERY}` is sent unchanged. */
  lemma CustomizePromptWithoutPlaceholder(template: string, query: string)
    requires forall k :: !OccursAt(template, "{QUERY}", k)
    ensures CustomizePrompt(template, query) == template
  {
  }
}
