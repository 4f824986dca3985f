/** `parseSteps`: extracts the entries of a numbered list from plain text.
    The text is split into lines at `\n` or `\r\n`, every line is trimmed,
    the lines that start with digits and a period are kept, and that marker
    and the whitespace after it are removed. */
module StepList {
  import opened JsText
  import opened SeqFacts

  // ------------------------------------------------------- split(/\r?\n/)

  /** The index of the first `\n` in `s`, or `|s|` when there is none. */
  function FirstNewline(s: string): (i: nat)
    ensures i <= |s|
    ensures forall k :: 0 <= k < i ==> s[k] != '\n'
    ensures i < |s| ==> s[i] == '\n'
  {
    if s == [] || s[0] == '\n' then 0 else 1 + FirstNewline(s[1..])
  }

  /** The piece before a `\n` loses one `\r` at its end: `\r?` is part of
      the separator. */
  function DropCr(piece: string): string
  {
    if |piece| > 0 && piece[|piece| - 1] == '\r' then piece[..|piece| - 1] else piece
  }

  /** `input.split(/\r?\n/)`. The leftmost match of the pattern ends at the
      first `\n` and takes the `\r` before it if there is one. */
  function SplitLines(s: string): (lines: seq<string>)
    ensures |lines| >= 1
    decreases |s|
  {
    var i := FirstNewline(s);
    if i == |s| then [s] else [DropCr(s[..i])] + SplitLines(s[i + 1..])
  }

  /** No line holds a `\n`. */
  lemma {:induction false} LinesHaveNoNewline(s: string)
    ensures forall j :: 0 <= j < |SplitLines(s)| ==> '\n' !in SplitLines(s)[j]
    decreases |s|
  {
    var i := FirstNewline(s);
    if i < |s| {
      LinesHaveNoNewline(s[i + 1..]);
      var head := DropCr(s[..i]);
      assert forall c :: c in head ==> c in s[..i];
      assert SplitLines(s) == [head] + SplitLines(s[i + 1..]);
    }
  }

  // ------------------------------------------------------------ the chain

  /** `.map((line) => line.trim())`. */
  function TrimAll(lines: seq<string>): (r: seq<string>)
    ensures |r| == |lines|
    ensures forall j :: 0 <= j < |lines| ==> r[j] == Trim(lines[j])
  {
    seq(|lines|, j requires 0 <= j < |lines| => Trim(lines[j]))
  }

  /** The number of leading ASCII digits of `s`. */
  function DigitRun(s: string): (n: nat)
    ensures n <= |s|
    ensures forall k :: 0 <= k < n ==> IsDigit(s[k])
    ensures n < |s| ==> !IsDigit(s[n])
  {
    if s != [] && IsDigit(s[0]) then 1 + DigitRun(s[1..]) else 0
  }

  /** `^\d+\.` matches `line` with the digit run ending just before `k`. */
  predicate MarkerEndsAt(line: string, k: int)
  {
    1 <= k < |line| && line[k] == '.' && forall i :: 0 <= i < k ==> IsDigit(line[i])
  }

  /** `line.length > 0 && /^\d+\./.test(line)`. */
  predicate IsNumbered(line: string)
  {
    var n := DigitRun(line);
    0 < n < |line| && line[n] == '.'
  }

  /** The regular expression's backtracking finds a match exactly when the
      greedy digit run is followed by a period; the match is then unique. */
  lemma NumberedIffMarker(line: string)
    ensures IsNumbered(line) <==> exists k :: MarkerEndsAt(line, k)
    ensures forall k :: MarkerEndsAt(line, k) ==> k == DigitRun(line)
  {
    var n := DigitRun(line);
    if IsNumbered(line) {
      assert MarkerEndsAt(line, n);
    }
    forall k | MarkerEndsAt(line, k) ensures k == n {
    }
  }

  /** `.filter(...)`: keeps the numbered lines, in order. */
  function KeepNumbered(lines: seq<string>): (r: seq<string>)
    ensures |r| <= |lines|
    ensures forall j :: 0 <= j < |r| ==> IsNumbered(r[j]) && r[j] in lines
  {
    if lines == [] then []
    else (if IsNumbered(lines[0]) then [lines[0]] else []) + KeepNumbered(lines[1..])
  }

  // `line.replace(/^\d+\.\s*/, '')` on a numbered line.
  function StripMarker(line: string): string
    requires IsNumbered(line)
  {
    TrimStart(line[DigitRun(line) + 1..])
  }

  /** On a numbered line the replacement removes the digits, the period and
      all whitespace after them, and keeps the rest, which therefore does
      not start with whitespace. */
  lemma StripMarkerShape(line: string, k: nat, r: string)
    requires IsNumbered(line) && k == DigitRun(line) && r == StripMarker(line)
    ensures |r| < |line| - k
    ensures r == line[|line| - |r|..]
    ensures AllSpace(line[k + 1..|line| - |r|])
    ensures r == [] || !IsJsSpace(r[0])
  {
    TrimStartOfSuffix(line, k + 1, r);
  }

  // `.map((line) => line.replace(/^\d+\.\s*/, ''))`.
  function StripMarkers(lines: seq<string>): (r: seq<string>)
    requires forall j :: 0 <= j < |lines| ==> IsNumbered(lines[j])
    ensures |r| == |lines|
    ensures forall j :: 0 <= j < |lines| ==> r[j] == StripMarker(lines[j])
  {
    seq(|lines|, j requires 0 <= j < |lines| => StripMarker(lines[j]))
  }

  /** The chain after the split. */
  function Entries(lines: seq<string>): seq<string>
  {
    StripMarkers(KeepNumbered(TrimAll(lines)))
  }

  /** `parseSteps`. */
  function ParseSteps(input: string): seq<string>
  {
    Entries(SplitLines(input))
  }

  // ------------------------------------------------------------ properties

  lemma {:induction false} FirstNewlineConcat(a: string, t: string)
    ensures FirstNewline(a + t) ==
      if FirstNewline(a) < |a| then FirstNewline(a) else |a| + FirstNewline(t)
  {
    if a == [] {
      EmptyLeft(t);
    } else {
      ConsTail(a, t);
      FirstNewlineConcat(a[1..], t);
    }
  }

  /** The lines of two texts joined by a `\n`: the last line of the first
      text loses a final `\r` and is followed by the lines of the second. */
  function JoinedLines(la: seq<string>, lb: seq<string>): (r: seq<string>)
    requires |la| >= 1
    ensures |r| == |la| + |lb|
  {
    la[..|la| - 1] + [DropCr(la[|la| - 1])] + lb
  }

  /** Joining two texts with `\n` joins their lines. */
  lemma {:induction false} SplitLinesConcat(a: string, b: string)
    ensures SplitLines(a + "\n" + b) == JoinedLines(SplitLines(a), SplitLines(b))
    decreases |a|
  {
    var i := FirstNewline(a);
    assert FirstNewline(a + "\n" + b) == i by {
      Assoc(a, "\n", b);
      FirstNewlineConcat(a, "\n" + b);
    }
    if i == |a| {
      SplitLinesConcatLastLine(a, b);
    } else {
      SplitLinesConcat(a[i + 1..], b);
      SplitLinesConcatStep(a, b, i);
    }
  }

  lemma SplitLinesConcatLastLine(a: string, b: string)
    requires FirstNewline(a) == |a|
    requires FirstNewline(a + "\n" + b) == |a|
    ensures SplitLines(a + "\n" + b) == JoinedLines(SplitLines(a), SplitLines(b))
  {
    JoinParts(a, "\n", b);
    assert SplitLines(a) == [a];
    assert SplitLines(a + "\n" + b) == [DropCr(a)] + SplitLines(b);
  }

  lemma SplitLinesConcatStep(a: string, b: string, i: nat)
    requires i == FirstNewline(a) < |a|
    requires FirstNewline(a + "\n" + b) == i
    requires SplitLines(a[i + 1..] + "\n" + b) == JoinedLines(SplitLines(a[i + 1..]), SplitLines(b))
    ensures SplitLines(a + "\n" + b) == JoinedLines(SplitLines(a), SplitLines(b))
  {
    var s := a + "\n" + b;
    var a' := a[i + 1..];
    var h := DropCr(a[..i]);
    assert SplitLines(s) == [h] + SplitLines(a' + "\n" + b) by {
      TakeOfConcat(a, "\n" + b, i);
      DropOfConcat(a, "\n" + b, i + 1);
      Assoc(a, "\n", b);
      Assoc(a', "\n", b);
      SplitLinesUnfold(s, i);
    }
    assert SplitLines(a) == [h] + SplitLines(a') by {
      SplitLinesUnfold(a, i);
    }
    ConsJoinedLines(h, SplitLines(a'), SplitLines(b));
  }

  /** One step of the split: the first line, then the lines of the rest. */
  lemma SplitLinesUnfold(s: string, i: nat)
    requires i == FirstNewline(s) < |s|
    ensures SplitLines(s) == [DropCr(s[..i])] + SplitLines(s[i + 1..])
  {
  }

  lemma ConsJoinedLines(h: string, la: seq<string>, lb: seq<string>)
    requires |la| >= 1
    ensures [h] + JoinedLines(la, lb) == JoinedLines([h] + la, lb)
  {
    var x := DropCr(la[|la| - 1]);
    ConsInit(h, la);
    Assoc([h], la[..|la| - 1] + [x], lb);
    Assoc([h], la[..|la| - 1], [x]);
  }

  lemma TrimAllConcat(xs: seq<string>, ys: seq<string>)
    ensures TrimAll(xs + ys) == TrimAll(xs) + TrimAll(ys)
  {
    var l, r := TrimAll(xs + ys), TrimAll(xs) + TrimAll(ys);
    forall j | 0 <= j < |l| ensures l[j] == r[j] {
      if j < |xs| {
        assert (xs + ys)[j] == xs[j];
      } else {
        assert (xs + ys)[j] == ys[j - |xs|];
      }
    }
  }

  lemma {:induction false} KeepNumberedConcat(xs: seq<string>, ys: seq<string>)
    ensures KeepNumbered(xs + ys) == KeepNumbered(xs) + KeepNumbered(ys)
  {
    if xs == [] {
      EmptyLeft(ys);
      EmptyLeft(KeepNumbered(ys));
    } else {
      var h := if IsNumbered(xs[0]) then [xs[0]] else [];
      calc {
        KeepNumbered(xs + ys);
        == { ConsTail(xs, ys); }
        h + KeepNumbered(xs[1..] + ys);
        == { KeepNumberedConcat(xs[1..], ys); }
        h + (KeepNumbered(xs[1..]) + KeepNumbered(ys));
        == { Assoc(h, KeepNumbered(xs[1..]), KeepNumbered(ys)); }
        h + KeepNumbered(xs[1..]) + KeepNumbered(ys);
      }
    }
  }

  lemma StripMarkersConcat(xs: seq<string>, ys: seq<string>)
    requires forall j :: 0 <= j < |xs| ==> IsNumbered(xs[j])
    requires forall j :: 0 <= j < |ys| ==> IsNumbered(ys[j])
    ensures StripMarkers(xs + ys) == StripMarkers(xs) + StripMarkers(ys)
  {
    AllNumberedConcat(xs, ys);
    var l, sx, sy := StripMarkers(xs + ys), StripMarkers(xs), StripMarkers(ys);
    var r := sx + sy;
    forall j | 0 <= j < |l| ensures l[j] == r[j] {
      if j < |xs| {
        assert (xs + ys)[j] == xs[j] && r[j] == sx[j];
      } else {
        assert (xs + ys)[j] == ys[j - |xs|] && r[j] == sy[j - |xs|];
      }
    }
  }

  lemma AllNumberedConcat(xs: seq<string>, ys: seq<string>)
    requires forall j :: 0 <= j < |xs| ==> IsNumbered(xs[j])
    requires forall j :: 0 <= j < |ys| ==> IsNumbered(ys[j])
    ensures forall j :: 0 <= j < |xs + ys| ==> IsNumbered((xs + ys)[j])
  {
    forall j | 0 <= j < |xs + ys| ensures IsNumbered((xs + ys)[j]) {
      if j < |xs| {
        assert (xs + ys)[j] == xs[j];
      } else {
        assert (xs + ys)[j] == ys[j - |xs|];
      }
    }
  }

  /** The chain treats each line on its own and keeps their order. */
  lemma EntriesConcat(xs: seq<string>, ys: seq<string>)
    ensures Entries(xs + ys) == Entries(xs) + Entries(ys)
  {
    TrimAllConcat(xs, ys);
    KeepNumberedConcat(TrimAll(xs), TrimAll(ys));
    StripMarkersConcat(KeepNumbered(TrimAll(xs)), KeepNumbered(TrimAll(ys)));
  }

  /** What one line contributes: one entry if it is numbered once trimmed,
      none otherwise. */
  lemma EntriesSingle(line: string)
    ensures Entries([line]) ==
      if IsNumbered(Trim(line)) then [StripMarker(Trim(line))] else []
  {
    var t := Trim(line);
    Singleton(TrimAll([line]), t);
    assert KeepNumbered([t]) == if IsNumbered(t) then [t] else [] by {
      assert [t][1..] == [];
      EmptyRight(if IsNumbered(t) then [t] else []);
    }
    if IsNumbered(t) {
      Singleton(StripMarkers([t]), StripMarker(t));
    }
  }

  /** A line contributes the same with or without a final `\r`. */
  lemma DropCrSameEntries(line: string)
    ensures Entries([DropCr(line)]) == Entries([line])
  {
    if |line| > 0 && line[|line| - 1] == '\r' {
      assert line == DropCr(line) + "\r";
      TrimAppendSpace(DropCr(line), "\r");
    }
    EntriesSingle(line);
    EntriesSingle(DropCr(line));
  }

  /** Order and locality: the entries of two texts joined by a newline are
      the entries of the first followed by those of the second. */
  lemma ParseStepsConcat(a: string, b: string)
    ensures ParseSteps(a + "\n" + b) == ParseSteps(a) + ParseSteps(b)
  {
    var la, lb := SplitLines(a), SplitLines(b);
    SplitLinesConcat(a, b);
    InitLast(la);
    JoinedEntries(la[..|la| - 1], la[|la| - 1], lb);
  }

  lemma JoinedEntries(init: seq<string>, last: string, lb: seq<string>)
    ensures Entries(init + [DropCr(last)] + lb) == Entries(init + [last]) + Entries(lb)
  {
    calc {
      Entries(init + [DropCr(last)] + lb);
      == { EntriesConcat(init + [DropCr(last)], lb); }
      Entries(init + [DropCr(last)]) + Entries(lb);
      == { EntriesConcat(init, [DropCr(last)]); DropCrSameEntries(last); EntriesConcat(init, [last]); }
      Entries(init + [last]) + Entries(lb);
    }
  }

  /** A single line yields one entry exactly when, trimmed, it starts with
      digits and a period, and the entry is the trimmed line without that
      marker and the whitespace after it. */
  lemma ParseStepsLine(line: string)
    requires '\n' !in line
    ensures ParseSteps(line) ==
      if IsNumbered(Trim(line)) then [StripMarker(Trim(line))] else []
  {
    assert FirstNewline(line) == |line|;
    EntriesSingle(line);
  }

  /** At most one entry per line. */
  lemma ParseStepsBound(input: string)
    ensures |ParseSteps(input)| <= |SplitLines(input)|
  {
  }

  /** The same text with every `\n` written as `\r\n`. */
  function WithCrLf(s: string): (r: string)
    ensures |r| >= |s|
    ensures FirstNewline(s) == |s| ==> r == s
    decreases |s|
  {
    var i := FirstNewline(s);
    if i == |s| then s else s[..i] + "\r" + "\n" + WithCrLf(s[i + 1..])
  }

  /** Line endings do not matter: a text with `\r\n` endings yields the
      same entries as with `\n` endings. */
  lemma {:induction false} CrLfSameSteps(s: string)
    ensures ParseSteps(WithCrLf(s)) == ParseSteps(s)
    decreases |s|
  {
    var i := FirstNewline(s);
    if i < |s| {
      var a, b := s[..i], s[i + 1..];
      CrLfUnfold(s, i);
      CrLfSameSteps(b);
      ParseStepsConcat(a + "\r", WithCrLf(b));
      ParseStepsConcat(a, b);
      CrSameSteps(a);
    }
  }

  lemma CrLfUnfold(s: string, i: nat)
    requires i == FirstNewline(s) < |s|
    ensures s == s[..i] + "\n" + s[i + 1..]
    ensures WithCrLf(s) == s[..i] + "\r" + "\n" + WithCrLf(s[i + 1..])
  {
    SplitAround(s, i);
    assert [s[i]] == "\n";
  }

  lemma SplitAround<T>(s: seq<T>, i: nat)
    requires i < |s|
    ensures s == s[..i] + [s[i]] + s[i + 1..]
  {
  }

  /** A line ending in `\r` yields what it yields without it. */
  lemma CrSameSteps(line: string)
    requires '\n' !in line
    ensures ParseSteps(line + "\r") == ParseSteps(line)
  {
    calc {
      ParseSteps(line + "\r");
      == { assert '\n' !in line + "\r"; ParseStepsLine(line + "\r"); }
      if IsNumbered(Trim(line + "\r")) then [StripMarker(Trim(line + "\r"))] else [];
      == { TrimAppendSpace(line, "\r"); }
      if IsNumbered(Trim(line)) then [StripMarker(Trim(line))] else [];
      == { ParseStepsLine(line); }
      ParseSteps(line);
    }
  }

  /** The digit run of `d + x` is `d` when `d` is all digits and `x` does
      not start with one. */
  lemma {:induction false} DigitRunPrefix(d: string, x: string)
    requires forall k :: 0 <= k < |d| ==> IsDigit(d[k])
    requires x == [] || !IsDigit(x[0])
    ensures DigitRun(d + x) == |d|
  {
    if d != [] {
      assert (d + x)[1..] == d[1..] + x;
      DigitRunPrefix(d[1..], x);
    } else {
      assert d + x == x;
    }
  }

  /** `StripMarker` cut by its parts: digits, a period, whitespace, and a
      rest that does not start with whitespace, which is what remains. */
  lemma StripMarkerParts(d: string, gap: string, t: string)
    requires d != [] && forall k :: 0 <= k < |d| ==> IsDigit(d[k])
    requires AllSpace(gap) && (t == [] || !IsJsSpace(t[0]))
    ensures IsNumbered(d + "." + gap + t)
    ensures StripMarker(d + "." + gap + t) == t
  {
    Assoc(d + ".", gap, t);
    MarkerOf(d, gap + t);
    TrimStartAfterSpace(gap, t);
  }

  /** Digits and a period open a numbered line whatever follows them; the
      marker ends at the period. */
  lemma MarkerOf(d: string, rest: string)
    requires d != [] && forall k :: 0 <= k < |d| ==> IsDigit(d[k])
    ensures DigitRun(d + "." + rest) == |d|
    ensures IsNumbered(d + "." + rest)
    ensures (d + "." + rest)[|d| + 1..] == rest
  {
    Assoc(d, ".", rest);
    DigitRunPrefix(d, "." + rest);
    assert (d + ("." + rest))[|d|] == '.';
  }

  lemma TrimStartAfterSpace(gap: string, t: string)
    requires AllSpace(gap) && (t == [] || !IsJsSpace(t[0]))
    ensures TrimStart(gap + t) == t
  {
    TrimStartDropsSpace(gap, t);
  }

  lemma NumberedLineHasNoNewline(d: string, gap: string, t: string)
    requires forall k :: 0 <= k < |d| ==> IsDigit(d[k])
    requires '\n' !in gap && '\n' !in t
    ensures '\n' !in d + "." + gap + t
  {
    assert forall c :: c in d ==> IsDigit(c);
  }

  /** A trimmed numbered line yields the single entry after its marker. */
  lemma ParseStepsNumberedLine(d: string, gap: string, t: string)
    requires d != [] && forall k :: 0 <= k < |d| ==> IsDigit(d[k])
    requires AllSpace(gap) && t != [] && IsTrimmed(t)
    requires '\n' !in gap && '\n' !in t
    ensures ParseSteps(d + "." + gap + t) == [t]
  {
    var line := d + "." + gap + t;
    assert IsTrimmed(line) by {
      assert line[0] == d[0];
      assert line[|line| - 1] == t[|t| - 1];
    }
    assert '\n' !in line by {
      NumberedLineHasNoNewline(d, gap, t);
    }
    assert IsNumbered(line) && StripMarker(line) == t by {
      StripMarkerParts(d, gap, t);
    }
    ParseStepsCleanLine(line);
  }

  lemma ParseStepsCleanLine(line: string)
    requires '\n' !in line && IsTrimmed(line) && IsNumbered(line)
    ensures ParseSteps(line) == [StripMarker(line)]
  {
    TrimTrimmed(line);
    ParseStepsLine(line);
  }

  /** A nonempty line with no newline and no whitespace at either end. */
  predicate IsPlainText(w: string)
  {
    w != [] && IsTrimmed(w) && '\n' !in w
  }

  /** The shape of a typical reply: numbered lines with a line of other
      text among them. Each numbered line gives its text, in order, and the
      other line gives nothing. */
  lemma NumberedListWithInterruption(w1: string, w2: string, other: string, w3: string)
    requires IsPlainText(w1) && IsPlainText(w2) && IsPlainText(w3)
    requires '\n' !in other && IsTrimmed(other) && (other == [] || !IsDigit(other[0]))
    ensures ParseSteps(("1. " + w1) + "\n" + ("2. " + w2) + "\n" + other + "\n" + ("3. " + w3))
      == [w1, w2, w3]
  {
    FirstSecondThird(w1, w2, w3);
    ParseStepsUnnumberedLine(other);
    FourLines("1. " + w1, "2. " + w2, other, "3. " + w3);
    ThreeSingletons(w1, w2, w3);
  }

  /** The typical reply written out: `"1. First\n2. Second\nNot numbered\n3. Third"`
      gives `["First", "Second", "Third"]`. */
  lemma HeadlineExample(input: string, w1: string, w2: string, other: string, w3: string)
    requires w1 == "First" && w2 == "Second" && other == "Not numbered" && w3 == "Third"
    requires input == "1. First\n2. Second\nNot numbered\n3. Third"
    ensures ParseSteps(input) == ["First", "Second", "Third"]
  {
    HeadlineText(input, w1, w2, other, w3);
    HeadlineWords(w1, w2, other, w3);
    NumberedListWithInterruption(w1, w2, other, w3);
  }

  lemma HeadlineText(input: string, w1: string, w2: string, other: string, w3: string)
    requires w1 == "First" && w2 == "Second" && other == "Not numbered" && w3 == "Third"
    requires input == "1. First\n2. Second\nNot numbered\n3. Third"
    ensures input == ("1. " + w1) + "\n" + ("2. " + w2) + "\n" + other + "\n" + ("3. " + w3)
  {
    var front, back := ("1. " + w1) + "\n" + ("2. " + w2), "3. " + w3;
    HeadlineFront(w1, w2, front);
    HeadlineBack(other, w3, other + "\n" + back);
    HeadlineJoin(input, front, other + "\n" + back);
    Assoc(front + "\n", other, "\n");
    Assoc(front + "\n" + other, "\n", back);
    Assoc(front + "\n", other, "\n" + back);
    Assoc(front, "\n", other + "\n" + back);
    Assoc(other, "\n", back);
  }

  lemma HeadlineFront(w1: string, w2: string, front: string)
    requires w1 == "First" && w2 == "Second" && front == ("1. " + w1) + "\n" + ("2. " + w2)
    ensures front == "1. First\n2. Second"
  {
  }

  lemma HeadlineBack(other: string, w3: string, back: string)
    requires other == "Not numbered" && w3 == "Third" && back == other + "\n" + ("3. " + w3)
    ensures back == "Not numbered\n3. Third"
  {
  }

  lemma HeadlineJoin(input: string, front: string, back: string)
    requires front == "1. First\n2. Second" && back == "Not numbered\n3. Third"
    requires input == "1. First\n2. Second\nNot numbered\n3. Third"
    ensures input == front + "\n" + back
  {
  }

  lemma HeadlineWords(w1: string, w2: string, other: string, w3: string)
    requires w1 == "First" && w2 == "Second" && other == "Not numbered" && w3 == "Third"
    ensures IsPlainText(w1) && IsPlainText(w2) && IsPlainText(w3)
    ensures '\n' !in other && IsTrimmed(other) && !IsDigit(other[0])
  {
    PlainWord(w1);
    PlainWord(w2);
    PlainWord(w3);
    PlainWord(other);
  }

  /** Text that starts and ends with a word character and holds no newline. */
  lemma PlainWord(w: string)
    requires w != [] && IsWordChar(w[0]) && IsWordChar(w[|w| - 1]) && '\n' !in w
    ensures IsPlainText(w)
  {
    WordCharNotSpace(w[0]);
    WordCharNotSpace(w[|w| - 1]);
  }

  lemma WordCharNotSpace(c: char)
    requires IsWordChar(c)
    ensures !IsJsSpace(c)
  {
  }

  lemma FirstSecondThird(w1: string, w2: string, w3: string)
    requires IsPlainText(w1) && IsPlainText(w2) && IsPlainText(w3)
    ensures ParseSteps("1. " + w1) == [w1]
    ensures ParseSteps("2. " + w2) == [w2]
    ensures ParseSteps("3. " + w3) == [w3]
  {
    NumberedEntry("1. ", w1);
    NumberedEntry("2. ", w2);
    NumberedEntry("3. ", w3);
  }

  /** The entries of four lines joined by newlines. */
  lemma FourLines(l1: string, l2: string, l3: string, l4: string)
    ensures ParseSteps(l1 + "\n" + l2 + "\n" + l3 + "\n" + l4)
      == ParseSteps(l1) + ParseSteps(l2) + ParseSteps(l3) + ParseSteps(l4)
  {
    ParseStepsConcat(l1, l2);
    ParseStepsConcat(l1 + "\n" + l2, l3);
    ParseStepsConcat(l1 + "\n" + l2 + "\n" + l3, l4);
  }

  lemma ThreeSingletons<T>(a: T, b: T, c: T)
    ensures [a] + [b] + [] + [c] == [a, b, c]
  {
  }

  /** A line made of one digit, a period, a space and plain text. */
  lemma NumberedEntry(marker: string, word: string)
    requires |marker| == 3 && IsDigit(marker[0]) && marker[1] == '.' && marker[2] == ' '
    requires IsPlainText(word)
    ensures ParseSteps(marker + word) == [word]
  {
    assert marker + word == marker[..1] + "." + " " + word;
    ParseStepsNumberedLine(marker[..1], " ", word);
  }

  /** A trimmed line that does not start with a digit yields nothing. */
  lemma ParseStepsUnnumberedLine(line: string)
    requires '\n' !in line && IsTrimmed(line)
    requires line == [] || !IsDigit(line[0])
    ensures ParseSteps(line) == []
  {
    TrimTrimmed(line);
    ParseStepsLine(line);
  }

  /** No entry holds a newline or has whitespace at either end. */
  lemma EntriesAreClean(input: string)
    ensures forall j :: 0 <= j < |ParseSteps(input)| ==>
      '\n' !in ParseSteps(input)[j] && IsTrimmed(ParseSteps(input)[j])
  {
    LinesHaveNoNewline(input);
    EntriesOfCleanLines(SplitLines(input));
  }

  predicate AllClean(entries: seq<string>)
  {
    forall j :: 0 <= j < |entries| ==> '\n' !in entries[j] && IsTrimmed(entries[j])
  }

  lemma AllCleanConcat(xs: seq<string>, ys: seq<string>)
    requires AllClean(xs) && AllClean(ys)
    ensures AllClean(xs + ys)
  {
    forall j | 0 <= j < |xs + ys| ensures '\n' !in (xs + ys)[j] && IsTrimmed((xs + ys)[j]) {
      if j < |xs| { assert (xs + ys)[j] == xs[j]; } else { assert (xs + ys)[j] == ys[j - |xs|]; }
    }
  }

  predicate NoNewlines(lines: seq<string>)
  {
    forall j :: 0 <= j < |lines| ==> '\n' !in lines[j]
  }

  lemma {:induction false} EntriesOfCleanLines(lines: seq<string>)
    requires NoNewlines(lines)
    ensures AllClean(Entries(lines))
  {
    if lines != [] {
      var head, rest := lines[0], lines[1..];
      SingleLineEntriesClean(head);
      RestHasNoNewlines(lines);
      EntriesOfCleanLines(rest);
      assert lines == [head] + rest;
      EntriesConcat([head], rest);
      AllCleanConcat(Entries([head]), Entries(rest));
    }
  }

  lemma RestHasNoNewlines(lines: seq<string>)
    requires lines != [] && NoNewlines(lines)
    ensures '\n' !in lines[0] && NoNewlines(lines[1..])
  {
    forall j | 0 <= j < |lines[1..]| ensures '\n' !in lines[1..][j] {
      assert lines[1..][j] == lines[j + 1];
    }
  }

  lemma SingleLineEntriesClean(line: string)
    requires '\n' !in line
    ensures AllClean(Entries([line]))
  {
    EntriesSingle(line);
    SingleEntryClean(line, Entries([line]));
  }

  lemma SingleEntryClean(line: string, es: seq<string>)
    requires '\n' !in line
    requires es == if IsNumbered(Trim(line)) then [StripMarker(Trim(line))] else []
    ensures AllClean(es)
  {
    if IsNumbered(Trim(line)) {
      var e := StripMarker(Trim(line));
      StrippedLineIsClean(line);
      OneClean(e, es);
    }
  }

  lemma OneClean(e: string, es: seq<string>)
    requires '\n' !in e && IsTrimmed(e) && es == [e]
    ensures AllClean(es)
  {
  }

  lemma StrippedLineIsClean(line: string)
    requires '\n' !in line && IsNumbered(Trim(line))
    ensures '\n' !in StripMarker(Trim(line)) && IsTrimmed(StripMarker(Trim(line)))
  {
    var t := Trim(line);
    var e := StripMarker(t);
    StripMarkerShape(t, DigitRun(t), e);
    forall c | c in e ensures c != '\n' {
      assert c in t;
      TrimKeepsCharacters(line, c);
    }
    if e != [] {
      assert e[|e| - 1] == t[|t| - 1];
    }
  }

  /** Text without a numbered line, the empty text among them, yields no
      entry. */
  lemma NoNumberedLineNoEntry(input: string)
    requires forall j :: 0 <= j < |SplitLines(input)| ==> !IsNumbered(Trim(SplitLines(input)[j]))
    ensures ParseSteps(input) == []
  {
    var trimmed := TrimAll(SplitLines(input));
    KeepNumberedNone(trimmed);
  }

  lemma {:induction false} KeepNumberedNone(xs: seq<string>)
    requires forall j :: 0 <= j < |xs| ==> !IsNumbered(xs[j])
    ensures KeepNumbered(xs) == []
  {
    if xs != [] {
      assert !IsNumbered(xs[0]);
      KeepNumberedNone(xs[1..]);
    }
  }

  lemma EmptyInputNoEntry()
    ensures ParseSteps("") == []
  {
    assert SplitLines("") == [""];
    EntriesSingle("");
  }
}
