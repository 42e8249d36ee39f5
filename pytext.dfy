/** The small optional-value type used wherever the script returns `None`. */
module Options {
  datatype Option<T> = None | Some(value: T)
}

/**
 * The Python `str` builtins the script relies on: `isspace`/`\s`, `isdigit`/`\d`,
 * `strip()`, the substring test `in`, and `splitlines()`.
 */
module PyText {

  /** The characters Python's `str.isspace()` and the regex class `\s` accept. */
  predicate IsSpace(c: char)
  {
    c == '\t' || c == '\n' || c == '\U{B}' || c == '\U{C}' || c == '\r'
    || ('\U{1C}' <= c <= '\U{1F}') || c == ' ' || c == '\U{85}' || c == '\U{A0}'
    || c == '\U{1680}' || ('\U{2000}' <= c <= '\U{200A}') || c == '\U{2028}'
    || c == '\U{2029}' || c == '\U{202F}' || c == '\U{205F}' || c == '\U{3000}'
  }

  /** The characters at which `str.splitlines()` ends a line (`\r\n` counts as one break). */
  predicate IsLineBoundary(c: char)
  {
    c == '\n' || c == '\r' || c == '\U{B}' || c == '\U{C}' || c == '\U{1C}'
    || c == '\U{1D}' || c == '\U{1E}' || c == '\U{85}' || c == '\U{2028}' || c == '\U{2029}'
  }

  /** A decimal digit (ASCII only; see README). */
  predicate IsDigit(c: char)
  {
    '0' <= c <= '9'
  }

  predicate AllDigits(s: string)
  {
    forall i :: 0 <= i < |s| ==> IsDigit(s[i])
  }

  /** `s.isdigit()`: non-empty and every character a digit. */
  predicate IsDigitString(s: string)
  {
    s != [] && AllDigits(s)
  }

  /** `s.lstrip()` */
  function LStrip(s: string): (r: string)
    ensures |r| <= |s| && r == s[|s| - |r|..]
    ensures forall i :: 0 <= i < |s| - |r| ==> IsSpace(s[i])
    ensures r == [] || !IsSpace(r[0])
    decreases |s|
  {
    if s != [] && IsSpace(s[0]) then LStrip(s[1..]) else s
  }

  /** `s.rstrip()` */
  function RStrip(s: string): (r: string)
    ensures |r| <= |s| && r == s[..|r|]
    ensures forall i :: |r| <= i < |s| ==> IsSpace(s[i])
    ensures r == [] || !IsSpace(r[|r| - 1])
    decreases |s|
  {
    if s != [] && IsSpace(s[|s| - 1]) then RStrip(s[..|s| - 1]) else s
  }

  /** `r` is the slice of `s` starting at `a`, and everything cut off on either side is whitespace. */
  predicate StripCut(s: string, r: string, a: nat)
  {
    a + |r| <= |s| && r == s[a..a + |r|]
    && (forall i :: 0 <= i < a ==> IsSpace(s[i]))
    && (forall i :: a + |r| <= i < |s| ==> IsSpace(s[i]))
  }

  /** `s.strip()`: the slice of `s` left after dropping whitespace at both ends. */
  function Strip(s: string): (r: string)
    ensures exists a: nat :: StripCut(s, r, a)
    ensures r == [] || (!IsSpace(r[0]) && !IsSpace(r[|r| - 1]))
  {
    CutOfStrips(s, LStrip(s), RStrip(LStrip(s)));
    RStrip(LStrip(s))
  }

  /** Cutting whitespace off the front and then off the back leaves a slice cut as `strip()` does. */
  lemma CutOfStrips(s: string, l: string, r: string)
    requires |l| <= |s| && l == s[|s| - |l|..] && forall i :: 0 <= i < |s| - |l| ==> IsSpace(s[i])
    requires |r| <= |l| && r == l[..|r|] && forall i :: |r| <= i < |l| ==> IsSpace(l[i])
    ensures StripCut(s, r, |s| - |l|)
  {
    var a := |s| - |l|;
    SliceOfSuffix(s, l, r, a);
  }

  /** A prefix `r` of the suffix `l` of `s` that starts at `a` is a slice of `s`. */
  lemma SliceOfSuffix(s: string, l: string, r: string, a: nat)
    requires a <= |s| && l == s[a..] && |r| <= |l| && r == l[..|r|]
    ensures a + |r| <= |s| && r == s[a..a + |r|]
    ensures forall i :: a + |r| <= i < |s| ==> s[i] == l[i - a]
  {
  }

  /** A string with no whitespace at either end is its own `strip()`. */
  lemma StripOfStripped(s: string)
    requires s == [] || (!IsSpace(s[0]) && !IsSpace(s[|s| - 1]))
    ensures Strip(s) == s
  {
  }

  /** `key` occurs in `text` starting at index `i`. */
  predicate OccursAt(text: string, key: string, i: nat)
  {
    i + |key| <= |text| && text[i..i + |key|] == key
  }

  /** Python's substring test `key in text` (the empty key occurs everywhere). */
  function Contains(text: string, key: string): (r: bool)
    ensures key <= text ==> r
    ensures r ==> |key| <= |text|
    decreases |text|
  {
    if key <= text then true
    else if text == [] then false
    else Contains(text[1..], key)
  }

  /** An occurrence at any index makes `Contains` true. */
  lemma {:induction false} ContainsAt(text: string, key: string, i: nat)
    requires OccursAt(text, key, i)
    ensures Contains(text, key)
    decreases i
  {
    if i == 0 {
      assert key <= text;
    } else if !(key <= text) {
      assert OccursAt(text[1..], key, i - 1);
      ContainsAt(text[1..], key, i - 1);
    }
  }

  /** When `Contains` holds, some occurrence exists. */
  lemma {:induction false} ContainsWitness(text: string, key: string) returns (i: nat)
    requires Contains(text, key)
    ensures OccursAt(text, key, i)
    decreases |text|
  {
    if key <= text {
      i := 0;
    } else {
      var j := ContainsWitness(text[1..], key);
      i := j + 1;
      assert text[i..i + |key|] == text[1..][j..j + |key|];
    }
  }

  /** `Contains` is exactly "occurs at some index". */
  lemma ContainsIff(text: string, key: string)
    ensures Contains(text, key) <==> exists i: nat :: OccursAt(text, key, i)
  {
    if Contains(text, key) {
      var i := ContainsWitness(text, key);
    } else {
      forall i: nat ensures !OccursAt(text, key, i) {
        if OccursAt(text, key, i) {
          ContainsAt(text, key, i);
        }
      }
    }
  }

  /**
   * `text.splitlines()`: the lines of `text` without their line breaks; a break at the very
   * end does not start another line, and `\r\n` is a single break.
   */
  function SplitLines(text: string): (lines: seq<string>)
    decreases |text|
  {
    if text == [] then []
    else
      var i := FirstBoundary(text, 0);
      if i == |text| then [text]
      else [text[..i]] + SplitLines(text[i + BreakWidth(text, i)..])
  }

  /** The index of the first line boundary at or after `from`, or `|text|` if there is none. */
  function FirstBoundary(text: string, from: nat): (i: nat)
    requires from <= |text|
    ensures from <= i <= |text|
    ensures i < |text| ==> IsLineBoundary(text[i])
    ensures forall j :: from <= j < i ==> !IsLineBoundary(text[j])
    decreases |text| - from
  {
    if from == |text| || IsLineBoundary(text[from]) then from else FirstBoundary(text, from + 1)
  }

  /** How many characters the line break at `i` takes: two for `\r\n`, otherwise one. */
  function BreakWidth(text: string, i: nat): (w: nat)
    requires i < |text|
    ensures 1 <= w <= 2 && i + w <= |text|
  {
    if text[i] == '\r' && i + 1 < |text| && text[i + 1] == '\n' then 2 else 1
  }

  /** No line of `text.splitlines()` contains a line boundary. */
  lemma {:induction false} SplitLinesHaveNoBreaks(text: string)
    ensures forall l, j :: l in SplitLines(text) && 0 <= j < |l| ==> !IsLineBoundary(l[j])
    decreases |text|
  {
    if text != [] {
      var i := FirstBoundary(text, 0);
      if i < |text| {
        SplitLinesHaveNoBreaks(text[i + BreakWidth(text, i)..]);
      }
    }
  }

  /** The text ends with a line break, or is empty: appending starts a fresh line. */
  predicate EndsWithBreak(text: string)
  {
    text == [] || IsLineBoundary(text[|text| - 1])
  }

  /** The first boundary at or after `from` is `k` when `k` is one and nothing before it is. */
  lemma FirstBoundaryIs(text: string, from: nat, k: nat)
    requires from <= k <= |text|
    requires k == |text| || IsLineBoundary(text[k])
    requires forall j :: from <= j < k ==> !IsLineBoundary(text[j])
    ensures FirstBoundary(text, from) == k
  {
  }

  /** One step of `splitlines()` when the text holds a break. */
  lemma SplitLinesStep(text: string, i: nat)
    requires i < |text| && i == FirstBoundary(text, 0)
    ensures SplitLines(text) == [text[..i]] + SplitLines(text[i + BreakWidth(text, i)..])
  {
  }

  lemma FirstBoundaryOfConcat(t: string, u: string, from: nat)
    requires from <= |t|
    requires FirstBoundary(t, from) < |t|
    ensures FirstBoundary(t + u, from) == FirstBoundary(t, from)
    decreases |t| - from
  {
    if !IsLineBoundary(t[from]) {
      FirstBoundaryOfConcat(t, u, from + 1);
    }
  }

  /** The first line of `t + u` is that of `t` when `t` holds a break. */
  lemma SplitLinesStepOfConcat(t: string, u: string, i: nat)
    requires i < |t| && i == FirstBoundary(t, 0)
    requires i + 1 < |t| || u == [] || u[0] != '\n'
    ensures SplitLines(t + u) == [t[..i]] + SplitLines(t[i + BreakWidth(t, i)..] + u)
  {
    var tu := t + u;
    FirstBoundaryOfConcat(t, u, 0);
    var w := BreakWidth(t, i);
    assert BreakWidth(tu, i) == w;
    assert tu[..i] == t[..i];
    assert tu[i + w..] == t[i + w..] + u;
    SplitLinesStep(tu, i);
  }

  /**
   * One step of splitting `t + u` where `t` ends with a break: both `t` and `t + u` give up
   * the same first line, and what is left of `t` still ends with a break.
   */
  lemma ConcatStep(t: string, u: string) returns (line: string, rest: string)
    requires t != [] && EndsWithBreak(t)
    requires u == [] || u[0] != '\n'
    ensures |rest| < |t| && EndsWithBreak(rest)
    ensures SplitLines(t) == [line] + SplitLines(rest)
    ensures SplitLines(t + u) == [line] + SplitLines(rest + u)
  {
    var i := FirstBoundary(t, 0);
    line, rest := t[..i], t[i + BreakWidth(t, i)..];
    assert SplitLines(t) == [line] + SplitLines(rest) by {
      SplitLinesStep(t, i);
    }
    assert SplitLines(t + u) == [line] + SplitLines(rest + u) by {
      SplitLinesStepOfConcat(t, u, i);
    }
    if rest != [] {
      assert rest[|rest| - 1] == t[|t| - 1];
    }
  }

  /**
   * Splitting a text that ends with a break, followed by more text that does not start
   * with `\n` (which would merge with a final `\r`), splits the two parts independently.
   */
  lemma {:induction false} SplitLinesOfConcat(t: string, u: string)
    requires EndsWithBreak(t)
    requires u == [] || u[0] != '\n'
    ensures SplitLines(t + u) == SplitLines(t) + SplitLines(u)
    decreases |t|
  {
    if t == [] {
      assert t + u == u;
    } else {
      var line, rest := ConcatStep(t, u);
      SplitLinesOfConcat(rest, u);
      Regroup([line], SplitLines(rest), SplitLines(u), SplitLines(t + u), SplitLines(t));
    }
  }

  /** Regrouping `first + (a + b)` as `(first + a) + b`, with the parts named. */
  lemma Regroup<T>(first: seq<T>, a: seq<T>, b: seq<T>, x: seq<T>, y: seq<T>)
    requires x == first + (a + b) && y == first + a
    ensures x == y + b
  {
  }

  /** A line with no break characters, followed by `\n`, splits into exactly that line. */
  lemma SplitLinesOfOneLine(l: string)
    requires forall j :: 0 <= j < |l| ==> !IsLineBoundary(l[j])
    ensures SplitLines(l + "\n") == [l]
  {
    var t := l + "\n";
    FirstBoundaryIs(t, 0, |l|);
    SplitLinesStep(t, |l|);
    assert t[..|l|] == l;
    assert t[|l| + 1..] == [];
  }

  /** One step of splitting an unterminated text that still holds a break, with and without a final `\n`. */
  lemma TerminatedStep(t: string) returns (line: string, rest: string)
    requires !EndsWithBreak(t) && FirstBoundary(t, 0) < |t|
    ensures |rest| < |t| && !EndsWithBreak(rest)
    ensures SplitLines(t) == [line] + SplitLines(rest)
    ensures SplitLines(t + "\n") == [line] + SplitLines(rest + "\n")
  {
    var i := FirstBoundary(t, 0);
    var w := BreakWidth(t, i);
    assert i + w < |t| by {
      assert IsLineBoundary(t[i]);
      assert w == 2 ==> IsLineBoundary(t[i + 1]);
    }
    line, rest := t[..i], t[i + w..];
    assert SplitLines(t) == [line] + SplitLines(rest) by {
      SplitLinesStep(t, i);
    }
    assert SplitLines(t + "\n") == [line] + SplitLines(rest + "\n") by {
      SplitLinesStepOfConcat(t, "\n", i);
    }
    assert rest[|rest| - 1] == t[|t| - 1];
  }

  /** Terminating an unterminated last line with `\n` does not change the lines. */
  lemma {:induction false} SplitLinesOfTerminated(t: string)
    requires !EndsWithBreak(t)
    ensures SplitLines(t + "\n") == SplitLines(t)
    decreases |t|
  {
    if FirstBoundary(t, 0) == |t| {
      SplitLinesOfOneLine(t);
    } else {
      var line, rest := TerminatedStep(t);
      SplitLinesOfTerminated(rest);
    }
  }

  /**
   * Text with no line boundary, written after an unterminated last line, extends that line:
   * the other lines stay as they are.
   */
  lemma {:induction false} SplitLinesOfLonger(t: string, u: string)
    requires !EndsWithBreak(t)
    requires forall j :: 0 <= j < |u| ==> !IsLineBoundary(u[j])
    ensures var ls := SplitLines(t); ls != [] && SplitLines(t + u) == ls[..|ls| - 1] + [ls[|ls| - 1] + u]
    decreases |t|
  {
    if FirstBoundary(t, 0) == |t| {
      OneLineLonger(t, u);
    } else {
      var line, rest := LongerStep(t, u);
      SplitLinesOfLonger(rest, u);
      ExtendLast(line, SplitLines(rest), u, SplitLines(t), SplitLines(t + u), SplitLines(rest + u));
    }
  }

  /** A text without any boundary is one line, and stays one line when break-free text follows. */
  lemma OneLineLonger(t: string, u: string)
    requires t != [] && FirstBoundary(t, 0) == |t|
    requires forall j :: 0 <= j < |u| ==> !IsLineBoundary(u[j])
    ensures SplitLines(t) == [t] && SplitLines(t + u) == [t + u]
  {
    forall j | 0 <= j < |t + u| ensures !IsLineBoundary((t + u)[j]) {
      if j >= |t| {
        assert (t + u)[j] == u[j - |t|];
      }
    }
    FirstBoundaryIs(t + u, 0, |t + u|);
  }

  /** One step of splitting an unterminated text that holds a break, with more text after it. */
  lemma LongerStep(t: string, u: string) returns (line: string, rest: string)
    requires !EndsWithBreak(t) && FirstBoundary(t, 0) < |t|
    ensures |rest| < |t| && !EndsWithBreak(rest)
    ensures SplitLines(t) == [line] + SplitLines(rest)
    ensures SplitLines(t + u) == [line] + SplitLines(rest + u)
  {
    var i := FirstBoundary(t, 0);
    var w := BreakWidth(t, i);
    assert i + w < |t| by {
      assert IsLineBoundary(t[i]);
      assert w == 2 ==> IsLineBoundary(t[i + 1]);
    }
    line, rest := t[..i], t[i + w..];
    assert SplitLines(t) == [line] + SplitLines(rest) by {
      SplitLinesStep(t, i);
    }
    assert SplitLines(t + u) == [line] + SplitLines(rest + u) by {
      SplitLinesStepOfConcat(t, u, i);
    }
    assert rest[|rest| - 1] == t[|t| - 1];
  }

  /** Putting one line in front commutes with extending the last line. */
  lemma ExtendLast(line: string, ls: seq<string>, u: string, x: seq<string>, y: seq<string>, z: seq<string>)
    requires ls != [] && x == [line] + ls && y == [line] + z
    requires z == ls[..|ls| - 1] + [ls[|ls| - 1] + u]
    ensures x != [] && y == x[..|x| - 1] + [x[|x| - 1] + u]
  {
    assert x[..|x| - 1] == [line] + ls[..|ls| - 1];
  }
}
