/**
 * The done-key ledger `done_urls.txt` (save_naver_blog_category_to_pdf.py:45-65): a text
 * file with one key per line. Loading reads it back as a set of keys; appending adds one
 * key as a new line, or nothing when no key can be derived. The file is its text; a file
 * that does not exist is the empty text, which both operations treat the same way.
 */
module Ledger {
  import opened Options
  import opened PyText
  import opened PostKeys

  /** The key one ledger line contributes: the stripped line if it is all digits, else its URL key. */
  function LineKey(ln: string): (r: Option<string>)
    ensures r.Some? ==> IsDigitString(r.value)
    ensures Strip(ln) == [] ==> r.None?
    ensures IsDigitString(Strip(ln)) ==> r == Some(Strip(ln))
  {
    var s := Strip(ln);
    if s == [] then None
    else if AllDigits(s) then Some(s)
    else CanonicalKey(s)
  }

  function KeySet(o: Option<string>): set<string>
  {
    if o.Some? then {o.value} else {}
  }

  /** The keys that `key` finds in the lines, collected line by line. */
  function KeysOf(key: string -> Option<string>, lines: seq<string>): set<string>
  {
    if lines == [] then {} else KeysOf(key, lines[..|lines| - 1]) + KeySet(key(lines[|lines| - 1]))
  }

  /** Some line yields the key `k`. */
  predicate KeyFromSomeLine(key: string -> Option<string>, lines: seq<string>, k: string)
  {
    exists i :: 0 <= i < |lines| && key(lines[i]) == Some(k)
  }

  /** The keys collected from the lines are exactly the keys of the individual lines. */
  lemma {:induction false} KeysOfMembers(key: string -> Option<string>, lines: seq<string>, k: string)
    ensures k in KeysOf(key, lines) <==> KeyFromSomeLine(key, lines, k)
  {
    if lines != [] {
      var n := |lines| - 1;
      var init := lines[..n];
      KeysOfMembers(key, init, k);
      if KeyFromSomeLine(key, init, k) {
        var i :| 0 <= i < |init| && key(init[i]) == Some(k);
        assert lines[i] == init[i];
      }
      if KeyFromSomeLine(key, lines, k) {
        var i :| 0 <= i < |lines| && key(lines[i]) == Some(k);
        if i < n {
          assert init[i] == lines[i];
        }
      }
    }
  }

  /** Adding one line to the end adds that line's key. */
  lemma KeysOfSnoc(key: string -> Option<string>, lines: seq<string>, l: string)
    ensures KeysOf(key, lines + [l]) == KeysOf(key, lines) + KeySet(key(l))
  {
    assert (lines + [l])[..|lines|] == lines;
  }

  /** What `load_done_keys` returns for a ledger with text `text`. */
  function DoneKeys(text: string): (r: set<string>)
    ensures forall k :: k in r ==> IsDigitString(k)
  {
    LineKeysAreDigits(SplitLines(text));
    KeysOf(LineKey, SplitLines(text))
  }

  /** Every key a line yields is a run of digits, so every collected key is. */
  lemma {:induction false} LineKeysAreDigits(lines: seq<string>)
    ensures forall k :: k in KeysOf(LineKey, lines) ==> IsDigitString(k)
  {
    if lines != [] {
      LineKeysAreDigits(lines[..|lines| - 1]);
    }
  }

  /** A key is loaded exactly when some line of the ledger yields it. */
  lemma DoneKeysMembers(text: string, k: string)
    ensures k in DoneKeys(text) <==> KeyFromSomeLine(LineKey, SplitLines(text), k)
  {
    KeysOfMembers(LineKey, SplitLines(text), k);
  }

  /** `load_done_keys`: split the ledger into lines and collect the key of each. */
  method LoadDoneKeys(text: string) returns (keys: set<string>)
    ensures keys == DoneKeys(text)
  {
    keys := CollectKeys(LineKey, SplitLines(text));
  }

  /** The loop of `load_done_keys`: walk the lines and add each key found. */
  method CollectKeys(key: string -> Option<string>, lines: seq<string>) returns (keys: set<string>)
    ensures keys == KeysOf(key, lines)
  {
    keys := {};
    var i := 0;
    while i < |lines|
      invariant 0 <= i <= |lines|
      invariant keys == KeysOf(key, lines[..i])
    {
      var k := key(lines[i]);
      KeysOfSnoc(key, lines[..i], lines[i]);
      assert lines[..i + 1] == lines[..i] + [lines[i]];
      if k.Some? {
        keys := keys + {k.value};
      }
      i := i + 1;
    }
    assert lines[..|lines|] == lines;
  }

  /** A key line yields that key. */
  lemma LineKeyOfKey(k: string)
    requires IsDigitString(k)
    ensures LineKey(k) == Some(k)
  {
    assert IsDigit(k[0]) && IsDigit(k[|k| - 1]);
    StripOfStripped(k);
  }

  /** The key `append_done_key` writes for its argument: the argument itself when all digits. */
  function AppendKeyOf(x: string): (r: Option<string>)
    ensures r.Some? ==> IsDigitString(r.value)
    ensures IsDigitString(x) ==> r == Some(x)
  {
    if IsDigitString(x) then Some(x) else CanonicalKey(x)
  }

  /**
   * `append_done_key` as written: `k + "\n"` goes straight after whatever the file ends with.
   * After a line break the key becomes a line of its own; after an unterminated last line it
   * is glued onto that line.
   */
  function AppendDoneKeyAsWritten(text: string, x: string): (r: string)
    ensures AppendKeyOf(x).None? ==> r == text
    ensures AppendKeyOf(x).Some? ==> |r| == |text| + |AppendKeyOf(x).value| + 1 && text <= r && EndsWithBreak(r)
    ensures AppendKeyOf(x).Some? && EndsWithBreak(text) ==> SplitLines(r) == SplitLines(text) + [AppendKeyOf(x).value]
    ensures AppendKeyOf(x).Some? && !EndsWithBreak(text) ==>
      var ls := SplitLines(text); ls != [] && SplitLines(r) == ls[..|ls| - 1] + [ls[|ls| - 1] + AppendKeyOf(x).value]
  {
    match AppendKeyOf(x)
    case None => text
    case Some(k) =>
      AsWrittenLines(text, k);
      text + k + "\n"
  }

  /** The lines of `text + k + "\n"` for a key `k`, whether or not `text` ends with a break. */
  lemma AsWrittenLines(text: string, k: string)
    requires IsDigitString(k)
    ensures EndsWithBreak(text + k + "\n")
    ensures EndsWithBreak(text) ==> SplitLines(text + k + "\n") == SplitLines(text) + [k]
    ensures !EndsWithBreak(text) ==>
      var ls := SplitLines(text); ls != [] && SplitLines(text + k + "\n") == ls[..|ls| - 1] + [ls[|ls| - 1] + k]
  {
    var r := text + k + "\n";
    assert r[|r| - 1] == '\n';
    if EndsWithBreak(text) {
      AppendedLine(text, k);
    } else {
      forall j | 0 <= j < |k| ensures !IsLineBoundary(k[j]) {
        assert IsDigit(k[j]);
      }
      SplitLinesOfLonger(text, k);
      assert !EndsWithBreak(text + k) by {
        assert (text + k)[|text + k| - 1] == k[|k| - 1];
        assert IsDigit(k[|k| - 1]);
      }
      SplitLinesOfTerminated(text + k);
    }
  }

  /** The text with its last line terminated, so that appended text starts a line of its own. */
  function Terminated(text: string): (r: string)
    ensures EndsWithBreak(r) && text <= r
    ensures SplitLines(r) == SplitLines(text)
  {
    if EndsWithBreak(text) then text
    else
      SplitLinesOfTerminated(text);
      text + "\n"
  }

  /**
   * `append_done_key`, corrected so that the key always lands on its own line: the lines of
   * the new text are the old lines followed by the key, and a missing key changes nothing.
   */
  function AppendDoneKey(text: string, x: string): (r: string)
    ensures AppendKeyOf(x).None? ==> r == text
    ensures AppendKeyOf(x).Some? ==> SplitLines(r) == SplitLines(text) + [AppendKeyOf(x).value]
  {
    match AppendKeyOf(x)
    case None => text
    case Some(k) =>
      AppendedLine(Terminated(text), k);
      Terminated(text) + k + "\n"
  }

  /** The file is opened for appending: the old text is kept as it was, in front. */
  lemma AppendKeepsText(text: string, x: string)
    ensures text <= AppendDoneKey(text, x)
    ensures text <= AppendDoneKeyAsWritten(text, x)
  {
  }

  /** Appending a key line to text that ends with a break adds exactly that line. */
  lemma AppendedLine(t: string, k: string)
    requires EndsWithBreak(t) && IsDigitString(k)
    ensures SplitLines(t + k + "\n") == SplitLines(t) + [k]
  {
    assert t + k + "\n" == t + (k + "\n");
    assert (k + "\n")[0] == k[0];
    SplitLinesOfConcat(t, k + "\n");
    SplitLinesOfOneLine(k);
  }

  /** Reloading after an append gives the old keys and the appended one. */
  lemma LoadAfterAppend(text: string, x: string)
    ensures DoneKeys(AppendDoneKey(text, x)) == DoneKeys(text) + KeySet(AppendKeyOf(x))
  {
    match AppendKeyOf(x)
    case None =>
    case Some(k) =>
      LineKeyOfKey(k);
      KeysOfKeyLine(LineKey, SplitLines(text), k);
  }

  /** Appending a key (a run of digits) adds it as the last line, and reloading then finds it. */
  lemma AppendKey(text: string, k: string)
    requires IsDigitString(k)
    ensures SplitLines(AppendDoneKey(text, k)) == SplitLines(text) + [k]
    ensures DoneKeys(AppendDoneKey(text, k)) == DoneKeys(text) + {k}
  {
    LoadAfterAppend(text, k);
  }

  /** Adding a line that is its own key adds that key. */
  lemma KeysOfKeyLine(key: string -> Option<string>, lines: seq<string>, k: string)
    requires key(k) == Some(k)
    ensures KeysOf(key, lines + [k]) == KeysOf(key, lines) + {k}
  {
    KeysOfSnoc(key, lines, k);
  }

  /** As written, the append is right whenever the ledger already ends with a line break. */
  lemma AsWrittenWhenTerminated(text: string, x: string)
    requires EndsWithBreak(text)
    ensures AppendDoneKeyAsWritten(text, x) == AppendDoneKey(text, x)
  {
  }

  /**
   * As written, a ledger whose last line is a key with no line break merges that line with
   * the appended key, so reloading finds one key that was never saved, where the corrected
   * append finds both.
   */
  lemma AsWrittenMergesKeys(a: string, b: string)
    requires IsDigitString(a) && IsDigitString(b)
    ensures AppendDoneKeyAsWritten(a, b) == a + b + "\n"
    ensures DoneKeys(a) == {a}
    ensures DoneKeys(AppendDoneKeyAsWritten(a, b)) == {a + b}
    ensures DoneKeys(AppendDoneKey(a, b)) == {a, b}
  {
    assert a + b + "\n" == (a + b) + "\n";
    assert IsDigitString(a + b) by {
      forall j | 0 <= j < |a + b| ensures IsDigit((a + b)[j]) {
        if j < |a| {
          assert (a + b)[j] == a[j];
        } else {
          assert (a + b)[j] == b[j - |a|];
        }
      }
    }
    DoneKeysOfKeyLine(a);
    DoneKeysOfKeyLine(a + b);
    LoadAfterAppend(a, b);
  }

  /** The smallest instance: `123` followed by the key `456` reloads as the single key `123456`. */
  lemma AsWrittenMergesLastLine()
    ensures DoneKeys(AppendDoneKeyAsWritten("123", "456")) == {"123456"}
    ensures DoneKeys(AppendDoneKey("123", "456")) == {"123", "456"}
  {
    var a, b := "123", "456";
    assert IsDigitString(a) && IsDigitString(b);
    assert a + b == "123456";
    AsWrittenMergesKeys(a, b);
  }

  /** A ledger holding one key, with or without a final line break, loads as that key. */
  lemma DoneKeysOfKeyLine(k: string)
    requires IsDigitString(k)
    ensures DoneKeys(k) == {k} && DoneKeys(k + "\n") == {k}
  {
    assert !EndsWithBreak(k) by {
      assert IsDigit(k[|k| - 1]);
    }
    forall j | 0 <= j < |k| ensures !IsLineBoundary(k[j]) {
      assert IsDigit(k[j]);
    }
    SplitLinesOfTerminated(k);
    SplitLinesOfOneLine(k);
    assert SplitLines(k) == [k];
    assert [] + [k] == [k];
    LineKeyOfKey(k);
    KeysOfKeyLine(LineKey, [], k);
  }
}
