/**
 * `safe_filename` (save_naver_blog_category_to_pdf.py:25-28): the page title becomes the
 * PDF's file name after forbidden characters are replaced, whitespace runs are collapsed,
 * the ends are stripped and the result is cut to 180 characters.
 */
module Filename {
  import opened PyText

  /** The longest name `safe_filename` returns, in characters. */
  const MaxLength: nat := 180

  /** The characters of the class `[\\/:*?"<>|]`. */
  predicate IsForbidden(c: char)
  {
    c == '\\' || c == '/' || c == ':' || c == '*' || c == '?' || c == '"' || c == '<' || c == '>' || c == '|'
  }

  /** `re.sub(r'[\\/:*?"<>|]', "_", s)` */
  function ReplaceForbidden(s: string): (r: string)
    ensures |r| == |s|
    ensures forall i :: 0 <= i < |s| ==> r[i] == (if IsForbidden(s[i]) then '_' else s[i])
  {
    if s == [] then [] else [if IsForbidden(s[0]) then '_' else s[0]] + ReplaceForbidden(s[1..])
  }

  /** Whitespace, if any, is single spaces: no other whitespace character and no two spaces in a row. */
  predicate SingleSpaced(s: string)
  {
    && (forall i :: 0 <= i < |s| && IsSpace(s[i]) ==> s[i] == ' ')
    && (forall i :: 0 <= i < |s| ==> !DoubleSpaceAt(s, i))
  }

  /** Two spaces in a row start at index `i`. */
  predicate DoubleSpaceAt(s: string, i: int)
  {
    0 <= i < |s| - 1 && s[i] == ' ' && s[i + 1] == ' '
  }

  predicate NoForbidden(s: string)
  {
    forall i :: 0 <= i < |s| ==> !IsForbidden(s[i])
  }

  /** Joining two strings without forbidden characters gives one without them. */
  lemma NoForbiddenConcat(a: string, b: string)
    requires NoForbidden(a) && NoForbidden(b)
    ensures NoForbidden(a + b)
  {
    forall i | 0 <= i < |a + b| ensures !IsForbidden((a + b)[i]) {
      if i < |a| {
        assert (a + b)[i] == a[i];
      } else {
        assert (a + b)[i] == b[i - |a|];
      }
    }
  }

  /** Adding the `.pdf` extension brings in no forbidden character. */
  lemma NoForbiddenWithPdf(s: string)
    requires NoForbidden(s)
    ensures NoForbidden(s + ".pdf")
  {
    assert NoForbidden(".pdf");
    NoForbiddenConcat(s, ".pdf");
  }

  /** A suffix of a string without forbidden characters has none either. */
  lemma NoForbiddenDrop(s: string, a: nat)
    requires a <= |s|
    ensures NoForbidden(s) ==> NoForbidden(s[a..])
  {
    if NoForbidden(s) {
      forall i | 0 <= i < |s| - a ensures !IsForbidden(s[a..][i]) {
        assert s[a..][i] == s[a + i];
      }
    }
  }

  lemma NoForbiddenCons(c: char, t: string)
    ensures NoForbidden([c] + t) <==> !IsForbidden(c) && NoForbidden(t)
  {
    if !IsForbidden(c) && NoForbidden(t) {
      forall i | 0 <= i < |[c] + t| ensures !IsForbidden(([c] + t)[i]) {
        if i > 0 {
          assert ([c] + t)[i] == t[i - 1];
        }
      }
    }
    if NoForbidden([c] + t) {
      assert ([c] + t)[0] == c;
      forall i | 0 <= i < |t| ensures !IsForbidden(t[i]) {
        assert t[i] == ([c] + t)[i + 1];
      }
    }
  }

  /** Putting one character in front of a single-spaced string keeps it single-spaced unless both are spaces. */
  lemma SingleSpacedCons(c: char, s: string)
    requires SingleSpaced(s)
    requires IsSpace(c) ==> c == ' '
    requires c == ' ' ==> s == [] || s[0] != ' '
    ensures SingleSpaced([c] + s)
  {
    var r := [c] + s;
    forall i | 0 <= i < |r| ensures !DoubleSpaceAt(r, i) {
      if i > 0 {
        assert r[i] == s[i - 1] && (i + 1 < |r| ==> r[i + 1] == s[i]);
        assert !DoubleSpaceAt(s, i - 1);
      }
    }
  }

  /** Any slice of a single-spaced string without forbidden characters is one too. */
  lemma SliceKeepsShape(s: string, a: nat, b: nat)
    requires a <= b <= |s|
    requires SingleSpaced(s) && NoForbidden(s)
    ensures SingleSpaced(s[a..b]) && NoForbidden(s[a..b])
  {
    var r := s[a..b];
    forall i | 0 <= i < |r| ensures !DoubleSpaceAt(r, i) {
      assert r[i] == s[a + i] && (i + 1 < |r| ==> r[i + 1] == s[a + i + 1]);
      assert !DoubleSpaceAt(s, a + i);
    }
  }

  /** Stripping and truncating keep a string single-spaced and free of forbidden characters. */
  lemma StripTruncateKeepShape(s: string)
    requires SingleSpaced(s) && NoForbidden(s)
    ensures var r := Truncate(Strip(s)); SingleSpaced(r) && NoForbidden(r) && (r == [] || !IsSpace(r[0]))
  {
    StripKeepsShape(s);
    TruncateKeepsShape(Strip(s));
  }

  lemma StripKeepsShape(s: string)
    requires SingleSpaced(s) && NoForbidden(s)
    ensures SingleSpaced(Strip(s)) && NoForbidden(Strip(s))
  {
    var l := LStrip(s);
    assert SingleSpaced(l) && NoForbidden(l) by {
      SliceKeepsShape(s, |s| - |l|, |s|);
      assert l == s[|s| - |l|..|s|];
    }
    var r := RStrip(l);
    assert SingleSpaced(r) && NoForbidden(r) by {
      SliceKeepsShape(l, 0, |r|);
      assert r == l[0..|r|];
    }
    assert Strip(s) == r;
  }

  lemma TruncateKeepsShape(s: string)
    requires SingleSpaced(s) && NoForbidden(s)
    ensures var r := Truncate(s); SingleSpaced(r) && NoForbidden(r) && (r == [] || r[0] == s[0])
  {
    var r := Truncate(s);
    SliceKeepsShape(s, 0, |r|);
    assert r == s[0..|r|];
  }

  /**
   * `re.sub(r"\s+", " ", s)`: every maximal run of whitespace becomes one space. The result
   * is single-spaced, starts with a space exactly when `s` starts with whitespace, is empty
   * exactly when `s` is, and brings in no forbidden character.
   */
  function CollapseWhitespace(s: string): (r: string)
    ensures SingleSpaced(r)
    ensures (r == []) == (s == [])
    ensures s != [] ==> (r[0] == ' ' <==> IsSpace(s[0]))
    ensures NoForbidden(s) ==> NoForbidden(r)
    decreases |s|
  {
    if s == [] then []
    else if IsSpace(s[0]) then
      var tail := LStrip(s[1..]);
      var rest := CollapseWhitespace(tail);
      SingleSpacedCons(' ', rest);
      NoForbiddenDrop(s, 1);
      NoForbiddenDrop(s[1..], |s| - 1 - |tail|);
      NoForbiddenCons(' ', rest);
      " " + rest
    else
      var rest := CollapseWhitespace(s[1..]);
      SingleSpacedCons(s[0], rest);
      NoForbiddenDrop(s, 1);
      NoForbiddenCons(s[0], rest);
      [s[0]] + rest
  }

  /** `s[:180] if len(s) > 180 else s` */
  function Truncate(s: string): (r: string)
    ensures |r| <= MaxLength && r <= s
    ensures |s| <= MaxLength ==> r == s
    ensures |s| > MaxLength ==> r == s[..MaxLength]
  {
    if |s| > MaxLength then s[..MaxLength] else s
  }

  /**
   * `safe_filename(s)`: at most 180 characters, no forbidden character, no whitespace but
   * single spaces, and no whitespace at the front.
   */
  function SafeFilename(s: string): (r: string)
    ensures |r| <= MaxLength
    ensures NoForbidden(r)
    ensures SingleSpaced(r)
    ensures r == [] || !IsSpace(r[0])
  {
    var collapsed := CollapseWhitespace(ReplaceForbidden(s));
    StripTruncateKeepShape(collapsed);
    Truncate(Strip(collapsed))
  }

  /**
   * A reference reading of `re.sub(r"\s+", " ", s)`: turn every whitespace character into a
   * space, then drop every space that directly follows another space.
   */
  function SpacesFor(s: string): (r: string)
  {
    if s == [] then [] else [if IsSpace(s[0]) then ' ' else s[0]] + SpacesFor(s[1..])
  }

  function Squeeze(s: string): (r: string)
  {
    if |s| <= 1 then s
    else if s[0] == ' ' && s[1] == ' ' then Squeeze(s[1..])
    else [s[0]] + Squeeze(s[1..])
  }

  /** Collapsing whitespace runs is the same as mapping to spaces and squeezing repeats. */
  lemma {:induction false} CollapseIsSqueeze(s: string)
    ensures CollapseWhitespace(s) == Squeeze(SpacesFor(s))
    decreases |s|
  {
    if s != [] {
      var rest := s[1..];
      CollapseIsSqueeze(rest);
      assert SpacesFor(s) == [if IsSpace(s[0]) then ' ' else s[0]] + SpacesFor(rest);
      if !IsSpace(s[0]) {
        SqueezeCons(s[0], SpacesFor(rest));
      } else if rest != [] && IsSpace(rest[0]) {
        assert LStrip(rest) == LStrip(rest[1..]);
        SpacesForHead(rest);
        SqueezeSpaceSpace(SpacesFor(rest));
      } else {
        assert LStrip(rest) == rest;
        if rest != [] {
          SpacesForHead(rest);
        }
        SqueezeCons(' ', SpacesFor(rest));
      }
    }
  }

  lemma SpacesForHead(s: string)
    requires s != []
    ensures SpacesFor(s) != [] && SpacesFor(s)[0] == if IsSpace(s[0]) then ' ' else s[0]
  {
  }

  /** A character that does not start a run of two spaces survives the squeeze. */
  lemma SqueezeCons(c: char, t: string)
    requires c != ' ' || t == [] || t[0] != ' '
    ensures Squeeze([c] + t) == [c] + Squeeze(t)
  {
    assert ([c] + t)[1..] == t;
  }

  /** A space in front of a space is dropped. */
  lemma SqueezeSpaceSpace(t: string)
    requires t != [] && t[0] == ' '
    ensures Squeeze(" " + t) == Squeeze(t)
  {
    assert (" " + t)[1..] == t;
  }

  /** A name already in the sanitised shape. */
  predicate IsCleanName(s: string)
  {
    && |s| <= MaxLength
    && NoForbidden(s)
    && SingleSpaced(s)
    && (s == [] || (s[0] != ' ' && s[|s| - 1] != ' '))
  }

  lemma {:induction false} ReplaceForbiddenOfClean(s: string)
    requires NoForbidden(s)
    ensures ReplaceForbidden(s) == s
  {
  }

  /** Collapsing changes nothing when no whitespace but single inner spaces is present. */
  lemma {:induction false} CollapseOfSingleSpaced(s: string)
    requires SingleSpaced(s)
    ensures CollapseWhitespace(s) == s
    decreases |s|
  {
    if s != [] {
      var tail := s[1..];
      SliceKeepsShapeSingle(s);
      CollapseOfSingleSpaced(tail);
      if IsSpace(s[0]) {
        assert tail == [] || !IsSpace(tail[0]) by {
          assert !DoubleSpaceAt(s, 0);
        }
        assert LStrip(tail) == tail;
      }
    }
  }

  lemma SliceKeepsShapeSingle(s: string)
    requires s != [] && SingleSpaced(s)
    ensures SingleSpaced(s[1..])
  {
    var r := s[1..];
    forall i | 0 <= i < |r| ensures !DoubleSpaceAt(r, i) {
      assert !DoubleSpaceAt(s, i + 1);
    }
  }

  /** Sanitising a name that is already clean gives it back unchanged. */
  lemma SafeFilenameOfClean(s: string)
    requires IsCleanName(s)
    ensures SafeFilename(s) == s
  {
    ReplaceForbiddenOfClean(s);
    CollapseOfSingleSpaced(s);
    StripOfStripped(s);
  }
}
