/**
 * `canonical_key_from_url` (save_naver_blog_category_to_pdf.py:38-43): the post key of a URL
 * is the `logNo` number, taken from the first `logNo=<digits>` in the URL or else from a
 * trailing `/<6 or more digits>` path segment; a URL with neither has no key.
 */
module PostKeys {
  import opened Options
  import opened PyText

  /** `logNo=` followed by a digit starts at `i`: a place where `logNo=(\d+)` matches. */
  predicate LogNoAt(u: string, i: nat)
  {
    i + 6 < |u| && u[i..i + 6] == "logNo=" && IsDigit(u[i + 6])
  }

  /** The leftmost match of `logNo=(\d+)` at or after `from`, as `re.search` finds it. */
  function FirstLogNo(u: string, from: nat): (r: Option<nat>)
    ensures r.Some? ==> from <= r.value && LogNoAt(u, r.value)
    ensures r.Some? ==> forall j :: from <= j < r.value ==> !LogNoAt(u, j)
    ensures r.None? ==> forall j :: from <= j ==> !LogNoAt(u, j)
    decreases |u| - from
  {
    if from + 6 >= |u| then None
    else if LogNoAt(u, from) then Some(from)
    else FirstLogNo(u, from + 1)
  }

  /** The end of the maximal run of digits that starts at `i` (greedy `\d+`). */
  function DigitRunEnd(u: string, i: nat): (e: nat)
    requires i <= |u|
    ensures i <= e <= |u|
    ensures forall j :: i <= j < e ==> IsDigit(u[j])
    ensures e == |u| || !IsDigit(u[e])
    decreases |u| - i
  {
    if i < |u| && IsDigit(u[i]) then DigitRunEnd(u, i + 1) else i
  }

  /** The start of the maximal run of digits that ends at `e`. */
  function DigitRunStart(u: string, e: nat): (q: nat)
    requires e <= |u|
    ensures q <= e
    ensures forall j :: q <= j < e ==> IsDigit(u[j])
    ensures q == 0 || !IsDigit(u[q - 1])
    decreases e
  {
    if e > 0 && IsDigit(u[e - 1]) then DigitRunStart(u, e - 1) else e
  }

  /**
   * `re.search(r"/(\d{6,})$", u)`: `$` matches at the end of the string or just before a
   * final `\n`, so the digits are the ones ending there, and a `/` must precede them.
   */
  function TrailingKey(u: string): (r: Option<string>)
    ensures r.Some? ==> |r.value| >= 6 && IsDigitString(r.value)
  {
    var e := if u != [] && u[|u| - 1] == '\n' then |u| - 1 else |u|;
    var q := DigitRunStart(u, e);
    if e - q >= 6 && q >= 1 && u[q - 1] == '/' then Some(u[q..e]) else None
  }

  /** `canonical_key_from_url(u)`; any key it returns is a non-empty run of digits. */
  function CanonicalKey(u: string): (r: Option<string>)
    ensures r.Some? ==> IsDigitString(r.value)
  {
    match FirstLogNo(u, 0)
    case Some(i) => Some(u[i + 6..DigitRunEnd(u, i + 6)])
    case None => TrailingKey(u)
  }

  /** `u` ends with `/` followed by the digits `d` (at least six), optionally then one `\n`. */
  predicate SlashDigitsEnd(u: string, d: string)
  {
    && |d| >= 6 && AllDigits(d)
    && ((|u| >= |d| + 1 && u[|u| - |d| - 1..] == "/" + d)
        || (|u| >= |d| + 2 && u[|u| - |d| - 2..] == "/" + d + "\n"))
  }

  /**
   * First rule: when the leftmost `logNo=` followed by a digit starts at `i`, the key is the
   * whole run of digits after it.
   */
  lemma KeyFromLogNo(u: string, i: nat, e: nat)
    requires LogNoAt(u, i)
    requires forall j :: 0 <= j < i ==> !LogNoAt(u, j)
    requires i + 6 < e <= |u|
    requires forall j :: i + 6 <= j < e ==> IsDigit(u[j])
    requires e == |u| || !IsDigit(u[e])
    ensures CanonicalKey(u) == Some(u[i + 6..e])
  {
    var f := FirstLogNo(u, 0);
    assert f == Some(i);
    var d := DigitRunEnd(u, i + 6);
    assert d == e;
  }

  /**
   * Second rule: with no `logNo=<digit>` anywhere, the key is `d` exactly when the URL ends
   * with `/` and the six or more digits `d` (before an optional final `\n`).
   */
  lemma KeyFromTrailingDigits(u: string, d: string)
    requires forall j :: 0 <= j ==> !LogNoAt(u, j)
    ensures CanonicalKey(u) == Some(d) <==> SlashDigitsEnd(u, d)
  {
    assert FirstLogNo(u, 0).None?;
    if SlashDigitsEnd(u, d) {
      TrailingKeyOfSlashDigits(u, d);
    }
    if TrailingKey(u) == Some(d) {
      SlashDigitsOfTrailingKey(u, d);
    }
  }

  lemma TrailingKeyOfSlashDigits(u: string, d: string)
    requires SlashDigitsEnd(u, d)
    ensures TrailingKey(u) == Some(d)
  {
    if |u| >= |d| + 1 && u[|u| - |d| - 1..] == "/" + d {
      SlashDigitsAtEnd(u, d);
    } else {
      SlashDigitsBeforeNewline(u, d);
    }
  }

  /** `/` and the digits `d` end the URL. */
  lemma SlashDigitsAtEnd(u: string, d: string)
    requires |d| >= 6 && AllDigits(d)
    requires |u| >= |d| + 1 && u[|u| - |d| - 1..] == "/" + d
    ensures TrailingKey(u) == Some(d)
  {
    var q := |u| - |d|;
    var w := u[q - 1..];
    assert u[q - 1] == w[0] == '/';
    assert u[q..] == w[1..] == d;
    assert u[|u| - 1] == d[|d| - 1] && IsDigit(d[|d| - 1]);
    assert u[q..|u|] == d;
    RunOfDigitsStart(u, q, |u|);
  }

  /** `/`, the digits `d` and one `\n` end the URL. */
  lemma SlashDigitsBeforeNewline(u: string, d: string)
    requires |d| >= 6 && AllDigits(d)
    requires |u| >= |d| + 2 && u[|u| - |d| - 2..] == "/" + d + "\n"
    ensures TrailingKey(u) == Some(d)
  {
    var q := |u| - 1 - |d|;
    var w := u[q - 1..];
    assert u[q - 1] == w[0] == '/';
    assert u[q..|u| - 1] == w[1..|w| - 1] == d;
    assert u[|u| - 1] == w[|w| - 1] == '\n';
    RunOfDigitsStart(u, q, |u| - 1);
  }

  /** Helper: the slice `u[q..e]` is all digits and follows a `/`, so the run starts at `q`. */
  lemma RunOfDigitsStart(u: string, q: nat, e: nat)
    requires 1 <= q <= e <= |u| && u[q - 1] == '/' && AllDigits(u[q..e])
    ensures DigitRunStart(u, e) == q
  {
    forall j | q <= j < e ensures IsDigit(u[j]) {
      assert u[j] == u[q..e][j - q];
    }
    DigitRunStartIs(u, e, q);
  }

  lemma SlashDigitsOfTrailingKey(u: string, d: string)
    requires TrailingKey(u) == Some(d)
    ensures SlashDigitsEnd(u, d)
  {
    var e := if u != [] && u[|u| - 1] == '\n' then |u| - 1 else |u|;
    var q := DigitRunStart(u, e);
    assert d == u[q..e] && e - q >= 6 && q >= 1 && u[q - 1] == '/';
    assert AllDigits(d) by {
      forall j | 0 <= j < |d| ensures IsDigit(d[j]) {
        assert d[j] == u[q + j];
      }
    }
    if e == |u| {
      assert u[|u| - |d| - 1..] == "/" + d;
    } else {
      assert u[|u| - |d| - 2..] == "/" + d + "\n";
    }
  }

  /** A run of digits that ends at `e` and is not preceded by a digit is the maximal one. */
  lemma {:induction false} DigitRunStartIs(u: string, e: nat, q: nat)
    requires q <= e <= |u|
    requires forall j :: q <= j < e ==> IsDigit(u[j])
    requires q == 0 || !IsDigit(u[q - 1])
    ensures DigitRunStart(u, e) == q
    decreases e
  {
    if e > q {
      assert IsDigit(u[e - 1]);
      DigitRunStartIs(u, e - 1, q);
    }
  }

  /** A character other than `=` five places on means no `logNo=` starts here. */
  lemma NoLogNoWithoutEquals(u: string, j: nat)
    requires j + 5 < |u| ==> u[j + 5] != '='
    ensures !LogNoAt(u, j)
  {
  }

  /** The URL shape the category enumerator builds for each post (save_naver_blog_category_to_pdf.py:248). */
  const PostViewPrefix := "https://blog.naver.com/PostView.naver?blogId="

  function PostViewUrl(blogId: string, logNo: string): string
  {
    PostViewPrefix + blogId + "&logNo=" + logNo
  }

  /** A blog id carries no `=`, so it cannot fake a `logNo=` parameter. */
  predicate PlainBlogId(blogId: string)
  {
    forall j :: 0 <= j < |blogId| ==> blogId[j] != '='
  }

  /** The key of an enumerated post URL is the post's own `logNo`. */
  lemma KeyOfPostViewUrl(blogId: string, logNo: string)
    requires PlainBlogId(blogId) && IsDigitString(logNo)
    ensures CanonicalKey(PostViewUrl(blogId, logNo)) == Some(logNo)
  {
    var u := PostViewUrl(blogId, logNo);
    var i := |PostViewPrefix| + |blogId| + 1;
    PostViewUrlShape(blogId, logNo);
    forall j | 0 <= j < i ensures !LogNoAt(u, j) {
      NoLogNoInPostViewHead(blogId, logNo, j);
    }
    KeyFromLogNo(u, i, |u|);
  }

  /** Where the `logNo=` parameter of a post URL sits, and that the number ends the URL. */
  lemma PostViewUrlShape(blogId: string, logNo: string)
    requires IsDigitString(logNo)
    ensures var u := PostViewUrl(blogId, logNo); var i := |PostViewPrefix| + |blogId| + 1;
      && LogNoAt(u, i) && u[i + 6..|u|] == logNo
      && (forall j :: i + 6 <= j < |u| ==> IsDigit(u[j]))
  {
    var u := PostViewUrl(blogId, logNo);
    var i := |PostViewPrefix| + |blogId| + 1;
    assert u[i..i + 6] == "logNo=";
    assert u[i + 6..] == logNo;
    assert u[i + 6..|u|] == logNo;
    forall j | i + 6 <= j < |u| ensures IsDigit(u[j]) {
      assert u[j] == logNo[j - i - 6];
    }
  }

  /** No `logNo=` starts before the post URL's own parameter. */
  lemma NoLogNoInPostViewHead(blogId: string, logNo: string, j: nat)
    requires PlainBlogId(blogId)
    requires j < |PostViewPrefix| + |blogId| + 1
    ensures !LogNoAt(PostViewUrl(blogId, logNo), j)
  {
    var u := PostViewUrl(blogId, logNo);
    var p := |PostViewPrefix|;
    if j + 5 < p - 1 {
      assert u[j + 5] == PostViewPrefix[j + 5];
      NoLogNoWithoutEquals(u, j);
    } else if j + 5 == p - 1 {
      assert u[j..j + 6] == PostViewPrefix[p - 6..] == "logId=";
    } else if j + 5 < p + |blogId| {
      assert u[j + 5] == blogId[j + 5 - p];
      NoLogNoWithoutEquals(u, j);
    } else {
      assert u[j + 5] == (PostViewPrefix + blogId + "&logNo")[j + 5];
      NoLogNoWithoutEquals(u, j);
    }
  }
}
