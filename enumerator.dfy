/**
 * `enumerate_category_via_api` (save_naver_blog_category_to_pdf.py:187-260): request the
 * title-list pages 1, 2, 3, ... of a category and collect one post URL per new `logNo`,
 * until a page comes back empty or adds nothing new. The listing service is a parameter:
 * `pages[p - 1]` holds the `logNo` fields of page `p` in order (a missing or empty field is
 * the empty string), and every page after the last one is empty.
 */
module Enumerator {
  import opened PyText
  import opened PostKeys

  /** The `logNo` entries the service returns for page `p` (pages are numbered from 1). */
  function Page(pages: seq<seq<string>>, p: nat): (posts: seq<string>)
    ensures p == 0 || p > |pages| ==> posts == []
  {
    if 1 <= p <= |pages| then pages[p - 1] else []
  }

  /** The entries of pages 1 to `n`, in the order they are read. */
  function Entries(pages: seq<seq<string>>, n: nat): seq<string>
  {
    if n == 0 then [] else Entries(pages, n - 1) + Page(pages, n)
  }

  /**
   * The `logNo`s the loop keeps from a stream of entries: each non-empty one the first time
   * it appears, in the order of the stream.
   */
  function Dedup(xs: seq<string>): (r: seq<string>)
    ensures |r| <= |xs| && "" !in r
  {
    if xs == [] then []
    else
      var d := Dedup(xs[..|xs| - 1]);
      var x := xs[|xs| - 1];
      if x == "" || x in d then d else d + [x]
  }

  /** The URL list built from kept `logNo`s. */
  function Urls(blogId: string, logs: seq<string>): (r: seq<string>)
    ensures |r| == |logs|
    ensures forall i :: 0 <= i < |logs| ==> r[i] == PostViewUrl(blogId, logs[i])
  {
    seq(|logs|, i requires 0 <= i < |logs| => PostViewUrl(blogId, logs[i]))
  }

  /** Page `p` ends the walk: it is empty or adds no `logNo` that was not already seen. */
  predicate Stops(pages: seq<seq<string>>, p: nat)
  {
    Page(pages, p) == [] || Dedup(Entries(pages, p)) == Dedup(Entries(pages, p - 1))
  }

  /** No page before `n` ends the walk. */
  predicate NoStopBefore(pages: seq<seq<string>>, n: nat)
  {
    forall p :: 1 <= p < n ==> !Stops(pages, p)
  }

  lemma NoStopStep(pages: seq<seq<string>>, n: nat)
    requires NoStopBefore(pages, n) && !Stops(pages, n)
    ensures NoStopBefore(pages, n + 1)
  {
  }

  /** The kept list grows by one entry exactly when that entry is new and non-empty. */
  lemma DedupSnoc(xs: seq<string>, x: string)
    ensures Dedup(xs + [x]) == if x == "" || x in Dedup(xs) then Dedup(xs) else Dedup(xs) + [x]
  {
    assert (xs + [x])[..|xs|] == xs;
  }

  /** Reading more entries only extends the kept list. */
  lemma {:induction false} DedupExtends(xs: seq<string>, ys: seq<string>)
    ensures Dedup(xs) <= Dedup(xs + ys)
    decreases |ys|
  {
    if ys != [] {
      var init := ys[..|ys| - 1];
      var y := ys[|ys| - 1];
      DedupExtends(xs, init);
      assert xs + ys == (xs + init) + [y];
      DedupSnoc(xs + init, y);
    } else {
      assert xs + ys == xs;
    }
  }

  /** A `logNo` is kept exactly when it is non-empty and appears in the stream. */
  lemma {:induction false} DedupMembers(xs: seq<string>, x: string)
    ensures x in Dedup(xs) <==> x != "" && x in xs
    decreases |xs|
  {
    if xs != [] {
      var init := xs[..|xs| - 1];
      assert xs == init + [xs[|xs| - 1]];
      DedupMembers(init, x);
      DedupSnoc(init, xs[|xs| - 1]);
    }
  }

  /** No `logNo` is kept twice. */
  lemma {:induction false} DedupDistinct(xs: seq<string>)
    ensures forall i, j :: 0 <= i < j < |Dedup(xs)| ==> Dedup(xs)[i] != Dedup(xs)[j]
    decreases |xs|
  {
    if xs != [] {
      var init := xs[..|xs| - 1];
      assert xs == init + [xs[|xs| - 1]];
      DedupDistinct(init);
      DedupSnoc(init, xs[|xs| - 1]);
    }
  }

  /** `a` occurs in the stream before any occurrence of `b`. */
  predicate OccursBefore(xs: seq<string>, a: string, b: string)
  {
    exists k :: 0 <= k < |xs| && xs[k] == a && b !in xs[..k]
  }

  /** Kept `logNo`s are in the order of their first occurrences in the stream. */
  lemma {:induction false} DedupOrder(xs: seq<string>, i: nat, j: nat)
    requires i < j < |Dedup(xs)|
    ensures OccursBefore(xs, Dedup(xs)[i], Dedup(xs)[j])
    decreases |xs|
  {
    var init := xs[..|xs| - 1];
    var x := xs[|xs| - 1];
    assert xs == init + [x];
    DedupSnoc(init, x);
    var d := Dedup(init);
    var a := Dedup(xs)[i];
    if j < |d| {
      DedupOrder(init, i, j);
      var k :| 0 <= k < |init| && init[k] == a && d[j] !in init[..k];
      assert xs[k] == a && xs[..k] == init[..k];
    } else {
      assert Dedup(xs) == d + [x] && x !in d && x != "";
      DedupMembers(init, x);
      DedupMembers(init, a);
      var k :| 0 <= k < |init| && init[k] == a;
      assert xs[k] == a && xs[..k] == init[..k];
    }
  }

  /** Different `logNo`s give different URLs. */
  lemma PostViewUrlInjective(blogId: string, x: string, y: string)
    requires PostViewUrl(blogId, x) == PostViewUrl(blogId, y)
    ensures x == y
  {
    var n := |PostViewPrefix + blogId + "&logNo="|;
    assert PostViewUrl(blogId, x)[n..] == x;
    assert PostViewUrl(blogId, y)[n..] == y;
  }

  /** The URL list of distinct `logNo`s has no duplicates. */
  lemma UrlsDistinct(blogId: string, logs: seq<string>)
    requires forall i, j :: 0 <= i < j < |logs| ==> logs[i] != logs[j]
    ensures forall i, j :: 0 <= i < j < |logs| ==> Urls(blogId, logs)[i] != Urls(blogId, logs)[j]
  {
    forall i, j | 0 <= i < j < |logs| ensures Urls(blogId, logs)[i] != Urls(blogId, logs)[j] {
      if Urls(blogId, logs)[i] == Urls(blogId, logs)[j] {
        PostViewUrlInjective(blogId, logs[i], logs[j]);
      }
    }
  }

  /** One more kept `logNo` adds its URL at the end. */
  lemma UrlsSnoc(blogId: string, logs: seq<string>, x: string)
    ensures Urls(blogId, logs + [x]) == Urls(blogId, logs) + [PostViewUrl(blogId, x)]
  {
  }

  /**
   * The walk: pages are requested in order from 1, each entry is kept if non-empty and
   * unseen, and the walk ends after the first page that is empty or adds nothing. With
   * `|pages|` non-empty pages at most `|pages| + 1` requests are made.
   */
  method EnumerateCategory(blogId: string, pages: seq<seq<string>>) returns (out: seq<string>, fetched: nat)
    ensures 1 <= fetched <= |pages| + 1
    ensures Stops(pages, fetched)
    ensures NoStopBefore(pages, fetched)
    ensures out == Urls(blogId, Dedup(Entries(pages, fetched)))
  {
    var page := 1;
    var seen: set<string> := {};
    out := [];
    ghost var logs: seq<string> := [];
    while true
      invariant 1 <= page <= |pages| + 1
      invariant logs == Dedup(Entries(pages, page - 1))
      invariant seen == set x | x in logs
      invariant out == Urls(blogId, logs)
      invariant NoStopBefore(pages, page)
      decreases |pages| + 1 - page
    {
      var posts := Page(pages, page);
      ghost var before := Entries(pages, page - 1);
      assert Entries(pages, page) == before + posts;
      if posts == [] {
        assert before + posts == before;
        fetched := page;
        return;
      }
      var added;
      seen, out, added := ReadPage(blogId, before, posts, seen, out);
      logs := Dedup(before + posts);
      if added == 0 {
        DedupExtends(before, posts);
        fetched := page;
        return;
      }
      NoStopStep(pages, page);
      page := page + 1;
    }
  }

  /**
   * The loop over one page's posts: each non-empty `logNo` not yet seen is marked seen and
   * its URL appended; `added` counts them.
   */
  method ReadPage(blogId: string, ghost before: seq<string>, posts: seq<string>, seen: set<string>, out: seq<string>)
    returns (seen': set<string>, out': seq<string>, added: nat)
    requires seen == set x | x in Dedup(before)
    requires out == Urls(blogId, Dedup(before))
    ensures seen' == set x | x in Dedup(before + posts)
    ensures out' == Urls(blogId, Dedup(before + posts))
    ensures added == |Dedup(before + posts)| - |Dedup(before)|
  {
    seen', out', added := seen, out, 0;
    ghost var logs := Dedup(before);
    var k := 0;
    assert before + posts[..0] == before;
    while k < |posts|
      invariant 0 <= k <= |posts|
      invariant logs == Dedup(before + posts[..k])
      invariant added == |logs| - |Dedup(before)|
      invariant Tracks(blogId, logs, seen', out')
    {
      var logNo := posts[k];
      DedupStep(before, posts, k);
      if logNo != "" && logNo !in seen' {
        TracksSnoc(blogId, logs, seen', out', logNo);
        seen' := seen' + {logNo};
        out' := out' + [PostViewUrl(blogId, logNo)];
        logs := logs + [logNo];
        added := added + 1;
      }
      k := k + 1;
    }
    assert posts[..|posts|] == posts;
  }

  /** Reading the post at index `k` of a page keeps it exactly when it is non-empty and new. */
  lemma DedupStep(before: seq<string>, posts: seq<string>, k: nat)
    requires k < |posts|
    ensures var d := Dedup(before + posts[..k]);
      Dedup(before + posts[..k + 1]) == if posts[k] == "" || posts[k] in d then d else d + [posts[k]]
  {
    assert before + posts[..k + 1] == (before + posts[..k]) + [posts[k]];
    DedupSnoc(before + posts[..k], posts[k]);
  }

  /** `seen` and `out` hold exactly the kept `logNo`s, as a set and as URLs in order. */
  predicate Tracks(blogId: string, logs: seq<string>, seen: set<string>, out: seq<string>)
  {
    seen == (set x | x in logs) && out == Urls(blogId, logs)
  }

  lemma TracksSnoc(blogId: string, logs: seq<string>, seen: set<string>, out: seq<string>, x: string)
    requires Tracks(blogId, logs, seen, out)
    ensures Tracks(blogId, logs + [x], seen + {x}, out + [PostViewUrl(blogId, x)])
  {
    UrlsSnoc(blogId, logs, x);
  }

  /**
   * The enumerated URLs, read as keys: each is the `logNo` it was built from, as long as the
   * blog id has no `=` and the `logNo` is a run of digits.
   */
  lemma EnumeratedKeys(blogId: string, logs: seq<string>, i: nat)
    requires PlainBlogId(blogId) && i < |logs| && IsDigitString(logs[i])
    ensures CanonicalKey(Urls(blogId, logs)[i]) == Options.Some(logs[i])
  {
    KeyOfPostViewUrl(blogId, logs[i]);
  }
}
