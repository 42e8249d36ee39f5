/**
 * The bookkeeping of `main` (save_naver_blog_category_to_pdf.py:351-452) and the decisions
 * the two save functions take before rendering (264-347). The browser is a parameter: for
 * the `i`-th URL of a save loop, `visit(i)` says what the page showed.
 */
module Orchestrator {
  import opened Options
  import opened PyText
  import opened Filename
  import opened PostKeys
  import opened Ledger
  import opened Enumerator
  import opened Category

  /**
   * What the browser showed for one URL. `printed` only matters to the kiosk save: in the
   * DevTools save a failed `printToPDF` raises, which is `Crashed`.
   */
  datatype Visit =
    | Loaded(title: string, printed: bool)  // the page title (`driver.title`), and whether the renderer produced the PDF
    | Crashed                               // the driver or the renderer raised

  /** What the save loop records for one URL: saved under a file name, skipped, or failed. */
  datatype Outcome = Saved(name: string) | Skipped | Failed

  /** The login-page test of both save functions. */
  predicate IsLoginTitle(title: string)
  {
    (Contains(title, "네이버") && Contains(title, "로그인")) || Contains(title, "로그인")
  }

  /** The first disjunct adds nothing: the test is whether the title mentions login. */
  lemma LoginTitleIff(title: string)
    ensures IsLoginTitle(title) <==> Contains(title, "로그인")
  {
  }

  /** `driver.title or "post"`. */
  function EffectiveTitle(title: string): (r: string)
    ensures r != []
    ensures title != [] ==> r == title
  {
    if title == [] then "post" else title
  }

  /** The file a page is saved to: its sanitised title with the `.pdf` extension. */
  function PdfName(title: string): (r: string)
    ensures |r| <= MaxLength + 4 && NoForbidden(r)
  {
    var s := SafeFilename(EffectiveTitle(title));
    NoForbiddenWithPdf(s);
    s + ".pdf"
  }

  /** The `--method` option: which of the two save functions the loops call. */
  datatype SaveMethod = Devtools | Kiosk

  /**
   * The checks both save functions make before rendering: a login page or a page whose target
   * file already exists is skipped; otherwise the target file name is returned.
   */
  function Target(title: string, files: set<string>): (r: Option<string>)
    ensures r.Some? <==> !Contains(EffectiveTitle(title), "로그인") && PdfName(title) !in files
    ensures r.Some? ==> r.value == PdfName(title)
  {
    LoginTitleIff(EffectiveTitle(title));
    if IsLoginTitle(EffectiveTitle(title)) then None
    else if PdfName(title) in files then None
    else Some(PdfName(title))
  }

  /**
   * `save_post_as_pdf_devtools`: past the checks, the page is printed through the DevTools
   * protocol and written, so the post is saved; an exception on the way is a failure.
   */
  function SaveDevtools(v: Visit, files: set<string>): (o: Outcome)
    ensures o.Saved? <==> v.Loaded? && Target(v.title, files).Some?
    ensures o.Saved? ==> o.name == PdfName(v.title) && o.name !in files
    ensures o.Failed? <==> v.Crashed?
  {
    match v
    case Crashed => Failed
    case Loaded(title, _) =>
      match Target(title, files)
      case None => Skipped
      case Some(name) => Saved(name)
  }

  /**
   * `save_post_as_pdf_kiosk`: past the checks, the browser prints to the download directory and
   * the post counts as saved only when a PDF shows up before the polling gives up.
   */
  function SaveKiosk(v: Visit, files: set<string>): (o: Outcome)
    ensures o.Saved? <==> v.Loaded? && v.printed && Target(v.title, files).Some?
    ensures o.Saved? ==> o.name == PdfName(v.title) && o.name !in files
    ensures o.Failed? <==> v.Crashed?
  {
    match v
    case Crashed => Failed
    case Loaded(title, printed) =>
      match Target(title, files)
      case None => Skipped
      case Some(name) => if printed then Saved(name) else Skipped
  }

  /** A name that `out_dir.glob("*.pdf")` matches. */
  predicate IsPdfName(f: string)
  {
    |f| >= 4 && f[|f| - 4..] == ".pdf"
  }

  /** Some file in the output directory matches `*.pdf`. */
  predicate HasPdf(files: set<string>)
  {
    exists f :: f in files && IsPdfName(f)
  }

  /**
   * `save_post_as_pdf_kiosk` as written: its polling loop returns the target as soon as the
   * output directory holds any PDF at all, so a PDF left there by an earlier post counts as
   * this post's, whether or not the print produced one.
   */
  function SaveKioskAsWritten(v: Visit, files: set<string>): (o: Outcome)
    ensures o.Saved? <==> v.Loaded? && Target(v.title, files).Some? && (v.printed || HasPdf(files))
    ensures o.Saved? ==> o.name == PdfName(v.title) && o.name !in files
    ensures o.Failed? <==> v.Crashed?
  {
    match v
    case Crashed => Failed
    case Loaded(title, printed) =>
      match Target(title, files)
      case None => Skipped
      case Some(name) => if printed || HasPdf(files) then Saved(name) else Skipped
  }

  /**
   * Once one PDF is in the output directory, the polling reports a save for a page that was
   * never printed, where the corrected function reports a skip.
   */
  lemma KioskAsWrittenSavesUnprinted(title: string, files: set<string>, f: string)
    requires Target(title, files).Some? && f in files && IsPdfName(f)
    ensures SaveKioskAsWritten(Loaded(title, false), files) == Saved(PdfName(title))
    ensures SaveKiosk(Loaded(title, false), files) == Skipped
  {
  }

  /** When the print does land, the two agree. */
  lemma KioskAgreesWhenPrinted(title: string, files: set<string>)
    ensures SaveKioskAsWritten(Loaded(title, true), files) == SaveKiosk(Loaded(title, true), files)
  {
  }

  /** The save function `main` calls for each URL. */
  function Saver(m: SaveMethod): (Visit, set<string>) -> Outcome
  {
    if m == Devtools then SaveDevtools else SaveKiosk
  }

  /** Neither save function saves a login page or over an existing file. */
  lemma SaverSkips(m: SaveMethod, v: Visit, files: set<string>)
    requires v.Loaded? && (Contains(v.title, "로그인") || PdfName(v.title) in files)
    ensures Saver(m)(v, files) == Skipped
  {
  }

  /** A save function never reports a save under the name of a file that is already there. */
  ghost predicate Honest(save: (Visit, set<string>) -> Outcome)
  {
    forall v, files :: save(v, files).Saved? ==> save(v, files).name !in files
  }

  lemma SaverHonest(m: SaveMethod)
    ensures Honest(Saver(m))
  {
  }

  /** So is the kiosk save as written: its target is still a name that is not there yet. */
  lemma KioskAsWrittenHonest()
    ensures Honest(SaveKioskAsWritten)
  {
  }

  /** The URL filter before saving: a URL stays unless its key is already done. */
  predicate NotDone(u: string, done: set<string>)
  {
    CanonicalKey(u).None? || CanonicalKey(u).value !in done
  }

  /** `[u for u in urls if canonical_key_from_url(u) not in done_keys]`. */
  function FilterNotDone(urls: seq<string>, done: set<string>): (r: seq<string>)
    ensures |r| <= |urls|
  {
    if urls == [] then []
    else
      var u := urls[|urls| - 1];
      FilterNotDone(urls[..|urls| - 1], done) + (if NotDone(u, done) then [u] else [])
  }

  /** The filter keeps exactly the URLs that have no key or whose key is not done. */
  lemma {:induction false} FilterMembers(urls: seq<string>, done: set<string>, u: string)
    ensures u in FilterNotDone(urls, done) <==> u in urls && NotDone(u, done)
    decreases |urls|
  {
    if urls != [] {
      var init := urls[..|urls| - 1];
      assert urls == init + [urls[|urls| - 1]];
      FilterMembers(init, done, u);
    }
  }

  /** The filter works piece by piece, so it keeps the order of the URLs. */
  lemma {:induction false} FilterOfConcat(a: seq<string>, b: seq<string>, done: set<string>)
    ensures FilterNotDone(a + b, done) == FilterNotDone(a, done) + FilterNotDone(b, done)
    decreases |b|
  {
    if b == [] {
      assert a + b == a;
    } else {
      var init := b[..|b| - 1];
      var u := b[|b| - 1];
      assert a + b == (a + init) + [u];
      assert (a + b)[..|a + b| - 1] == a + init;
      FilterOfConcat(a, init, done);
    }
  }

  /** Keeps `f(l)` for each line `l` where it is non-empty, in order. */
  function KeptNonBlank(f: string -> string, lines: seq<string>): seq<string>
  {
    if lines == [] then []
    else
      var s := f(lines[|lines| - 1]);
      KeptNonBlank(f, lines[..|lines| - 1]) + (if s == [] then [] else [s])
  }

  /** Some line maps to `s` under `f`. */
  predicate ImageOfSomeLine(f: string -> string, lines: seq<string>, s: string)
  {
    exists i :: 0 <= i < |lines| && f(lines[i]) == s
  }

  /** An entry is kept exactly when it is the non-empty image of some line. */
  lemma {:induction false} KeptNonBlankMembers(f: string -> string, lines: seq<string>, s: string)
    ensures s in KeptNonBlank(f, lines) <==> s != [] && ImageOfSomeLine(f, lines, s)
    decreases |lines|
  {
    if lines != [] {
      var n := |lines| - 1;
      var init := lines[..n];
      KeptNonBlankMembers(f, init, s);
      if ImageOfSomeLine(f, init, s) {
        var i :| 0 <= i < |init| && f(init[i]) == s;
        assert lines[i] == init[i];
      }
      if ImageOfSomeLine(f, lines, s) {
        var i :| 0 <= i < |lines| && f(lines[i]) == s;
        if i < n {
          assert init[i] == lines[i];
        }
      }
    }
  }

  /**
   * `[ln.strip() for ln in f if ln.strip()]`, over the lines of the URL file (the splitting of
   * the file into lines is done by Python's file reader and is a parameter here).
   */
  function ReadUrlList(rawLines: seq<string>): (r: seq<string>)
    ensures forall u :: u in r ==> u != [] && Strip(u) == u
  {
    UrlsAreStripped(rawLines);
    KeptNonBlank(Strip, rawLines)
  }

  /** Every kept entry is a non-empty stripped line, so stripping it again changes nothing. */
  lemma UrlsAreStripped(rawLines: seq<string>)
    ensures forall u :: u in KeptNonBlank(Strip, rawLines) ==> u != [] && Strip(u) == u
  {
    forall u | u in KeptNonBlank(Strip, rawLines)
      ensures u != [] && Strip(u) == u
    {
      KeptNonBlankMembers(Strip, rawLines, u);
      var i :| 0 <= i < |rawLines| && Strip(rawLines[i]) == u;
      assert !IsSpace(u[0]) && !IsSpace(u[|u| - 1]);
      StripOfStripped(u);
    }
  }

  /** The URL list holds exactly the stripped forms of the non-blank lines. */
  lemma ReadUrlListMembers(rawLines: seq<string>, u: string)
    ensures u in ReadUrlList(rawLines) <==> u != [] && ImageOfSomeLine(Strip, rawLines, u)
  {
    KeptNonBlankMembers(Strip, rawLines, u);
  }


  /** A save function, as `main` picks it by `--method`. */
  type SaveFn = (Visit, set<string>) -> Outcome

  /** The state the save loop carries from one URL to the next. */
  datatype RunState = RunState(
    done: set<string>,      // `done_keys`
    ledger: string,         // the text of `done_urls.txt`
    files: set<string>,     // the PDF file names in the output directory
    saved: nat,             // `total_saved`
    appended: seq<string>,  // the keys written to the ledger during this loop, in order
    outcomes: seq<Outcome>) // one entry per URL handled

  function Start(done: set<string>, ledger: string, files: set<string>): RunState
  {
    RunState(done, ledger, files, 0, [], [])
  }

  /** Note the outcome of one URL; a saved page adds its file and counts. */
  function Record(s: RunState, o: Outcome): RunState
  {
    if o.Saved? then s.(files := s.files + {o.name}, saved := s.saved + 1, outcomes := s.outcomes + [o])
    else s.(outcomes := s.outcomes + [o])
  }

  /** `append_done_key(done_path, k)` followed by `done_keys.add(k)`. */
  function MarkDone(s: RunState, k: string): RunState
  {
    s.(done := s.done + {k}, ledger := AppendDoneKey(s.ledger, k), appended := s.appended + [k])
  }

  /** The body of the save loop for one URL `u` whose page showed `v`. */
  function Step(save: SaveFn, s: RunState, u: string, v: Visit): RunState
  {
    var o := save(v, s.files);
    var k := CanonicalKey(u);
    if o.Saved? && k.Some? && k.value !in s.done then MarkDone(Record(s, o), k.value)
    else Record(s, o)
  }

  /** The state after the first `n` URLs. */
  function Runs(save: SaveFn, s0: RunState, urls: seq<string>, visit: nat -> Visit, n: nat): RunState
    requires n <= |urls|
  {
    if n == 0 then s0 else Step(save, Runs(save, s0, urls, visit, n - 1), urls[n - 1], visit(n - 1))
  }

  /** The number of `Saved` outcomes. */
  function CountSaved(outcomes: seq<Outcome>): nat
  {
    if outcomes == [] then 0
    else CountSaved(outcomes[..|outcomes| - 1]) + (if outcomes[|outcomes| - 1].Saved? then 1 else 0)
  }

  lemma CountSavedSnoc(outcomes: seq<Outcome>, o: Outcome)
    ensures CountSaved(outcomes + [o]) == CountSaved(outcomes) + (if o.Saved? then 1 else 0)
  {
    assert (outcomes + [o])[..|outcomes|] == outcomes;
  }

  function Elems(xs: seq<string>): set<string>
  {
    set x | x in xs
  }

  /**
   * What the loop keeps true, measured from the `done0`, `ledger0` and `files0` it started with:
   * the done set is the old one plus the appended keys, each a run of digits that was not done
   * before and was appended once; the ledger is the old one with those keys appended in order;
   * `saved` counts the `Saved` outcomes, and that many files were added to the output directory.
   */
  predicate Consistent(done0: set<string>, ledger0: string, files0: set<string>, s: RunState)
  {
    && DoneTracks(done0, s.done, s.appended)
    && s.ledger == TextAfter(ledger0, s.appended)
    && s.saved == CountSaved(s.outcomes)
    && files0 <= s.files && |s.files| == |files0| + s.saved
  }

  /** The done set is the old one plus the appended keys, each new and appended once. */
  predicate DoneTracks(done0: set<string>, done: set<string>, appended: seq<string>)
  {
    && done == done0 + Elems(appended)
    && (forall j :: 0 <= j < |appended| ==> appended[j] !in done0 && IsDigitString(appended[j]))
    && (forall i, j :: 0 <= i < j < |appended| ==> appended[i] != appended[j])
  }

  /** The ledger text after appending the keys `ks` one by one. */
  function TextAfter(ledger0: string, ks: seq<string>): string
  {
    if ks == [] then ledger0 else AppendDoneKey(TextAfter(ledger0, ks[..|ks| - 1]), ks[|ks| - 1])
  }

  lemma TextAfterSnoc(ledger0: string, ks: seq<string>, k: string)
    ensures TextAfter(ledger0, ks + [k]) == AppendDoneKey(TextAfter(ledger0, ks), k)
  {
    assert (ks + [k])[..|ks|] == ks;
  }

  /**
   * Appending keys one by one adds them as the last lines of the ledger, and reloading it
   * finds the old keys plus the appended ones.
   */
  lemma {:induction false} TextAfterLines(ledger0: string, ks: seq<string>)
    requires forall j :: 0 <= j < |ks| ==> IsDigitString(ks[j])
    ensures SplitLines(TextAfter(ledger0, ks)) == SplitLines(ledger0) + ks
    ensures DoneKeys(TextAfter(ledger0, ks)) == DoneKeys(ledger0) + Elems(ks)
    decreases |ks|
  {
    if ks == [] {
      assert SplitLines(ledger0) + ks == SplitLines(ledger0);
      assert Elems(ks) == {};
    } else {
      var init := ks[..|ks| - 1];
      var k := ks[|ks| - 1];
      assert ks == init + [k];
      TextAfterLines(ledger0, init);
      var prev := TextAfter(ledger0, init);
      AppendKey(prev, k);
      LinesSnoc(ledger0, prev, AppendDoneKey(prev, k), init, k);
    }
  }

  lemma LinesSnoc(ledger0: string, ledger: string, ledger': string, appended: seq<string>, k: string)
    requires SplitLines(ledger) == SplitLines(ledger0) + appended && DoneKeys(ledger) == DoneKeys(ledger0) + Elems(appended)
    requires SplitLines(ledger') == SplitLines(ledger) + [k] && DoneKeys(ledger') == DoneKeys(ledger) + {k}
    ensures SplitLines(ledger') == SplitLines(ledger0) + (appended + [k])
    ensures DoneKeys(ledger') == DoneKeys(ledger0) + Elems(appended + [k])
  {
    ElemsSnoc(appended, k);
    SnocAssoc(SplitLines(ledger0), appended, SplitLines(ledger), k);
  }

  lemma DoneTracksAppend(done0: set<string>, done: set<string>, appended: seq<string>, k: string)
    requires DoneTracks(done0, done, appended) && k !in done && IsDigitString(k)
    ensures DoneTracks(done0, done + {k}, appended + [k])
  {
    ElemsSnoc(appended, k);
  }

  /** The ledger text after appending the keys `ks` one by one with `append_done_key` as written. */
  function TextAfterAsWritten(ledger0: string, ks: seq<string>): string
  {
    if ks == [] then ledger0 else AppendDoneKeyAsWritten(TextAfterAsWritten(ledger0, ks[..|ks| - 1]), ks[|ks| - 1])
  }

  /**
   * The save loop appends with the corrected `AppendDoneKey`. Starting from a ledger that ends
   * with a line break (every ledger the script wrote itself, and the missing file), appending
   * as written gives the very same text; and once a key is appended the text ends with a break.
   */
  lemma {:induction false} AsWrittenLedgerAgrees(ledger0: string, ks: seq<string>)
    requires forall j :: 0 <= j < |ks| ==> IsDigitString(ks[j])
    ensures EndsWithBreak(ledger0) ==> TextAfterAsWritten(ledger0, ks) == TextAfter(ledger0, ks)
    ensures EndsWithBreak(ledger0) || ks != [] ==> EndsWithBreak(TextAfter(ledger0, ks))
    decreases |ks|
  {
    if ks != [] {
      var init := ks[..|ks| - 1];
      var k := ks[|ks| - 1];
      AsWrittenLedgerAgrees(ledger0, init);
      var prev := TextAfter(ledger0, init);
      var t := Terminated(prev) + k + "\n";
      assert AppendDoneKey(prev, k) == t;
      assert t[|t| - 1] == '\n';
      if EndsWithBreak(ledger0) {
        AsWrittenWhenTerminated(prev, k);
      }
    }
  }

  lemma ElemsSnoc(xs: seq<string>, k: string)
    ensures Elems(xs + [k]) == Elems(xs) + {k}
  {
  }

  /** Regrouping `(a + b) + [k]` as `a + (b + [k])`, with the parts named. */
  lemma SnocAssoc<T>(a: seq<T>, b: seq<T>, c: seq<T>, k: T)
    requires c == a + b
    ensures c + [k] == a + (b + [k])
  {
  }

  /**
   * The ledger text is only written, never read, by the loop: a different ledger leads to the
   * same decisions, the same done set, files, count, appended keys and outcomes.
   */
  lemma StepIgnoresLedger(save: SaveFn, s: RunState, u: string, v: Visit, l: string)
    ensures Step(save, s.(ledger := l), u, v).(ledger := s.ledger) == Step(save, s, u, v).(ledger := s.ledger)
  {
  }

  /** A URL that is not saved changes nothing but the outcome list. */
  lemma NotSavedChangesNothing(save: SaveFn, s: RunState, u: string, v: Visit)
    requires !save(v, s.files).Saved?
    ensures Step(save, s, u, v) == s.(outcomes := s.outcomes + [save(v, s.files)])
  {
  }

  /** After a URL is saved, its key (if it has one) is done. */
  lemma SavedKeyIsDone(save: SaveFn, s: RunState, u: string, v: Visit)
    requires save(v, s.files).Saved? && CanonicalKey(u).Some?
    ensures CanonicalKey(u).value in Step(save, s, u, v).done
    ensures s.done <= Step(save, s, u, v).done
  {
  }

  /** A login page, or a page whose file already exists, leaves everything but the outcomes alone. */
  lemma SkippedPageAppendsNothing(m: SaveMethod, s: RunState, u: string, v: Visit)
    requires v.Loaded? && (Contains(v.title, "로그인") || PdfName(v.title) in s.files)
    ensures Step(Saver(m), s, u, v) == s.(outcomes := s.outcomes + [Skipped])
  {
    SaverSkips(m, v, s.files);
    NotSavedChangesNothing(Saver(m), s, u, v);
  }

  /** Noting an outcome keeps the invariant, as long as a save names a new file. */
  lemma RecordKeeps(done0: set<string>, ledger0: string, files0: set<string>, s: RunState, o: Outcome)
    requires Consistent(done0, ledger0, files0, s)
    requires o.Saved? ==> o.name !in s.files
    ensures Consistent(done0, ledger0, files0, Record(s, o))
  {
    CountSavedSnoc(s.outcomes, o);
  }

  /** Appending a new key keeps the invariant. */
  lemma MarkDoneKeeps(done0: set<string>, ledger0: string, files0: set<string>, s: RunState, k: string)
    requires Consistent(done0, ledger0, files0, s)
    requires IsDigitString(k) && k !in s.done
    ensures Consistent(done0, ledger0, files0, MarkDone(s, k))
  {
    DoneTracksAppend(done0, s.done, s.appended, k);
    TextAfterSnoc(ledger0, s.appended, k);
  }

  /** One step keeps the loop's invariant. */
  lemma StepKeeps(save: SaveFn, done0: set<string>, ledger0: string, files0: set<string>, s: RunState, u: string, v: Visit)
    requires Honest(save) && Consistent(done0, ledger0, files0, s)
    ensures Consistent(done0, ledger0, files0, Step(save, s, u, v))
  {
    var o := save(v, s.files);
    var k := CanonicalKey(u);
    RecordKeeps(done0, ledger0, files0, s, o);
    if o.Saved? && k.Some? && k.value !in s.done {
      MarkDoneKeeps(done0, ledger0, files0, Record(s, o), k.value);
    }
  }

  /** The invariant holds after any number of URLs. */
  lemma {:induction false} RunsConsistent(save: SaveFn, done0: set<string>, ledger0: string, files0: set<string>,
                                          urls: seq<string>, visit: nat -> Visit, n: nat)
    requires Honest(save) && n <= |urls|
    ensures Consistent(done0, ledger0, files0, Runs(save, Start(done0, ledger0, files0), urls, visit, n))
  {
    if n == 0 {
      assert Elems([]) == {};
    } else {
      var prev := Runs(save, Start(done0, ledger0, files0), urls, visit, n - 1);
      RunsConsistent(save, done0, ledger0, files0, urls, visit, n - 1);
      StepKeeps(save, done0, ledger0, files0, prev, urls[n - 1], visit(n - 1));
    }
  }

  /** Each URL adds one outcome. */
  lemma {:induction false} RunsOutcomes(save: SaveFn, done0: set<string>, ledger0: string, files0: set<string>,
                                       urls: seq<string>, visit: nat -> Visit, n: nat)
    requires n <= |urls|
    ensures |Runs(save, Start(done0, ledger0, files0), urls, visit, n).outcomes| == n
  {
    if n == 0 {
      assert Runs(save, Start(done0, ledger0, files0), urls, visit, n) == Start(done0, ledger0, files0);
    } else {
      RunsOutcomes(save, done0, ledger0, files0, urls, visit, n - 1);
      OutcomesCount(save, Start(done0, ledger0, files0), urls, visit, n);
    }
  }

  lemma OutcomesCount(save: SaveFn, s0: RunState, urls: seq<string>, visit: nat -> Visit, n: nat)
    requires 0 < n <= |urls| && |Runs(save, s0, urls, visit, n - 1).outcomes| == n - 1
    ensures |Runs(save, s0, urls, visit, n).outcomes| == n
  {
    RunsOneMore(save, s0, urls, visit, n);
  }

  lemma RunsOneMore(save: SaveFn, s0: RunState, urls: seq<string>, visit: nat -> Visit, n: nat)
    requires 0 < n <= |urls|
    ensures |Runs(save, s0, urls, visit, n).outcomes| == |Runs(save, s0, urls, visit, n - 1).outcomes| + 1
  {
    StepOutcome(save, Runs(save, s0, urls, visit, n - 1), urls[n - 1], visit(n - 1));
  }

  /** The `n`-th URL adds what the save function made of its page, given the files so far. */
  lemma RunsLastOutcome(save: SaveFn, s0: RunState, urls: seq<string>, visit: nat -> Visit, n: nat)
    requires 0 < n <= |urls|
    ensures Runs(save, s0, urls, visit, n).outcomes
      == Runs(save, s0, urls, visit, n - 1).outcomes + [save(visit(n - 1), Runs(save, s0, urls, visit, n - 1).files)]
  {
    StepOutcome(save, Runs(save, s0, urls, visit, n - 1), urls[n - 1], visit(n - 1));
  }

  /** Two save functions that agree on a page lead to the same next state. */
  lemma StepSameOutcome(save1: SaveFn, save2: SaveFn, s: RunState, u: string, v: Visit)
    requires save1(v, s.files) == save2(v, s.files)
    ensures Step(save1, s, u, v) == Step(save2, s, u, v)
  {
  }

  /** Two save functions that agree on every page the loop visits lead to the same states. */
  lemma {:induction false} RunsAgree(save1: SaveFn, save2: SaveFn, s0: RunState, urls: seq<string>, visit: nat -> Visit, n: nat)
    requires n <= |urls|
    requires forall i, files :: 0 <= i < n ==> save1(visit(i), files) == save2(visit(i), files)
    ensures Runs(save1, s0, urls, visit, n) == Runs(save2, s0, urls, visit, n)
  {
    if n > 0 {
      RunsAgree(save1, save2, s0, urls, visit, n - 1);
      StepSameOutcome(save1, save2, Runs(save2, s0, urls, visit, n - 1), urls[n - 1], visit(n - 1));
    }
  }

  /**
   * The loop runs the corrected kiosk save; as long as every page that loaded was printed, the
   * kiosk save as written runs the loop through the very same states.
   */
  lemma KioskLoopAgrees(s0: RunState, urls: seq<string>, visit: nat -> Visit, n: nat)
    requires n <= |urls|
    requires forall i :: 0 <= i < n ==> visit(i).Loaded? ==> visit(i).printed
    ensures Runs(SaveKioskAsWritten, s0, urls, visit, n) == Runs(SaveKiosk, s0, urls, visit, n)
  {
    forall i, files | 0 <= i < n
      ensures SaveKioskAsWritten(visit(i), files) == SaveKiosk(visit(i), files)
    {
      if visit(i).Loaded? {
        KioskAgreesWhenPrinted(visit(i).title, files);
      }
    }
    RunsAgree(SaveKioskAsWritten, SaveKiosk, s0, urls, visit, n);
  }

  /** One step adds exactly its page's outcome to the list. */
  lemma StepOutcome(save: SaveFn, s: RunState, u: string, v: Visit)
    ensures Step(save, s, u, v).outcomes == s.outcomes + [save(v, s.files)]
  {
  }

  /**
   * When the loop starts from the keys loaded from the ledger, the ledger still reloads to
   * exactly the done set at the end, the done set only grew, every key was appended at most
   * once, and `total_saved` is both the number of saved pages and the number of new files.
   */
  lemma LedgerMirrorsDone(m: SaveMethod, ledger0: string, files0: set<string>, urls: seq<string>, visit: nat -> Visit)
    ensures var s := Runs(Saver(m), Start(DoneKeys(ledger0), ledger0, files0), urls, visit, |urls|);
      && DoneKeys(s.ledger) == s.done
      && DoneKeys(ledger0) <= s.done
      && SplitLines(s.ledger) == SplitLines(ledger0) + s.appended
      && (forall i, j :: 0 <= i < j < |s.appended| ==> s.appended[i] != s.appended[j])
      && (forall j :: 0 <= j < |s.appended| ==> s.appended[j] !in DoneKeys(ledger0))
      && s.saved == CountSaved(s.outcomes)
      && |s.files| == |files0| + s.saved
      && (EndsWithBreak(ledger0) ==> s.ledger == TextAfterAsWritten(ledger0, s.appended))
  {
    SaverHonest(m);
    var s := Runs(Saver(m), Start(DoneKeys(ledger0), ledger0, files0), urls, visit, |urls|);
    RunsConsistent(Saver(m), DoneKeys(ledger0), ledger0, files0, urls, visit, |urls|);
    TextAfterLines(ledger0, s.appended);
    AsWrittenLedgerAgrees(ledger0, s.appended);
  }

  /** The save function the script itself calls for `--method`: the kiosk save as written. */
  function ScriptSaver(m: SaveMethod): (Visit, set<string>) -> Outcome
  {
    if m == Devtools then SaveDevtools else SaveKioskAsWritten
  }

  /** `append_done_key(done_path, k)` as written, followed by `done_keys.add(k)`. */
  function MarkDoneAsWritten(s: RunState, k: string): RunState
  {
    s.(done := s.done + {k}, ledger := AppendDoneKeyAsWritten(s.ledger, k), appended := s.appended + [k])
  }

  /** The body of the script's save loop for one URL, with the append as written. */
  function StepAsWritten(save: SaveFn, s: RunState, u: string, v: Visit): RunState
  {
    var o := save(v, s.files);
    var k := CanonicalKey(u);
    if o.Saved? && k.Some? && k.value !in s.done then MarkDoneAsWritten(Record(s, o), k.value)
    else Record(s, o)
  }

  /** The state of the script's loop after the first `n` URLs. */
  function RunsAsWritten(save: SaveFn, s0: RunState, urls: seq<string>, visit: nat -> Visit, n: nat): RunState
    requires n <= |urls|
  {
    if n == 0 then s0 else StepAsWritten(save, RunsAsWritten(save, s0, urls, visit, n - 1), urls[n - 1], visit(n - 1))
  }

  lemma TextAfterAsWrittenSnoc(ledger0: string, ks: seq<string>, k: string)
    ensures TextAfterAsWritten(ledger0, ks + [k]) == AppendDoneKeyAsWritten(TextAfterAsWritten(ledger0, ks), k)
  {
    assert (ks + [k])[..|ks|] == ks;
  }

  /** One step of the script's loop is the model's step, with the ledger written as the script writes it. */
  lemma StepAsWrittenIsStep(save: SaveFn, s: RunState, u: string, v: Visit, ledger0: string)
    ensures StepAsWritten(save, s.(ledger := TextAfterAsWritten(ledger0, s.appended)), u, v)
      == Step(save, s, u, v).(ledger := TextAfterAsWritten(ledger0, Step(save, s, u, v).appended))
  {
    var k := CanonicalKey(u);
    if k.Some? {
      TextAfterAsWrittenSnoc(ledger0, s.appended, k.value);
    }
  }

  /**
   * The script's loop makes the same decisions as the model's and differs from it only in the
   * ledger text, which is the as-written append of the same keys.
   */
  lemma {:induction false} RunsAsWrittenIsRuns(save: SaveFn, done0: set<string>, ledger0: string, files0: set<string>,
                                              urls: seq<string>, visit: nat -> Visit, n: nat)
    requires n <= |urls|
    ensures var s := Runs(save, Start(done0, ledger0, files0), urls, visit, n);
      RunsAsWritten(save, Start(done0, ledger0, files0), urls, visit, n) == s.(ledger := TextAfterAsWritten(ledger0, s.appended))
  {
    var s0 := Start(done0, ledger0, files0);
    if n == 0 {
      assert TextAfterAsWritten(ledger0, s0.appended) == ledger0;
    } else {
      var prev := Runs(save, s0, urls, visit, n - 1);
      RunsAsWrittenIsRuns(save, done0, ledger0, files0, urls, visit, n - 1);
      assert RunsAsWritten(save, s0, urls, visit, n) == StepAsWritten(save, RunsAsWritten(save, s0, urls, visit, n - 1), urls[n - 1], visit(n - 1));
      assert Runs(save, s0, urls, visit, n) == Step(save, prev, urls[n - 1], visit(n - 1));
      StepAsWrittenIsStep(save, prev, urls[n - 1], visit(n - 1), ledger0);
    }
  }

  /**
   * The script's own loop, with its own append and kiosk save, ends in exactly the model's state
   * when the ledger starts empty or ends with a line break and, in kiosk mode, every page that
   * loaded was printed.
   */
  lemma ScriptLoopIsModel(m: SaveMethod, ledger0: string, files0: set<string>, urls: seq<string>, visit: nat -> Visit)
    requires EndsWithBreak(ledger0)
    requires m == Kiosk ==> forall i :: 0 <= i < |urls| ==> visit(i).Loaded? ==> visit(i).printed
    ensures RunsAsWritten(ScriptSaver(m), Start(DoneKeys(ledger0), ledger0, files0), urls, visit, |urls|)
      == Runs(Saver(m), Start(DoneKeys(ledger0), ledger0, files0), urls, visit, |urls|)
  {
    var s0 := Start(DoneKeys(ledger0), ledger0, files0);
    RunsAsWrittenIsRuns(ScriptSaver(m), DoneKeys(ledger0), ledger0, files0, urls, visit, |urls|);
    if m == Kiosk {
      KioskLoopAgrees(s0, urls, visit, |urls|);
    }
    assert Runs(ScriptSaver(m), s0, urls, visit, |urls|) == Runs(Saver(m), s0, urls, visit, |urls|);
    LedgerMirrorsDone(m, ledger0, files0, urls, visit);
  }

  /** A key that is done stays done through the later URLs. */
  lemma {:induction false} StaysDone(save: SaveFn, s0: RunState, urls: seq<string>, visit: nat -> Visit, x: string, i: nat, n: nat)
    requires i <= n <= |urls| && x in Runs(save, s0, urls, visit, i).done
    ensures x in Runs(save, s0, urls, visit, n).done
    decreases n
  {
    if i < n {
      StaysDone(save, s0, urls, visit, x, i, n - 1);
      RunsDoneGrows(save, s0, urls, visit, n);
    }
  }

  /** One more URL only adds to the done set. */
  lemma RunsDoneGrows(save: SaveFn, s0: RunState, urls: seq<string>, visit: nat -> Visit, k: nat)
    requires 0 < k <= |urls|
    ensures Runs(save, s0, urls, visit, k - 1).done <= Runs(save, s0, urls, visit, k).done
  {
    var prev := Runs(save, s0, urls, visit, k - 1);
    StepDoneGrows(save, prev, urls[k - 1], visit(k - 1));
  }

  lemma StepDoneGrows(save: SaveFn, s: RunState, u: string, v: Visit)
    ensures s.done <= Step(save, s, u, v).done
  {
  }

  /** When the `i`-th URL is saved and has a key, that key is done from then on. */
  lemma SavedUrlIsDone(save: SaveFn, s0: RunState, urls: seq<string>, visit: nat -> Visit, i: nat)
    requires i < |urls| && CanonicalKey(urls[i]).Some?
    requires save(visit(i), Runs(save, s0, urls, visit, i).files).Saved?
    ensures CanonicalKey(urls[i]).value in Runs(save, s0, urls, visit, |urls|).done
  {
    var prev := Runs(save, s0, urls, visit, i);
    SavedKeyIsDone(save, prev, urls[i], visit(i));
    StaysDone(save, s0, urls, visit, CanonicalKey(urls[i]).value, i + 1, |urls|);
  }

  /**
   * Resumption: once a run over `urls` is over, filtering the same list against the keys the
   * ledger reloads to drops every URL that has a key and whose page the run saved (the save
   * function's outcome for the `i`-th page, which `RunsLastOutcome` places in the outcome
   * list), so a second run does not save those pages again.
   */
  lemma RerunSkipsSaved(m: SaveMethod, ledger0: string, files0: set<string>, urls: seq<string>, visit: nat -> Visit, i: nat)
    requires i < |urls| && CanonicalKey(urls[i]).Some?
    requires Saver(m)(visit(i), Runs(Saver(m), Start(DoneKeys(ledger0), ledger0, files0), urls, visit, i).files).Saved?
    ensures urls[i] !in FilterNotDone(urls, DoneKeys(Runs(Saver(m), Start(DoneKeys(ledger0), ledger0, files0), urls, visit, |urls|).ledger))
  {
    var s0 := Start(DoneKeys(ledger0), ledger0, files0);
    var s := Runs(Saver(m), s0, urls, visit, |urls|);
    SavedUrlIsDone(Saver(m), s0, urls, visit, i);
    LedgerMirrorsDone(m, ledger0, files0, urls, visit);
    FilterMembers(urls, DoneKeys(s.ledger), urls[i]);
  }

  /** The per-URL loop of `main`. */
  method SaveLoop(save: SaveFn, urls: seq<string>, visit: nat -> Visit, done0: set<string>, ledger0: string, files0: set<string>)
    returns (done: set<string>, ledger: string, files: set<string>, saved: nat, appended: seq<string>, outcomes: seq<Outcome>)
    ensures RunState(done, ledger, files, saved, appended, outcomes) == Runs(save, Start(done0, ledger0, files0), urls, visit, |urls|)
  {
    done, ledger, files, saved, appended, outcomes := done0, ledger0, files0, 0, [], [];
    var i := 0;
    while i < |urls|
      invariant i <= |urls|
      invariant RunState(done, ledger, files, saved, appended, outcomes) == Runs(save, Start(done0, ledger0, files0), urls, visit, i)
    {
      done, ledger, files, saved, appended, outcomes := SaveOne(save, urls[i], visit(i), done, ledger, files, saved, appended, outcomes);
      i := i + 1;
    }
  }

  /**
   * The body of the loop for one URL: save the page; on a save count it and, when the URL has
   * a key not yet done, append the key to the ledger and mark it done.
   */
  method SaveOne(save: SaveFn, u: string, v: Visit, done: set<string>, ledger: string, files: set<string>, saved: nat,
                 appended: seq<string>, outcomes: seq<Outcome>)
    returns (done': set<string>, ledger': string, files': set<string>, saved': nat, appended': seq<string>, outcomes': seq<Outcome>)
    ensures RunState(done', ledger', files', saved', appended', outcomes')
      == Step(save, RunState(done, ledger, files, saved, appended, outcomes), u, v)
  {
    done', ledger', files', saved', appended' := done, ledger, files, saved, appended;
    var o := save(v, files);
    if o.Saved? {
      saved' := saved + 1;
      files' := files + {o.name};
      var k := CanonicalKey(u);
      if k.Some? && k.value !in done {
        ledger' := AppendDoneKey(ledger, k.value);
        done' := done + {k.value};
        appended' := appended + [k.value];
      }
    }
    outcomes' := outcomes + [o];
  }

  /**
   * URL-file mode: load the done keys, read the URL list, drop the done URLs and save the
   * rest. Afterwards the ledger reloads to exactly the done set.
   */
  method RunUrlFile(m: SaveMethod, rawLines: seq<string>, visit: nat -> Visit, ledger0: string, files0: set<string>)
    returns (done: set<string>, ledger: string, files: set<string>, saved: nat, outcomes: seq<Outcome>)
    ensures var urls := FilterNotDone(ReadUrlList(rawLines), DoneKeys(ledger0));
      var s := Runs(Saver(m), Start(DoneKeys(ledger0), ledger0, files0), urls, visit, |urls|);
      done == s.done && ledger == s.ledger && files == s.files && saved == s.saved && outcomes == s.outcomes
    ensures DoneKeys(ledger) == done
  {
    var keys := LoadDoneKeys(ledger0);
    var urls := ReadUrlList(rawLines);
    urls := FilterNotDone(urls, keys);
    var appended;
    done, ledger, files, saved, appended, outcomes := SaveLoop(Saver(m), urls, visit, keys, ledger0, files0);
    LedgerMirrorsDone(m, ledger0, files0, urls, visit);
  }

  /**
   * Category mode: take the category number given (an empty one counts as not given) or look
   * it up by name, enumerate the category's posts, drop the done ones and save the rest.
   * `listing(c)` is the listing service for category number `c`. A category that cannot be
   * found stops the run before anything is saved.
   */
  method RunCategory(m: SaveMethod, blogId: string, categoryNo: Option<string>, categoryKey: string, cats: seq<CategoryEntry>,
                     listing: string -> seq<seq<string>>, visit: nat -> Visit, ledger0: string, files0: set<string>)
    returns (found: bool, fetched: nat, done: set<string>, ledger: string, files: set<string>, saved: nat, outcomes: seq<Outcome>)
    ensures found <==> (categoryNo.Some? && categoryNo.value != "") || FindCategoryLink(cats, categoryKey).Found?
    ensures !found ==> ledger == ledger0 && files == files0 && saved == 0 && outcomes == []
    ensures DoneKeys(ledger) == done
    ensures found ==>
      var c := if categoryNo.Some? && categoryNo.value != "" then categoryNo.value else FindCategoryLink(cats, categoryKey).catNo;
      && 1 <= fetched <= |listing(c)| + 1 && Stops(listing(c), fetched) && NoStopBefore(listing(c), fetched)
      && var urls := FilterNotDone(Urls(blogId, Dedup(Entries(listing(c), fetched))), DoneKeys(ledger0));
        var s := Runs(Saver(m), Start(DoneKeys(ledger0), ledger0, files0), urls, visit, |urls|);
        done == s.done && ledger == s.ledger && files == s.files && saved == s.saved && outcomes == s.outcomes
  {
    var keys := LoadDoneKeys(ledger0);
    var catNo: string;
    if categoryNo.Some? && categoryNo.value != "" {
      catNo := categoryNo.value;
    } else {
      var r := FindCategoryLink(cats, categoryKey);
      if r.NotFound? {
        found, fetched, done, ledger, files, saved, outcomes := false, 0, keys, ledger0, files0, 0, [];
        return;
      }
      catNo := r.catNo;
    }
    found := true;
    var links;
    links, fetched := EnumerateCategory(blogId, listing(catNo));
    links := FilterNotDone(links, keys);
    var appended;
    done, ledger, files, saved, appended, outcomes := SaveLoop(Saver(m), links, visit, keys, ledger0, files0);
    LedgerMirrorsDone(m, ledger0, files0, links, visit);
  }
}
