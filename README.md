# Naver blog category to PDF: a Dafny model of the saver's bookkeeping

`save_naver_blog_category_to_pdf.py` saves every post of one category of a Naver blog as a
PDF. It gets the category's post list from the blog's title-list service, or reads URLs from
a file. It skips posts already recorded in the ledger `done_urls.txt`, renders each remaining
post in Chrome, and records the key of each saved post in the ledger so that a later run
resumes where this one stopped.

This project models the string, set and loop logic of that script. The browser, the HTTP
service and the file system are parameters. It proves what the script promises about that
logic, with one exception. The save loop is modelled with the corrected forms of two helpers
that the script gets wrong (see "## Findings"):

- the ledger append, which as written glues a key onto an unterminated last line;
- the kiosk save, which as written counts an unprinted page as saved once any PDF is present.

The script's own loop is modelled too (`Orchestrator.RunsAsWritten`), and
`Orchestrator.ScriptLoopIsModel` proves that it ends in exactly the corrected loop's state
under two conditions. The ledger must start empty or end with a line break, as every ledger
the script writes itself does. In kiosk mode, every page that loaded must have printed.

Modules (one per concern of the script):

- `Options`, `PyText`: the Python builtins the script relies on. These are `str.isspace` and
  `\s`, `isdigit`, `strip`, the substring test `in`, and `str.splitlines` with its full set
  of line boundaries and `\r\n` as one break.
- `Filename`: `safe_filename`.
- `PostKeys`: `canonical_key_from_url`, following `re.search` exactly. The leftmost match
  wins, `\d+` is greedy, and `$` also matches before a final newline.
- `Ledger`: `load_done_keys` and `append_done_key`. The ledger file is modelled as its text.
  A missing file is the empty text.
- `Enumerator`: `enumerate_category_via_api`, as an imperative loop over a finite sequence of
  listing pages. Every page after the last one is empty.
- `Category`: `find_category_link_exact`, over the scraped list of categories.
- `Orchestrator`: covers several pieces of the script.
  - The login-title check and the pre-render decisions of both save functions.
  - The URL-file read and the done-key filter.
  - The per-URL save loop of `main`, as methods over an explicit run state (done keys,
    ledger text, output file names, `total_saved`, appended keys and outcomes), proved equal
    to a step function `Runs`. The loop uses the corrected ledger append and kiosk save.
  - The two modes of `main`.
  - For the `i`-th URL of a save loop, `visit(i)` says what the browser showed: a title and
    whether the print produced a file, or a crash.

## Model

| member | source | states |
|---|---|---|
| PyText.IsSpace | save_naver_blog_category_to_pdf.py:27 | the characters `str.isspace()` and the regex class `\s` accept, as `strip()` (line 49) and `\s+` (line 27) use them |
| PyText.IsLineBoundary | save_naver_blog_category_to_pdf.py:48 | the characters at which `str.splitlines()` ends a line: `\n`, `\r`, `\v`, `\f`, `\x1c`–`\x1e`, `\x85`, `\u2028` and `\u2029` |
| PyText.IsDigit | save_naver_blog_category_to_pdf.py:39-42 | a character `\d` accepts (ASCII digits only, see "## Left out") |
| PyText.IsDigitString | save_naver_blog_category_to_pdf.py:52 | `str.isdigit()`: the string is non-empty and every character is a digit, as the ledger reader (line 52) and `append_done_key` (line 61) test it |
| PyText.LStrip | save_naver_blog_category_to_pdf.py:49 | the result is a suffix of the input, everything dropped is whitespace, and the result does not start with whitespace |
| PyText.RStrip | save_naver_blog_category_to_pdf.py:49 | the result is a prefix of the input, everything dropped is whitespace, and the result does not end with whitespace |
| PyText.Strip | save_naver_blog_category_to_pdf.py:49 | `strip()` is a slice whose cut-off ends are all whitespace, and it has no whitespace at either end |
| PyText.StripOfStripped | save_naver_blog_category_to_pdf.py:49 | stripping a string with no whitespace at its ends gives it back |
| PyText.Contains | save_naver_blog_category_to_pdf.py:181 | `key in text`: a prefix occurrence makes it true, and a key longer than the text never occurs |
| PyText.ContainsIff | save_naver_blog_category_to_pdf.py:181 | `key in text` holds exactly when `key` occurs in `text` at some index |
| PyText.SplitLines | save_naver_blog_category_to_pdf.py:48 | `str.splitlines()`: the text up to each line boundary, `\r\n` counting as one, with no empty line after a final break |
| PyText.SplitLinesHaveNoBreaks | save_naver_blog_category_to_pdf.py:48 | no line returned by `splitlines` contains a line boundary |
| PyText.SplitLinesOfConcat | save_naver_blog_category_to_pdf.py:48 | the lines of `t + u`, where `t` ends with a break and `u` does not start with `\n`, are the lines of `t` followed by the lines of `u` |
| PyText.SplitLinesOfOneLine | save_naver_blog_category_to_pdf.py:48 | a break-free line followed by `\n` splits into exactly that line |
| PyText.SplitLinesOfTerminated | save_naver_blog_category_to_pdf.py:48 | adding `\n` after an unterminated last line does not change the lines |
| PyText.SplitLinesOfLonger | save_naver_blog_category_to_pdf.py:64-65 | text without a line boundary written after an unterminated last line extends that line and leaves the others alone |
| Filename.ReplaceForbidden | save_naver_blog_category_to_pdf.py:26 | same length, and each character of the class `[\\/:*?"<>\|]` becomes `_` while every other character is kept |
| Filename.CollapseWhitespace | save_naver_blog_category_to_pdf.py:27 | the result is single-spaced, is empty exactly when the input is, starts with a space exactly when the input starts with whitespace, and adds no forbidden character |
| Filename.CollapseIsSqueeze | save_naver_blog_category_to_pdf.py:27 | collapsing whitespace runs equals the reference "map each whitespace character to a space, then drop repeated spaces" |
| Filename.Truncate | save_naver_blog_category_to_pdf.py:28 | a string longer than 180 characters becomes its first 180, and a shorter one is kept whole |
| Filename.SafeFilename | save_naver_blog_category_to_pdf.py:25-28 | the name has at most 180 characters, no forbidden character, only single spaces as whitespace, and no leading whitespace |
| Filename.SafeFilenameOfClean | save_naver_blog_category_to_pdf.py:25-28 | a name already in that shape and without a trailing space is returned unchanged |
| Filename.NoForbiddenWithPdf | save_naver_blog_category_to_pdf.py:285 | adding the `.pdf` extension brings in no forbidden character |
| PostKeys.FirstLogNo | save_naver_blog_category_to_pdf.py:39 | returns the leftmost index where `logNo=` followed by a digit starts, or reports that there is none |
| PostKeys.DigitRunEnd | save_naver_blog_category_to_pdf.py:39 | greedy `\d+`: the run of digits is maximal |
| PostKeys.DigitRunStart | save_naver_blog_category_to_pdf.py:42 | the run of digits that ends at a given position is maximal to the left |
| PostKeys.TrailingKey | save_naver_blog_category_to_pdf.py:42-43 | the second pattern yields only runs of six or more digits |
| PostKeys.CanonicalKey | save_naver_blog_category_to_pdf.py:38-43 | any key returned is a non-empty string of digits |
| PostKeys.KeyFromLogNo | save_naver_blog_category_to_pdf.py:39-41 | when the leftmost `logNo=<digit>` starts at `i`, the key is the whole digit run after it |
| PostKeys.KeyFromTrailingDigits | save_naver_blog_category_to_pdf.py:42-43 | with no `logNo=<digit>` anywhere, the key is `d` if and only if the URL ends with `/` and six or more digits `d`, optionally followed by one `\n`; otherwise there is no key |
| PostKeys.TrailingKeyOfSlashDigits | save_naver_blog_category_to_pdf.py:42-43 | a URL ending in `/` and six or more digits yields those digits from the second pattern |
| PostKeys.SlashDigitsOfTrailingKey | save_naver_blog_category_to_pdf.py:42-43 | whatever the second pattern yields is six or more digits after a `/` at the end |
| PostKeys.KeyOfPostViewUrl | save_naver_blog_category_to_pdf.py:248 | the key of an enumerated post URL is its own `logNo`, when the blog id holds no `=` and the `logNo` is all digits |
| Ledger.LineKey | save_naver_blog_category_to_pdf.py:49-57 | a blank line has no key, an all-digit stripped line is its own key, and any key is a digit string |
| Ledger.KeysOfMembers | save_naver_blog_category_to_pdf.py:48-57 | the collected set holds exactly the keys of the individual lines |
| Ledger.DoneKeys | save_naver_blog_category_to_pdf.py:45-58 | every key loaded from the ledger is a non-empty run of digits |
| Ledger.DoneKeysMembers | save_naver_blog_category_to_pdf.py:45-58 | a key is loaded if and only if some line of the ledger yields it |
| Ledger.LoadDoneKeys | save_naver_blog_category_to_pdf.py:45-58 | the loop returns the set of keys of the ledger's lines |
| Ledger.CollectKeys | save_naver_blog_category_to_pdf.py:48-57 | the loop adds each line's key, collecting exactly the keys of all lines |
| Ledger.LineKeyOfKey | save_naver_blog_category_to_pdf.py:49-53 | a line that is a key yields that key |
| Ledger.DoneKeysOfKeyLine | save_naver_blog_category_to_pdf.py:48-53 | a ledger holding one key, with or without a final newline, loads as that key |
| Ledger.AppendKeyOf | save_naver_blog_category_to_pdf.py:61 | an all-digit argument is its own key, and any key written is a digit string |
| Ledger.AppendDoneKeyAsWritten | save_naver_blog_category_to_pdf.py:60-65 | as written: no key leaves the file alone; otherwise the file grows by the key and a newline and ends with a break; after a text ending with a break the key is a new last line, and after an unterminated last line the key is glued onto that line |
| Ledger.AsWrittenLines | save_naver_blog_category_to_pdf.py:64-65 | the lines of `text + k + "\n"`, in both cases: a new last line after a break, else the last line extended by `k` |
| Ledger.Terminated | save_naver_blog_category_to_pdf.py:64-65 | ending the last line with a break keeps the old text in front and does not change the lines |
| Ledger.AppendDoneKey | save_naver_blog_category_to_pdf.py:60-65 | corrected append: no key leaves the file alone; otherwise the lines become the old lines followed by the key, whatever the file ended with |
| Ledger.AppendKeepsText | save_naver_blog_category_to_pdf.py:64 | appending keeps the old text as it was, in front |
| Ledger.LoadAfterAppend | save_naver_blog_category_to_pdf.py:45-65 | corrected append: reloading after an append gives the old keys plus the appended key, or the old keys when none could be derived |
| Ledger.AppendKey | save_naver_blog_category_to_pdf.py:60-65 | corrected append: appending a digit key adds it as the last line, and reloading adds exactly it |
| Ledger.AsWrittenWhenTerminated | save_naver_blog_category_to_pdf.py:64-65 | the as-written append is correct when the ledger ends with a line break |
| Ledger.AsWrittenMergesKeys | save_naver_blog_category_to_pdf.py:64-65 | as written, a ledger holding one key with no final newline reloads after an append as one merged key, where the corrected append gives both |
| Ledger.AsWrittenMergesLastLine | save_naver_blog_category_to_pdf.py:64-65 | `123` followed by an append of `456` reloads as `{123456}` as written and as `{123, 456}` corrected |
| Enumerator.Page | save_naver_blog_category_to_pdf.py:234-238 | pages outside the listing are empty |
| Enumerator.Dedup | save_naver_blog_category_to_pdf.py:242-249 | the kept `logNo`s are never more than the entries read, and never the empty string |
| Enumerator.Urls | save_naver_blog_category_to_pdf.py:248 | one `PostView.naver?blogId=…&logNo=…` URL per kept `logNo`, in the same order |
| Enumerator.DedupExtends | save_naver_blog_category_to_pdf.py:241-249 | reading more entries only extends the kept list |
| Enumerator.DedupMembers | save_naver_blog_category_to_pdf.py:242-249 | a `logNo` is kept if and only if it is non-empty and appears on a fetched page |
| Enumerator.DedupDistinct | save_naver_blog_category_to_pdf.py:246-248 | no `logNo` is kept twice |
| Enumerator.DedupOrder | save_naver_blog_category_to_pdf.py:242-248 | kept `logNo`s are in the order of their first occurrence |
| Enumerator.PostViewUrlInjective | save_naver_blog_category_to_pdf.py:248 | different `logNo`s give different URLs |
| Enumerator.UrlsDistinct | save_naver_blog_category_to_pdf.py:248 | the URL list of distinct `logNo`s has no duplicates |
| Enumerator.EnumerateCategory | save_naver_blog_category_to_pdf.py:203-260 | pages are requested from 1 on; the walk stops at the first page that is empty or adds nothing new, after at most one request more than the number of non-empty pages; the result is the URLs of the distinct non-empty `logNo`s of the fetched pages, in first-occurrence order |
| Enumerator.ReadPage | save_naver_blog_category_to_pdf.py:241-249 | `seen` and `out` take in exactly the page's new non-empty `logNo`s, and `added` counts them |
| Enumerator.EnumeratedKeys | save_naver_blog_category_to_pdf.py:248 | each enumerated URL's key is the `logNo` it was built from, when the blog id holds no `=` and that `logNo` is all digits |
| Category.FirstMatch | save_naver_blog_category_to_pdf.py:177-182 | finds the first entry that passes the test, or reports that none does |
| Category.FindCategoryLink | save_naver_blog_category_to_pdf.py:175-183 | a found category is an entry whose name contains the key |
| Category.ExactMatchWins | save_naver_blog_category_to_pdf.py:177-179 | the first entry whose name equals the key is chosen |
| Category.SubstringFallback | save_naver_blog_category_to_pdf.py:180-182 | with no exact match, the first entry whose name contains the key is chosen |
| Category.NotFoundIff | save_naver_blog_category_to_pdf.py:183 | the lookup fails if and only if no name contains the key |
| Orchestrator.IsLoginTitle | save_naver_blog_category_to_pdf.py:281 | the login test of both save functions (line 326 repeats it): the title holds both `네이버` and `로그인`, or it holds `로그인` |
| Orchestrator.LoginTitleIff | save_naver_blog_category_to_pdf.py:281 | the login test holds exactly when the title contains `로그인` |
| Orchestrator.EffectiveTitle | save_naver_blog_category_to_pdf.py:280 | the title used is never empty, and is the page title whenever that is not empty |
| Orchestrator.PdfName | save_naver_blog_category_to_pdf.py:285 | the file name has at most 184 characters and no forbidden character |
| Orchestrator.Target | save_naver_blog_category_to_pdf.py:280-288 | rendering goes ahead if and only if the title does not mention login and the target file does not exist, and the target is the sanitised title plus `.pdf` |
| Orchestrator.SaveDevtools | save_naver_blog_category_to_pdf.py:264-308 | a loaded page is saved if and only if it passes the checks, under a new file name; a crash is a failure and nothing else is |
| Orchestrator.IsPdfName | save_naver_blog_category_to_pdf.py:337 | a file name the pattern `*.pdf` matches: it ends in `.pdf` |
| Orchestrator.HasPdf | save_naver_blog_category_to_pdf.py:337-338 | `out_dir.glob("*.pdf")` is non-empty: some file in the output directory ends in `.pdf` |
| Orchestrator.SaveKiosk | save_naver_blog_category_to_pdf.py:310-347 | corrected kiosk save: as the DevTools save, but a save also needs the print to have produced a file |
| Orchestrator.SaveKioskAsWritten | save_naver_blog_category_to_pdf.py:335-347 | as written, a page that passes the checks is reported saved when printed or when any PDF is already in the output directory, under its own new target name |
| Orchestrator.KioskAsWrittenSavesUnprinted | save_naver_blog_category_to_pdf.py:336-345 | with one PDF already present, an unprinted page is reported saved as written and skipped by the corrected function |
| Orchestrator.KioskAgreesWhenPrinted | save_naver_blog_category_to_pdf.py:335-347 | when the print lands, the as-written and corrected kiosk saves agree |
| Orchestrator.SaverSkips | save_naver_blog_category_to_pdf.py:280-288 | neither save method saves a login page or over an existing file |
| Orchestrator.Saver | save_naver_blog_category_to_pdf.py:388-391 | the save function `--method` selects: the DevTools save, or the corrected kiosk save |
| Orchestrator.SaverHonest | save_naver_blog_category_to_pdf.py:285-288 | neither save method reports a save under the name of a file that already exists |
| Orchestrator.KioskAsWrittenHonest | save_naver_blog_category_to_pdf.py:330-347 | the kiosk save as written also never reports a save under the name of a file that already exists |
| Orchestrator.FilterNotDone | save_naver_blog_category_to_pdf.py:384 | the filter never lengthens the list |
| Orchestrator.FilterMembers | save_naver_blog_category_to_pdf.py:384 | a URL is kept if and only if it is in the list and has no key or a key not yet done |
| Orchestrator.FilterOfConcat | save_naver_blog_category_to_pdf.py:429 | the filter works piece by piece, so it keeps the order of the list |
| Orchestrator.KeptNonBlankMembers | save_naver_blog_category_to_pdf.py:382 | an entry is kept if and only if it is the non-empty image of some line |
| Orchestrator.ReadUrlList | save_naver_blog_category_to_pdf.py:381-382 | every URL read is non-empty and already stripped |
| Orchestrator.ReadUrlListMembers | save_naver_blog_category_to_pdf.py:381-382 | the URL list holds exactly the stripped forms of the non-blank lines |
| Orchestrator.MarkDone | save_naver_blog_category_to_pdf.py:396-398 | a new key is appended to the ledger (corrected append), added to the done set and noted as appended |
| Orchestrator.Step | save_naver_blog_category_to_pdf.py:386-400 | one URL: save; on a save add the file and count it, and mark the URL's key when it has one that is not done |
| Orchestrator.Runs | save_naver_blog_category_to_pdf.py:385-403 | the state after the first `n` URLs, one `Step` each |
| Orchestrator.CountSavedSnoc | save_naver_blog_category_to_pdf.py:392-393 | helper: one more outcome adds one to the count exactly when it is a save |
| Orchestrator.TextAfterLines | save_naver_blog_category_to_pdf.py:397 | with the corrected append, appending keys one by one adds them as the last lines, and reloading gives the old keys plus those keys |
| Orchestrator.AsWrittenLedgerAgrees | save_naver_blog_category_to_pdf.py:64-65 | from a ledger that is empty or ends with a line break, appending keys as written gives the same text as the corrected append, and after any key the text ends with a break |
| Orchestrator.StepIgnoresLedger | save_naver_blog_category_to_pdf.py:386-400 | the ledger text is only written by the loop: a different ledger text leads to the same done set, files, count, appended keys and outcomes |
| Orchestrator.NotSavedChangesNothing | save_naver_blog_category_to_pdf.py:399-400 | a URL that is not saved changes nothing but the outcome list |
| Orchestrator.SavedKeyIsDone | save_naver_blog_category_to_pdf.py:392-398 | after a save, the URL's key (if any) is done, and the done set only grew |
| Orchestrator.SkippedPageAppendsNothing | save_naver_blog_category_to_pdf.py:280-288 | a login page or a page whose file exists only adds a `Skipped` outcome: no count, no file, no ledger line |
| Orchestrator.StepOutcome | save_naver_blog_category_to_pdf.py:386-400 | each URL adds exactly its save function's outcome to the list |
| Orchestrator.StepSameOutcome | save_naver_blog_category_to_pdf.py:388-391 | two save functions that give the same outcome for a page lead to the same next state |
| Orchestrator.RunsAgree | save_naver_blog_category_to_pdf.py:385-403 | the loop depends on the save function only through its outcomes: two save functions that agree on every visited page give the same states |
| Orchestrator.KioskLoopAgrees | save_naver_blog_category_to_pdf.py:335-347 | while every page that loaded was printed, the loop with the kiosk save as written passes through the same states as with the corrected one |
| Orchestrator.StepKeeps | save_naver_blog_category_to_pdf.py:386-400 | one URL keeps the loop invariant: the done set is the old one plus appended keys, each new, a digit string and appended once; the ledger is the old one with those keys appended; `total_saved` counts the saves; and that many new files exist |
| Orchestrator.RunsConsistent | save_naver_blog_category_to_pdf.py:385-403 | the invariant holds after any number of URLs |
| Orchestrator.RunsOutcomes | save_naver_blog_category_to_pdf.py:386-403 | the loop records exactly one outcome per URL |
| Orchestrator.RunsLastOutcome | save_naver_blog_category_to_pdf.py:389-391 | the `n`-th outcome is what the save function made of the `n`-th page, given the files present then |
| Orchestrator.LedgerMirrorsDone | save_naver_blog_category_to_pdf.py:385-403 | starting from the loaded keys, the ledger reloads to exactly the final done set; the done set only grew; the ledger's lines are the old ones plus the appended keys; no key is appended twice or was done before; `total_saved` is the number of saves and of new files; and from a ledger that is empty or ends with a break, the ledger is the text the script's own append writes |
| Orchestrator.ScriptSaver | save_naver_blog_category_to_pdf.py:388-391 | the save function the script calls for `--method`: the DevTools save, or the kiosk save as written |
| Orchestrator.MarkDoneAsWritten | save_naver_blog_category_to_pdf.py:396-398 | the script's marking of a new key: the append as written, then the key added to the done set |
| Orchestrator.StepAsWritten | save_naver_blog_category_to_pdf.py:386-400 | the script's body of the loop for one URL, with the append as written |
| Orchestrator.RunsAsWritten | save_naver_blog_category_to_pdf.py:385-403 | the script's loop: its state after the first `n` URLs |
| Orchestrator.TextAfterAsWrittenSnoc | save_naver_blog_category_to_pdf.py:60-65 | helper (unfolds the fold by one key): appending one more key as written extends the ledger text written so far |
| Orchestrator.StepAsWrittenIsStep | save_naver_blog_category_to_pdf.py:386-400 | one step of the script's loop is the model's step, except that the ledger is the as-written append of the same keys |
| Orchestrator.RunsAsWrittenIsRuns | save_naver_blog_category_to_pdf.py:385-403 | after any number of URLs the script's loop holds the model's done set, files, count, appended keys and outcomes, and its ledger is the model's keys appended as written |
| Orchestrator.ScriptLoopIsModel | save_naver_blog_category_to_pdf.py:385-403 | from a ledger that is empty or ends with a line break, and in kiosk mode with every loaded page printed, the script's loop ends in exactly the model's state |
| Orchestrator.StaysDone | save_naver_blog_category_to_pdf.py:396-398 | a key that is done stays done through the rest of the loop |
| Orchestrator.SavedUrlIsDone | save_naver_blog_category_to_pdf.py:392-398 | the key of every saved URL is done at the end of the loop |
| Orchestrator.RerunSkipsSaved | save_naver_blog_category_to_pdf.py:384-398 | after a run, filtering the same URL list against the reloaded ledger drops every saved URL that has a key, so a second run does not save it again |
| Orchestrator.SaveLoop | save_naver_blog_category_to_pdf.py:385-403 | the loop's final state is `Runs` over all URLs |
| Orchestrator.SaveOne | save_naver_blog_category_to_pdf.py:387-402 | the body for one URL computes `Step`: save, count, and append and mark the key when it is present and new |
| Orchestrator.RunUrlFile | save_naver_blog_category_to_pdf.py:380-405 | URL-file mode saves the stripped non-blank lines that are not done, and the ledger reloads to the final done set |
| Orchestrator.RunCategory | save_naver_blog_category_to_pdf.py:411-452 | a non-empty `--category-no` is used as given, else the category is looked up by name; a failed lookup stops before anything is saved; otherwise the enumerated, filtered URLs are saved and the ledger reloads to the final done set |

## Left out

- Browser control is not modelled: `build_driver`, `try_switch_to_mainframe`, the waits, and
  the DOM walk of `get_all_categories`. These are calls into Selenium. The scraped category
  list is the parameter `cats`, and what a page showed is `visit(i)`.
- Rendering is not modelled: `Page.printToPDF`, base64 decoding, writing the bytes, and
  `window.print()`. The renderer's effect is the `printed` flag. A save adds its file name to
  the set of names in the output directory.
- The HTTP session, status checks, JSON decoding, the one retry, `totalCount` and the debug
  output are not modelled. The listing service is `listing(c)`, one sequence of `logNo`
  fields per page.
  - A missing, null or otherwise falsy `logNo` is the empty string.
  - A numeric `logNo` is taken as its decimal text.
- `human_delay` and every `time.sleep` are left out. They have no logical effect.
- `join_abs` is left out: the chosen category's `href` is returned as scraped. Only its
  `catNo` is used afterwards.
- Argument parsing, directory creation, the `--blog-id` check and the dump file
  `collected_…_ALL.txt` are left out.
- Exceptions:
  - An exception inside a save call is a `Crashed` visit, which gives a `Failed` outcome.
  - Exceptions elsewhere are not modelled (a failing ledger write, unreadable files, a
    failing HTTP request).
  - A category that cannot be found raises in the script. The model reports it as
    `found == false` with nothing saved.
- Reading the files is partly a parameter.
  - The URL file's split into lines by Python's file iterator is the parameter `rawLines`.
  - The ledger is read as text and split by `splitlines`.
  - Character decoding is not modelled.
- PyText.IsDigit: only ASCII `0`–`9`. Python's `\d` also accepts other Unicode digits, so
  PostKeys.CanonicalKey is not modelled on such input.
- PyText.IsDigitString: built on PyText.IsDigit, so it accepts only ASCII digits where
  `str.isdigit` also accepts other Unicode digits (and superscripts). Ledger.LineKey and
  Ledger.AppendKeyOf are not modelled on such input.
- Facts about the script that the model keeps as they are:
  - an existing target file means a skip, not a renamed save;
  - the URL list is not deduplicated by key before filtering;
  - a ledger line starting with `#` is ignored only when it yields no key.
- The save loop runs on the corrected ledger append (Ledger.AppendDoneKey) and, in kiosk mode,
  on the corrected kiosk save (Orchestrator.SaveKiosk). The script's own helpers differ in two
  ways, each listed under "## Findings".
  - A ledger whose last line has no line break gets its first appended key glued onto that
    line.
  - An unprinted kiosk page counts as saved once any PDF is in the output directory.

  Orchestrator.RunsAsWritten is the script's own loop. Orchestrator.RunsAsWrittenIsRuns
  proves that it makes the same decisions as Orchestrator.Runs and differs only in the ledger
  text. Orchestrator.ScriptLoopIsModel proves that both loops end in the same state when the
  ledger starts empty or ends with a line break and, in kiosk mode, every loaded page was
  printed. The members below promise their results for the corrected loop only.
- Orchestrator.MarkDone: appends with the corrected append; the script's append gives the same
  text when the ledger ends with a line break.
- Orchestrator.Saver: picks the corrected kiosk save for `Kiosk`; the script's kiosk save
  agrees whenever the page was printed.
- Orchestrator.Step: built on Orchestrator.MarkDone and Orchestrator.Saver, so it is the
  script's step only under their conditions.
- Orchestrator.Runs: repeats Orchestrator.Step, under the same conditions.
- Orchestrator.SaveOne: computes Orchestrator.Step, with the corrected append and kiosk save.
- Orchestrator.SaveLoop: computes Orchestrator.Runs, with the corrected append and kiosk save.
- Orchestrator.TextAfterLines: states the lines after the corrected appends. As written, this
  holds only from a ledger that is empty or ends with a line break.
- Orchestrator.StepKeeps: keeps the invariant of the corrected loop. Its ledger clause is the
  corrected append's text.
- Orchestrator.RunsConsistent: the invariant of the corrected loop, as for
  Orchestrator.StepKeeps.
- Orchestrator.LedgerMirrorsDone: states the corrected loop's ledger. It also proves that this
  is the script's text when the ledger starts empty or ends with a line break. The file count
  is that of the corrected kiosk save: the kiosk save as written may instead rename an older
  PDF onto the target, which adds no file.
- Orchestrator.RerunSkipsSaved: holds for the corrected loop. With the script's append it
  needs a ledger that starts empty or ends with a line break. For an unterminated one, the
  first saved key is merged into the old last line and not found again.
- Orchestrator.RunUrlFile: runs the corrected loop; the statements of
  Orchestrator.LedgerMirrorsDone carry over under the same conditions.
- Orchestrator.RunCategory: runs the corrected loop, as for Orchestrator.RunUrlFile.
- Orchestrator.SaveKioskAsWritten: the file set records the target name only. Which older
  PDF the polling renames onto the target is not modelled, so neither is that file leaving.
- Idempotence of a re-run is stated only in the form the script supports:
  Orchestrator.RerunSkipsSaved covers saved URLs that have a key. A page that was skipped or
  failed, or that has no key, is not recorded, and a second run tries it again.

## Findings

| source | as written | input that shows it | evidently intended | confidence | as-written member | corrected member |
|---|---|---|---|---|---|---|
| save_naver_blog_category_to_pdf.py:64-65 | `append_done_key` writes `k + "\n"` straight after whatever the ledger ends with | a ledger `123` with no final newline (edited by hand, or cut short mid-write), then appending `456`: the file becomes `123456\n`, which reloads as the single key `123456` | each key on its own line, so the ledger reloads to `{123, 456}` | not executed; proved about the model | Ledger.AsWrittenMergesLastLine | Ledger.LoadAfterAppend |
| save_naver_blog_category_to_pdf.py:336-345 | the kiosk polling returns the target as soon as the output directory holds any `*.pdf`, renaming the newest one onto the target | an output directory that already holds an earlier post's `a.pdf`, and a page titled `b` whose print has not landed at the first poll: the post is reported saved as `b.pdf` (the earlier file renamed) | count a save only when this page's print produced its PDF | not executed; proved about the model | Orchestrator.KioskAsWrittenSavesUnprinted | Orchestrator.SaveKiosk |
