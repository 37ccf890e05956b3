/**
 * The batch orchestrator: for every start URL of the input file it runs
 * the scraper as a subprocess, retrying and resuming from the page the
 * scraper announced last, and records the outcome in the progress ledger,
 * which it rewrites after every URL it did not skip.
 *
 * The subprocess is an oracle: the outcome of the k-th run of the batch on
 * a given URL. The ledger file is the `Progress` row model.
 */
module Manager {
  import opened Wrappers
  import opened Text
  import opened Progress
  import Crawl

  // ----- extract_last_page -----

  /** The literal text before the captured page number. */
  const ANNOUNCE := "Scraping page "

  /** Length of the run of ASCII digits that opens `s` (what greedy `\d+` takes). */
  function DigitRun(s: string): (n: nat)
    ensures n <= |s| && AllDigits(s[..n])
    ensures n < |s| ==> !IsDigit(s[n])
  {
    if s == [] || !IsDigit(s[0]) then 0
    else
      var n := DigitRun(s[1..]);
      assert s[..n + 1] == [s[0]] + s[1..][..n];
      1 + n
  }

  /**
   * The pattern `Scraping page (\d+)\.` matched at the very start of `s`:
   * the captured digits, or None.
   */
  function MatchHere(s: string): (r: Option<string>)
    ensures r.Some? ==> |r.value| > 0 && AllDigits(r.value) && StartsWith(s, ANNOUNCE + r.value + ".")
  {
    if !StartsWith(s, ANNOUNCE) then None
    else
      var rest := s[|ANNOUNCE|..];
      var n := DigitRun(rest);
      if n > 0 && n < |rest| && rest[n] == '.' then
        assert s[..|ANNOUNCE| + n + 1] == ANNOUNCE + rest[..n] + ".";
        Some(rest[..n])
      else None
  }

  /** `re.search`: the leftmost position at or after `p` where the pattern matches. */
  function Search(s: string, p: nat): (r: Option<nat>)
    requires p <= |s|
    ensures r.Some? ==> p <= r.value < |s| && MatchHere(s[r.value..]).Some?
    decreases |s| - p
  {
    if p == |s| then None
    else if MatchHere(s[p..]).Some? then Some(p)
    else Search(s, p + 1)
  }

  /**
   * `extract_last_page`: the number captured by the first match in the
   * scraper's output, read in decimal; 1 when nothing matches.
   */
  function ExtractLastPage(output: string): (r: int)
    ensures r >= 0
  {
    match Search(output, 0)
    case None => 1
    case Some(p) => DigitsValue(MatchHere(output[p..]).value)
  }

  // ----- the subprocess and the retry loop -----

  /** How one run of the scraper subprocess ended. */
  datatype Outcome = Success(stdout: string) | CalledProcessError(stdout: string) | OtherError

  /** The scraper subprocess: the outcome of the k-th run of the batch, counted from 0, on a URL. */
  type Scraper = (nat, string) -> Outcome

  /**
   * The variables of the `while attempts < retries and not success` loop,
   * and the URLs the scraper was run on so far for this start URL.
   */
  datatype Attempts = Attempts(
    startPage: int,
    currentUrl: string,
    attempts: int,
    success: bool,
    lastPage: int,
    calls: seq<string>)

  /** The entry for `baseUrl` says it was completed. */
  predicate Completed(progress: Ledger, baseUrl: string)
  {
    baseUrl in progress.entries && progress.entries[baseUrl].status == COMPLETED
  }

  /** The first attempt's start page: one past the recorded last page, or 1 without an entry. */
  function ResumePage(progress: Ledger, baseUrl: string): int
  {
    if baseUrl in progress.entries then progress.entries[baseUrl].lastPage + 1 else 1
  }

  /** The loop variables before the first attempt. */
  function FirstAttempt(progress: Ledger, baseUrl: string): Attempts
  {
    Attempts(ResumePage(progress, baseUrl), baseUrl, 0, false, 0, [])
  }

  /**
   * The URL the scraper runs on: the `&page=` suffix when the start page is
   * past 1, otherwise the URL of the previous attempt, unchanged.
   */
  function NextUrl(baseUrl: string, a: Attempts): string
  {
    if a.startPage > 1 then Crawl.PageUrl(baseUrl, a.startPage) else a.currentUrl
  }

  /**
   * One pass of the retry loop body. `offset` runs of the batch came before
   * this URL's; `pageOf` reads the announced page from the scraper's output
   * (`extract_last_page`, that is `ExtractLastPage`; a parameter so that the
   * facts about the loop hold whatever it returns).
   */
  function Attempt(baseUrl: string, run: Scraper, pageOf: string -> int, offset: nat, a: Attempts): (r: Attempts)
    ensures r.calls == a.calls + [NextUrl(baseUrl, a)] && r.currentUrl == NextUrl(baseUrl, a)
    ensures (r.success && r.attempts == a.attempts) || (r.success == a.success && r.attempts == a.attempts + 1)
  {
    var url := NextUrl(baseUrl, a);
    var sent := a.(currentUrl := url, calls := a.calls + [url]);
    match run(offset + |a.calls|, url)
    case Success(out) => sent.(lastPage := pageOf(out), success := true)
    case CalledProcessError(out) => sent.(startPage := pageOf(out) + 1, attempts := a.attempts + 1)
    case OtherError => sent.(attempts := a.attempts + 1)
  }

  /** The retry loop run to its end. */
  function Retry(baseUrl: string, retries: int, run: Scraper, pageOf: string -> int, offset: nat, a: Attempts): Attempts
    decreases retries - a.attempts, if a.success then 0 else 1
  {
    if a.attempts < retries && !a.success then Retry(baseUrl, retries, run, pageOf, offset, Attempt(baseUrl, run, pageOf, offset, a))
    else a
  }

  /** The entry recorded when the loop ends: completed with the announced page, or failed one before the start page. */
  function EntryAfter(a: Attempts): Entry
  {
    if a.success then Entry(COMPLETED, a.lastPage) else Entry(FAILED, a.startPage - 1)
  }

  // ----- the batch -----

  /**
   * The batch so far: the ledger, every URL the scraper was run on, in
   * order, and the ledger as each `write_progress` saved it.
   */
  datatype Batch = Batch(progress: Ledger, calls: seq<string>, saves: seq<Ledger>)

  /** One row of the input file: skipped when completed, otherwise attempted, recorded and saved. */
  function ProcessUrl(baseUrl: string, retries: int, run: Scraper, pageOf: string -> int, b: Batch): (r: Batch)
    ensures b.progress.Valid() ==> r.progress.Valid()
    ensures Completed(b.progress, baseUrl) ==> r == b
    ensures !Completed(b.progress, baseUrl) ==>
      baseUrl in r.progress.entries &&
      (r.progress.entries[baseUrl].status == COMPLETED || r.progress.entries[baseUrl].status == FAILED) &&
      r.saves == b.saves + [r.progress]
    ensures forall u :: u != baseUrl ==> (u in r.progress.entries <==> u in b.progress.entries)
    ensures forall u :: u != baseUrl && u in b.progress.entries ==> r.progress.entries[u] == b.progress.entries[u]
    ensures b.progress.entries.Keys <= r.progress.entries.Keys && b.calls <= r.calls
  {
    if Completed(b.progress, baseUrl) then b
    else
      var a := Retry(baseUrl, retries, run, pageOf, |b.calls|, FirstAttempt(b.progress, baseUrl));
      var progress := Set(b.progress, baseUrl, EntryAfter(a));
      SetEntries(b.progress, baseUrl, EntryAfter(a));
      Batch(progress, b.calls + a.calls, b.saves + [progress])
  }

  /** The rows of the input file processed in order (folded from the end, as the loop extends it). */
  function ProcessUrls(urls: seq<string>, retries: int, run: Scraper, pageOf: string -> int, b: Batch): Batch
  {
    if urls == [] then b
    else ProcessUrl(urls[|urls| - 1], retries, run, pageOf, ProcessUrls(urls[..|urls| - 1], retries, run, pageOf, b))
  }

  /** `manage_scraping`: the ledger is read first; a row it cannot read raises before any URL is run. */
  function Manage(urls: seq<string>, file: Option<seq<ProgressRow>>, retries: int, run: Scraper): Result<Batch, LedgerError>
  {
    match ParseLedger(file)
    case Err(e) => Err(e)
    case Ok(l) => Ok(ProcessUrls(urls, retries, run, ExtractLastPage, Batch(l, [], [])))
  }

  /** What the progress file holds once the batch has ended. */
  function FileAfter(file: Option<seq<ProgressRow>>, saves: seq<Ledger>): Option<seq<ProgressRow>>
    requires saves != [] ==> saves[|saves| - 1].Valid()
  {
    if saves == [] then file else Some(LedgerRows(saves[|saves| - 1]))
  }

  /**
   * `manage_scraping(input_csv, progress_csv, retries)` with the input
   * file's `url` cells, the progress file (None when it does not exist)
   * and the subprocess. Returns the batch and the progress file after it.
   */
  method ManageScraping(urls: seq<string>, file: Option<seq<ProgressRow>>, retries: int, run: Scraper)
    returns (result: Result<Batch, LedgerError>, written: Option<seq<ProgressRow>>)
    ensures result == Manage(urls, file, retries, run)
    ensures result.Err? ==> written == file
    ensures result.Ok? ==>
      result.value.progress.Valid() &&
      (result.value.saves != [] ==> result.value.saves[|result.value.saves| - 1] == result.value.progress) &&
      written == FileAfter(file, result.value.saves)
  {
    var read := ReadProgress(file);
    if read.Err? {
      return Err(read.error), file;
    }
    ParseLedgerValid(file);
    var batch;
    batch, written := ProcessBatch(urls, file, read.value, retries, run, ExtractLastPage);
    result := Ok(batch);
  }

  /**
   * The `for row in reader` loop of `manage_scraping` over the input rows,
   * from the ledger read at the start, with `pageOf` for `extract_last_page`.
   * Returns the batch and what the progress file, initially `file`, holds.
   */
  method ProcessBatch(urls: seq<string>, file: Option<seq<ProgressRow>>, ledger: Ledger, retries: int, run: Scraper,
                      pageOf: string -> int)
    returns (batch: Batch, written: Option<seq<ProgressRow>>)
    requires ledger.Valid()
    ensures batch == ProcessUrls(urls, retries, run, pageOf, Batch(ledger, [], []))
    ensures batch.progress.Valid()
    ensures batch.saves != [] ==> batch.saves[|batch.saves| - 1] == batch.progress
    ensures written == FileAfter(file, batch.saves)
  {
    batch := Batch(ledger, [], []);
    written := file;
    for i := 0 to |urls|
      invariant ProcessUrls(urls[..i], retries, run, pageOf, Batch(ledger, [], [])) == batch
      invariant batch.progress.Valid()
      invariant batch.saves != [] ==> batch.saves[|batch.saves| - 1] == batch.progress
      invariant written == if batch.saves == [] then file else Some(LedgerRows(batch.progress))
    {
      ProcessUrlsSnoc(urls, i, retries, run, pageOf, Batch(ledger, [], []));
      ProcessUrlLastSave(urls[i], retries, run, pageOf, batch);
      var saved;
      batch, saved := ProcessRow(urls[i], retries, run, pageOf, batch);
      if saved.Some? {
        written := saved;
      }
    }
    assert urls[..|urls|] == urls;
  }

  /**
   * One pass of the loop over the input rows: skip a completed URL,
   * otherwise run the retry loop and save the ledger. Returns the batch and
   * the rows `write_progress` wrote, None when it was not called.
   */
  method ProcessRow(baseUrl: string, retries: int, run: Scraper, pageOf: string -> int, b: Batch)
    returns (r: Batch, saved: Option<seq<ProgressRow>>)
    requires b.progress.Valid()
    ensures r == ProcessUrl(baseUrl, retries, run, pageOf, b)
    ensures saved == if Completed(b.progress, baseUrl) then None else Some(LedgerRows(r.progress))
  {
    var progress := b.progress;
    if baseUrl in progress.entries && progress.entries[baseUrl].status == COMPLETED {
      return b, None;
    }
    ghost var a := Retry(baseUrl, retries, run, pageOf, |b.calls|, FirstAttempt(b.progress, baseUrl));
    var tried;
    progress, tried := ScrapeUrl(baseUrl, retries, run, pageOf, |b.calls|, progress);
    SetEntries(b.progress, baseUrl, EntryAfter(a));
    var rows := WriteProgress(progress);
    r := Batch(progress, b.calls + tried, b.saves + [progress]);
    saved := Some(rows);
  }

  /**
   * The part of `manage_scraping` for one start URL that is not skipped:
   * the retry loop, then the failed entry when no attempt succeeded.
   * `offset` runs of the batch came before; returns the ledger and the
   * URLs the scraper was run on.
   */
  method ScrapeUrl(baseUrl: string, retries: int, run: Scraper, pageOf: string -> int, offset: nat, progress: Ledger)
    returns (after: Ledger, tried: seq<string>)
    ensures var a := Retry(baseUrl, retries, run, pageOf, offset, FirstAttempt(progress, baseUrl));
      after == Set(progress, baseUrl, EntryAfter(a)) && tried == a.calls
  {
    after := progress;
    var startPage := if baseUrl in progress.entries then progress.entries[baseUrl].lastPage + 1 else 1;
    var currentUrl := baseUrl;
    var attempts := 0;
    var success := false;
    var lastPage := 0;
    tried := [];
    while attempts < retries && !success
      invariant Retry(baseUrl, retries, run, pageOf, offset, Attempts(startPage, currentUrl, attempts, success, lastPage, tried))
        == Retry(baseUrl, retries, run, pageOf, offset, FirstAttempt(progress, baseUrl))
      invariant after == if success then Set(progress, baseUrl, Entry(COMPLETED, lastPage)) else progress
      decreases retries - attempts, if success then 0 else 1
    {
      ghost var here := Attempts(startPage, currentUrl, attempts, success, lastPage, tried);
      if startPage > 1 {
        currentUrl := Crawl.PageUrl(baseUrl, startPage);
      }
      var outcome := run(offset + |tried|, currentUrl);
      tried := tried + [currentUrl];
      match outcome {
        case Success(out) =>
          lastPage := pageOf(out);
          after := Set(progress, baseUrl, Entry(COMPLETED, lastPage));
          success := true;
        case CalledProcessError(out) =>
          var announced := pageOf(out);
          startPage := announced + 1;
          attempts := attempts + 1;
        case OtherError =>
          attempts := attempts + 1;
      }
      assert Attempts(startPage, currentUrl, attempts, success, lastPage, tried) == Attempt(baseUrl, run, pageOf, offset, here);
    }
    if !success {
      after := Set(after, baseUrl, Entry(FAILED, startPage - 1));
    }
  }

  // ----- Lemmas -----

  /** The batch over one more input row is that row processed after the others. */
  lemma ProcessUrlsSnoc(urls: seq<string>, i: nat, retries: int, run: Scraper, pageOf: string -> int, b: Batch)
    requires i < |urls|
    ensures ProcessUrls(urls[..i + 1], retries, run, pageOf, b)
      == ProcessUrl(urls[i], retries, run, pageOf, ProcessUrls(urls[..i], retries, run, pageOf, b))
  {
    assert urls[..i + 1][..i] == urls[..i];
  }

  /** After a row, the last save is still the ledger as it stands. */
  lemma ProcessUrlLastSave(baseUrl: string, retries: int, run: Scraper, pageOf: string -> int, b: Batch)
    requires b.saves != [] ==> b.saves[|b.saves| - 1] == b.progress
    ensures var r := ProcessUrl(baseUrl, retries, run, pageOf, b);
      r.saves != [] ==> r.saves[|r.saves| - 1] == r.progress
  {
  }

  /** A ledger read from an existing or missing file lists each key once. */
  lemma ParseLedgerValid(file: Option<seq<ProgressRow>>)
    requires ParseLedger(file).Ok?
    ensures ParseLedger(file).value.Valid()
  {
    if file.Some? {
      ParseRowsValid(file.value, ParseInt);
    }
  }

  // ----- Lemmas: extract_last_page -----

  /** Greedy `\d+` takes a whole run of digits and stops at the first non-digit. */
  lemma {:induction false} DigitRunOver(d: string, rest: string)
    requires AllDigits(d)
    requires rest == [] || !IsDigit(rest[0])
    ensures DigitRun(d + rest) == |d|
  {
    if d != [] {
      assert (d + rest)[1..] == d[1..] + rest;
      DigitRunOver(d[1..], rest);
    } else {
      assert d + rest == rest;
    }
  }

  /** The pattern matches an announcement of a nonempty digit run, capturing exactly that run. */
  lemma MatchHereExact(d: string, rest: string)
    requires |d| > 0 && AllDigits(d)
    ensures MatchHere(ANNOUNCE + d + "." + rest) == Some(d)
  {
    var s := ANNOUNCE + d + "." + rest;
    assert s[..|ANNOUNCE|] == ANNOUNCE;
    assert s[|ANNOUNCE|..] == d + ("." + rest);
    DigitRunOver(d, "." + rest);
    assert s[|ANNOUNCE|..][..|d|] == d;
  }

  /**
   * `re.search` scans left to right: no position before the one it reports
   * (or, when it reports none, no position at all) starts a match.
   */
  lemma {:induction false} SearchLeftmost(s: string, p: nat, q: nat)
    requires p <= q < |s|
    ensures Search(s, p).None? || q < Search(s, p).value ==> MatchHere(s[q..]).None?
    decreases q - p
  {
    if q > p && MatchHere(s[p..]).None? {
      SearchLeftmost(s, p + 1, q);
    }
  }

  /** The number is read from the leftmost match, whatever follows it. */
  lemma ExtractLastPageAt(s: string, p: nat)
    requires p < |s| && MatchHere(s[p..]).Some?
    requires forall q :: 0 <= q < p ==> MatchHere(s[q..]).None?
    ensures ExtractLastPage(s) == DigitsValue(MatchHere(s[p..]).value)
  {
    SearchLeftmost(s, 0, p);
  }

  /** Without any match the default page 1 is returned. */
  lemma ExtractLastPageNone(s: string)
    requires forall q :: 0 <= q < |s| ==> MatchHere(s[q..]).None?
    ensures ExtractLastPage(s) == 1
  {
  }

  /** Output that never says "Scraping page " gives page 1. */
  lemma ExtractLastPageSilent(s: string)
    requires !Contains(s, ANNOUNCE)
    ensures ExtractLastPage(s) == 1
  {
    forall q | 0 <= q < |s|
      ensures MatchHere(s[q..]).None?
    {
      if MatchHere(s[q..]).Some? {
        var d := MatchHere(s[q..]).value;
        assert StartsWith(s[q..], ANNOUNCE) by {
          assert s[q..][..|ANNOUNCE|] == (ANNOUNCE + d + ".")[..|ANNOUNCE|];
        }
        ContainsAt(s, q, ANNOUNCE);
      }
    }
    ExtractLastPageNone(s);
  }

  /**
   * The first announcement wins: output that opens with the announcement
   * of page n gives n, even when later lines announce other pages.
   */
  lemma FirstAnnouncementWins(n: nat, rest: string)
    ensures ExtractLastPage(ANNOUNCE + NatToString(n) + "." + rest) == n
  {
    var s := ANNOUNCE + NatToString(n) + "." + rest;
    MatchHereExact(NatToString(n), rest);
    assert s[0..] == s;
    ExtractLastPageAt(s, 0);
    DigitsRoundTrip(n);
  }

  /** The page returned is what `int()` makes of the captured digits. */
  lemma ExtractLastPageParses(s: string)
    requires Search(s, 0).Some?
    ensures ParseInt(MatchHere(s[Search(s, 0).value..]).value) == Some(ExtractLastPage(s))
  {
    ParseDigits(MatchHere(s[Search(s, 0).value..]).value);
  }

  // ----- Lemmas: the retry loop -----

  /**
   * From any loop state: runs are only appended, the count only grows, the
   * loop ends on a success or once the count reaches the bound, every run
   * but a successful one is counted, and a success happens below the bound.
   */
  lemma {:induction false} RetryCounts(baseUrl: string, retries: int, run: Scraper, pageOf: string -> int, offset: nat, a: Attempts)
    ensures var r := Retry(baseUrl, retries, run, pageOf, offset, a);
      a.calls <= r.calls && a.attempts <= r.attempts &&
      (r.success || r.attempts >= retries) &&
      (a.success ==> r == a) &&
      (!a.success ==> |r.calls| - |a.calls| == r.attempts - a.attempts + (if r.success then 1 else 0)) &&
      (!a.success && a.attempts <= retries ==> r.attempts <= retries) &&
      (r.success && !a.success ==> r.attempts < retries)
    decreases retries - a.attempts, if a.success then 0 else 1
  {
    if a.attempts < retries && !a.success {
      RetryCounts(baseUrl, retries, run, pageOf, offset, Attempt(baseUrl, run, pageOf, offset, a));
    }
  }

  /**
   * At most `retries` runs per start URL (none when `retries` is not
   * positive): a success after `attempts` failures took one run more, and
   * giving up means every one of the `retries` runs failed.
   */
  lemma RetryBound(baseUrl: string, retries: int, run: Scraper, pageOf: string -> int, offset: nat, progress: Ledger)
    ensures var r := Retry(baseUrl, retries, run, pageOf, offset, FirstAttempt(progress, baseUrl));
      (r.success ==> 0 <= r.attempts < retries && |r.calls| == r.attempts + 1) &&
      (!r.success ==> r.attempts == (if retries > 0 then retries else 0) && |r.calls| == r.attempts) &&
      |r.calls| <= (if retries > 0 then retries else 0)
  {
    RetryCounts(baseUrl, retries, run, pageOf, offset, FirstAttempt(progress, baseUrl));
  }

  /**
   * The loop stops at the first success: a run the loop makes succeeds
   * exactly when it is the last run and the loop ended in success.
   */
  lemma {:induction false} RetryStopsAtSuccess(baseUrl: string, retries: int, run: Scraper, pageOf: string -> int, offset: nat,
                                               a: Attempts, j: nat)
    requires !a.success && |a.calls| <= j < |Retry(baseUrl, retries, run, pageOf, offset, a).calls|
    ensures var r := Retry(baseUrl, retries, run, pageOf, offset, a);
      run(offset + j, r.calls[j]).Success? <==> r.success && j == |r.calls| - 1
    decreases retries - a.attempts
  {
    var n := Attempt(baseUrl, run, pageOf, offset, a);
    RetryCounts(baseUrl, retries, run, pageOf, offset, n);
    if j > |a.calls| {
      RetryStopsAtSuccess(baseUrl, retries, run, pageOf, offset, n, j);
    } else if !n.success {
      RetryCounts(baseUrl, retries, run, pageOf, offset, Attempt(baseUrl, run, pageOf, offset, n));
    }
  }

  /** A success records the page the successful run announced. */
  lemma {:induction false} RetrySuccessPage(baseUrl: string, retries: int, run: Scraper, pageOf: string -> int, offset: nat, a: Attempts)
    requires !a.success
    ensures var r := Retry(baseUrl, retries, run, pageOf, offset, a);
      r.success ==> (|r.calls| > 0 &&
        var o := run(offset + |r.calls| - 1, r.calls[|r.calls| - 1]);
        o.Success? && r.lastPage == pageOf(o.stdout))
    decreases retries - a.attempts
  {
    if a.attempts < retries {
      var n := Attempt(baseUrl, run, pageOf, offset, a);
      if !n.success {
        RetrySuccessPage(baseUrl, retries, run, pageOf, offset, n);
      }
    }
  }

  /**
   * A loop that gives up right after a failed subprocess resumes one past
   * the page that run announced, so the failed entry records that page.
   */
  lemma {:induction false} RetryFailedAfterCalledProcessError(baseUrl: string, retries: int, run: Scraper, pageOf: string -> int,
                                                             offset: nat, a: Attempts)
    requires !a.success
    ensures var r := Retry(baseUrl, retries, run, pageOf, offset, a);
      !r.success && |r.calls| > |a.calls| && run(offset + |r.calls| - 1, r.calls[|r.calls| - 1]).CalledProcessError? ==>
        EntryAfter(r) == Entry(FAILED, pageOf(run(offset + |r.calls| - 1, r.calls[|r.calls| - 1]).stdout))
    decreases retries - a.attempts
  {
    if a.attempts < retries {
      var n := Attempt(baseUrl, run, pageOf, offset, a);
      if !n.success && n.attempts < retries {
        RetryCounts(baseUrl, retries, run, pageOf, offset, Attempt(baseUrl, run, pageOf, offset, n));
        RetryFailedAfterCalledProcessError(baseUrl, retries, run, pageOf, offset, n);
      }
    }
  }

  /**
   * Runs that do not end in a failed subprocess leave the start page alone:
   * when no run the loop makes raises `CalledProcessError`, the loop ends
   * with the start page it began with.
   */
  lemma {:induction false} RetryNoCalledProcessError(baseUrl: string, retries: int, run: Scraper, pageOf: string -> int,
                                                     offset: nat, a: Attempts)
    requires !a.success
    ensures var r := Retry(baseUrl, retries, run, pageOf, offset, a);
      (forall j :: |a.calls| <= j < |r.calls| ==> !run(offset + j, r.calls[j]).CalledProcessError?) ==>
        r.startPage == a.startPage
    decreases retries - a.attempts
  {
    if a.attempts < retries {
      var n := Attempt(baseUrl, run, pageOf, offset, a);
      RetryCounts(baseUrl, retries, run, pageOf, offset, n);
      var r := Retry(baseUrl, retries, run, pageOf, offset, a);
      assert r.calls[|a.calls|] == n.calls[|a.calls|];
      if !n.success {
        RetryNoCalledProcessError(baseUrl, retries, run, pageOf, offset, n);
      }
    }
  }

  /**
   * The last failed subprocess decides the start page, whatever runs
   * follow it: the loop ends one past the page that run announced.
   */
  lemma {:induction false} RetryLastCalledProcessError(baseUrl: string, retries: int, run: Scraper, pageOf: string -> int,
                                                       offset: nat, a: Attempts, j: nat)
    requires !a.success
    requires var r := Retry(baseUrl, retries, run, pageOf, offset, a);
      |a.calls| <= j < |r.calls| && run(offset + j, r.calls[j]).CalledProcessError? &&
      forall i :: j < i < |r.calls| ==> !run(offset + i, r.calls[i]).CalledProcessError?
    ensures var r := Retry(baseUrl, retries, run, pageOf, offset, a);
      r.startPage == pageOf(run(offset + j, r.calls[j]).stdout) + 1
    decreases retries - a.attempts
  {
    var n := Attempt(baseUrl, run, pageOf, offset, a);
    RetryCounts(baseUrl, retries, run, pageOf, offset, n);
    var r := Retry(baseUrl, retries, run, pageOf, offset, a);
    assert r.calls[|a.calls|] == n.calls[|a.calls|];
    if j > |a.calls| {
      RetryLastCalledProcessError(baseUrl, retries, run, pageOf, offset, n, j);
    } else {
      RetryNoCalledProcessError(baseUrl, retries, run, pageOf, offset, n);
    }
  }

  /**
   * The failed entry, when some run failed in the subprocess: the page the
   * last such run announced.
   */
  lemma FailedAfterLastCalledProcessError(baseUrl: string, retries: int, run: Scraper, pageOf: string -> int,
                                          offset: nat, progress: Ledger, j: nat)
    requires var r := Retry(baseUrl, retries, run, pageOf, offset, FirstAttempt(progress, baseUrl));
      !r.success && j < |r.calls| && run(offset + j, r.calls[j]).CalledProcessError? &&
      forall i :: j < i < |r.calls| ==> !run(offset + i, r.calls[i]).CalledProcessError?
    ensures var r := Retry(baseUrl, retries, run, pageOf, offset, FirstAttempt(progress, baseUrl));
      EntryAfter(r) == Entry(FAILED, pageOf(run(offset + j, r.calls[j]).stdout))
  {
    RetryLastCalledProcessError(baseUrl, retries, run, pageOf, offset, FirstAttempt(progress, baseUrl), j);
  }

  /**
   * The failed entry, when no run failed in the subprocess (every run
   * raised some other exception, or there were none): the last page the
   * ledger already had, or 0 for a URL without an entry.
   */
  lemma FailedKeepsLedgerPage(baseUrl: string, retries: int, run: Scraper, pageOf: string -> int,
                              offset: nat, progress: Ledger)
    requires var r := Retry(baseUrl, retries, run, pageOf, offset, FirstAttempt(progress, baseUrl));
      !r.success && forall j :: 0 <= j < |r.calls| ==> !run(offset + j, r.calls[j]).CalledProcessError?
    ensures var r := Retry(baseUrl, retries, run, pageOf, offset, FirstAttempt(progress, baseUrl));
      EntryAfter(r) == Entry(FAILED, if baseUrl in progress.entries then progress.entries[baseUrl].lastPage else 0)
  {
    RetryNoCalledProcessError(baseUrl, retries, run, pageOf, offset, FirstAttempt(progress, baseUrl));
  }

  /**
   * The URL of the run after one that ended with `o`: a failed subprocess
   * moves one past the page it announced (with the suffix only past page
   * 1); any other error runs the same URL again.
   */
  function Follows(baseUrl: string, pageOf: string -> int, url: string, o: Outcome): string
  {
    match o
    case CalledProcessError(out) => if pageOf(out) + 1 > 1 then Crawl.PageUrl(baseUrl, pageOf(out) + 1) else url
    case _ => url
  }

  /** One failed pass: the URL the loop runs next follows from the run just made. */
  lemma AttemptFollows(baseUrl: string, run: Scraper, pageOf: string -> int, offset: nat, a: Attempts)
    ensures var n := Attempt(baseUrl, run, pageOf, offset, a);
      !n.success ==> NextUrl(baseUrl, n) == Follows(baseUrl, pageOf, n.currentUrl, run(offset + |a.calls|, n.currentUrl))
  {
  }

  /** Each run's URL follows from the run before it and how that run ended. */
  lemma {:induction false} RetryUrlChain(baseUrl: string, retries: int, run: Scraper, pageOf: string -> int, offset: nat,
                                         a: Attempts, j: nat)
    requires !a.success && |a.calls| <= j && j + 1 < |Retry(baseUrl, retries, run, pageOf, offset, a).calls|
    ensures var r := Retry(baseUrl, retries, run, pageOf, offset, a);
      r.calls[j + 1] == Follows(baseUrl, pageOf, r.calls[j], run(offset + j, r.calls[j]))
    decreases retries - a.attempts
  {
    var n := Attempt(baseUrl, run, pageOf, offset, a);
    RetryCounts(baseUrl, retries, run, pageOf, offset, n);
    if j > |a.calls| {
      RetryUrlChain(baseUrl, retries, run, pageOf, offset, n, j);
    } else {
      AttemptFollows(baseUrl, run, pageOf, offset, a);
      var m := Attempt(baseUrl, run, pageOf, offset, n);
      RetryCounts(baseUrl, retries, run, pageOf, offset, m);
    }
  }

  /**
   * The first run resumes one past the recorded last page, with the
   * `&page=` suffix only past page 1, and otherwise on the URL as read.
   */
  lemma RetryFirstUrl(baseUrl: string, retries: int, run: Scraper, pageOf: string -> int, offset: nat, progress: Ledger)
    requires retries > 0
    ensures var r := Retry(baseUrl, retries, run, pageOf, offset, FirstAttempt(progress, baseUrl));
      var start := ResumePage(progress, baseUrl);
      |r.calls| > 0 && r.calls[0] == if start > 1 then Crawl.PageUrl(baseUrl, start) else baseUrl
  {
    var n := Attempt(baseUrl, run, pageOf, offset, FirstAttempt(progress, baseUrl));
    RetryCounts(baseUrl, retries, run, pageOf, offset, n);
  }

  /**
   * With non-negative announced pages and a start page of at least 1, the
   * loop keeps the start page at least 1 and records a non-negative page.
   */
  lemma {:induction false} RetryPagesNonNegative(baseUrl: string, retries: int, run: Scraper, pageOf: string -> int, offset: nat,
                                                 a: Attempts)
    requires forall out :: pageOf(out) >= 0
    requires a.startPage >= 1 && (a.success ==> a.lastPage >= 0)
    ensures var r := Retry(baseUrl, retries, run, pageOf, offset, a);
      r.startPage >= 1 && (r.success ==> r.lastPage >= 0) && EntryAfter(r).lastPage >= 0
    decreases retries - a.attempts, if a.success then 0 else 1
  {
    if a.attempts < retries && !a.success {
      RetryPagesNonNegative(baseUrl, retries, run, pageOf, offset, Attempt(baseUrl, run, pageOf, offset, a));
    }
  }

  // ----- Lemmas: the batch -----

  /** Every recorded last page is non-negative. */
  predicate NonNegative(l: Ledger)
  {
    forall u :: u in l.entries ==> l.entries[u].lastPage >= 0
  }

  /** A row keeps the recorded last pages non-negative when announced pages are. */
  lemma ProcessUrlNonNegative(baseUrl: string, retries: int, run: Scraper, pageOf: string -> int, b: Batch)
    requires forall out :: pageOf(out) >= 0
    requires NonNegative(b.progress)
    ensures NonNegative(ProcessUrl(baseUrl, retries, run, pageOf, b).progress)
  {
    if !Completed(b.progress, baseUrl) {
      var first := FirstAttempt(b.progress, baseUrl);
      RetryPagesNonNegative(baseUrl, retries, run, pageOf, |b.calls|, first);
      SetEntries(b.progress, baseUrl, EntryAfter(Retry(baseUrl, retries, run, pageOf, |b.calls|, first)));
    }
  }

  /**
   * A failed entry records `start_page - 1`, which stays non-negative over
   * a whole batch that starts from a non-negative ledger.
   */
  lemma {:induction false} ProcessUrlsNonNegative(urls: seq<string>, retries: int, run: Scraper, pageOf: string -> int, b: Batch)
    requires forall out :: pageOf(out) >= 0
    requires NonNegative(b.progress)
    ensures NonNegative(ProcessUrls(urls, retries, run, pageOf, b).progress)
  {
    if urls != [] {
      ProcessUrlsNonNegative(urls[..|urls| - 1], retries, run, pageOf, b);
      ProcessUrlNonNegative(urls[|urls| - 1], retries, run, pageOf, ProcessUrls(urls[..|urls| - 1], retries, run, pageOf, b));
    }
  }

  /** The ledger read back lists each key once after any number of rows. */
  lemma {:induction false} ProcessUrlsValid(urls: seq<string>, retries: int, run: Scraper, pageOf: string -> int, b: Batch)
    requires b.progress.Valid()
    ensures ProcessUrls(urls, retries, run, pageOf, b).progress.Valid()
  {
    if urls != [] {
      ProcessUrlsValid(urls[..|urls| - 1], retries, run, pageOf, b);
    }
  }

  /** No entry is ever removed, and the only keys added are input URLs. */
  lemma {:induction false} ProcessUrlsKeys(urls: seq<string>, retries: int, run: Scraper, pageOf: string -> int, b: Batch, u: string)
    ensures u in ProcessUrls(urls, retries, run, pageOf, b).progress.entries <==> u in b.progress.entries || u in urls
  {
    if urls != [] {
      var init := urls[..|urls| - 1];
      assert urls == init + [urls[|urls| - 1]];
      ProcessUrlsKeys(init, retries, run, pageOf, b, u);
    }
  }

  /** An entry whose URL is not in the input is left as it was. */
  lemma {:induction false} ProcessUrlsOthers(urls: seq<string>, retries: int, run: Scraper, pageOf: string -> int, b: Batch, u: string)
    requires u !in urls && u in b.progress.entries
    ensures var r := ProcessUrls(urls, retries, run, pageOf, b);
      u in r.progress.entries && r.progress.entries[u] == b.progress.entries[u]
  {
    if urls != [] {
      var init := urls[..|urls| - 1];
      assert urls == init + [urls[|urls| - 1]];
      ProcessUrlsOthers(init, retries, run, pageOf, b, u);
    }
  }

  /** After the batch every input URL is recorded as completed or failed. */
  lemma {:induction false} ProcessUrlsSettled(urls: seq<string>, retries: int, run: Scraper, pageOf: string -> int, b: Batch, u: string)
    requires u in urls
    ensures var r := ProcessUrls(urls, retries, run, pageOf, b);
      u in r.progress.entries && (r.progress.entries[u].status == COMPLETED || r.progress.entries[u].status == FAILED)
  {
    var init := urls[..|urls| - 1];
    assert urls == init + [urls[|urls| - 1]];
    if u != urls[|urls| - 1] {
      ProcessUrlsSettled(init, retries, run, pageOf, b, u);
    }
  }

  /** A batch whose URLs are all completed already runs nothing and saves nothing. */
  lemma {:induction false} ProcessUrlsAllCompleted(urls: seq<string>, retries: int, run: Scraper, pageOf: string -> int, b: Batch)
    requires forall u :: u in urls ==> Completed(b.progress, u)
    ensures ProcessUrls(urls, retries, run, pageOf, b) == b
  {
    if urls != [] {
      var init := urls[..|urls| - 1];
      assert forall u :: u in init ==> u in urls;
      ProcessUrlsAllCompleted(init, retries, run, pageOf, b);
    }
  }

  /**
   * Saves are only appended; without one the ledger is the one read, and
   * otherwise the last save is the ledger as it ends.
   */
  lemma {:induction false} ProcessUrlsSaves(urls: seq<string>, retries: int, run: Scraper, pageOf: string -> int, b: Batch)
    ensures var r := ProcessUrls(urls, retries, run, pageOf, b);
      b.saves <= r.saves &&
      (r.saves == b.saves ==> r.progress == b.progress) &&
      (|r.saves| > |b.saves| ==> r.saves[|r.saves| - 1] == r.progress)
  {
    if urls != [] {
      ProcessUrlsSaves(urls[..|urls| - 1], retries, run, pageOf, b);
    }
  }

  /**
   * Resuming works: reading back the progress file the batch leaves gives
   * the ledger it ended with.
   */
  lemma ResumeReadsBack(urls: seq<string>, file: Option<seq<ProgressRow>>, retries: int, run: Scraper)
    requires Manage(urls, file, retries, run).Ok?
    ensures var b := Manage(urls, file, retries, run).value;
      b.progress.Valid() && (b.saves != [] ==> b.saves[|b.saves| - 1] == b.progress) &&
      ParseLedger(FileAfter(file, b.saves)) == Ok(b.progress)
  {
    var l := ParseLedger(file).value;
    ParseLedgerValid(file);
    ProcessUrlsValid(urls, retries, run, ExtractLastPage, Batch(l, [], []));
    ProcessUrlsSaves(urls, retries, run, ExtractLastPage, Batch(l, [], []));
    var b := Manage(urls, file, retries, run).value;
    if b.saves != [] {
      LedgerRoundTrip(b.progress);
    }
  }

  /**
   * With `extract_last_page` announcing pages, a batch over a ledger of
   * non-negative pages records only non-negative pages, failed entries
   * included.
   */
  lemma ManageNonNegative(urls: seq<string>, file: Option<seq<ProgressRow>>, retries: int, run: Scraper)
    requires ParseLedger(file).Ok? && NonNegative(ParseLedger(file).value)
    ensures Manage(urls, file, retries, run).Ok? && NonNegative(Manage(urls, file, retries, run).value.progress)
  {
    forall out: string
      ensures ExtractLastPage(out) >= 0
    {
    }
    ProcessUrlsNonNegative(urls, retries, run, ExtractLastPage, Batch(ParseLedger(file).value, [], []));
  }
}
