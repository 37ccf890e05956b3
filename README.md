# Listing scraper and batch orchestrator, modelled in Dafny

The system scrapes property listings from a paginated search site and runs
that scraper over a batch of start URLs.

- `reascraper2.py`, `scrape_listings`: crawls one start URL page by page
  (`base_url&page=1`, `&page=2`, ...). It restores the session cookies
  before each navigation and stops after ten pages, when a navigation
  fails, or when a page has no listing cards or fewer than four. Otherwise
  it turns every card that has an `address-line1` into a record. Whatever
  was accumulated is exported to CSV on every exit, normal or exceptional;
  `export_to_csv` writes nothing for an empty list and takes the header
  from the first record's keys.
- `scraper_manager.py`, `manage_scraping`: reads a progress ledger
  (`url`, `status`, `last_page`), skips URLs already `completed`, and runs
  the scraper as a subprocess up to `retries` times per URL. It resumes one
  past the page announced by the first `Scraping page N.` line in the
  scraper's output. It
  records `completed` or `failed` and rewrites the ledger after every URL
  it did not skip.

Two behaviours of the code are kept as written:

- `extract_last_page` uses `re.search`, so it reads the FIRST
  announcement in the output, not the last (`Manager.FirstAnnouncementWins`).
- The scraper restarts its own counter at 1 and appends `&page=N` to
  whatever URL it was given. A resumed run therefore requests
  `base&page=6&page=1`, and so on (`Crawl.CrawlUrls` together with
  `Manager.RetryFirstUrl`).

A page with one to three cards stops the crawl before any of its cards is
extracted. Resuming from `last_page` 5 passes `base&page=6` to the scraper,
which then requests `base&page=6&page=1`.

Modules:

- `Wrappers` (`wrappers.dfy`): Option and Result.
- `Text` (`text.dfy`): the Python string operations the code relies on.
  These are `split()`, `strip()`, `" ".join`, `replace(pat, "")`, `in`,
  `int()` and `str()` of an integer.
- `Listing` (`listing.dfy`): the per-card extraction. A card is a value
  holding the optional texts the scraper would read from its
  sub-elements.
- `Crawl` (`crawl.dfy`): the pagination loop (`ScrapeListings`, a `while`
  loop with its exits, proved against the function `Crawl`) and the CSV
  sink (`ExportToCsv`).
- `Progress` (`progress.dfy`): the ledger, an insertion-ordered dictionary.
  `ReadProgress` and `WriteProgress` are loops over the file's rows, proved
  against `ParseLedger` and `LedgerRows`.
- `Manager` (`manager.dfy`): `extract_last_page` and the orchestrator.
  `ManageScraping` holds the loop over input rows and the retry `while`
  loop, proved against the functions `Manage`, `ProcessUrls` and `Retry`.

## Model

| member | source | states |
|---|---|---|
| Text.Split | reascraper2.py:12 | `str.split()` returns only nonempty, whitespace-free tokens |
| Text.SplitFirstToken | reascraper2.py:12 | `split()[0]` of whitespace, a token and a whitespace-led rest is that token |
| Text.SplitAllSpace | reascraper2.py:12 | `split()` of empty or all-whitespace text is empty |
| Text.SplitJoin | reascraper2.py:140-141 | splitting tokens joined by single spaces gives the tokens back |
| Text.Strip | reascraper2.py:121 | `strip()` never lengthens, and its result neither starts nor ends with whitespace |
| Text.StripPadded | reascraper2.py:136 | stripping whitespace padding from around a trimmed text gives that text |
| Text.RemoveAll | reascraper2.py:165 | `replace(pat, "")` never lengthens, and changes nothing in text without `pat` |
| Text.RemoveAllLeading | reascraper2.py:165 | `replace` removes a leading occurrence and goes on with the rest |
| Text.ParseInt | reascraper2.py:12 | the definition of `int()` on text; its properties are stated by ParseIntRejects, ParseDigits and ParseIntRoundTrip |
| Text.ContainsAt | scraper_manager.py:56 | text that starts with a pattern at some position contains it |
| Text.RemoveAllFirst | reascraper2.py:165 | `replace` removes the first occurrence wherever it stands, keeps the text before it and goes on after it |
| Text.ParseIntRejects | reascraper2.py:12-14 | `int()` of a token starting with neither a digit nor a sign raises |
| Text.ParseDigits | scraper_manager.py:58 | `int()` of a nonempty run of ASCII digits is its decimal value |
| Text.ParseIntRoundTrip | scraper_manager.py:21 | `int(str(i)) == i` for every integer `i`, negative ones included |
| Listing.ExtractNumeric | reascraper2.py:9-14 | the definition of `extract_numeric`; its properties are stated by ExtractNumericReadsFirstToken, ExtractNumericBlank and ExtractNumericNonNumeric |
| Listing.ExtractNumericReadsFirstToken | reascraper2.py:9-12 | when the first token is an integer, that integer is returned, whatever follows it |
| Listing.ExtractNumericRendered | reascraper2.py:9-12 | a rendered integer as first token is read back |
| Listing.ExtractNumericBlank | reascraper2.py:11-14 | empty or all-whitespace text gives 0 (the IndexError path) |
| Listing.ExtractNumericNonNumeric | reascraper2.py:11-14 | a first token that `int()` rejects gives 0, whatever follows it (the ValueError path) |
| Listing.ExtractNumericNonDigit | reascraper2.py:11-14 | a first token opening with neither a digit nor a sign gives 0 |
| Listing.FeatureCount | reascraper2.py:153-155 | the definition of a count feature slot (`extract_numeric`, 0 when missing); its property is stated by FeatureSlotReads |
| Listing.FeatureArea | reascraper2.py:156 | the definition of the `sqm` slot: the raw text of the fourth feature, the integer 0 when there are fewer than four; BuildRecord stores it unparsed |
| Listing.FeatureSlotReads | reascraper2.py:153-155 | a feature slot reading `"<n> <unit>"` gives n for bedrooms, bathrooms or car spaces |
| Listing.SplitAddress | reascraper2.py:135-145 | the definition of the address split; its properties are stated by SplitAddressShape, AddressRoundTrip, SplitAddressOfTokens, AddressSingleTokenRaises and AddressBlank |
| Listing.SplitAddressShape | reascraper2.py:135-145 | suburb, state and postcode are all present or all absent; state and postcode are single tokens; only a present line can raise |
| Listing.AddressRoundTrip | reascraper2.py:138-143 | a line of suburb words, state and postcode splits back into exactly them |
| Listing.SplitAddressOfTokens | reascraper2.py:140-143 | with two or more tokens: suburb = all but the last two joined, state = second-to-last, postcode = last |
| Listing.AddressSingleTokenRaises | reascraper2.py:140-142 | a one-token line raises (`address_parts[-2]`) |
| Listing.AddressBlank | reascraper2.py:135-145 | a missing, empty or all-whitespace line gives three None |
| Listing.StripLogo | reascraper2.py:162-165 | None stays None; text without "Logo for" is left unchanged |
| Listing.LogoPrefixRemoved | reascraper2.py:164-165 | `"Logo for " + name`, where `name` holds no further `"Logo for "`, becomes `name` stripped |
| Listing.LogoRemovedAnywhere | reascraper2.py:164-165 | `x + "Logo for " + y`, where the occurrence after `x` is the first, becomes `x` followed by `y` with every `"Logo for "` removed, stripped |
| Listing.LogoMarkWithoutSpace | reascraper2.py:164-165 | "Logo for" not followed by a space passes the test, but only the strip applies |
| Listing.BuildRecord | reascraper2.py:121-188 | the definition of the record built from a card with an address; ExtractCard and ExtractCardsRecordAt state what it is built from |
| Listing.ExtractCard | reascraper2.py:114-188 | a card is skipped exactly when it has no `address-line1`; otherwise its record, or the error its address split raises |
| Listing.WithAddress | reascraper2.py:116-118 | the cards kept are cards of the page, each with an `address-line1` |
| Listing.ExtractCards | reascraper2.py:114-188 | never more records than cards |
| Listing.ExtractCardsNext | reascraper2.py:114-188 | one more card either adds its record, skips it, or stops the loop with its error |
| Listing.ExtractCardsStopsAtError | reascraper2.py:114-188 | once a card raises, the later cards change nothing |
| Listing.ExtractCardsOnePerAddressedCard | reascraper2.py:114-121 | without an exception, exactly one record per card that has an `address-line1` |
| Listing.ExtractCardsRecordAt | reascraper2.py:173-188 | without an exception, the k-th record is built from the k-th card that has an `address-line1` (card order) |
| Listing.ExtractCardsErrorAt | reascraper2.py:138-143 | an exception comes from one card with an address; the records are those of the cards before it |
| Crawl.Keys | reascraper2.py:221 | `dict.keys()` lists the keys in insertion order |
| Crawl.Row | reascraper2.py:225-227 | the definition of `DictWriter.writerow`: each cell is the record's value looked up under the fieldname in that column (`Lookup`), empty when absent |
| Crawl.Lookup | reascraper2.py:227 | the definition of a dictionary lookup by key; its properties are stated by LookupAt and LookupDistinct |
| Crawl.LookupAt | reascraper2.py:227 | looking up a key that no earlier entry has gives that entry's value |
| Crawl.LookupDistinct | reascraper2.py:227 | with distinct keys, looking up the j-th key gives the j-th value |
| Crawl.FieldNamesDistinct | reascraper2.py:173-188 | the fourteen field names of a record are distinct |
| Crawl.RecordKeys | reascraper2.py:173-188 | every record's keys are the fourteen field names, in the order the dict literal lists them |
| Crawl.CellAt | reascraper2.py:225-227 | the cell under the j-th field name is the record's j-th value, rendered |
| Crawl.ExportToCsv | reascraper2.py:214-227 | an empty list leaves the file untouched; otherwise the header is the first record's keys, there is one row per record in order, and each cell is the record's value under that column's header name |
| Crawl.ExportCell | reascraper2.py:221-227 | row k, column j of the file is the j-th value of the k-th record, rendered |
| Crawl.ExportHeader | reascraper2.py:221-226 | the header is the fourteen field names, and every row has that many cells |
| Crawl.ExportIdempotent | reascraper2.py:203-207 | exporting the same results twice (the `except` handler, then `finally`) leaves what one export leaves |
| Crawl.ExtractPage | reascraper2.py:114-188 | the card loop appends exactly the page's records to `results` and returns the exception that ended it, if any |
| Crawl.ScrapePage | reascraper2.py:63-195 | one pass of the loop either exits as `CrawlFrom` does, or counts the page and continues with the next page and the new cookies |
| Crawl.ScrapeListings | reascraper2.py:56-211 | the loop ends in the state `Crawl` gives, and the output file is the export of all accumulated results over what it held before (left as it was when there are none) |
| Crawl.ExportOnExit | reascraper2.py:200-208 | the exports on exit write the accumulated results once; with none, the file is left as it was before the call |
| Crawl.PageUrl | reascraper2.py:70 | the definition of the URL of page n (`base_url&page=n`); CrawlFromUrls and CrawlUrls state its use |
| Crawl.CrawlFrom | reascraper2.py:63-195 | the definition of the loop from a given page; its properties are stated by the CrawlFrom* lemmas |
| Crawl.Crawl | reascraper2.py:56-195 | the definition of the whole crawl (from page 1, no cookies); its properties are stated by the Crawl* lemmas |
| Crawl.CrawlFromStep | reascraper2.py:63-195 | each response (navigation failure, provider error, no cards, 1 to 3 cards, a card error, a full page) leads to its exit or to the next page |
| Crawl.CrawlFromCounts | reascraper2.py:60-67 | pages scraped never exceed ten; the cap stops the loop exactly at ten; one navigation per iteration |
| Crawl.CrawlFromUrls | reascraper2.py:69-70 | the k-th navigation requests `base_url&page=k+1` |
| Crawl.SessionStep | reascraper2.py:73-85 | one more navigation keeps the cookie chain and what was served |
| Crawl.CrawlFromSession | reascraper2.py:73-85 | each navigation restores the cookies the previous one left, and each extracted page is what was loaded |
| Crawl.PagesStep | reascraper2.py:113-121 | extracting one more full page appends its records |
| Crawl.CrawlFromHarvest | reascraper2.py:113-188 | the results are the records of the extracted pages, page after page |
| Crawl.CrawlFromPages | reascraper2.py:104-111 | every extracted page had at least four cards; counted pages raised nothing |
| Crawl.CrawlFromStop | reascraper2.py:78-111 | a stop other than the cap happens exactly for what the last navigation returned |
| Crawl.CrawlCounts | reascraper2.py:194-195 | a crawl from page 1 scrapes at most ten pages; a page that breaks or raises is not counted |
| Crawl.CrawlUrls | reascraper2.py:60-70 | the crawl requests `base_url&page=1`, `&page=2`, ... consecutively, whatever the base URL already carries |
| Crawl.CrawlSession | reascraper2.py:59-85 | the first navigation has no cookies, each later one those of the previous navigation |
| Crawl.CrawlPages | reascraper2.py:101-121 | records come from pages of at least four cards; a 0-card or 1-to-3-card page is not extracted |
| Crawl.CrawlStop | reascraper2.py:78-111 | why the crawl stopped matches the last response, in both directions |
| Progress.Set | scraper_manager.py:19 | the definition of `progress[url] = entry`; its property is stated by SetEntries |
| Progress.ParseRows | scraper_manager.py:14-23 | the definition of the row loop of `read_progress`; its properties are stated by the ParseRows* lemmas |
| Progress.ParseLedger | scraper_manager.py:14-23 | the definition of the ledger read from rows with `int()`; ReadProgress and LedgerRoundTrip state it |
| Progress.RowsFor | scraper_manager.py:37-42 | the definition of the rows written for a list of keys; RowsForRoundTrip states it |
| Progress.LedgerRows | scraper_manager.py:37-42 | the definition of the rows written for a ledger; WriteProgress and LedgerRoundTrip state it |
| Progress.SetEntries | scraper_manager.py:19-22 | `progress[url] = entry` sets that key only; a new key goes last; each key is still listed once |
| Progress.ReadProgress | scraper_manager.py:7-23 | reads the ledger `ParseLedger` gives; a missing file gives the empty ledger |
| Progress.ReadRows | scraper_manager.py:16-22 | the row loop computes `ParseRows`: the ledger, or the first unparsable `last_page` |
| Progress.WriteProgress | scraper_manager.py:26-42 | one row per key, in insertion order, with `last_page` in decimal |
| Progress.ParseRowsErrorSticks | scraper_manager.py:18-21 | once a row raises, the whole read raises that error |
| Progress.ParseRowsSnoc | scraper_manager.py:18-22 | a further parsable row overwrites its URL's entry |
| Progress.ParseRowsSnocBad | scraper_manager.py:21 | a further unparsable row raises with that row |
| Progress.RowsForRoundTrip | scraper_manager.py:16-22 | rows written for distinct keys read back as those keys, in that order |
| Progress.LedgerRoundTrip | scraper_manager.py:34-42 | writing a ledger and reading it back gives the same ledger, for any integer pages |
| Progress.ParseRowsValid | scraper_manager.py:14-22 | a ledger read from rows lists each key exactly once |
| Progress.LastRowWins | scraper_manager.py:18-22 | with duplicate URLs, the last row decides the entry |
| Progress.ParseRowsKeysFromRows | scraper_manager.py:18-19 | every key read is the URL of some row |
| Progress.ParseRowsKeysCoverRows | scraper_manager.py:18-19 | every row's URL is a key read |
| Progress.ParseRowsFirstBadRow | scraper_manager.py:21 | the read fails with the first row whose `last_page` is not an integer |
| Progress.ParseRowsAllParse | scraper_manager.py:18-22 | the read succeeds when every `last_page` is an integer |
| Manager.DigitRun | scraper_manager.py:56 | greedy `\d+` takes a run of digits and stops only at a non-digit |
| Manager.DigitRunOver | scraper_manager.py:56 | greedy `\d+` takes a whole digit run followed by a non-digit |
| Manager.MatchHere | scraper_manager.py:56 | a match is `Scraping page `, a nonempty digit run, then `.` |
| Manager.MatchHereExact | scraper_manager.py:56 | every announcement of a nonempty digit run matches and captures exactly that run |
| Manager.Search | scraper_manager.py:56 | a position reported by `re.search` starts a match |
| Manager.SearchLeftmost | scraper_manager.py:56 | no earlier position starts a match (the search is leftmost) |
| Manager.ExtractLastPage | scraper_manager.py:45-59 | the result is never negative |
| Manager.ExtractLastPageAt | scraper_manager.py:56-58 | the number comes from the leftmost match, whatever follows it |
| Manager.ExtractLastPageNone | scraper_manager.py:57-59 | without a match the result is 1 |
| Manager.ExtractLastPageSilent | scraper_manager.py:56-59 | output without `Scraping page ` gives 1 |
| Manager.FirstAnnouncementWins | scraper_manager.py:56-58 | output opening with the announcement of page n gives n, even if later lines announce other pages |
| Manager.ExtractLastPageParses | scraper_manager.py:58 | the result is `int()` of the captured digits |
| Manager.Retry | scraper_manager.py:92-132 | the definition of the retry loop; its properties are stated by RetryCounts, RetryBound, RetryStopsAtSuccess and the other Retry* lemmas |
| Manager.EntryAfter | scraper_manager.py:134-136 | the definition of the entry recorded after the loop; RetrySuccessPage states the completed entry, FailedAfterLastCalledProcessError and FailedKeepsLedgerPage the failed one |
| Manager.ProcessUrls | scraper_manager.py:76-139 | the definition of the loop over input rows; its properties are stated by the ProcessUrls* lemmas |
| Manager.Manage | scraper_manager.py:62-141 | the definition of the whole batch; ManageScraping, ResumeReadsBack and ManageNonNegative state it |
| Manager.Attempt | scraper_manager.py:92-132 | each pass runs the scraper once on the next URL; a success does not count an attempt, a failure counts one |
| Manager.RetryCounts | scraper_manager.py:92-132 | runs are only appended; the loop ends on a success or at the bound; every failed run counts |
| Manager.RetryBound | scraper_manager.py:89-92 | at most `retries` runs; a success takes `attempts + 1` runs; giving up means `retries` failed runs |
| Manager.RetryStopsAtSuccess | scraper_manager.py:112-118 | a run succeeds exactly when it is the last run and the loop succeeded |
| Manager.RetrySuccessPage | scraper_manager.py:112-118 | a success records `extract_last_page` of the successful run's output |
| Manager.RetryFailedAfterCalledProcessError | scraper_manager.py:120-136 | giving up right after a failed subprocess records `failed` with the page that run announced |
| Manager.RetryNoCalledProcessError | scraper_manager.py:120-132 | runs that raise anything but `CalledProcessError` leave the start page as it was |
| Manager.RetryLastCalledProcessError | scraper_manager.py:120-132 | the loop ends one past the page announced by its last `CalledProcessError` run, whatever runs follow it |
| Manager.FailedAfterLastCalledProcessError | scraper_manager.py:120-136 | a failed entry records the page announced by the last `CalledProcessError` run |
| Manager.FailedKeepsLedgerPage | scraper_manager.py:83-136 | a failed entry without any `CalledProcessError` run keeps the ledger's `last_page`, or 0 for a URL without an entry |
| Manager.AttemptFollows | scraper_manager.py:94-132 | after a failed pass, the next URL follows from the outcome |
| Manager.RetryUrlChain | scraper_manager.py:94-132 | after a failed subprocess the next run is on `&page=announced+1` (unless that is 1); after any other error the same URL is run again |
| Manager.RetryFirstUrl | scraper_manager.py:83-95 | the first run is on `base_url&page=last_page+1` when an entry exists and that is past 1; otherwise on `base_url` |
| Manager.RetryPagesNonNegative | scraper_manager.py:120-136 | with non-negative announced pages, the start page stays at least 1 and the recorded page is non-negative |
| Manager.ProcessUrl | scraper_manager.py:76-139 | a completed URL is skipped with nothing run or saved; otherwise only its entry changes, to completed or failed, and the ledger is saved |
| Manager.ProcessUrlNonNegative | scraper_manager.py:134-136 | one URL keeps recorded pages non-negative |
| Manager.ManageScraping | scraper_manager.py:62-141 | computes `Manage`; a bad ledger raises before any run; the progress file ends as the last save |
| Manager.ProcessBatch | scraper_manager.py:74-139 | the loop over input rows computes `ProcessUrls` and leaves the last saved ledger in the file |
| Manager.ProcessRow | scraper_manager.py:79-139 | one input row as `ProcessUrl` gives it; the ledger is written exactly when the URL was not skipped |
| Manager.ScrapeUrl | scraper_manager.py:83-136 | the retry `while` loop and the entry recorded after it give the runs and entry of `Retry` and `EntryAfter` |
| Manager.ProcessUrlsSnoc | scraper_manager.py:76 | one more input row is processed after the others |
| Manager.ProcessUrlLastSave | scraper_manager.py:136-139 | after a row, the last save is the current ledger |
| Manager.ParseLedgerValid | scraper_manager.py:71 | the ledger read at the start lists each key once |
| Manager.ProcessUrlsNonNegative | scraper_manager.py:134-136 | a failed entry `start_page - 1` stays non-negative over a batch from a non-negative ledger |
| Manager.ProcessUrlsValid | scraper_manager.py:76-139 | the ledger keeps listing each key once |
| Manager.ProcessUrlsKeys | scraper_manager.py:117-136 | no entry is ever removed; only input URLs are added |
| Manager.ProcessUrlsOthers | scraper_manager.py:117-136 | entries of URLs not in the input are unchanged |
| Manager.ProcessUrlsSettled | scraper_manager.py:80-136 | after the batch every input URL is completed or failed |
| Manager.ProcessUrlsAllCompleted | scraper_manager.py:80-82 | a batch of already completed URLs runs nothing and saves nothing (idempotent re-run) |
| Manager.ProcessUrlsSaves | scraper_manager.py:136-139 | saves are only appended; without one the ledger is unchanged, otherwise the last save is the final ledger |
| Manager.ResumeReadsBack | scraper_manager.py:71-139 | reading back the progress file the batch leaves gives the ledger it ended with |
| Manager.ManageNonNegative | scraper_manager.py:134-136 | from a ledger of non-negative pages, every recorded page, failed ones included, is non-negative |

## Left out

- The Playwright browser is replaced by a navigation oracle. This covers the context, `page.goto`, the selectors and `inner_text`. The oracle maps a URL and the restored cookies to a loaded page (its cards and the new cookies), a navigation failure, or an error raised while the page is queried. Cards are values holding the optional texts of their sub-elements.
- `random_scroll`, `random_mouse_movement`, `time.sleep` and the random delays are not modelled. They involve randomness and wall-clock time and affect no result.
- `print` output is not modelled, including the scraper's own `Scraping page N.` line. The link between what the scraper prints and what the orchestrator parses is not part of this model.
- The subprocess is not modelled. It becomes an oracle from the run's index in the batch and the URL to success with stdout, `CalledProcessError` with stdout, or any other exception. Stderr and the fixed output directory argument are dropped.
- Files are modelled as data, not I/O. A file is its rows as cell tuples (`seq<ProgressRow>`, `CsvTable`), or None when it does not exist. CSV quoting, the header line of the progress file and `os.path.exists` are not modelled.
- A `KeyError` from a progress or input file lacking a `url`, `status` or `last_page` column is not modelled.
- The input file is modelled as the sequence of its `url` cells.
- The `__main__` blocks are not modelled: the command line, `input()`, the timestamped file names and the hard-coded paths. The retry count is a parameter.
- `int()` is modelled for ASCII digits with an optional sign and surrounding whitespace. Underscores and non-ASCII digits are not accepted.
- `\d` is modelled as ASCII digits only. Python's `\d` also matches other Unicode decimal digits.
- Whitespace is Python's `str.isspace` set.
- Text.Split: its contract states only that the tokens are nonempty and whitespace-free. What `split()` returns is pinned down by the lemmas `SplitFirstToken`, `SplitAllSpace` and `SplitJoin`.
- Progress.ParseRows, Manager.Retry and Crawl.CrawlFrom are generic. They take the cell parser, `extract_last_page` and the card loop as parameters, so their lemmas hold for any such function. `ReadProgress`, `Manage` and `Crawl` use the real ones.
- An exception the browser raises while a card's sub-elements are read is not modelled. Such an exception would end the page after the earlier cards' records were appended, and those records would be exported. In the model a query error happens before any card is read, and cards themselves cannot fail.
- Listing.ExtractCardsRecordAt: the order of records is stated one index at a time.
- The DictWriter error for a record with extra keys cannot arise, because every record has the same fourteen keys. It is not modelled.
