/**
 * The pagination crawl of one start URL (`scrape_listings`) and the CSV
 * sink it exports to (`export_to_csv`).
 *
 * The browser is replaced by a navigation oracle: given the URL and the
 * session cookies restored before navigating, it either fails to load the
 * page, loads it and then raises while the page is queried, or loads it
 * and hands back its listing cards and the session cookies afterwards.
 */
module Crawl {
  import opened Wrappers
  import opened Text
  import opened Listing

  /** Pages extracted per crawl before pagination stops. */
  const PAGE_CAP := 10
  /** A page with fewer listing cards than this is not extracted and ends the crawl. */
  const MIN_LISTINGS := 4

  /** Session cookies, opaque to the crawl. */
  type Jar = seq<string>

  datatype Response =
    | Loaded(cards: seq<Card>, cookies: Jar)
    | NavigationError   // `page.goto` raised (timeout or provider failure)
    | QueryError        // the page loaded, then the provider raised while it was used

  /** Why the pagination loop ended. */
  datatype Stop =
    | PageCap                        // `pages_scraped >= 10`
    | NavigationFailed               // inner `except`: `break`
    | NoListings                     // `if not listings: break`
    | TooFewListings                 // `if len(listings) < 4: break`
    | Raised(error: CrawlError)      // outer `except Exception`

  datatype CrawlError = ProviderError | ExtractionError(cause: ScrapeError)

  /** `f"{base_url}&page={page_number}"`. */
  function PageUrl(base: string, n: int): string
  {
    base + "&page=" + IntToString(n)
  }

  /** The records the card loop `extract` produced from the given pages, page after page. */
  function Harvest(extract: seq<Card> -> Extraction, pages: seq<seq<Card>>): seq<Record>
  {
    if pages == [] then []
    else Harvest(extract, pages[..|pages| - 1]) + extract(pages[|pages| - 1]).records
  }

  // ----- The CSV sink -----

  /** A written CSV file: the header row and the data rows, as cell texts. */
  datatype CsvTable = CsvTable(header: seq<string>, rows: seq<seq<string>>)

  /** The record as the dictionary literal builds it: keys and values in insertion order. */
  function Fields(r: Record): seq<(string, Value)>
  {
    [ ("agent_name", Str(r.agentName)),
      ("agency_name", Str(r.agencyName)),
      ("price", Str(r.price)),
      ("address_line1", Str(r.addressLine1)),
      ("suburb", OptionValue(r.suburb)),
      ("state", OptionValue(r.state)),
      ("postcode", OptionValue(r.postcode)),
      ("bedrooms", Int(r.bedrooms)),
      ("bathrooms", Int(r.bathrooms)),
      ("car_spaces", Int(r.carSpaces)),
      ("SQM", r.sqm),
      ("listing_card_tag", OptionValue(r.listingCardTag)),
      ("alt_image", OptionValue(r.altImage)),
      ("property_type", OptionValue(r.propertyType)) ]
  }

  const FIELD_NAMES: seq<string> :=
    [ "agent_name", "agency_name", "price", "address_line1", "suburb", "state", "postcode",
      "bedrooms", "bathrooms", "car_spaces", "SQM", "listing_card_tag", "alt_image", "property_type" ]

  function OptionValue(o: Option<string>): Value
  {
    if o.Some? then Str(o.value) else Null
  }

  /** `dict.keys()`. */
  function Keys(fields: seq<(string, Value)>): (ks: seq<string>)
    ensures |ks| == |fields|
    ensures forall k :: 0 <= k < |fields| ==> ks[k] == fields[k].0
  {
    if fields == [] then [] else [fields[0].0] + Keys(fields[1..])
  }

  /** How `csv.DictWriter` writes a cell: `None` as empty text, numbers in decimal. */
  function Render(v: Value): string
  {
    match v
    case Str(s) => s
    case Int(n) => IntToString(n)
    case Null => ""
  }

  /** `rowdict.get(key)`: the value the record holds under `key`, None when it has no such key. */
  function Lookup(fields: seq<(string, Value)>, key: string): Option<Value>
  {
    if fields == [] then None
    else if fields[0].0 == key then Some(fields[0].1)
    else Lookup(fields[1..], key)
  }

  /** The cell `csv.DictWriter` writes for one column: the value under that key, or the empty `restval`. */
  function Cell(r: Record, key: string): string
  {
    match Lookup(Fields(r), key)
    case None => ""
    case Some(v) => Render(v)
  }

  /** `writerow`: the record's cell for each of the writer's `fieldnames`, in their order. */
  function Row(fieldnames: seq<string>, r: Record): seq<string>
  {
    seq(|fieldnames|, j requires 0 <= j < |fieldnames| => Cell(r, fieldnames[j]))
  }

  /**
   * `export_to_csv` as a change to the output file: nothing is written
   * for an empty list; otherwise the file is overwritten with the first
   * record's keys as header and one row per record, in order, each cell
   * looked up in its record under its column's name.
   */
  function ExportToCsv(data: seq<Record>, file: Option<CsvTable>): (after: Option<CsvTable>)
    ensures data == [] ==> after == file
    ensures data != [] ==> after.Some? && after.value.header == Keys(Fields(data[0]))
    ensures data != [] ==> |after.value.rows| == |data|
    ensures data != [] ==> forall k :: 0 <= k < |data| ==>
      |after.value.rows[k]| == |after.value.header| &&
      forall j :: 0 <= j < |after.value.header| ==> after.value.rows[k][j] == Cell(data[k], after.value.header[j])
  {
    if data == [] then file
    else
      var header := Keys(Fields(data[0]));
      Some(CsvTable(header, seq(|data|, k requires 0 <= k < |data| => Row(header, data[k]))))
  }

  // ----- The crawl -----

  /** What a crawl produced and saw: the loop's accumulators, its page counter, and why it stopped. */
  datatype CrawlRun = CrawlRun(
    results: seq<Record>,        // the records appended, in order
    requested: seq<string>,      // every URL navigated to, in order
    jars: seq<Jar>,              // the cookies restored before each of those navigations
    served: seq<seq<Card>>,      // the card lists the loop extracted from, page by page
    pagesScraped: nat,
    stop: Stop)

  /** The state after a page whose cards were all extracted without an exception. */
  function Advance(extract: seq<Card> -> Extraction, run: CrawlRun, url: string, cookies: Jar, cards: seq<Card>): CrawlRun
  {
    run.(results := run.results + extract(cards).records,
         requested := run.requested + [url],
         jars := run.jars + [cookies],
         served := run.served + [cards],
         pagesScraped := run.pagesScraped + 1)
  }

  /**
   * The pagination loop from the state (`page_number`, `cookies`, the
   * accumulators) at its head to its exit, with `extract` as the card loop
   * of one page. `run.stop` is meaningless on entry and set on every exit.
   */
  function CrawlFrom(baseUrl: string, nav: (string, Jar) -> Response, extract: seq<Card> -> Extraction,
                     pageNumber: int, cookies: Jar, run: CrawlRun): CrawlRun
    requires run.pagesScraped <= PAGE_CAP
    decreases PAGE_CAP - run.pagesScraped
  {
    if run.pagesScraped >= PAGE_CAP then run.(stop := PageCap)
    else
      var url := PageUrl(baseUrl, pageNumber);
      var sent := run.(requested := run.requested + [url], jars := run.jars + [cookies]);
      match nav(url, cookies)
      case NavigationError => sent.(stop := NavigationFailed)
      case QueryError => sent.(stop := Raised(ProviderError))
      case Loaded(cards, next) =>
        if |cards| == 0 then sent.(stop := NoListings)
        else if |cards| < MIN_LISTINGS then sent.(stop := TooFewListings)
        else
          var x := extract(cards);
          if x.error.Some? then
            sent.(served := sent.served + [cards], results := sent.results + x.records,
                  stop := Raised(ExtractionError(x.error.value)))
          else
            CrawlFrom(baseUrl, nav, extract, pageNumber + 1, next, Advance(extract, run, url, cookies, cards))
  }

  /** The loop head before the first iteration: nothing requested, no cookies, nothing accumulated. */
  const START := CrawlRun([], [], [], [], 0, PageCap)

  /** A crawl of one start URL from page 1, each page's cards run through the card loop. */
  function Crawl(baseUrl: string, nav: (string, Jar) -> Response): CrawlRun
  {
    CrawlFrom(baseUrl, nav, ExtractCards, 1, [], START)
  }

  /**
   * The `for listing in listings` loop of one page: each card's record is
   * appended to `results`; a card that raises ends the loop, and the
   * exception is handed back.
   */
  method ExtractPage(listings: seq<Card>, results: seq<Record>) returns (extended: seq<Record>, error: Option<ScrapeError>)
    ensures extended == results + ExtractCards(listings).records
    ensures error == ExtractCards(listings).error
  {
    extended := results;
    for i := 0 to |listings|
      invariant extended == results + ExtractCards(listings[..i]).records
      invariant ExtractCards(listings[..i]).error.None?
    {
      var outcome := ExtractCard(listings[i]);
      ExtractCardsNext(listings, i, outcome);
      if outcome.Err? {
        ExtractCardsStopsAtError(listings, i + 1);
        return extended, Some(outcome.error);
      }
      if outcome.value.Some? {
        AppendAssociates(results, ExtractCards(listings[..i]).records, [outcome.value.value]);
        extended := extended + [outcome.value.value];
      }
    }
    assert listings[..|listings|] == listings;
    error := None;
  }

  /**
   * `scrape_listings(base_url, output_file)`: the `while True` loop with its
   * `break` exits, then the export of the `except` handler (on an
   * exception) and of the `finally` clause. `before` is what the output
   * file held before the call (None when it did not exist); an empty
   * result list leaves it as it was. The loop's accumulators
   * (`results`, `pages_scraped`) travel in `run` with the URLs, cookie
   * jars and card lists the loop went through.
   */
  method ScrapeListings(baseUrl: string, nav: (string, Jar) -> Response, before: Option<CsvTable>)
    returns (run: CrawlRun, file: Option<CsvTable>)
    ensures run == Crawl(baseUrl, nav)
    ensures file == ExportToCsv(run.results, before)
  {
    run := START;
    var cookies: Jar := [];
    var pageNumber := 1;
    while true
      invariant run.pagesScraped <= PAGE_CAP && run.stop == PageCap
      invariant CrawlFrom(baseUrl, nav, ExtractCards, pageNumber, cookies, run) == Crawl(baseUrl, nav)
      decreases PAGE_CAP - run.pagesScraped
    {
      if run.pagesScraped >= PAGE_CAP {
        break;
      }
      var done;
      run, cookies, done := ScrapePage(baseUrl, nav, pageNumber, cookies, run);
      if done {
        break;
      }
      pageNumber := pageNumber + 1;
    }
    file := ExportOnExit(run.results, run.stop, before);
  }

  /**
   * One pass of the loop below the page cap: navigate to the page, leave
   * the loop on a navigation failure, on too few listings or on an
   * exception, and otherwise extract every card and count the page.
   */
  method ScrapePage(baseUrl: string, nav: (string, Jar) -> Response, pageNumber: int, cookies: Jar, here: CrawlRun)
    returns (run: CrawlRun, nextCookies: Jar, done: bool)
    requires here.pagesScraped < PAGE_CAP && here.stop == PageCap
    ensures done ==> run == CrawlFrom(baseUrl, nav, ExtractCards, pageNumber, cookies, here)
    ensures !done ==> run.pagesScraped == here.pagesScraped + 1 && run.stop == PageCap
    ensures !done ==> CrawlFrom(baseUrl, nav, ExtractCards, pageNumber + 1, nextCookies, run)
                      == CrawlFrom(baseUrl, nav, ExtractCards, pageNumber, cookies, here)
  {
    CrawlFromStep(baseUrl, nav, ExtractCards, pageNumber, cookies, here);
    var currentUrl := PageUrl(baseUrl, pageNumber);
    run := here.(requested := here.requested + [currentUrl], jars := here.jars + [cookies]);
    nextCookies, done := cookies, true;
    match nav(currentUrl, cookies) {
      case NavigationError =>
        run := run.(stop := NavigationFailed);
      case QueryError =>
        run := run.(stop := Raised(ProviderError));
      case Loaded(listings, after) =>
        if |listings| == 0 {
          run := run.(stop := NoListings);
        } else if |listings| < MIN_LISTINGS {
          run := run.(stop := TooFewListings);
        } else {
          var results, error := ExtractPage(listings, run.results);
          run := run.(served := run.served + [listings], results := results);
          if error.Some? {
            run := run.(stop := Raised(ExtractionError(error.value)));
          } else {
            run := run.(pagesScraped := run.pagesScraped + 1);
            assert run == Advance(ExtractCards, here, currentUrl, cookies, listings);
            nextCookies, done := after, false;
          }
        }
    }
  }

  /**
   * The two exports after the loop: the `except` handler's, when the loop
   * ended on an exception, then the `finally` clause's. Each writes only
   * a non-empty list, and the second overwrites the first; with no
   * results the file is left as it was before the call.
   */
  method ExportOnExit(results: seq<Record>, stop: Stop, before: Option<CsvTable>) returns (file: Option<CsvTable>)
    ensures file == ExportToCsv(results, before)
  {
    file := before;
    if stop.Raised? {
      file := ExportToCsv(results, file);
    }
    if results != [] {
      file := ExportToCsv(results, file);
    }
  }

  // ----- Lemmas -----

  /**
   * One pass of the loop from a head below the page cap: the request is
   * recorded, and the response decides between each exit and the next head.
   */
  lemma CrawlFromStep(baseUrl: string, nav: (string, Jar) -> Response, extract: seq<Card> -> Extraction,
                      pageNumber: int, cookies: Jar, run: CrawlRun)
    requires run.pagesScraped < PAGE_CAP
    ensures var url := PageUrl(baseUrl, pageNumber);
      var sent := run.(requested := run.requested + [url], jars := run.jars + [cookies]);
      var response := nav(url, cookies);
      var r := CrawlFrom(baseUrl, nav, extract, pageNumber, cookies, run);
      (response.NavigationError? ==> r == sent.(stop := NavigationFailed)) &&
      (response.QueryError? ==> r == sent.(stop := Raised(ProviderError))) &&
      (response.Loaded? && |response.cards| == 0 ==> r == sent.(stop := NoListings)) &&
      (response.Loaded? && 0 < |response.cards| < MIN_LISTINGS ==> r == sent.(stop := TooFewListings)) &&
      (response.Loaded? && |response.cards| >= MIN_LISTINGS && extract(response.cards).error.Some? ==>
         r == sent.(served := sent.served + [response.cards], results := sent.results + extract(response.cards).records,
                    stop := Raised(ExtractionError(extract(response.cards).error.value)))) &&
      (response.Loaded? && |response.cards| >= MIN_LISTINGS && extract(response.cards).error.None? ==>
         r == CrawlFrom(baseUrl, nav, extract, pageNumber + 1, response.cookies,
                        Advance(extract, run, url, cookies, response.cards)))
  {
  }

  /** The loop head: one page number past the pages scraped, and one request, jar and page per page scraped. */
  ghost predicate LoopHead(pageNumber: int, run: CrawlRun)
  {
    run.pagesScraped <= PAGE_CAP && pageNumber == run.pagesScraped + 1 &&
    |run.requested| == run.pagesScraped && |run.jars| == run.pagesScraped && |run.served| == run.pagesScraped
  }

  /** Whether the crawl ended on an exception raised while extracting a card. */
  predicate CardRaised(stop: Stop)
  {
    stop.Raised? && stop.error.ExtractionError?
  }

  /** The last navigation of a crawl: the URL requested and the cookies restored before it. */
  ghost function LastResponse(nav: (string, Jar) -> Response, run: CrawlRun): Response
    requires 0 < |run.requested| == |run.jars|
  {
    nav(run.requested[|run.requested| - 1], run.jars[|run.jars| - 1])
  }

  lemma {:induction false} CrawlFromCounts(baseUrl: string, nav: (string, Jar) -> Response, extract: seq<Card> -> Extraction,
                                           pageNumber: int, cookies: Jar, run: CrawlRun)
    requires LoopHead(pageNumber, run)
    ensures var r := CrawlFrom(baseUrl, nav, extract, pageNumber, cookies, run);
      run.pagesScraped <= r.pagesScraped <= PAGE_CAP &&
      (r.stop == PageCap <==> r.pagesScraped == PAGE_CAP) &&
      |r.jars| == |r.requested| == (if r.stop == PageCap then r.pagesScraped else r.pagesScraped + 1) &&
      |r.served| == (if CardRaised(r.stop) then r.pagesScraped + 1 else r.pagesScraped)
    decreases PAGE_CAP - run.pagesScraped
  {
    if run.pagesScraped < PAGE_CAP {
      var url := PageUrl(baseUrl, pageNumber);
      var response := nav(url, cookies);
      if response.Loaded? && |response.cards| >= MIN_LISTINGS && extract(response.cards).error.None? {
        CrawlFromCounts(baseUrl, nav, extract, pageNumber + 1, response.cookies, Advance(extract, run, url, cookies, response.cards));
      }
    }
  }

  lemma {:induction false} CrawlFromUrls(baseUrl: string, nav: (string, Jar) -> Response, extract: seq<Card> -> Extraction,
                                           pageNumber: int, cookies: Jar, run: CrawlRun)
    requires LoopHead(pageNumber, run)
    requires forall k :: 0 <= k < |run.requested| ==> run.requested[k] == PageUrl(baseUrl, k + 1)
    ensures var r := CrawlFrom(baseUrl, nav, extract, pageNumber, cookies, run);
      forall k :: 0 <= k < |r.requested| ==> r.requested[k] == PageUrl(baseUrl, k + 1)
    decreases PAGE_CAP - run.pagesScraped
  {
    if run.pagesScraped < PAGE_CAP {
      var url := PageUrl(baseUrl, pageNumber);
      var response := nav(url, cookies);
      assert forall k :: 0 <= k <= |run.requested| ==> (run.requested + [url])[k] == PageUrl(baseUrl, k + 1);
      if response.Loaded? && |response.cards| >= MIN_LISTINGS && extract(response.cards).error.None? {
        var next := Advance(extract, run, url, cookies, response.cards);
        assert CrawlFrom(baseUrl, nav, extract, pageNumber, cookies, run)
            == CrawlFrom(baseUrl, nav, extract, pageNumber + 1, response.cookies, next);
        CrawlFromUrls(baseUrl, nav, extract, pageNumber + 1, response.cookies, next);
      } else {
        assert CrawlFrom(baseUrl, nav, extract, pageNumber, cookies, run).requested == run.requested + [url];
      }
    } else {
      assert CrawlFrom(baseUrl, nav, extract, pageNumber, cookies, run).requested == run.requested;
    }
  }

  /** Each jar after the first is the cookie state the previous navigation left. */
  ghost predicate CookieChain(nav: (string, Jar) -> Response, requested: seq<string>, jars: seq<Jar>)
    requires |requested| == |jars|
  {
    forall k :: 0 <= k < |jars| - 1 ==> nav(requested[k], jars[k]).Loaded? && nav(requested[k], jars[k]).cookies == jars[k + 1]
  }

  /** Each extracted page is what its navigation loaded. */
  ghost predicate ServedAsLoaded(nav: (string, Jar) -> Response, requested: seq<string>, jars: seq<Jar>, served: seq<seq<Card>>)
    requires |served| <= |requested| == |jars|
  {
    forall k :: 0 <= k < |served| ==> nav(requested[k], jars[k]).Loaded? && nav(requested[k], jars[k]).cards == served[k]
  }

  /** The session at the loop head: the chain so far, and the cookies about to be restored are those the last navigation left. */
  ghost predicate Session(nav: (string, Jar) -> Response, cookies: Jar, run: CrawlRun)
  {
    |run.requested| == |run.jars| == |run.served| &&
    CookieChain(nav, run.requested, run.jars) && ServedAsLoaded(nav, run.requested, run.jars, run.served) &&
    (run.jars != [] ==> LastResponse(nav, run).Loaded? && LastResponse(nav, run).cookies == cookies)
  }

  /** One more navigation, from the loop head, keeps the chain; its page, when loaded, is what it served. */
  lemma SessionStep(nav: (string, Jar) -> Response, cookies: Jar, run: CrawlRun, url: string)
    requires Session(nav, cookies, run)
    ensures CookieChain(nav, run.requested + [url], run.jars + [cookies])
    ensures ServedAsLoaded(nav, run.requested + [url], run.jars + [cookies], run.served)
    ensures nav(url, cookies).Loaded? ==>
      ServedAsLoaded(nav, run.requested + [url], run.jars + [cookies], run.served + [nav(url, cookies).cards])
  {
    var requested, jars := run.requested + [url], run.jars + [cookies];
    forall k | 0 <= k < |jars| - 1
      ensures nav(requested[k], jars[k]).Loaded? && nav(requested[k], jars[k]).cookies == jars[k + 1]
    {
      if k < |run.jars| - 1 {
        assert requested[k] == run.requested[k] && jars[k] == run.jars[k] && jars[k + 1] == run.jars[k + 1];
      }
    }
  }

  lemma {:induction false} CrawlFromSession(baseUrl: string, nav: (string, Jar) -> Response, extract: seq<Card> -> Extraction,
                                           pageNumber: int, cookies: Jar, run: CrawlRun)
    requires LoopHead(pageNumber, run) && Session(nav, cookies, run)
    ensures var r := CrawlFrom(baseUrl, nav, extract, pageNumber, cookies, run);
      0 < |r.jars| == |r.requested| && |r.served| <= |r.jars| &&
      r.jars[0] == (if run.jars == [] then cookies else run.jars[0]) &&
      CookieChain(nav, r.requested, r.jars) && ServedAsLoaded(nav, r.requested, r.jars, r.served)
    decreases PAGE_CAP - run.pagesScraped
  {
    var r := CrawlFrom(baseUrl, nav, extract, pageNumber, cookies, run);
    if run.pagesScraped < PAGE_CAP {
      var url := PageUrl(baseUrl, pageNumber);
      var response := nav(url, cookies);
      SessionStep(nav, cookies, run, url);
      if response.Loaded? && |response.cards| >= MIN_LISTINGS && extract(response.cards).error.None? {
        var next := Advance(extract, run, url, cookies, response.cards);
        assert r == CrawlFrom(baseUrl, nav, extract, pageNumber + 1, response.cookies, next);
        CrawlFromSession(baseUrl, nav, extract, pageNumber + 1, response.cookies, next);
      } else if response.Loaded? && |response.cards| >= MIN_LISTINGS {
        assert r.requested == run.requested + [url] && r.jars == run.jars + [cookies];
        assert r.served == run.served + [response.cards];
      } else {
        assert r.requested == run.requested + [url] && r.jars == run.jars + [cookies];
        assert r.served == run.served;
      }
    } else {
      assert r.requested == run.requested && r.jars == run.jars && r.served == run.served;
    }
  }

  /** Served pages at the loop head: each had enough cards and raised nothing, and the records are theirs. */
  ghost predicate CleanPages(extract: seq<Card> -> Extraction, run: CrawlRun)
  {
    (forall k :: 0 <= k < |run.served| ==> |run.served[k]| >= MIN_LISTINGS && extract(run.served[k]).error.None?) &&
    run.results == Harvest(extract, run.served)
  }

  /** Extracting one more page with enough cards appends its records to the harvest. */
  lemma PagesStep(extract: seq<Card> -> Extraction, run: CrawlRun, cards: seq<Card>)
    requires CleanPages(extract, run) && |cards| >= MIN_LISTINGS
    ensures var served := run.served + [cards];
      Harvest(extract, served) == run.results + extract(cards).records &&
      (forall k :: 0 <= k < |served| ==> |served[k]| >= MIN_LISTINGS) &&
      (forall k :: 0 <= k < |run.served| ==> extract(served[k]).error.None?)
  {
    var served := run.served + [cards];
    assert served[..|served| - 1] == run.served;
  }

  lemma {:induction false} CrawlFromHarvest(baseUrl: string, nav: (string, Jar) -> Response, extract: seq<Card> -> Extraction,
                                             pageNumber: int, cookies: Jar, run: CrawlRun)
    requires LoopHead(pageNumber, run) && CleanPages(extract, run)
    ensures var r := CrawlFrom(baseUrl, nav, extract, pageNumber, cookies, run);
      r.results == Harvest(extract, r.served)
    decreases PAGE_CAP - run.pagesScraped
  {
    var r := CrawlFrom(baseUrl, nav, extract, pageNumber, cookies, run);
    if run.pagesScraped < PAGE_CAP {
      var url := PageUrl(baseUrl, pageNumber);
      var response := nav(url, cookies);
      if response.Loaded? && |response.cards| >= MIN_LISTINGS {
        PagesStep(extract, run, response.cards);
        if extract(response.cards).error.None? {
          var next := Advance(extract, run, url, cookies, response.cards);
          assert r == CrawlFrom(baseUrl, nav, extract, pageNumber + 1, response.cookies, next);
          CrawlFromHarvest(baseUrl, nav, extract, pageNumber + 1, response.cookies, next);
        } else {
          assert r.served == run.served + [response.cards];
          assert r.results == run.results + extract(response.cards).records;
        }
      } else {
        assert r.served == run.served && r.results == run.results;
      }
    } else {
      assert r.served == run.served && r.results == run.results;
    }
  }

  lemma {:induction false} CrawlFromPages(baseUrl: string, nav: (string, Jar) -> Response, extract: seq<Card> -> Extraction,
                                           pageNumber: int, cookies: Jar, run: CrawlRun)
    requires LoopHead(pageNumber, run) && CleanPages(extract, run)
    ensures var r := CrawlFrom(baseUrl, nav, extract, pageNumber, cookies, run);
      r.pagesScraped <= |r.served| &&
      (forall k :: 0 <= k < |r.served| ==> |r.served[k]| >= MIN_LISTINGS) &&
      (forall k :: 0 <= k < r.pagesScraped ==> extract(r.served[k]).error.None?) &&
      (CardRaised(r.stop) ==> r.pagesScraped < |r.served| && extract(r.served[r.pagesScraped]).error == Some(r.stop.error.cause))
    decreases PAGE_CAP - run.pagesScraped
  {
    var r := CrawlFrom(baseUrl, nav, extract, pageNumber, cookies, run);
    if run.pagesScraped < PAGE_CAP {
      var url := PageUrl(baseUrl, pageNumber);
      var response := nav(url, cookies);
      if response.Loaded? && |response.cards| >= MIN_LISTINGS {
        PagesStep(extract, run, response.cards);
        if extract(response.cards).error.None? {
          var next := Advance(extract, run, url, cookies, response.cards);
          assert r == CrawlFrom(baseUrl, nav, extract, pageNumber + 1, response.cookies, next);
          CrawlFromPages(baseUrl, nav, extract, pageNumber + 1, response.cookies, next);
        } else {
          assert r.served == run.served + [response.cards] && r.pagesScraped == |run.served|;
        }
      } else {
        assert r.served == run.served && !CardRaised(r.stop);
      }
    } else {
      assert r.served == run.served && r.stop == PageCap;
    }
  }

  lemma {:induction false} CrawlFromStop(baseUrl: string, nav: (string, Jar) -> Response, extract: seq<Card> -> Extraction,
                                           pageNumber: int, cookies: Jar, run: CrawlRun)
    requires LoopHead(pageNumber, run)
    ensures var r := CrawlFrom(baseUrl, nav, extract, pageNumber, cookies, run);
      0 < |r.requested| == |r.jars| &&
      (r.stop != PageCap ==>
        var response := LastResponse(nav, r);
        (r.stop == NavigationFailed <==> response.NavigationError?) &&
        (r.stop == Raised(ProviderError) <==> response.QueryError?) &&
        (r.stop == NoListings <==> response.Loaded? && |response.cards| == 0) &&
        (r.stop == TooFewListings <==> response.Loaded? && 0 < |response.cards| < MIN_LISTINGS) &&
        (CardRaised(r.stop) <==> response.Loaded? && |response.cards| >= MIN_LISTINGS && extract(response.cards).error.Some?))
    decreases PAGE_CAP - run.pagesScraped
  {
    CrawlFromCounts(baseUrl, nav, extract, pageNumber, cookies, run);
    if run.pagesScraped < PAGE_CAP {
      var url := PageUrl(baseUrl, pageNumber);
      var response := nav(url, cookies);
      if response.Loaded? && |response.cards| >= MIN_LISTINGS && extract(response.cards).error.None? {
        CrawlFromStop(baseUrl, nav, extract, pageNumber + 1, response.cookies, Advance(extract, run, url, cookies, response.cards));
      }
    }
  }

  /**
   * The loop runs at most ten pages; it stops on the page cap exactly when
   * ten pages were scraped; every iteration navigates once, and only the
   * iterations that end in a `break` or an exception do not count a page.
   */
  lemma CrawlCounts(baseUrl: string, nav: (string, Jar) -> Response)
    ensures var r := Crawl(baseUrl, nav);
      r.pagesScraped <= PAGE_CAP &&
      (r.stop == PageCap <==> r.pagesScraped == PAGE_CAP) &&
      |r.jars| == |r.requested| == (if r.stop == PageCap then r.pagesScraped else r.pagesScraped + 1) &&
      |r.served| == (if CardRaised(r.stop) then r.pagesScraped + 1 else r.pagesScraped)
  {
    CrawlFromCounts(baseUrl, nav, ExtractCards, 1, [], START);
  }

  /** The k-th navigation (from 0) requests page k + 1 of the start URL. */
  lemma CrawlUrls(baseUrl: string, nav: (string, Jar) -> Response)
    ensures var r := Crawl(baseUrl, nav);
      forall k :: 0 <= k < |r.requested| ==> r.requested[k] == PageUrl(baseUrl, k + 1)
  {
    CrawlFromUrls(baseUrl, nav, ExtractCards, 1, [], START);
    assert Crawl(baseUrl, nav) == CrawlFrom(baseUrl, nav, ExtractCards, 1, [], START);
  }

  /**
   * The session: the first navigation starts with no cookies, each later one
   * with the cookies the previous navigation left, and every extracted page
   * is the card list its navigation loaded.
   */
  lemma CrawlSession(baseUrl: string, nav: (string, Jar) -> Response)
    ensures var r := Crawl(baseUrl, nav);
      0 < |r.jars| == |r.requested| && r.jars[0] == [] && |r.served| <= |r.jars| &&
      CookieChain(nav, r.requested, r.jars) && ServedAsLoaded(nav, r.requested, r.jars, r.served)
  {
    CrawlFromSession(baseUrl, nav, ExtractCards, 1, [], START);
    assert Crawl(baseUrl, nav) == CrawlFrom(baseUrl, nav, ExtractCards, 1, [], START);
  }

  /**
   * The records are those of the extracted pages, page after page; every
   * extracted page had at least four cards; the counted pages raised
   * nothing, and a crawl ended by a card's exception keeps the records of
   * that page's earlier cards.
   */
  lemma CrawlPages(baseUrl: string, nav: (string, Jar) -> Response)
    ensures var r := Crawl(baseUrl, nav);
      r.pagesScraped <= |r.served| && r.results == Harvest(ExtractCards, r.served) &&
      (forall k :: 0 <= k < |r.served| ==> |r.served[k]| >= MIN_LISTINGS) &&
      (forall k :: 0 <= k < r.pagesScraped ==> ExtractCards(r.served[k]).error.None?) &&
      (CardRaised(r.stop) ==> r.pagesScraped < |r.served| && ExtractCards(r.served[r.pagesScraped]).error == Some(r.stop.error.cause))
  {
    CrawlFromHarvest(baseUrl, nav, ExtractCards, 1, [], START);
    CrawlFromPages(baseUrl, nav, ExtractCards, 1, [], START);
  }

  /** Unless the page cap stopped it, the crawl stopped for what its last navigation returned, and for nothing else. */
  lemma CrawlStop(baseUrl: string, nav: (string, Jar) -> Response)
    ensures var r := Crawl(baseUrl, nav);
      0 < |r.requested| == |r.jars| &&
      (r.stop != PageCap ==>
        var response := LastResponse(nav, r);
        (r.stop == NavigationFailed <==> response.NavigationError?) &&
        (r.stop == Raised(ProviderError) <==> response.QueryError?) &&
        (r.stop == NoListings <==> response.Loaded? && |response.cards| == 0) &&
        (r.stop == TooFewListings <==> response.Loaded? && 0 < |response.cards| < MIN_LISTINGS) &&
        (CardRaised(r.stop) <==> response.Loaded? && |response.cards| >= MIN_LISTINGS && ExtractCards(response.cards).error.Some?))
  {
    CrawlFromStop(baseUrl, nav, ExtractCards, 1, [], START);
  }

  /** Every record is exported under the same fourteen column names, in the dictionary's order. */
  lemma ExportHeader(data: seq<Record>, file: Option<CsvTable>)
    requires data != []
    ensures ExportToCsv(data, file).value.header == FIELD_NAMES
    ensures forall k :: 0 <= k < |data| ==> |ExportToCsv(data, file).value.rows[k]| == |FIELD_NAMES|
  {
  }

  /** No two fields of a record share a name. */
  lemma FieldNamesDistinct()
    ensures forall i, j :: 0 <= i < j < |FIELD_NAMES| ==> FIELD_NAMES[i] != FIELD_NAMES[j]
  {
  }

  /** Every record has the same keys, in the same order. */
  lemma RecordKeys(r: Record)
    ensures Keys(Fields(r)) == FIELD_NAMES
  {
    var ks := Keys(Fields(r));
    forall k | 0 <= k < |ks|
      ensures ks[k] == FIELD_NAMES[k]
    {
    }
  }

  /** Looking a key up finds the value of its field when no earlier field has that name. */
  lemma {:induction false} LookupAt(fields: seq<(string, Value)>, j: nat)
    requires j < |fields|
    requires forall i :: 0 <= i < j ==> fields[i].0 != fields[j].0
    ensures Lookup(fields, fields[j].0) == Some(fields[j].1)
  {
    if j > 0 {
      LookupAt(fields[1..], j - 1);
    }
  }

  /** In fields with distinct names, looking up a field's name finds its value. */
  lemma LookupDistinct(fields: seq<(string, Value)>, names: seq<string>, j: nat)
    requires Keys(fields) == names && j < |names|
    requires forall i, l :: 0 <= i < l < |names| ==> names[i] != names[l]
    ensures Lookup(fields, names[j]) == Some(fields[j].1)
  {
    assert forall i :: 0 <= i < j ==> fields[i].0 != fields[j].0 by {
      forall i | 0 <= i < j
        ensures fields[i].0 != fields[j].0
      {
        assert fields[i].0 == names[i] && fields[j].0 == names[j];
      }
    }
    LookupAt(fields, j);
  }

  /** The cell of a record under the j-th field name is its j-th value. */
  lemma CellAt(r: Record, j: nat)
    requires j < |FIELD_NAMES|
    ensures Cell(r, FIELD_NAMES[j]) == Render(Fields(r)[j].1)
  {
    RecordKeys(r);
    FieldNamesDistinct();
    LookupDistinct(Fields(r), FIELD_NAMES, j);
  }

  /**
   * Looking cells up by column name writes each record's values in its own
   * key order: the cell in row k, column j is the record's j-th value.
   */
  lemma ExportCell(data: seq<Record>, file: Option<CsvTable>, k: nat, j: nat)
    requires k < |data| && j < |FIELD_NAMES|
    ensures ExportToCsv(data, file).value.rows[k][j] == Render(Fields(data[k])[j].1)
  {
    ExportHeader(data, file);
    CellAt(data[k], j);
  }

  /** Exporting the same records again leaves the file as the first export left it. */
  lemma ExportIdempotent(data: seq<Record>, file: Option<CsvTable>)
    ensures ExportToCsv(data, ExportToCsv(data, file)) == ExportToCsv(data, file)
  {
  }
}
