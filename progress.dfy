/**
 * The progress ledger of the batch orchestrator: a dictionary from start
 * URL to its status and last page, read from and written to a CSV file
 * with the columns `url`, `status`, `last_page`.
 *
 * A file is modelled by its data rows, each a triple of cell texts in
 * column order; a missing file is None.
 */
module Progress {
  import opened Wrappers
  import opened Text

  const COMPLETED := "completed"
  const FAILED := "failed"

  /** `{"status": ..., "last_page": ...}`. */
  datatype Entry = Entry(status: string, lastPage: int)

  /**
   * A Python dictionary from URL to entry: the keys in insertion order
   * (the order `items()` walks), and the mapping itself.
   */
  datatype Ledger = Ledger(order: seq<string>, entries: map<string, Entry>)
  {
    /** Every key listed exactly once, and nothing else listed. */
    predicate Valid()
    {
      (forall i, j :: 0 <= i < j < |order| ==> order[i] != order[j]) &&
      (forall u :: u in entries ==> u in order) &&
      (forall u :: u in order ==> u in entries)
    }
  }

  const EMPTY := Ledger([], map[])

  /**
   * `progress[url] = entry`: a new key goes to the end of the insertion
   * order, an existing key keeps its place and gets the new value.
   */
  function Set(l: Ledger, url: string, e: Entry): Ledger
  {
    if url in l.entries then Ledger(l.order, l.entries[url := e])
    else Ledger(l.order + [url], l.entries[url := e])
  }

  /**
   * What an assignment does: the key maps to the new entry, every other key
   * keeps its presence and its entry, keys keep their order, and a ledger
   * that lists each key once still does.
   */
  lemma SetEntries(l: Ledger, url: string, e: Entry)
    ensures var r := Set(l, url, e);
      url in r.entries && r.entries[url] == e &&
      (forall u :: u != url ==> (u in r.entries <==> u in l.entries)) &&
      (forall u :: u != url && u in l.entries ==> r.entries[u] == l.entries[u]) &&
      l.order <= r.order &&
      (l.Valid() ==> r.Valid())
  {
  }

  /** One data row of the progress file: the `url`, `status` and `last_page` cells. */
  datatype ProgressRow = ProgressRow(url: string, status: string, lastPage: string)

  /** `int(row["last_page"])` raised `ValueError` on the row for `url`. */
  datatype LedgerError = BadLastPage(url: string, text: string)

  /**
   * The `for row in reader` loop of `read_progress` over the rows read so
   * far: each row overwrites its URL's entry; the first row whose
   * `last_page` the cell parser rejects raises. The parser is a parameter
   * so that the facts about the loop hold for any parser; `read_progress`
   * itself uses `int`, that is `ParseInt`.
   */
  function ParseRows(rows: seq<ProgressRow>, parse: string -> Option<int>): Result<Ledger, LedgerError>
  {
    if rows == [] then Ok(EMPTY)
    else
      match ParseRows(rows[..|rows| - 1], parse)
      case Err(e) => Err(e)
      case Ok(l) =>
        var row := rows[|rows| - 1];
        match parse(row.lastPage)
        case None => Err(BadLastPage(row.url, row.lastPage))
        case Some(n) => Ok(Set(l, row.url, Entry(row.status, n)))
  }

  /** `read_progress`: an empty ledger when the file does not exist. */
  function ParseLedger(file: Option<seq<ProgressRow>>): Result<Ledger, LedgerError>
  {
    match file
    case None => Ok(EMPTY)
    case Some(rows) => ParseRows(rows, ParseInt)
  }

  /** The row `writerow` emits for one entry: `last_page` rendered in decimal. */
  function RowOf(url: string, e: Entry): ProgressRow
  {
    ProgressRow(url, e.status, IntToString(e.lastPage))
  }

  /** The rows for the given keys, in that order. */
  function RowsFor(urls: seq<string>, entries: map<string, Entry>): seq<ProgressRow>
    requires forall u :: u in urls ==> u in entries
  {
    if urls == [] then []
    else RowsFor(urls[..|urls| - 1], entries) + [RowOf(urls[|urls| - 1], entries[urls[|urls| - 1]])]
  }

  /** What `write_progress` writes below the header: one row per key, in insertion order. */
  function LedgerRows(l: Ledger): seq<ProgressRow>
    requires l.Valid()
  {
    RowsFor(l.order, l.entries)
  }

  /** `read_progress(progress_csv)`. */
  method ReadProgress(file: Option<seq<ProgressRow>>) returns (r: Result<Ledger, LedgerError>)
    ensures r == ParseLedger(file)
    ensures file.None? ==> r == Ok(EMPTY)
  {
    if file.None? {
      return Ok(EMPTY);
    }
    r := ReadRows(file.value, ParseInt);
  }

  /** The body of `read_progress` once the file is open, with `parse` for `int`. */
  method ReadRows(rows: seq<ProgressRow>, parse: string -> Option<int>) returns (r: Result<Ledger, LedgerError>)
    ensures r == ParseRows(rows, parse)
  {
    var progress := EMPTY;
    for i := 0 to |rows|
      invariant ParseRows(rows[..i], parse) == Ok(progress)
    {
      var row := rows[i];
      assert rows[..i] + [row] == rows[..i + 1];
      match parse(row.lastPage) {
        case None =>
          ParseRowsSnocBad(rows[..i], parse, row);
          ParseRowsErrorSticks(rows, parse, i + 1);
          return Err(BadLastPage(row.url, row.lastPage));
        case Some(n) =>
          ParseRowsSnoc(rows[..i], parse, row, n);
          progress := Set(progress, row.url, Entry(row.status, n));
      }
    }
    assert rows[..|rows|] == rows;
    r := Ok(progress);
  }

  /** `write_progress(progress_csv, progress)`: the rows of the rewritten file. */
  method WriteProgress(progress: Ledger) returns (rows: seq<ProgressRow>)
    requires progress.Valid()
    ensures rows == LedgerRows(progress)
  {
    rows := [];
    for i := 0 to |progress.order|
      invariant rows == RowsFor(progress.order[..i], progress.entries)
    {
      var url := progress.order[i];
      assert progress.order[..i + 1][..i] == progress.order[..i];
      rows := rows + [RowOf(url, progress.entries[url])];
    }
    assert progress.order[..|progress.order|] == progress.order;
  }

  // ----- Lemmas -----

  /** Once a prefix of the rows raises, the whole file raises the same error. */
  lemma {:induction false} ParseRowsErrorSticks(rows: seq<ProgressRow>, parse: string -> Option<int>, i: nat)
    requires i <= |rows| && ParseRows(rows[..i], parse).Err?
    ensures ParseRows(rows, parse) == ParseRows(rows[..i], parse)
    decreases |rows| - i
  {
    if i < |rows| {
      assert rows[..i + 1][..i] == rows[..i];
      ParseRowsErrorSticks(rows, parse, i + 1);
    } else {
      assert rows[..i] == rows;
    }
  }

  /** The entries of the given keys only. */
  function Restrict(entries: map<string, Entry>, urls: seq<string>): map<string, Entry>
    requires forall u :: u in urls ==> u in entries
  {
    map u | u in urls :: entries[u]
  }

  /** Reading one more row whose `last_page` parses sets that row's entry. */
  lemma ParseRowsSnoc(rows: seq<ProgressRow>, parse: string -> Option<int>, row: ProgressRow, n: int)
    requires ParseRows(rows, parse).Ok? && parse(row.lastPage) == Some(n)
    ensures ParseRows(rows + [row], parse) == Ok(Set(ParseRows(rows, parse).value, row.url, Entry(row.status, n)))
  {
    assert (rows + [row])[..|rows|] == rows;
  }

  /** Reading one more row whose `last_page` does not parse raises on that row. */
  lemma ParseRowsSnocBad(rows: seq<ProgressRow>, parse: string -> Option<int>, row: ProgressRow)
    requires ParseRows(rows, parse).Ok? && parse(row.lastPage).None?
    ensures ParseRows(rows + [row], parse) == Err(BadLastPage(row.url, row.lastPage))
  {
    assert (rows + [row])[..|rows|] == rows;
  }

  lemma RestrictSnoc(entries: map<string, Entry>, init: seq<string>, last: string)
    requires forall u :: u in init ==> u in entries
    requires last in entries && last !in init
    ensures last !in Restrict(entries, init)
    ensures Restrict(entries, init)[last := entries[last]] == Restrict(entries, init + [last])
  {
  }

  /** Rows written for distinct keys read back as those keys, in that order, with their entries. */
  lemma {:induction false} RowsForRoundTrip(urls: seq<string>, entries: map<string, Entry>, parse: string -> Option<int>)
    requires forall u :: u in urls ==> u in entries
    requires forall i, j :: 0 <= i < j < |urls| ==> urls[i] != urls[j]
    requires forall i: int :: parse(IntToString(i)) == Some(i)
    ensures ParseRows(RowsFor(urls, entries), parse) == Ok(Ledger(urls, Restrict(entries, urls)))
  {
    if urls != [] {
      var init := urls[..|urls| - 1];
      var last := urls[|urls| - 1];
      assert init + [last] == urls;
      var e := entries[last];
      RowsForRoundTrip(init, entries, parse);
      ParseRowsSnoc(RowsFor(init, entries), parse, RowOf(last, e), e.lastPage);
      RestrictSnoc(entries, init, last);
    }
  }

  lemma RestrictAll(l: Ledger)
    requires l.Valid()
    ensures Restrict(l.entries, l.order) == l.entries
  {
  }

  /**
   * Writing a ledger and reading the file back gives the same ledger:
   * the same keys in the same order with the same statuses and pages.
   */
  lemma LedgerRoundTrip(l: Ledger)
    requires l.Valid()
    ensures ParseLedger(Some(LedgerRows(l))) == Ok(l)
  {
    forall i: int
      ensures ParseInt(IntToString(i)) == Some(i)
    {
      ParseIntRoundTrip(i);
    }
    RowsForRoundTrip(l.order, l.entries, ParseInt);
    RestrictAll(l);
  }

  /** A ledger read from a file lists each of its keys exactly once. */
  lemma {:induction false} ParseRowsValid(rows: seq<ProgressRow>, parse: string -> Option<int>)
    requires ParseRows(rows, parse).Ok?
    ensures ParseRows(rows, parse).value.Valid()
  {
    if rows != [] {
      ParseRowsLast(rows, parse);
      ParseRowsValid(rows[..|rows| - 1], parse);
    }
  }

  /** A file that reads without error read every earlier row without error, and its last row parses. */
  lemma ParseRowsLast(rows: seq<ProgressRow>, parse: string -> Option<int>)
    requires rows != [] && ParseRows(rows, parse).Ok?
    ensures ParseRows(rows[..|rows| - 1], parse).Ok?
    ensures parse(rows[|rows| - 1].lastPage).Some?
    ensures var row := rows[|rows| - 1];
      ParseRows(rows, parse) == Ok(Set(ParseRows(rows[..|rows| - 1], parse).value, row.url, Entry(row.status, parse(row.lastPage).value)))
  {
  }

  /**
   * When a URL appears on several rows, the last of them decides its
   * entry: its status, and its `last_page` as an integer.
   */
  lemma {:induction false} LastRowWins(rows: seq<ProgressRow>, parse: string -> Option<int>, k: nat)
    requires ParseRows(rows, parse).Ok?
    requires k < |rows|
    requires forall j :: k < j < |rows| ==> rows[j].url != rows[k].url
    ensures parse(rows[k].lastPage).Some?
    ensures rows[k].url in ParseRows(rows, parse).value.entries
    ensures ParseRows(rows, parse).value.entries[rows[k].url] == Entry(rows[k].status, parse(rows[k].lastPage).value)
  {
    ParseRowsLast(rows, parse);
    if k < |rows| - 1 {
      var init := rows[..|rows| - 1];
      assert init[k] == rows[k];
      LastRowWins(init, parse, k);
    }
  }

  /** Every key of the ledger read is the URL of some row ... */
  lemma {:induction false} ParseRowsKeysFromRows(rows: seq<ProgressRow>, parse: string -> Option<int>, u: string)
    requires ParseRows(rows, parse).Ok? && u in ParseRows(rows, parse).value.entries
    ensures exists k :: 0 <= k < |rows| && rows[k].url == u
  {
    var init := rows[..|rows| - 1];
    ParseRowsLast(rows, parse);
    if u != rows[|rows| - 1].url {
      ParseRowsKeysFromRows(init, parse, u);
      var k :| 0 <= k < |init| && init[k].url == u;
      assert rows[k] == init[k];
    }
  }

  /** ... and the URL of every row is a key of it. */
  lemma {:induction false} ParseRowsKeysCoverRows(rows: seq<ProgressRow>, parse: string -> Option<int>, k: nat)
    requires ParseRows(rows, parse).Ok? && k < |rows|
    ensures rows[k].url in ParseRows(rows, parse).value.entries
  {
    ParseRowsLast(rows, parse);
    if k < |rows| - 1 {
      var init := rows[..|rows| - 1];
      assert init[k] == rows[k];
      ParseRowsKeysCoverRows(init, parse, k);
    }
  }

  /** Reading fails, with the first row whose `last_page` is not an integer. */
  lemma {:induction false} ParseRowsFirstBadRow(rows: seq<ProgressRow>, parse: string -> Option<int>, k: nat)
    requires k < |rows| && parse(rows[k].lastPage).None?
    requires forall j :: 0 <= j < k ==> parse(rows[j].lastPage).Some?
    ensures ParseRows(rows, parse) == Err(BadLastPage(rows[k].url, rows[k].lastPage))
  {
    var init := rows[..|rows| - 1];
    if k < |rows| - 1 {
      assert init[k] == rows[k];
      forall j | 0 <= j < k
        ensures parse(init[j].lastPage).Some?
      {
        assert init[j] == rows[j];
      }
      ParseRowsFirstBadRow(init, parse, k);
    } else {
      ParseRowsAllParse(init, parse);
    }
  }

  /** Reading succeeds when every row's `last_page` is an integer. */
  lemma {:induction false} ParseRowsAllParse(rows: seq<ProgressRow>, parse: string -> Option<int>)
    requires forall j :: 0 <= j < |rows| ==> parse(rows[j].lastPage).Some?
    ensures ParseRows(rows, parse).Ok?
  {
    if rows != [] {
      var init := rows[..|rows| - 1];
      forall j | 0 <= j < |init|
        ensures parse(init[j].lastPage).Some?
      {
        assert init[j] == rows[j];
      }
      ParseRowsAllParse(init, parse);
    }
  }
}
