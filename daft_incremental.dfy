/** The full/incremental protocol of the automated Daft scraper: the
    decision between a full and an incremental load, the page loop that
    gathers listings, the publish-date filter, the choice of the newest
    listing and the checkpoint row kept per data source. */
module DaftIncremental {
  import opened Common
  import opened Listings

  const DaftSource: string := "daft"
  const Completed: string := "completed"
  const PageSize: nat := 20

  /** A row of `scraping_checkpoints`, less its wall-clock timestamp. */
  datatype CheckpointRow = CheckpointRow(lastPropertyId: Option<string>, lastPublishDate: Option<int>,
                                         totalRecords: int, status: string, errorMessage: Option<string>)

  /** `get_last_checkpoint`: the completed row of the Daft source; nothing
      when the database cannot be reached. */
  function CheckpointOf(rows: map<string, CheckpointRow>, reachable: bool): (r: Option<CheckpointRow>)
    ensures r.Some? <==> reachable && DaftSource in rows && rows[DaftSource].status == Completed
    ensures r.Some? ==> r.value == rows[DaftSource]
  {
    if reachable && DaftSource in rows && rows[DaftSource].status == Completed then Some(rows[DaftSource])
    else None
  }

  /** The table after `update_checkpoint`'s upsert on `data_source`: the Daft
      row is inserted or has every field replaced; a failed write is
      swallowed and changes nothing. */
  function Upserted(rows: map<string, CheckpointRow>, reachable: bool, row: CheckpointRow): (r: map<string, CheckpointRow>)
    ensures r.Keys == if reachable then rows.Keys + {DaftSource} else rows.Keys
    ensures !reachable ==> r == rows
    ensures reachable ==> r[DaftSource] == row
    ensures forall k :: k in rows && k != DaftSource ==> r[k] == rows[k]
  {
    if reachable then rows[DaftSource := row] else rows
  }

  /** A completed checkpoint reads back exactly as written, and the upsert
      leaves every other source's row alone. */
  lemma CheckpointRoundTrip(rows: map<string, CheckpointRow>, row: CheckpointRow)
    ensures row.status == Completed ==> CheckpointOf(Upserted(rows, true, row), true) == Some(row)
    ensures row.status != Completed ==> CheckpointOf(Upserted(rows, true, row), true) == None
    ensures forall k :: k in rows && k != DaftSource ==> Upserted(rows, true, row)[k] == rows[k]
  {
  }

  /** The checkpoint table, one row per data source. Each call says
      whether the database answered it. */
  class CheckpointStore {
    var rows: map<string, CheckpointRow>

    constructor(initial: map<string, CheckpointRow>)
      ensures rows == initial
    {
      rows := initial;
    }

    function LastCheckpoint(reachable: bool): Option<CheckpointRow>
      reads this
    {
      CheckpointOf(rows, reachable)
    }

    method UpdateCheckpoint(lastPropertyId: Option<string>, lastPublishDate: Option<int>,
                            totalRecords: int, status: string, errorMessage: Option<string>, reachable: bool)
      modifies this
      ensures rows == Upserted(old(rows), reachable,
                               CheckpointRow(lastPropertyId, lastPublishDate, totalRecords, status, errorMessage))
    {
      if reachable {
        rows := rows[DaftSource := CheckpointRow(lastPropertyId, lastPublishDate, totalRecords, status, errorMessage)];
      }
    }
  }

  /** `should_do_full_load`: the listing count query (its rows, or the error
      it raised) and the last checkpoint decide. */
  function ShouldDoFullLoad(countRows: Result<seq<int>>, checkpoint: Option<CheckpointRow>): (full: bool)
    ensures !full <==> countRows.Ok? && |countRows.value| > 0 && countRows.value[0] > 0 && checkpoint.Some?
  {
    if countRows.Err? then true
    else
      var hasData := if countRows.value != [] then countRows.value[0] > 0 else false;
      if !hasData then true
      else if checkpoint.None? then true
      else false
  }

  // ---------------------------------------------------------- scrape_listings

  /** What one page visit gives: the listings parsed from it, or an
      exception that ends the loop. */
  datatype PageFetch = PageListings(items: seq<Listing>) | PageRaised

  /** The listings of pages `pageNum` … `maxPages`, up to the first page that
      raises. */
  function Gathered(fetch: nat -> PageFetch, pageNum: nat, maxPages: int): (pages: seq<seq<Listing>>)
    requires pageNum >= 1
    ensures |pages| <= if maxPages < pageNum then 0 else maxPages - pageNum + 1
    ensures forall i :: 0 <= i < |pages| ==> fetch((pageNum + i - 1) * PageSize) == PageListings(pages[i])
    ensures |pages| < maxPages - pageNum + 1 ==> fetch((pageNum + |pages| - 1) * PageSize) == PageRaised
    decreases maxPages - pageNum
  {
    if pageNum > maxPages then []
    else
      match fetch((pageNum - 1) * PageSize)
      case PageRaised => []
      case PageListings(items) => [items] + Gathered(fetch, pageNum + 1, maxPages)
  }

  /** `scrape_listings`: pages 1 … `maxPages` at offsets 0, 20, …, their
      listings appended in page order; an exception ends the loop and what
      was gathered is still returned. `delays` counts the pauses, which come
      only between pages. */
  method ScrapeListings(fetch: nat -> PageFetch, maxPages: int) returns (all: seq<Listing>, delays: nat)
    ensures all == Concat(Gathered(fetch, 1, maxPages))
    ensures var n := |Gathered(fetch, 1, maxPages)|;
            delays == if n > 0 && n == maxPages then n - 1 else n
  {
    all := [];
    delays := 0;
    var pageNum := 1;
    ghost var pages: seq<seq<Listing>> := [];
    while pageNum <= maxPages
      invariant 1 <= pageNum && (maxPages >= 1 ==> pageNum <= maxPages + 1)
      invariant pages + Gathered(fetch, pageNum, maxPages) == Gathered(fetch, 1, maxPages)
      invariant |pages| == pageNum - 1 && all == Concat(pages)
      invariant delays == if pageNum > 1 && pageNum - 1 == maxPages then pageNum - 2 else pageNum - 1
      decreases maxPages - pageNum
    {
      var outcome := fetch((pageNum - 1) * PageSize);
      if outcome.PageRaised? {
        assert Gathered(fetch, pageNum, maxPages) == [];
        break;
      }
      assert Gathered(fetch, pageNum, maxPages) == [outcome.items] + Gathered(fetch, pageNum + 1, maxPages);
      ConcatAppend(pages, outcome.items);
      all := all + outcome.items;
      pages := pages + [outcome.items];
      if pageNum < maxPages {
        delays := delays + 1;
      }
      pageNum := pageNum + 1;
    }
    assert pages == Gathered(fetch, 1, maxPages) by {
      if pageNum > maxPages {
        assert Gathered(fetch, pageNum, maxPages) == [];
      }
    }
  }

  // ---------------------------------------------- scrape_listings_incremental

  /** `(listing.get('publish_date') or 0) > last_publish_date` */
  function KeepAfter(items: seq<Listing>, watermark: int): (r: seq<Listing>)
    ensures |r| <= |items|
    ensures forall l :: l in r <==> l in items && PublishKey(l) > watermark
    decreases |items|
  {
    if items == [] then []
    else
      var rest := KeepAfter(items[..|items| - 1], watermark);
      var last := items[|items| - 1];
      assert items == items[..|items| - 1] + [last];
      if PublishKey(last) > watermark then rest + [last] else rest
  }

  /** What one listing contributes to the filter: itself, or nothing. */
  function KeptAfter(l: Listing, watermark: int): seq<Listing>
  {
    if PublishKey(l) > watermark then [l] else []
  }

  lemma KeepAfterSnoc(items: seq<Listing>, l: Listing, watermark: int)
    ensures KeepAfter(items + [l], watermark) == KeepAfter(items, watermark) + KeptAfter(l, watermark)
  {
    var s := items + [l];
    assert s[..|s| - 1] == items;
  }

  /** The filter keeps order and multiplicity: filtering two runs of
      listings is filtering each run, and a single listing is kept once or
      dropped. */
  lemma {:induction false} KeepAfterAppend(a: seq<Listing>, b: seq<Listing>, watermark: int)
    ensures KeepAfter(a + b, watermark) == KeepAfter(a, watermark) + KeepAfter(b, watermark)
    ensures |b| == 1 ==> KeepAfter(b, watermark) == KeptAfter(b[0], watermark)
    decreases |b|
  {
    if b == [] {
      assert a + b == a;
    } else {
      var b', x := b[..|b| - 1], b[|b| - 1];
      assert b == b' + [x];
      assert a + b == (a + b') + [x];
      KeepAfterAppend(a, b', watermark);
      KeepAfterSnoc(a + b', x, watermark);
      KeepAfterSnoc(b', x, watermark);
      assert (KeepAfter(a, watermark) + KeepAfter(b', watermark)) + KeptAfter(x, watermark) ==
             KeepAfter(a, watermark) + (KeepAfter(b', watermark) + KeptAfter(x, watermark));
      if |b| == 1 {
        assert b' == [];
      }
    }
  }

  /** The incremental batch: filtered by the checkpoint's publish date when
      that date is truthy, otherwise everything scraped. */
  function IncrementalBatch(checkpoint: Option<CheckpointRow>, scraped: seq<Listing>): (r: seq<Listing>)
    ensures checkpoint.None? || !IsTruthy(checkpoint.value.lastPublishDate) ==> r == scraped
    ensures checkpoint.Some? && IsTruthy(checkpoint.value.lastPublishDate) ==>
              r == KeepAfter(scraped, checkpoint.value.lastPublishDate.value)
    ensures checkpoint.Some? && IsTruthy(checkpoint.value.lastPublishDate) ==>
              forall l :: l in r <==> l in scraped && PublishKey(l) > checkpoint.value.lastPublishDate.value
  {
    if checkpoint.Some? && IsTruthy(checkpoint.value.lastPublishDate)
    then KeepAfter(scraped, checkpoint.value.lastPublishDate.value)
    else scraped
  }

  /** `max(listings, key=lambda x: x.get('publish_date', 0) or 0)`: the
      first listing with the greatest publish key. */
  function LatestIndex(ls: seq<Listing>): (i: nat)
    requires ls != []
    ensures i < |ls|
    ensures forall j :: 0 <= j < |ls| ==> PublishKey(ls[j]) <= PublishKey(ls[i])
    ensures forall j :: 0 <= j < i ==> PublishKey(ls[j]) < PublishKey(ls[i])
    decreases |ls|
  {
    if |ls| == 1 then 0
    else
      var k := LatestIndex(ls[..|ls| - 1]);
      assert forall j :: 0 <= j < |ls| - 1 ==> ls[..|ls| - 1][j] == ls[j];
      if PublishKey(ls[|ls| - 1]) > PublishKey(ls[k]) then |ls| - 1 else k
  }

  /** The checkpoint written after a non-empty run. */
  function NextCheckpoint(listings: seq<Listing>, total: int): (row: CheckpointRow)
    requires listings != []
    ensures row.status == Completed && row.totalRecords == total && row.errorMessage == None
    ensures exists i :: 0 <= i < |listings| && row.lastPropertyId == listings[i].propertyId &&
                        row.lastPublishDate == listings[i].publishDate &&
                        (forall j :: 0 <= j < |listings| ==> PublishKey(listings[j]) <= PublishKey(listings[i])) &&
                        (forall j :: 0 <= j < i ==> PublishKey(listings[j]) < PublishKey(listings[i]))
  {
    var latest := listings[LatestIndex(listings)];
    CheckpointRow(latest.propertyId, latest.publishDate, total, Completed, None)
  }

  /** `total_records_scraped` of an incremental run: the previous total plus
      the new listings, or just the new listings without a checkpoint. */
  function IncrementalTotal(checkpoint: Option<CheckpointRow>, listings: seq<Listing>): (total: int)
    ensures checkpoint.None? ==> total == |listings|
    ensures checkpoint.Some? ==> total - checkpoint.value.totalRecords == |listings|
  {
    if checkpoint.Some? then checkpoint.value.totalRecords + |listings| else |listings|
  }

  /** The watermark moves strictly forward: after an incremental run with a
      truthy watermark, the newest listing kept is past it. */
  lemma WatermarkAdvances(checkpoint: CheckpointRow, scraped: seq<Listing>)
    requires IsTruthy(checkpoint.lastPublishDate)
    requires IncrementalBatch(Some(checkpoint), scraped) != []
    ensures var ls := IncrementalBatch(Some(checkpoint), scraped);
            PublishKey(ls[LatestIndex(ls)]) > checkpoint.lastPublishDate.value
  {
    var ls := IncrementalBatch(Some(checkpoint), scraped);
    assert ls[LatestIndex(ls)] in ls;
  }

  /** With a positive watermark the new checkpoint's publish date is present
      and later; a negative one lets undated listings through, and the
      checkpoint may then lose its publish date. */
  lemma NextWatermark(checkpoint: CheckpointRow, scraped: seq<Listing>)
    requires IsTruthy(checkpoint.lastPublishDate) && checkpoint.lastPublishDate.value > 0
    requires IncrementalBatch(Some(checkpoint), scraped) != []
    ensures var ls := IncrementalBatch(Some(checkpoint), scraped);
            var row := NextCheckpoint(ls, IncrementalTotal(Some(checkpoint), ls));
            row.lastPublishDate.Some? && row.lastPublishDate.value > checkpoint.lastPublishDate.value
  {
    WatermarkAdvances(checkpoint, scraped);
  }

  /** Whether each checkpoint call of a run gets an answer from the
      database: the read inside `should_do_full_load`, the second read of
      the incremental branch and the write. Each fails on its own, and a
      failure is logged and swallowed. */
  datatype CheckpointCalls = CheckpointCalls(firstRead: bool, secondRead: bool, write: bool)

  /** What a run of `scrape_listings_incremental` returns, and the checkpoint
      table it leaves. */
  datatype RunResult = RunResult(listings: seq<Listing>, rows: map<string, CheckpointRow>)

  /** The run over the checkpoint table `rows`, given the count query's
      answer, which checkpoint calls get through, the full-load listings and
      the listings the incremental page loop scrapes. */
  function IncrementalRun(rows: map<string, CheckpointRow>, countRows: Result<seq<int>>, calls: CheckpointCalls,
                          fullListings: seq<Listing>, scraped: seq<Listing>): (r: RunResult)
    ensures r.listings == fullListings || forall l :: l in r.listings ==> l in scraped
    ensures r.listings == [] || !calls.write ==> r.rows == rows
    ensures r.listings != [] && calls.write ==>
              DaftSource in r.rows && r.rows == rows[DaftSource := r.rows[DaftSource]] &&
              r.rows[DaftSource].status == Completed
  {
    var full := ShouldDoFullLoad(countRows, CheckpointOf(rows, calls.firstRead));
    var cp := CheckpointOf(rows, calls.secondRead);
    var listings := if full then fullListings else IncrementalBatch(cp, scraped);
    if listings == [] then RunResult(listings, rows)
    else
      var total := if full then |listings| else IncrementalTotal(cp, listings);
      RunResult(listings, Upserted(rows, calls.write, NextCheckpoint(listings, total)))
  }

  /** With every checkpoint call answered, an incremental run that finds new
      listings adds them to the stored running total. */
  lemma TotalsAccumulate(rows: map<string, CheckpointRow>, countRows: Result<seq<int>>,
                         fullListings: seq<Listing>, scraped: seq<Listing>)
    requires !ShouldDoFullLoad(countRows, CheckpointOf(rows, true))
    ensures var r := IncrementalRun(rows, countRows, CheckpointCalls(true, true, true), fullListings, scraped);
            r.listings != [] ==>
              r.rows[DaftSource].totalRecords == rows[DaftSource].totalRecords + |r.listings| &&
              CheckpointOf(r.rows, true) == Some(r.rows[DaftSource])
  {
  }

  /** When the first checkpoint read gets through and the second does not,
      the incremental run keeps every scraped listing unfiltered and the
      stored total restarts from their number. */
  lemma LostSecondReadKeepsEverything(rows: map<string, CheckpointRow>, countRows: Result<seq<int>>,
                                      calls: CheckpointCalls, fullListings: seq<Listing>, scraped: seq<Listing>)
    requires calls.firstRead && !calls.secondRead
    requires !ShouldDoFullLoad(countRows, CheckpointOf(rows, true))
    ensures var r := IncrementalRun(rows, countRows, calls, fullListings, scraped);
            r.listings == scraped &&
            (scraped != [] && calls.write ==> r.rows[DaftSource].totalRecords == |scraped|)
  {
  }

  /** A first checkpoint read that fails forces a full load; when the write
      then gets through, the stored checkpoint is replaced and its total
      restarts from the full load's count, whatever was stored before. */
  lemma LostFirstReadRestartsTotal(rows: map<string, CheckpointRow>, countRows: Result<seq<int>>,
                                   calls: CheckpointCalls, fullListings: seq<Listing>, scraped: seq<Listing>)
    requires !calls.firstRead && calls.write && fullListings != []
    ensures var r := IncrementalRun(rows, countRows, calls, fullListings, scraped);
            r.listings == fullListings &&
            r.rows == rows[DaftSource := NextCheckpoint(fullListings, |fullListings|)]
  {
  }

  /** A checkpoint write that fails leaves the table as it was, whatever the
      run returns. */
  lemma LostWriteKeepsTable(rows: map<string, CheckpointRow>, countRows: Result<seq<int>>,
                            calls: CheckpointCalls, fullListings: seq<Listing>, scraped: seq<Listing>)
    requires !calls.write
    ensures IncrementalRun(rows, countRows, calls, fullListings, scraped).rows == rows
  {
  }

  /** `scrape_listings_incremental`. `fullListings` stands for the result of
      the full-load fetch; `fetch` drives the incremental page loop. */
  method ScrapeListingsIncremental(store: CheckpointStore, countRows: Result<seq<int>>, calls: CheckpointCalls,
                                   fullListings: seq<Listing>, fetch: nat -> PageFetch,
                                   maxPagesIncremental: int)
    returns (listings: seq<Listing>)
    modifies store
    ensures var r := IncrementalRun(old(store.rows), countRows, calls, fullListings,
                                    Concat(Gathered(fetch, 1, maxPagesIncremental)));
            listings == r.listings && store.rows == r.rows
  {
    var full := ShouldDoFullLoad(countRows, store.LastCheckpoint(calls.firstRead));
    var total: int;
    if full {
      listings := fullListings;
      total := |listings|;
    } else {
      var checkpoint := store.LastCheckpoint(calls.secondRead);
      var scraped, _ := ScrapeListings(fetch, maxPagesIncremental);
      listings := IncrementalBatch(checkpoint, scraped);
      total := IncrementalTotal(checkpoint, listings);
    }
    if listings != [] {
      var latest := listings[LatestIndex(listings)];
      store.UpdateCheckpoint(latest.propertyId, latest.publishDate, total, Completed, None, calls.write);
    }
  }
}
