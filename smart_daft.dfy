/** The smart Daft scraper: the full/incremental mode decision and the page
    loop of `scrape_rentals`, which walks result pages newest first, retries
    each page up to three times, filters by the publish-date watermark in
    incremental mode and hands every page's listings to the loader at once.

    The browser is replaced by a `fetch` function giving the outcome of each
    attempt at a page (by result offset and attempt number), and the loader
    by a `load` function giving, for the page offset, the attempt number and
    the batch, the number of rows written or a failure. */
module SmartDaft {
  import opened Common
  import opened Listings

  datatype Mode = Full | Incremental

  /** One row of the `COUNT(*)`, `MAX(publish_date)` query. */
  datatype CountRow = CountRow(count: int, latestPublishDate: Option<int>)

  /** `_check_existing_data`: the rows of the query, or the error it raised,
      become (has data, latest publish date); an error or an empty result
      counts as no data. */
  function CheckExistingData(query: Result<seq<CountRow>>): (r: (bool, Option<int>))
    ensures r.0 <==> query.Ok? && |query.value| > 0 && query.value[0].count > 0
    ensures r.1.Some? ==> query.Ok? && |query.value| > 0 && r.1 == query.value[0].latestPublishDate
    ensures query.Ok? && |query.value| > 0 ==> r.1 == query.value[0].latestPublishDate
    ensures query.Err? || query.value == [] ==> r == (false, None)
  {
    if query.Err? || query.value == [] then (false, None)
    else (query.value[0].count > 0, query.value[0].latestPublishDate)
  }

  /** `_determine_scraping_strategy`: the mode and the watermark it stores.
      Full mode, without a watermark, exactly when the check found no rows or
      failed; incremental mode carries the database's latest publish date. */
  function StrategyOf(query: Result<seq<CountRow>>): (r: (Mode, Option<int>))
    ensures r.0 == Full <==> query.Err? || query.value == [] || query.value[0].count <= 0
    ensures r.0 == Full ==> r.1 == None
    ensures r.0 == Incremental ==> r.1 == query.value[0].latestPublishDate
  {
    var (hasData, latest) := CheckExistingData(query);
    if !hasData then (Full, None) else (Incremental, latest)
  }

  // ------------------------------------------------------------ the page loop

  const PageSize: nat := 20
  const MaxRetriesPerPage: nat := 3

  /** What one attempt at a page gives: its listings (possibly none), a
      navigation timeout, or any other exception. */
  datatype Attempt = Listings(items: seq<Listing>) | TimedOut | Failed

  datatype LoadOutcome = Loaded(rows: nat) | LoadFailed

  /** The loop's settings once `scrape_rentals` has applied its defaults.
      `countFailedPages` selects the corrected rule under which a page whose
      every attempt raised counts towards the empty-page streak; the
      scraper as written leaves it off. */
  datatype Plan = Plan(mode: Mode, watermark: Option<int>, ceiling: Option<int>, maxEmpty: nat,
                       countFailedPages: bool)

  /** `max_empty_pages` is 3 in incremental mode and 5 in full mode; in
      incremental mode a missing `max_pages` becomes 20. */
  function PlanFor(mode: Mode, watermark: Option<int>, maxPages: Option<int>): (p: Plan)
    ensures p.mode == mode && p.watermark == watermark
    ensures p.maxEmpty == (if mode == Incremental then 3 else 5)
    ensures p.ceiling == (if mode == Incremental && maxPages.None? then Some(20) else maxPages)
    ensures !p.countFailedPages
  {
    Plan(mode, watermark,
         if mode == Incremental && maxPages.None? then Some(20) else maxPages,
         if mode == Incremental then 3 else 5,
         false)
  }

  /** `max_pages` is truthy: a page ceiling is in force. */
  predicate Bounded(p: Plan) { p.ceiling.Some? && p.ceiling.value != 0 }

  /** The client-side watermark filter is in force. */
  predicate Filters(p: Plan) { p.mode == Incremental && IsTruthy(p.watermark) }

  /** What is handed to the loader of a page's listings: the newer ones
      under the filter, all of them otherwise. */
  function BatchFor(p: Plan, items: seq<Listing>): seq<Listing>
  {
    if Filters(p) then KeepNewer(items, p.watermark.value) else items
  }

  /** The two checks at the top of the loop. */
  predicate Stops(p: Plan, pageNum: int, streak: nat)
  {
    (Bounded(p) && pageNum > p.ceiling.value) || streak >= p.maxEmpty
  }

  function PageOffset(pageNum: nat): nat
    requires pageNum >= 1
  {
    (pageNum - 1) * PageSize
  }

  /** The listing survives the incremental filter: its publish date is
      present, non-zero and strictly after the watermark. */
  predicate IsNewer(l: Listing, watermark: int)
  {
    IsTruthy(l.publishDate) && l.publishDate.value > watermark
  }

  /** `[l for l in listings if l.get('publish_date') and l['publish_date'] > latest]` */
  function KeepNewer(items: seq<Listing>, watermark: int): (r: seq<Listing>)
    ensures |r| <= |items|
    ensures forall l :: l in r <==> l in items && IsNewer(l, watermark)
    decreases |items|
  {
    if items == [] then []
    else
      var rest := KeepNewer(items[..|items| - 1], watermark);
      var last := items[|items| - 1];
      assert items == items[..|items| - 1] + [last];
      if IsNewer(last, watermark) then rest + [last] else rest
  }

  /** What one listing contributes to the filter: itself, or nothing. */
  function KeptIfNewer(l: Listing, watermark: int): seq<Listing>
  {
    if IsNewer(l, watermark) then [l] else []
  }

  lemma KeepNewerSnoc(items: seq<Listing>, l: Listing, watermark: int)
    ensures KeepNewer(items + [l], watermark) == KeepNewer(items, watermark) + KeptIfNewer(l, watermark)
  {
    var s := items + [l];
    assert s[..|s| - 1] == items;
  }

  /** The filter keeps the order and the repeats of the page: filtering a
      concatenation concatenates the filtered parts, and a single listing
      stays exactly when it is newer. */
  lemma {:induction false} KeepNewerAppend(a: seq<Listing>, b: seq<Listing>, watermark: int)
    ensures KeepNewer(a + b, watermark) == KeepNewer(a, watermark) + KeepNewer(b, watermark)
    ensures |b| == 1 ==> KeepNewer(b, watermark) == KeptIfNewer(b[0], watermark)
    decreases |b|
  {
    if b == [] {
      assert a + b == a;
    } else {
      var b', x := b[..|b| - 1], b[|b| - 1];
      assert b == b' + [x];
      assert a + b == (a + b') + [x];
      KeepNewerAppend(a, b', watermark);
      KeepNewerSnoc(a + b', x, watermark);
      KeepNewerSnoc(b', x, watermark);
      assert (KeepNewer(a, watermark) + KeepNewer(b', watermark)) + KeptIfNewer(x, watermark) ==
             KeepNewer(a, watermark) + (KeepNewer(b', watermark) + KeptIfNewer(x, watermark));
      if |b| == 1 {
        assert b' == [];
      }
    }
  }

  /** What the retry loop leaves behind for one page: the new empty-page
      streak, the rows loaded, the batch handed to a successful load ([] if
      none) and the number of attempts made. */
  datatype PageOutcome = PageOutcome(streak: nat, rows: nat, batch: seq<Listing>, attempts: nat)

  /** Attempts `retry`, `retry + 1`, … at the page at `offset`. */
  function AttemptPage(p: Plan, fetch: (nat, nat) -> Attempt, load: (nat, nat, seq<Listing>) -> LoadOutcome,
                       offset: nat, retry: nat, streak: nat): (r: PageOutcome)
    requires retry < MaxRetriesPerPage
    ensures retry < r.attempts <= MaxRetriesPerPage
    ensures r.streak <= streak + 1
    ensures r.batch == [] ==> r.rows == 0
    decreases MaxRetriesPerPage - retry
  {
    var last := retry == MaxRetriesPerPage - 1;
    match fetch(offset, retry)
    case Listings(items) =>
      if items == [] then
        if !last then AttemptPage(p, fetch, load, offset, retry + 1, streak)
        else PageOutcome(streak + 1, 0, [], retry + 1)
      else
        var batch := BatchFor(p, items);
        if batch == [] then PageOutcome(streak + 1, 0, [], retry + 1)
        else (
          match load(offset, retry, batch)
          case Loaded(n) => PageOutcome(0, n, batch, retry + 1)
          case LoadFailed =>
            // the counter was already reset when the loader raised
            if !last then AttemptPage(p, fetch, load, offset, retry + 1, 0)
            else PageOutcome(0, 0, [], retry + 1))
    case _ =>
      if !last then AttemptPage(p, fetch, load, offset, retry + 1, streak)
      else PageOutcome(if p.countFailedPages then streak + 1 else streak, 0, [], retry + 1)
  }

  /** One visited page: its number, the offset requested, the streak before
      and after it, the rows loaded, the batch loaded and the attempts made. */
  datatype PageRecord = PageRecord(pageNum: nat, offset: nat, streakBefore: nat, streak: nat,
                                   rows: nat, batch: seq<Listing>, attempts: nat)

  function ScrapePage(p: Plan, fetch: (nat, nat) -> Attempt, load: (nat, nat, seq<Listing>) -> LoadOutcome,
                      pageNum: nat, streak: nat): (r: PageRecord)
    requires pageNum >= 1
    ensures 1 <= r.attempts <= MaxRetriesPerPage && r.streak <= streak + 1
  {
    var o := AttemptPage(p, fetch, load, PageOffset(pageNum), 0, streak);
    PageRecord(pageNum, PageOffset(pageNum), streak, o.streak, o.rows, o.batch, o.attempts)
  }
  /** An attempt that ends in the page being tried again (or given up on, at
      the last attempt): no listings on the page, or an exception. */
  predicate Fruitless(a: Attempt) { a == Listings([]) || !a.Listings? }

  /** A page whose attempts bring no listings and whose last attempt finds the
      page empty is counted as empty after three attempts, whatever the
      earlier attempts raised. */
  lemma {:induction false} EmptyPageCounts(p: Plan, fetch: (nat, nat) -> Attempt, load: (nat, nat, seq<Listing>) -> LoadOutcome,
                                           offset: nat, retry: nat, streak: nat)
    requires retry < MaxRetriesPerPage
    requires forall j :: retry <= j < MaxRetriesPerPage - 1 ==> Fruitless(fetch(offset, j))
    requires fetch(offset, MaxRetriesPerPage - 1) == Listings([])
    ensures AttemptPage(p, fetch, load, offset, retry, streak) == PageOutcome(streak + 1, 0, [], MaxRetriesPerPage)
    decreases MaxRetriesPerPage - retry
  {
    if retry < MaxRetriesPerPage - 1 {
      assert Fruitless(fetch(offset, retry));
      EmptyPageCounts(p, fetch, load, offset, retry + 1, streak);
    }
  }

  /** A page whose attempts bring no listings and whose last attempt raises is
      skipped after three attempts and, as written, leaves the streak as it
      was (under the corrected rule it counts as empty). */
  lemma {:induction false} FailingPageSkipped(p: Plan, fetch: (nat, nat) -> Attempt, load: (nat, nat, seq<Listing>) -> LoadOutcome,
                                              offset: nat, retry: nat, streak: nat)
    requires retry < MaxRetriesPerPage
    requires forall j :: retry <= j < MaxRetriesPerPage - 1 ==> Fruitless(fetch(offset, j))
    requires !fetch(offset, MaxRetriesPerPage - 1).Listings?
    ensures AttemptPage(p, fetch, load, offset, retry, streak) ==
              PageOutcome(if p.countFailedPages then streak + 1 else streak, 0, [], MaxRetriesPerPage)
    decreases MaxRetriesPerPage - retry
  {
    if retry < MaxRetriesPerPage - 1 {
      assert Fruitless(fetch(offset, retry));
      FailingPageSkipped(p, fetch, load, offset, retry + 1, streak);
    }
  }

  /** The first attempt `k` that brings listings decides the page: an empty
      batch counts as empty, a batch the loader takes resets the streak and
      is loaded, and a batch the loader raises on resets the streak before
      the page is tried again (or given up on, at the last attempt). */
  lemma {:induction false} ListingsDecidePage(p: Plan, fetch: (nat, nat) -> Attempt, load: (nat, nat, seq<Listing>) -> LoadOutcome,
                                              offset: nat, retry: nat, k: nat, streak: nat)
    requires retry <= k < MaxRetriesPerPage
    requires forall j :: retry <= j < k ==> Fruitless(fetch(offset, j))
    requires fetch(offset, k).Listings? && fetch(offset, k).items != []
    ensures var batch := BatchFor(p, fetch(offset, k).items);
            var r := AttemptPage(p, fetch, load, offset, retry, streak);
            (batch == [] ==> r == PageOutcome(streak + 1, 0, [], k + 1)) &&
            (batch != [] && load(offset, k, batch).Loaded? ==>
               r == PageOutcome(0, load(offset, k, batch).rows, batch, k + 1)) &&
            (batch != [] && load(offset, k, batch).LoadFailed? && k == MaxRetriesPerPage - 1 ==>
               r == PageOutcome(0, 0, [], MaxRetriesPerPage)) &&
            (batch != [] && load(offset, k, batch).LoadFailed? && k < MaxRetriesPerPage - 1 ==>
               r == AttemptPage(p, fetch, load, offset, k + 1, 0))
    decreases k - retry
  {
    if retry < k {
      assert Fruitless(fetch(offset, retry));
      ListingsDecidePage(p, fetch, load, offset, retry + 1, k, streak);
    }
  }

  /** With the watermark filter in force, the first attempt of a page that
      brings listings ends it when nothing is newer (the page counts as
      empty) or when the loader takes exactly the newer listings (the streak
      resets and their rows are counted); if the loader raises, the streak
      is already reset. */
  lemma FilteredPage(p: Plan, fetch: (nat, nat) -> Attempt, load: (nat, nat, seq<Listing>) -> LoadOutcome,
                     pageNum: nat, k: nat, streak: nat)
    requires pageNum >= 1 && Filters(p) && k < MaxRetriesPerPage
    requires forall j :: 0 <= j < k ==> Fruitless(fetch(PageOffset(pageNum), j))
    requires fetch(PageOffset(pageNum), k).Listings? && fetch(PageOffset(pageNum), k).items != []
    ensures var kept := KeepNewer(fetch(PageOffset(pageNum), k).items, p.watermark.value);
            var r := ScrapePage(p, fetch, load, pageNum, streak);
            (kept == [] ==> r.streak == streak + 1 && r.rows == 0 && r.attempts == k + 1) &&
            (kept != [] && load(PageOffset(pageNum), k, kept).Loaded? ==>
               r.streak == 0 && r.batch == kept && r.rows == load(PageOffset(pageNum), k, kept).rows &&
               r.attempts == k + 1) &&
            (kept != [] && load(PageOffset(pageNum), k, kept).LoadFailed? && k == MaxRetriesPerPage - 1 ==>
               r.streak == 0 && r.rows == 0)
  {
    ListingsDecidePage(p, fetch, load, PageOffset(pageNum), 0, k, streak);
  }

  /** Without the filter, the first attempt of a page that brings listings
      resets the streak; when the loader takes them, all of them are loaded
      and the page is done. */
  lemma UnfilteredPage(p: Plan, fetch: (nat, nat) -> Attempt, load: (nat, nat, seq<Listing>) -> LoadOutcome,
                       pageNum: nat, k: nat, streak: nat)
    requires pageNum >= 1 && !Filters(p) && k < MaxRetriesPerPage
    requires forall j :: 0 <= j < k ==> Fruitless(fetch(PageOffset(pageNum), j))
    requires fetch(PageOffset(pageNum), k).Listings? && fetch(PageOffset(pageNum), k).items != []
    ensures var items := fetch(PageOffset(pageNum), k).items;
            var r := ScrapePage(p, fetch, load, pageNum, streak);
            (load(PageOffset(pageNum), k, items).Loaded? ==>
               r.streak == 0 && r.batch == items && r.rows == load(PageOffset(pageNum), k, items).rows &&
               r.attempts == k + 1) &&
            (load(PageOffset(pageNum), k, items).LoadFailed? && k == MaxRetriesPerPage - 1 ==>
               r.streak == 0 && r.rows == 0)
  {
    ListingsDecidePage(p, fetch, load, PageOffset(pageNum), 0, k, streak);
  }

  /** Every batch handed to the loader, on any attempt, passed the filter
      when the filter is in force. */
  lemma {:induction false} BatchPassesFilter(p: Plan, fetch: (nat, nat) -> Attempt, load: (nat, nat, seq<Listing>) -> LoadOutcome,
                                             offset: nat, retry: nat, streak: nat)
    requires retry < MaxRetriesPerPage && Filters(p)
    ensures forall l :: l in AttemptPage(p, fetch, load, offset, retry, streak).batch ==>
                          IsNewer(l, p.watermark.value)
    decreases MaxRetriesPerPage - retry
  {
    if retry < MaxRetriesPerPage - 1 {
      BatchPassesFilter(p, fetch, load, offset, retry + 1, streak);
      BatchPassesFilter(p, fetch, load, offset, retry + 1, 0);
    }
  }

  /** A page number of the run: pages are numbered from 1. */
  type PageNum = n: nat | n >= 1 witness 1

  /** What the loop does with one page, given its number and the streak
      before it. The lemmas about the shape of the run hold for any such
      function; `Stepper` is the one the scraper uses. */
  type Step = (PageNum, nat) -> PageRecord

  function Stepper(p: Plan, fetch: (nat, nat) -> Attempt, load: (nat, nat, seq<Listing>) -> LoadOutcome): Step
  {
    (n: PageNum, s: nat) => ScrapePage(p, fetch, load, n, s)
  }

  /** The run from page `pageNum`, with the streak at `streak`, stops within
      `fuel` pages: one of the two checks at the top of the loop fires
      before, or right after, the next `fuel` pages. */
  predicate StopsWithinBy(p: Plan, step: Step, pageNum: PageNum, streak: nat, fuel: nat)
    decreases fuel
  {
    Stops(p, pageNum, streak) ||
    (fuel > 0 && StopsWithinBy(p, step, pageNum + 1, step(pageNum, streak).streak, fuel - 1))
  }

  /** The pages visited from `pageNum` on, with the streak at `streak`, for
      at most `fuel` pages: the whole rest of the run when it stops within
      `fuel` pages. */
  function Trace(p: Plan, step: Step, pageNum: PageNum, streak: nat, fuel: nat): (trace: seq<PageRecord>)
    ensures |trace| <= fuel
    decreases fuel
  {
    if fuel == 0 || Stops(p, pageNum, streak) then []
    else
      var rec := step(pageNum, streak);
      [rec] + Trace(p, step, pageNum + 1, rec.streak, fuel - 1)
  }

  /** The scraper's run stops within `fuel` pages. */
  predicate StopsWithin(p: Plan, fetch: (nat, nat) -> Attempt, load: (nat, nat, seq<Listing>) -> LoadOutcome,
                        pageNum: PageNum, streak: nat, fuel: nat)
  {
    StopsWithinBy(p, Stepper(p, fetch, load), pageNum, streak, fuel)
  }

  /** The pages the scraper visits, for at most `fuel` pages. */
  function Pages(p: Plan, fetch: (nat, nat) -> Attempt, load: (nat, nat, seq<Listing>) -> LoadOutcome,
                 pageNum: PageNum, streak: nat, fuel: nat): seq<PageRecord>
  {
    Trace(p, Stepper(p, fetch, load), pageNum, streak, fuel)
  }

  /** Once the run stops within `fuel` pages, more fuel changes nothing. */
  lemma {:induction false} MoreFuel(p: Plan, step: Step, pageNum: PageNum, streak: nat, fuel: nat, more: nat)
    requires fuel <= more && StopsWithinBy(p, step, pageNum, streak, fuel)
    ensures StopsWithinBy(p, step, pageNum, streak, more)
    ensures Trace(p, step, pageNum, streak, more) == Trace(p, step, pageNum, streak, fuel)
    decreases fuel
  {
    if !Stops(p, pageNum, streak) {
      var rec := step(pageNum, streak);
      MoreFuel(p, step, pageNum + 1, rec.streak, fuel - 1, more - 1);
      assert Trace(p, step, pageNum, streak, more) == [rec] + Trace(p, step, pageNum + 1, rec.streak, more - 1);
    }
  }

  function TotalRows(trace: seq<PageRecord>): nat
    decreases |trace|
  {
    if trace == [] then 0 else TotalRows(trace[..|trace| - 1]) + trace[|trace| - 1].rows
  }

  lemma TotalRowsAppend(trace: seq<PageRecord>, rec: PageRecord)
    ensures TotalRows(trace + [rec]) == TotalRows(trace) + rec.rows
  {
    assert (trace + [rec])[..|trace|] == trace;
  }

  /** The `i`-th page visited is what the step makes of page `pageNum + i`,
      which no stop check excluded, starting from the streak its
      predecessor left. */
  lemma {:induction false} TraceVisits(p: Plan, step: Step, pageNum: PageNum, streak: nat, fuel: nat, i: nat)
    requires i < |Trace(p, step, pageNum, streak, fuel)|
    ensures var t := Trace(p, step, pageNum, streak, fuel);
            var before := if i == 0 then streak else t[i - 1].streak;
            t[i] == step(pageNum + i, before) && !Stops(p, pageNum + i, before)
    decreases i
  {
    var rec := step(pageNum, streak);
    var rest := Trace(p, step, pageNum + 1, rec.streak, fuel - 1);
    var t := Trace(p, step, pageNum, streak, fuel);
    assert t == [rec] + rest;
    if i > 0 {
      TraceVisits(p, step, pageNum + 1, rec.streak, fuel - 1, i - 1);
      assert t[i] == rest[i - 1];
      assert t[i - 1] == if i == 1 then rec else rest[i - 2];
    }
  }

  /** After the last page visited, a stop check fires. */
  lemma {:induction false} TraceEnd(p: Plan, step: Step, pageNum: PageNum, streak: nat, fuel: nat)
    requires StopsWithinBy(p, step, pageNum, streak, fuel)
    ensures var t := Trace(p, step, pageNum, streak, fuel);
            Stops(p, pageNum + |t|, if t == [] then streak else t[|t| - 1].streak)
    decreases fuel
  {
    if !Stops(p, pageNum, streak) {
      var rec := step(pageNum, streak);
      TraceEnd(p, step, pageNum + 1, rec.streak, fuel - 1);
      var rest := Trace(p, step, pageNum + 1, rec.streak, fuel - 1);
      var t := Trace(p, step, pageNum, streak, fuel);
      assert t == [rec] + rest;
      assert t[|t| - 1] == if rest == [] then rec else rest[|rest| - 1];
    }
  }

  /** The scraper's run visits consecutive pages from `pageNum`, page N
      asking for offset (N-1)*20, each page starting from the streak the
      previous one left; it goes on exactly while neither stop check fires,
      and stops as soon as one does. */
  lemma PagesShape(p: Plan, fetch: (nat, nat) -> Attempt, load: (nat, nat, seq<Listing>) -> LoadOutcome,
                   pageNum: PageNum, streak: nat, fuel: nat)
    requires StopsWithin(p, fetch, load, pageNum, streak, fuel)
    ensures var t := Pages(p, fetch, load, pageNum, streak, fuel);
            (forall i :: 0 <= i < |t| ==>
               t[i].pageNum == pageNum + i && t[i].offset == (pageNum + i - 1) * PageSize &&
               !Stops(p, pageNum + i, t[i].streakBefore) &&
               t[i].streakBefore == (if i == 0 then streak else t[i - 1].streak)) &&
            Stops(p, pageNum + |t|, if t == [] then streak else t[|t| - 1].streak)
  {
    var t := Pages(p, fetch, load, pageNum, streak, fuel);
    forall i | 0 <= i < |t|
      ensures t[i].pageNum == pageNum + i && t[i].offset == (pageNum + i - 1) * PageSize
      ensures !Stops(p, pageNum + i, t[i].streakBefore)
      ensures t[i].streakBefore == (if i == 0 then streak else t[i - 1].streak)
    {
      TraceVisits(p, Stepper(p, fetch, load), pageNum, streak, fuel, i);
    }
    TraceEnd(p, Stepper(p, fetch, load), pageNum, streak, fuel);
  }

  /** Pages left before the page number passes the ceiling. */
  function CeilingLeft(p: Plan, pageNum: nat): nat
    requires Bounded(p)
  {
    if pageNum <= p.ceiling.value then p.ceiling.value + 1 - pageNum else 0
  }

  /** With a page ceiling in force the run always stops, and visits no more
      pages than the ceiling allows. */
  lemma {:induction false} PagesWithinCeiling(p: Plan, step: Step, pageNum: PageNum, streak: nat, fuel: nat)
    requires Bounded(p)
    ensures StopsWithinBy(p, step, pageNum, streak, CeilingLeft(p, pageNum))
    ensures |Trace(p, step, pageNum, streak, fuel)| <= CeilingLeft(p, pageNum)
    decreases CeilingLeft(p, pageNum)
  {
    if !Stops(p, pageNum, streak) {
      var rec := step(pageNum, streak);
      PagesWithinCeiling(p, step, pageNum + 1, rec.streak, if fuel == 0 then 0 else fuel - 1);
    }
  }

  /** When every step loads only listings newer than `watermark`, so does
      every page of the trace. */
  lemma {:induction false} TraceBatchesNewer(p: Plan, step: Step, pageNum: PageNum, streak: nat, fuel: nat,
                                             watermark: int)
    requires forall n: PageNum, s: nat, l :: l in step(n, s).batch ==> IsNewer(l, watermark)
    ensures forall rec, l :: rec in Trace(p, step, pageNum, streak, fuel) && l in rec.batch ==>
                               IsNewer(l, watermark)
    decreases fuel
  {
    if fuel > 0 && !Stops(p, pageNum, streak) {
      var rec := step(pageNum, streak);
      TraceBatchesNewer(p, step, pageNum + 1, rec.streak, fuel - 1, watermark);
      assert Trace(p, step, pageNum, streak, fuel) == [rec] + Trace(p, step, pageNum + 1, rec.streak, fuel - 1);
    }
  }

  /** Every batch the run loads passed the watermark filter. */
  lemma {:induction false} PagesLoadOnlyNewer(p: Plan, fetch: (nat, nat) -> Attempt,
                                              load: (nat, nat, seq<Listing>) -> LoadOutcome,
                                              pageNum: nat, streak: nat, fuel: nat)
    requires pageNum >= 1 && Filters(p)
    ensures forall rec, l :: rec in Pages(p, fetch, load, pageNum, streak, fuel) && l in rec.batch ==>
                               IsNewer(l, p.watermark.value)
  {
    var step := Stepper(p, fetch, load);
    forall n: PageNum, s: nat, l | l in step(n, s).batch
      ensures IsNewer(l, p.watermark.value)
    {
      BatchPassesFilter(p, fetch, load, PageOffset(n), 0, s);
    }
    TraceBatchesNewer(p, step, pageNum, streak, fuel, p.watermark.value);
  }

  /** An attempt that shows listings, none worth loading: there are none,
      or the filter is in force and none is newer than the watermark. */
  predicate NothingNew(p: Plan, a: Attempt)
  {
    a.Listings? && (a.items == [] || (Filters(p) && KeepNewer(a.items, p.watermark.value) == []))
  }

  /** No attempt at the page brings anything worth loading: each one raises
      or shows nothing new, and the last one shows the page. */
  ghost predicate NothingToLoad(p: Plan, fetch: (nat, nat) -> Attempt, offset: nat)
  {
    (forall r :: 0 <= r < MaxRetriesPerPage ==> Fruitless(fetch(offset, r)) || NothingNew(p, fetch(offset, r))) &&
    fetch(offset, MaxRetriesPerPage - 1).Listings?
  }

  /** A page with nothing to load adds one to the streak. */
  lemma {:induction false} NothingToLoadCounts(p: Plan, fetch: (nat, nat) -> Attempt,
                                               load: (nat, nat, seq<Listing>) -> LoadOutcome,
                                               offset: nat, retry: nat, streak: nat)
    requires retry < MaxRetriesPerPage && NothingToLoad(p, fetch, offset)
    ensures AttemptPage(p, fetch, load, offset, retry, streak).streak == streak + 1
    decreases MaxRetriesPerPage - retry
  {
    var a := fetch(offset, retry);
    assert Fruitless(a) || NothingNew(p, a);
    if retry < MaxRetriesPerPage - 1 && (a.Listings? ==> a.items == []) {
      NothingToLoadCounts(p, fetch, load, offset, retry + 1, streak);
    }
  }

  /** Pages that each add one to the streak, enough of them to bring it to
      its limit, stop the run within those pages. */
  lemma {:induction false} CountingWindowStops(p: Plan, step: Step, pageNum: PageNum, streak: nat, window: nat)
    requires streak + window >= p.maxEmpty
    requires forall n: PageNum, s: nat :: pageNum <= n < pageNum + window ==> step(n, s).streak == s + 1
    ensures StopsWithinBy(p, step, pageNum, streak, window)
    decreases window
  {
    if !Stops(p, pageNum, streak) {
      assert step(pageNum, streak).streak == streak + 1;
      CountingWindowStops(p, step, pageNum + 1, streak + 1, window - 1);
    }
  }

  /** From a page where `window` pages in a row have nothing to load, and
      that is enough to bring the streak to its limit, the run stops within
      those pages. */
  lemma {:induction false} EmptyWindowStops(p: Plan, fetch: (nat, nat) -> Attempt,
                                            load: (nat, nat, seq<Listing>) -> LoadOutcome,
                                            pageNum: nat, streak: nat, window: nat)
    requires pageNum >= 1 && streak + window >= p.maxEmpty
    requires forall n: nat :: pageNum <= n < pageNum + window ==> NothingToLoad(p, fetch, PageOffset(n))
    ensures StopsWithin(p, fetch, load, pageNum, streak, window)
  {
    var step := Stepper(p, fetch, load);
    forall n: PageNum, s: nat | pageNum <= n < pageNum + window
      ensures step(n, s).streak == s + 1
    {
      NothingToLoadCounts(p, fetch, load, PageOffset(n), 0, s);
    }
    CountingWindowStops(p, step, pageNum, streak, window);
  }

  /** A run that is bound to stop within `window` pages from page `k`,
      whatever the streak there, stops within `k - pageNum + window` pages
      of any earlier page `pageNum`. */
  lemma {:induction false} StopAhead(p: Plan, step: Step, pageNum: PageNum, streak: nat, k: nat, window: nat)
    requires pageNum <= k
    requires forall s: nat :: StopsWithinBy(p, step, k, s, window)
    ensures StopsWithinBy(p, step, pageNum, streak, k - pageNum + window)
    decreases k - pageNum
  {
    var left := k - pageNum + window;
    if pageNum == k {
      assert StopsWithinBy(p, step, k, streak, window);
    } else if !Stops(p, pageNum, streak) {
      var s := step(pageNum, streak).streak;
      StopAhead(p, step, pageNum + 1, s, k, window);
      assert left - 1 == k - (pageNum + 1) + window;
    }
  }

  /** A run that meets `p.maxEmpty` pages in a row with nothing to load,
      from page `k` on, stops, whatever the pages before `k` hold: within
      `k - pageNum + p.maxEmpty` pages of page `pageNum`. */
  lemma EmptyRunEnds(p: Plan, fetch: (nat, nat) -> Attempt,
                     load: (nat, nat, seq<Listing>) -> LoadOutcome,
                     pageNum: nat, streak: nat, k: nat)
    requires 1 <= pageNum <= k
    requires forall n: nat :: k <= n < k + p.maxEmpty ==> NothingToLoad(p, fetch, PageOffset(n))
    ensures StopsWithin(p, fetch, load, pageNum, streak, k - pageNum + p.maxEmpty)
  {
    forall s: nat
      ensures StopsWithinBy(p, Stepper(p, fetch, load), k, s, p.maxEmpty)
    {
      EmptyWindowStops(p, fetch, load, k, s, p.maxEmpty);
    }
    StopAhead(p, Stepper(p, fetch, load), pageNum, streak, k, p.maxEmpty);
  }

  /** In incremental mode with a watermark and a page limit that is absent,
      zero or at least three, a source whose first three pages hold nothing
      newer is abandoned after exactly three pages: listings come newest
      first, so later pages are older. */
  lemma IncrementalStopsAfterThreeStalePages(watermark: int, maxPages: Option<int>, fetch: (nat, nat) -> Attempt,
                                             load: (nat, nat, seq<Listing>) -> LoadOutcome, fuel: nat)
    requires watermark != 0
    requires maxPages.None? || maxPages.value == 0 || maxPages.value >= 3
    requires forall n: nat :: 1 <= n <= 3 ==>
               NothingToLoad(PlanFor(Incremental, Some(watermark), maxPages), fetch, PageOffset(n))
    ensures var p := PlanFor(Incremental, Some(watermark), maxPages);
            StopsWithin(p, fetch, load, 1, 0, 3) &&
            (fuel >= 3 ==> |Pages(p, fetch, load, 1, 0, fuel)| == 3)
  {
    var p := PlanFor(Incremental, Some(watermark), maxPages);
    NothingToLoadCounts(p, fetch, load, PageOffset(1), 0, 0);
    NothingToLoadCounts(p, fetch, load, PageOffset(2), 0, 1);
    NothingToLoadCounts(p, fetch, load, PageOffset(3), 0, 2);
    EmptyWindowStops(p, fetch, load, 1, 0, 3);
    if fuel >= 3 {
      assert Pages(p, fetch, load, 4, 3, fuel - 3) == [];
      assert |Pages(p, fetch, load, 3, 2, fuel - 2)| == 1;
      assert |Pages(p, fetch, load, 2, 1, fuel - 1)| == 2;
    }
  }

  /** As written, a run without a page ceiling against a source whose every
      attempt raises never stops: each page is skipped without touching the
      streak, so neither check at the top of the loop fires. */
  lemma {:induction false} FailingSourceNeverStops(p: Plan, fetch: (nat, nat) -> Attempt,
                                                   load: (nat, nat, seq<Listing>) -> LoadOutcome,
                                                   pageNum: nat, streak: nat, fuel: nat)
    requires pageNum >= 1 && !Bounded(p) && !p.countFailedPages && streak < p.maxEmpty
    requires forall offset: nat, r: nat :: !fetch(offset, r).Listings?
    ensures !StopsWithin(p, fetch, load, pageNum, streak, fuel)
    decreases fuel
  {
    FailingPageSkipped(p, fetch, load, PageOffset(pageNum), 0, streak);
    if fuel > 0 {
      FailingSourceNeverStops(p, fetch, load, pageNum + 1, streak, fuel - 1);
    }
  }

  /** As written, `scrape_rentals` in full mode without `max_pages` (or with
      0) never ends when every page request keeps timing out or raising. */
  lemma FullRunNeverEndsOnFailingSource(maxPages: Option<int>, fetch: (nat, nat) -> Attempt,
                                        load: (nat, nat, seq<Listing>) -> LoadOutcome, fuel: nat)
    requires maxPages.None? || maxPages.value == 0
    requires forall offset: nat, r: nat :: !fetch(offset, r).Listings?
    ensures !StopsWithin(PlanFor(Full, None, maxPages), fetch, load, 1, 0, fuel)
  {
    FailingSourceNeverStops(PlanFor(Full, None, maxPages), fetch, load, 1, 0, fuel);
  }

  /** Under the corrected rule, which counts a page whose every attempt
      raised towards the streak, such a run stops within the streak limit;
      without a ceiling to stop it sooner, it visits exactly that many
      pages. */
  lemma {:induction false} CorrectedFailingSourceStops(p: Plan, fetch: (nat, nat) -> Attempt,
                                                       load: (nat, nat, seq<Listing>) -> LoadOutcome,
                                                       pageNum: nat, streak: nat, fuel: nat)
    requires pageNum >= 1 && p.countFailedPages && streak <= p.maxEmpty
    requires forall offset: nat, r: nat :: !fetch(offset, r).Listings?
    ensures StopsWithin(p, fetch, load, pageNum, streak, p.maxEmpty - streak)
    ensures !Bounded(p) && fuel >= p.maxEmpty - streak ==>
              |Pages(p, fetch, load, pageNum, streak, fuel)| == p.maxEmpty - streak
    decreases p.maxEmpty - streak
  {
    if !Stops(p, pageNum, streak) {
      FailingPageSkipped(p, fetch, load, PageOffset(pageNum), 0, streak);
      CorrectedFailingSourceStops(p, fetch, load, pageNum + 1, streak + 1, if fuel == 0 then 0 else fuel - 1);
    }
  }

  /** The corrected full-mode run without a page limit ends after five pages
      when every page request keeps failing, having loaded nothing. */
  lemma CorrectedFullRunEndsOnFailingSource(maxPages: Option<int>, fetch: (nat, nat) -> Attempt,
                                            load: (nat, nat, seq<Listing>) -> LoadOutcome)
    requires maxPages.None? || maxPages.value == 0
    requires forall offset: nat, r: nat :: !fetch(offset, r).Listings?
    ensures var p := PlanFor(Full, None, maxPages).(countFailedPages := true);
            StopsWithin(p, fetch, load, 1, 0, 5) && |Pages(p, fetch, load, 1, 0, 5)| == 5 &&
            TotalRows(Pages(p, fetch, load, 1, 0, 5)) == 0
  {
    var p := PlanFor(Full, None, maxPages).(countFailedPages := true);
    CorrectedFailingSourceStops(p, fetch, load, 1, 0, 5);
    FailingRunLoadsNothing(p, fetch, load, 1, 0, 5);
  }

  /** A page whose every attempt raises loads nothing, so neither does a
      run against a source that always fails. */
  lemma {:induction false} FailingRunLoadsNothing(p: Plan, fetch: (nat, nat) -> Attempt,
                                                  load: (nat, nat, seq<Listing>) -> LoadOutcome,
                                                  pageNum: nat, streak: nat, fuel: nat)
    requires pageNum >= 1
    requires forall offset: nat, r: nat :: !fetch(offset, r).Listings?
    ensures TotalRows(Pages(p, fetch, load, pageNum, streak, fuel)) == 0
    decreases fuel
  {
    if fuel > 0 && !Stops(p, pageNum, streak) {
      var rec := ScrapePage(p, fetch, load, pageNum, streak);
      FailingPageSkipped(p, fetch, load, PageOffset(pageNum), 0, streak);
      FailingRunLoadsNothing(p, fetch, load, pageNum + 1, rec.streak, fuel - 1);
      var rest := Pages(p, fetch, load, pageNum + 1, rec.streak, fuel - 1);
      TotalRowsPrepend(rec, rest);
    }
  }

  lemma {:induction false} TotalRowsPrepend(rec: PageRecord, trace: seq<PageRecord>)
    ensures TotalRows([rec] + trace) == rec.rows + TotalRows(trace)
    decreases |trace|
  {
    if trace != [] {
      var init := trace[..|trace| - 1];
      TotalRowsPrepend(rec, init);
      assert ([rec] + trace)[..|trace|] == [rec] + init;
    }
  }

  /** The retry loop of `scrape_rentals` for the page at `offset`: the new
      streak, the rows loaded and the attempts made. */
  method RetryPage(p: Plan, fetch: (nat, nat) -> Attempt, load: (nat, nat, seq<Listing>) -> LoadOutcome,
                   offset: nat, streak: nat)
    returns (s: nat, rows: nat, attempts: nat)
    ensures var page := AttemptPage(p, fetch, load, offset, 0, streak);
            s == page.streak && rows == page.rows && attempts == page.attempts
  {
    ghost var page := AttemptPage(p, fetch, load, offset, 0, streak);
    var retry: nat := 0;
    s := streak;
    rows := 0;
    var finished := false;
    while !finished
      invariant retry <= MaxRetriesPerPage
      invariant !finished ==> retry < MaxRetriesPerPage && AttemptPage(p, fetch, load, offset, retry, s) == page
      invariant !finished ==> rows == 0
      invariant finished ==> page.streak == s && page.rows == rows && page.attempts == retry
      decreases MaxRetriesPerPage - retry
    {
      var last := retry == MaxRetriesPerPage - 1;
      var attempt := fetch(offset, retry);
      retry := retry + 1;
      match attempt {
        case Listings(items) =>
          if items == [] {
            if last {
              s := s + 1;
              finished := true;
            }
          } else {
            var batch := if p.mode == Incremental && IsTruthy(p.watermark) then KeepNewer(items, p.watermark.value) else items;
            if batch == [] {
              s := s + 1;
              finished := true;
            } else {
              s := 0;
              var outcome := load(offset, retry - 1, batch);
              if outcome.Loaded? {
                rows := outcome.rows;
                finished := true;
              } else if last {
                finished := true;
              }
            }
          }
        case _ =>
          if last {
            // the scraper as written never counts such a page
            if p.countFailedPages {
              s := s + 1;
            }
            finished := true;
          }
      }
    }
    attempts := retry;
  }

  /** When a stop check fires, the pages gathered so far are the whole run. */
  lemma RunStops(p: Plan, step: Step, fuel: nat, done: seq<PageRecord>, pageNum: PageNum, streak: nat, left: nat)
    requires done + Trace(p, step, pageNum, streak, left) == Trace(p, step, 1, 0, fuel)
    requires Stops(p, pageNum, streak)
    ensures done == Trace(p, step, 1, 0, fuel)
  {
    assert done + [] == done;
  }

  /** The loop's bookkeeping across one turn that does not stop: the page
      just scraped is appended to the pages gathered, and the rest of the
      run, which still stops in time, goes on from the next page. */
  lemma RunStep(p: Plan, step: Step, fuel: nat, done: seq<PageRecord>, pageNum: PageNum, streak: nat, left: nat)
    requires StopsWithinBy(p, step, pageNum, streak, left)
    requires done + Trace(p, step, pageNum, streak, left) == Trace(p, step, 1, 0, fuel)
    requires !Stops(p, pageNum, streak)
    ensures left > 0
    ensures var rec := step(pageNum, streak);
            StopsWithinBy(p, step, pageNum + 1, rec.streak, left - 1) &&
            (done + [rec]) + Trace(p, step, pageNum + 1, rec.streak, left - 1) == Trace(p, step, 1, 0, fuel)
  {
    var rec := step(pageNum, streak);
    var rest := Trace(p, step, pageNum + 1, rec.streak, left - 1);
    assert Trace(p, step, pageNum, streak, left) == [rec] + rest;
    assert (done + [rec]) + rest == done + ([rec] + rest);
  }

  /** The page loop of `scrape_rentals` (lines after the mode decision), for
      a run that stops within `fuel` pages: it returns the total rows loaded
      and the number of pages visited. */
  method RunPages(p: Plan, fetch: (nat, nat) -> Attempt, load: (nat, nat, seq<Listing>) -> LoadOutcome,
                  ghost fuel: nat)
    returns (total: nat, pages: nat)
    requires StopsWithin(p, fetch, load, 1, 0, fuel)
    ensures pages == |Pages(p, fetch, load, 1, 0, fuel)|
    ensures total == TotalRows(Pages(p, fetch, load, 1, 0, fuel))
  {
    ghost var step := Stepper(p, fetch, load);
    var pageNum: PageNum := 1;
    var streak: nat := 0;
    total := 0;
    ghost var done: seq<PageRecord> := [];
    ghost var left: nat := fuel;
    while true
      invariant StopsWithinBy(p, step, pageNum, streak, left)
      invariant done + Trace(p, step, pageNum, streak, left) == Trace(p, step, 1, 0, fuel)
      invariant |done| == pageNum - 1 && total == TotalRows(done)
      decreases left
    {
      if p.ceiling.Some? && p.ceiling.value != 0 && pageNum > p.ceiling.value {
        RunStops(p, step, fuel, done, pageNum, streak, left);
        break;
      }
      if streak >= p.maxEmpty {
        RunStops(p, step, fuel, done, pageNum, streak, left);
        break;
      }
      RunStep(p, step, fuel, done, pageNum, streak, left);
      var offset := (pageNum - 1) * PageSize;
      var s, rows, attempts := RetryPage(p, fetch, load, offset, streak);
      ghost var rec := step(pageNum, streak);
      assert rec == ScrapePage(p, fetch, load, pageNum, streak);
      assert s == rec.streak && rows == rec.rows;
      TotalRowsAppend(done, rec);
      done := done + [rec];
      total := total + rows;
      pageNum := pageNum + 1;
      streak := s;
      left := left - 1;
    }
    pages := pageNum - 1;
  }

  /** The scraper object: the mode and watermark fields that
      `_determine_scraping_strategy` sets. */
  class SmartDaftScraper {
    var mode: Option<Mode>
    var latestPublishDate: Option<int>

    constructor()
      ensures mode == None && latestPublishDate == None
    {
      mode := None;
      latestPublishDate := None;
    }

    method DetermineScrapingStrategy(query: Result<seq<CountRow>>) returns (m: Mode)
      modifies this
      ensures mode == Some(m) && m == StrategyOf(query).0
      ensures latestPublishDate == StrategyOf(query).1
    {
      var (hasData, latest) := CheckExistingData(query);
      if !hasData {
        mode := Some(Full);
        latestPublishDate := None;
      } else {
        mode := Some(Incremental);
        latestPublishDate := latest;
      }
      m := mode.value;
    }

    /** `scrape_rentals`: decide the mode, apply the defaults, run the page
        loop and return the total rows loaded; for a run that stops within
        `fuel` pages. */
    method ScrapeRentals(query: Result<seq<CountRow>>, maxPages: Option<int>,
                         fetch: (nat, nat) -> Attempt, load: (nat, nat, seq<Listing>) -> LoadOutcome,
                         ghost fuel: nat)
      returns (total: nat)
      modifies this
      requires StopsWithin(PlanFor(StrategyOf(query).0, StrategyOf(query).1, maxPages), fetch, load, 1, 0, fuel)
      ensures mode == Some(StrategyOf(query).0) && latestPublishDate == StrategyOf(query).1
      ensures total == TotalRows(Pages(PlanFor(StrategyOf(query).0, StrategyOf(query).1, maxPages),
                                       fetch, load, 1, 0, fuel))
    {
      var m := DetermineScrapingStrategy(query);
      var p := PlanFor(m, latestPublishDate, maxPages);
      var pages;
      total, pages := RunPages(p, fetch, load, fuel);
    }
  }
}
