/** The Property Price Register scraper: the shaping of the downloaded sales
    table (column names, metadata columns, the sale-year filter), the
    last-N-months view built from two downloads, and the guards and
    grouping of the per-county aggregation.

    The download and the CSV/date parsing are a parameter: the header and
    rows of the table, or the failure of the request or of the parsing.
    The clock is a parameter too. */
module PropertyPrice {
  import opened Common

  // --------------------------------------------------------- column names

  /** One column name as `str.lower().str.replace(' ', '_')` leaves it. */
  function NormaliseColumn(c: string): (r: string)
    ensures |r| == |c|
    ensures forall i :: 0 <= i < |c| ==> r[i] == (if c[i] == ' ' then '_' else LowerChar(c[i]))
  {
    seq(|c|, i requires 0 <= i < |c| => if c[i] == ' ' then '_' else LowerChar(c[i]))
  }

  /** A normalised name has no space and no upper-case letter. */
  predicate IsNormalised(c: string)
  {
    forall i :: 0 <= i < |c| ==> c[i] != ' ' && !IsUpper(c[i])
  }

  /** Normalising gives a normalised name, leaves a normalised name alone,
      and so normalising twice is normalising once. */
  lemma NormaliseColumnIdempotent(c: string)
    ensures IsNormalised(NormaliseColumn(c))
    ensures IsNormalised(c) ==> NormaliseColumn(c) == c
    ensures NormaliseColumn(NormaliseColumn(c)) == NormaliseColumn(c)
  {
    var n := NormaliseColumn(c);
    forall i | 0 <= i < |c| ensures n[i] != ' ' && !IsUpper(n[i]) {
      if c[i] != ' ' && IsUpper(c[i]) {
        assert n[i] == (c[i] as int + 32) as char;
      }
    }
    if IsNormalised(c) {
      forall i | 0 <= i < |c| ensures n[i] == c[i] {
      }
    }
    var nn := NormaliseColumn(n);
    forall i | 0 <= i < |n| ensures nn[i] == n[i] {
    }
  }

  /** A header written "Date of Sale" becomes the `date_of_sale` column the
      year filter looks for. */
  lemma DateOfSaleHeader()
    ensures NormaliseColumn("Date of Sale") == "date_of_sale"
  {
    var n := NormaliseColumn("Date of Sale");
    forall i | 0 <= i < 12 ensures n[i] == "date_of_sale"[i] {
    }
  }

  function NormaliseColumns(cols: seq<string>): (r: seq<string>)
    ensures |r| == |cols| && forall i :: 0 <= i < |cols| ==> r[i] == NormaliseColumn(cols[i])
  {
    seq(|cols|, i requires 0 <= i < |cols| => NormaliseColumn(cols[i]))
  }

  /** `df[name] = value`: a new column goes last, an existing one keeps its
      place. */
  function SetColumn(cols: seq<string>, name: string): (r: seq<string>)
    ensures name in r && forall c :: c in cols ==> c in r
    ensures |r| == if name in cols then |cols| else |cols| + 1
  {
    if name in cols then cols else cols + [name]
  }

  // ------------------------------------------------------------- dates

  datatype Date = Date(year: int, month: int, day: int)

  /** Calendar order of dates. */
  predicate Before(a: Date, b: Date)
  {
    a.year < b.year || (a.year == b.year && (a.month < b.month || (a.month == b.month && a.day < b.day)))
  }

  predicate IsLeapYear(y: int) { y % 4 == 0 && (y % 100 != 0 || y % 400 == 0) }

  function DaysInMonth(y: int, m: int): nat
  {
    if m == 2 then (if IsLeapYear(y) then 29 else 28)
    else if m == 4 || m == 6 || m == 9 || m == 11 then 30
    else 31
  }

  /** `date - pd.DateOffset(months=n)`: the same day `n` months earlier,
      moved back to the month's last day when the month is shorter. */
  function MonthsBefore(d: Date, n: int): (r: Date)
    requires 1 <= d.month <= 12
    ensures 1 <= r.month <= 12 && r.day <= d.day
    ensures r.year * 12 + r.month == d.year * 12 + d.month - n
    ensures r.day == if d.day <= DaysInMonth(r.year, r.month) then d.day else DaysInMonth(r.year, r.month)
  {
    var index := d.year * 12 + (d.month - 1) - n;
    var y := index / 12;
    var m := index % 12 + 1;
    Date(y, m, if d.day <= DaysInMonth(y, m) then d.day else DaysInMonth(y, m))
  }

  // ---------------------------------------------------------- the table

  /** A row of the sales table: the `date_of_sale` cell as `to_datetime`
      reads it (None for a missing value, or when there is no such column),
      the `county` cell, whether the `price` cell is present, and the other
      cells, which are carried along untouched. */
  datatype SaleRow = SaleRow(saleDate: Option<Date>, county: Option<string>, hasPrice: bool, cells: seq<string>)

  datatype Table = Table(columns: seq<string>, rows: seq<SaleRow>)

  const EmptyTable: Table := Table([], [])

  /** What the download gives: the header and rows of the CSV, or a failed
      request, or a failure to parse the CSV or its sale dates. */
  datatype Download = Downloaded(header: seq<string>, rows: seq<SaleRow>) | RequestFailed | ParseFailed

  /** `year or datetime.now().year`. */
  function EffectiveYear(year: Option<int>, nowYear: int): (y: int)
    ensures IsTruthy(year) ==> y == year.value
    ensures !IsTruthy(year) ==> y == nowYear
  {
    if IsTruthy(year) then year.value else nowYear
  }

  /** A row sold in `year`; a missing date (NaT) has no year. */
  predicate SoldInYear(x: SaleRow, year: int)
  {
    x.saleDate.Some? && x.saleDate.value.year == year
  }

  function InYear(year: int): SaleRow -> bool
  {
    x => SoldInYear(x, year)
  }

  /** `df[df['date_of_sale'].dt.year == year]`. */
  function SoldIn(rows: seq<SaleRow>, year: int): (r: seq<SaleRow>)
    ensures |r| <= |rows|
    ensures forall x :: x in r <==> x in rows && x.saleDate.Some? && x.saleDate.value.year == year
  {
    FilterMembers(rows, InYear(year));
    Filter(rows, InYear(year))
  }

  /** The year filter keeps the order and the repeats of the table:
      filtering a concatenation concatenates the filtered parts, and a
      single row stays exactly when it was sold in the year. */
  lemma SoldInAppend(a: seq<SaleRow>, b: seq<SaleRow>, year: int)
    ensures SoldIn(a + b, year) == SoldIn(a, year) + SoldIn(b, year)
    ensures |b| == 1 ==> SoldIn(b, year) == if SoldInYear(b[0], year) then [b[0]] else []
  {
    FilterAppend(a, b, InYear(year));
  }

  /** Rows of a table without a `date_of_sale` column have no sale date. */
  function WithoutDates(rows: seq<SaleRow>): (r: seq<SaleRow>)
    ensures |r| == |rows|
    ensures forall i :: 0 <= i < |rows| ==> r[i] == rows[i].(saleDate := None)
  {
    seq(|rows|, i requires 0 <= i < |rows| => rows[i].(saleDate := None))
  }

  /** `fetch_property_prices`: an error of the request or of the parsing
      gives an empty table; otherwise the columns are normalised, the
      `date_fetched` and `source` columns set, and, when there is a
      `date_of_sale` column, only the sales of the requested year (this
      year by default) are kept. */
  function FetchPropertyPrices(year: Option<int>, nowYear: int, download: Download): (t: Table)
    ensures !download.Downloaded? ==> t == EmptyTable
    ensures download.Downloaded? ==>
              t.columns == SetColumn(SetColumn(NormaliseColumns(download.header), "date_fetched"), "source")
    ensures download.Downloaded? && "date_of_sale" in t.columns ==>
              t.rows == SoldIn(download.rows, EffectiveYear(year, nowYear))
    ensures download.Downloaded? && "date_of_sale" !in t.columns ==> t.rows == WithoutDates(download.rows)
    ensures forall c :: c in t.columns ==> IsNormalised(c) || c == "date_fetched" || c == "source"
  {
    match download
    case RequestFailed => EmptyTable
    case ParseFailed => EmptyTable
    case Downloaded(header, rows) =>
      var cols := SetColumn(SetColumn(NormaliseColumns(header), "date_fetched"), "source");
      assert forall c :: c in NormaliseColumns(header) ==> IsNormalised(c) by {
        forall c | c in NormaliseColumns(header) ensures IsNormalised(c) {
          var i :| 0 <= i < |header| && NormaliseColumns(header)[i] == c;
          NormaliseColumnIdempotent(header[i]);
        }
      }
      if "date_of_sale" in cols then Table(cols, SoldIn(rows, EffectiveYear(year, nowYear)))
      else Table(cols, WithoutDates(rows))
  }

  /** The year filter keeps exactly the sales of one calendar year: every
      kept row was sold in the requested year and no sale of that year is
      lost. */
  lemma YearFilterExact(year: Option<int>, nowYear: int, header: seq<string>, rows: seq<SaleRow>, x: SaleRow)
    requires "date_of_sale" in FetchPropertyPrices(year, nowYear, Downloaded(header, rows)).columns
    ensures x in FetchPropertyPrices(year, nowYear, Downloaded(header, rows)).rows <==>
              x in rows && x.saleDate.Some? && x.saleDate.value.year == EffectiveYear(year, nowYear)
  {
  }

  // ------------------------------------------------------ recent sales

  /** `pd.concat([a, b], ignore_index=True)`: the columns of `a`, then the
      columns only `b` has; the rows of `a`, then those of `b`. */
  function ConcatTables(a: Table, b: Table): (t: Table)
    ensures forall c :: c in t.columns <==> c in a.columns || c in b.columns
    ensures t.rows == a.rows + b.rows
  {
    Table(UnionColumns(a.columns, b.columns), a.rows + b.rows)
  }

  function UnionColumns(a: seq<string>, b: seq<string>): (r: seq<string>)
    ensures forall c :: c in r <==> c in a || c in b
    ensures |a| <= |r| && r[..|a|] == a
    decreases |b|
  {
    if b == [] then a
    else
      var init := UnionColumns(a, b[..|b| - 1]);
      assert forall c :: c in b <==> c in b[..|b| - 1] || c == b[|b| - 1] by {
        assert b == b[..|b| - 1] + [b[|b| - 1]];
      }
      if b[|b| - 1] in init then init else init + [b[|b| - 1]]
  }

  /** The moment `pd.Timestamp.now()`: a date, and whether the time of day
      is past midnight (a sale date is a midnight timestamp). */
  datatype Now = Now(today: Date, pastMidnight: bool)

  /** `date_of_sale >= now - DateOffset(months)`: the cutoff carries the
      time of day, so a sale on the cutoff day itself is kept only when the
      clock reads exactly midnight; a missing date (NaT) is dropped. */
  predicate OnOrAfterCutoff(r: SaleRow, cutoff: Date, pastMidnight: bool)
  {
    r.saleDate.Some? && (Before(cutoff, r.saleDate.value) || (r.saleDate.value == cutoff && !pastMidnight))
  }

  function SinceCutoff(cutoff: Date, pastMidnight: bool): SaleRow -> bool
  {
    x => OnOrAfterCutoff(x, cutoff, pastMidnight)
  }

  /** `df[df['date_of_sale'] >= cutoff]`. */
  function SoldSince(rows: seq<SaleRow>, cutoff: Date, pastMidnight: bool): (r: seq<SaleRow>)
    ensures |r| <= |rows|
    ensures forall x :: x in r <==> x in rows && OnOrAfterCutoff(x, cutoff, pastMidnight)
  {
    FilterMembers(rows, SinceCutoff(cutoff, pastMidnight));
    Filter(rows, SinceCutoff(cutoff, pastMidnight))
  }

  /** The cutoff filter keeps the order and the repeats of the table, so
      every sale still counts once per row in `num_sales`. */
  lemma SoldSinceAppend(a: seq<SaleRow>, b: seq<SaleRow>, cutoff: Date, pastMidnight: bool)
    ensures SoldSince(a + b, cutoff, pastMidnight) ==
            SoldSince(a, cutoff, pastMidnight) + SoldSince(b, cutoff, pastMidnight)
    ensures |b| == 1 ==> SoldSince(b, cutoff, pastMidnight) ==
                          if OnOrAfterCutoff(b[0], cutoff, pastMidnight) then [b[0]] else []
  {
    FilterAppend(a, b, SinceCutoff(cutoff, pastMidnight));
  }

  /** The sales table of this year followed by that of last year. */
  function BothYears(now: Now, current: Download, previous: Download): (t: Table)
    ensures t.rows == FetchPropertyPrices(Some(now.today.year), now.today.year, current).rows +
                      FetchPropertyPrices(Some(now.today.year - 1), now.today.year, previous).rows
  {
    ConcatTables(FetchPropertyPrices(Some(now.today.year), now.today.year, current),
                 FetchPropertyPrices(Some(now.today.year - 1), now.today.year, previous))
  }

  /** `fetch_recent_sales`: the sales of this year and last year; when a
      `date_of_sale` column exists, exactly those on or after the cutoff
      `months` months back, otherwise all of them. */
  function FetchRecentSales(months: int, now: Now, current: Download, previous: Download): (t: Table)
    requires 1 <= now.today.month <= 12
    ensures var both := BothYears(now, current, previous);
            t.columns == both.columns &&
            ("date_of_sale" in both.columns ==>
               forall x :: x in t.rows <==> x in both.rows && OnOrAfterCutoff(x, MonthsBefore(now.today, months), now.pastMidnight)) &&
            ("date_of_sale" in both.columns ==>
               t.rows == SoldSince(both.rows, MonthsBefore(now.today, months), now.pastMidnight)) &&
            ("date_of_sale" !in both.columns ==> t.rows == both.rows)
  {
    var combined := BothYears(now, current, previous);
    if "date_of_sale" in combined.columns
    then Table(combined.columns, SoldSince(combined.rows, MonthsBefore(now.today, months), now.pastMidnight))
    else combined
  }

  /** A kept recent sale was sold no earlier than `months` months ago. */
  lemma RecentSalesAfterCutoff(months: int, now: Now, current: Download, previous: Download, x: SaleRow)
    requires 1 <= now.today.month <= 12
    requires x in FetchRecentSales(months, now, current, previous).rows
    requires "date_of_sale" in FetchRecentSales(months, now, current, previous).columns
    ensures x.saleDate.Some? && !Before(x.saleDate.value, MonthsBefore(now.today, months))
  {
  }

  // ------------------------------------------------------- aggregation

  /** The per-county figures of `aggregate_by_county` other than the price
      mean and median: the number of prices, and the first and last sale
      dates. */
  datatype CountyStats = CountyStats(numSales: nat, earliestSale: Option<Date>, latestSale: Option<Date>)

  datatype Aggregate = NoAggregate | Aggregated(columns: seq<string>, byCounty: map<string, CountyStats>) | AggregateRaised

  const AggregateColumns: seq<string> := ["county", "avg_price", "median_price", "num_sales", "earliest_sale", "latest_sale"]

  function EarlierOf(a: Option<Date>, b: Option<Date>): (r: Option<Date>)
    ensures r == a || r == b
    ensures r.None? <==> a.None? && b.None?
  {
    if a.None? then b else if b.None? then a else if Before(b.value, a.value) then b else a
  }

  function LaterOf(a: Option<Date>, b: Option<Date>): (r: Option<Date>)
    ensures r == a || r == b
    ensures r.None? <==> a.None? && b.None?
  {
    if a.None? then b else if b.None? then a else if Before(a.value, b.value) then b else a
  }

  /** The figures of one county over `rows` (missing prices are not counted
      and missing dates are skipped, as pandas' count, min and max do). */
  function StatsOf(rows: seq<SaleRow>, county: string): CountyStats
    decreases |rows|
  {
    if rows == [] then CountyStats(0, None, None)
    else
      var s := StatsOf(rows[..|rows| - 1], county);
      var last := rows[|rows| - 1];
      if last.county != Some(county) then s
      else CountyStats(s.numSales + (if last.hasPrice then 1 else 0),
                       EarlierOf(s.earliestSale, last.saleDate), LaterOf(s.latestSale, last.saleDate))
  }

  /** The earliest and latest sale of a county are sales of that county,
      no sale of it is earlier than the earliest or later than the latest,
      and there are no more prices counted than rows of the county. */
  lemma {:induction false} StatsBounds(rows: seq<SaleRow>, county: string)
    ensures StatsOf(rows, county).numSales <= |rows|
    ensures StatsOf(rows, county).earliestSale.Some? ==>
              exists i :: 0 <= i < |rows| && rows[i].county == Some(county) &&
                          rows[i].saleDate == StatsOf(rows, county).earliestSale
    ensures StatsOf(rows, county).latestSale.Some? ==>
              exists i :: 0 <= i < |rows| && rows[i].county == Some(county) &&
                          rows[i].saleDate == StatsOf(rows, county).latestSale
    ensures forall i :: 0 <= i < |rows| && rows[i].county == Some(county) && rows[i].saleDate.Some? ==>
              StatsOf(rows, county).earliestSale.Some? && StatsOf(rows, county).latestSale.Some? &&
              !Before(rows[i].saleDate.value, StatsOf(rows, county).earliestSale.value) &&
              !Before(StatsOf(rows, county).latestSale.value, rows[i].saleDate.value)
    decreases |rows|
  {
    if rows != [] {
      var init := rows[..|rows| - 1];
      StatsBounds(init, county);
      assert forall i :: 0 <= i < |init| ==> init[i] == rows[i];
    }
  }

  /** The counties that appear (a missing county forms no group). */
  function Counties(rows: seq<SaleRow>): (r: set<string>)
    ensures forall c :: c in r <==> exists i :: 0 <= i < |rows| && rows[i].county == Some(c)
  {
    set i | 0 <= i < |rows| && rows[i].county.Some? :: rows[i].county.value
  }

  /** `aggregate_by_county`: nothing for an empty table or one without a
      `county` or `price` column; KeyError when `date_of_sale` is missing;
      otherwise one row per county that appears, under the fixed column
      names. */
  function AggregateByCounty(t: Table): (r: Aggregate)
    ensures r == NoAggregate <==> t.rows == [] || "county" !in t.columns || "price" !in t.columns
    ensures r == AggregateRaised <==>
              t.rows != [] && "county" in t.columns && "price" in t.columns && "date_of_sale" !in t.columns
    ensures r.Aggregated? ==> r.columns == AggregateColumns && r.byCounty.Keys == Counties(t.rows)
    ensures r.Aggregated? ==> forall c :: c in r.byCounty ==> r.byCounty[c] == StatsOf(t.rows, c)
  {
    if t.rows == [] || "county" !in t.columns || "price" !in t.columns then NoAggregate
    else if "date_of_sale" !in t.columns then AggregateRaised
    else Aggregated(AggregateColumns, map c | c in Counties(t.rows) :: StatsOf(t.rows, c))
  }
}
