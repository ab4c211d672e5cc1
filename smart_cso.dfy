/** The smart CSO scraper: for each of its four datasets it chooses a full or
    an incremental load from what the warehouse already holds, fetches the
    whole dataset, keeps only the rows of years after the latest stored year
    in incremental mode, and hands the rows to the dataset's loader.

    The database query, the HTTP fetch and the loader are parameters: the
    query's rows (or the error it raised), the fetched table (or None when
    the request failed), and the income loader's row count (or the error it
    raised). */
module SmartCso {
  import opened Common

  /** One entry of the `DATASETS` table. */
  datatype DatasetInfo = DatasetInfo(code: string, table: string, dateColumn: string, description: string)

  /** The keys of `DATASETS`, in the table's (insertion) order. */
  const DatasetKeys: seq<string> := ["rent", "cpi", "population", "income"]

  /** `DATASETS[key]`, or None where Python raises KeyError. Every dataset
      is stored in table `raw_cso_<key>` and dated by its `year` column. */
  function DatasetOf(key: string): (r: Option<DatasetInfo>)
    ensures r.Some? <==> key in DatasetKeys
    ensures r.Some? ==> r.value.table == "raw_cso_" + key && r.value.dateColumn == "year"
  {
    if key == "rent" then Some(DatasetInfo("RIA02", "raw_cso_rent", "year", "Private Rent Index"))
    else if key == "cpi" then Some(DatasetInfo("CPA01", "raw_cso_cpi", "year", "Consumer Price Index"))
    else if key == "population" then Some(DatasetInfo("PEA01", "raw_cso_population", "year", "Population Estimates"))
    else if key == "income" then Some(DatasetInfo("CIA01", "raw_cso_income", "year", "Household Income"))
    else None
  }

  /** The four keys are distinct and each names a different CSO table code. */
  lemma {:induction false} DatasetCodesDistinct(i: nat, j: nat)
    requires i < |DatasetKeys| && j < |DatasetKeys| && i != j
    ensures DatasetKeys[i] != DatasetKeys[j]
    ensures DatasetOf(DatasetKeys[i]).value.code != DatasetOf(DatasetKeys[j]).value.code
  {
    assert DatasetKeys[0] == "rent" && DatasetKeys[1] == "cpi";
    assert DatasetKeys[2] == "population" && DatasetKeys[3] == "income";
    assert "rent"[0] == 'r' && "cpi"[0] == 'c' && "population"[0] == 'p' && "income"[0] == 'i';
    assert "RIA02"[0] == 'R' && "CPA01"[1] == 'P' && "PEA01"[1] == 'E' && "CIA01"[1] == 'I';
    assert "CPA01"[0] == 'C' && "PEA01"[0] == 'P' && "CIA01"[0] == 'C';
  }

  // ------------------------------------------------------------ the mode

  datatype Mode = Full | Incremental

  /** One row of the `COUNT(*)`, `MAX(year)` query. */
  datatype YearRow = YearRow(count: int, latestYear: Option<int>)

  /** `_check_existing_data`: (has data, latest year); an empty answer or a
      failed query counts as no data. */
  function CheckExistingData(query: Result<seq<YearRow>>): (r: (bool, Option<int>))
    ensures r.0 <==> query.Ok? && |query.value| > 0 && query.value[0].count > 0
    ensures r.1.Some? ==> query.Ok? && |query.value| > 0 && r.1 == query.value[0].latestYear
    ensures query.Ok? && |query.value| > 0 ==> r.1 == query.value[0].latestYear
    ensures query.Err? || query.value == [] ==> r == (false, None)
  {
    if query.Err? || query.value == [] then (false, None)
    else (query.value[0].count > 0, query.value[0].latestYear)
  }

  /** The mode `scrape_dataset` chooses: full when forced or when the
      warehouse holds no rows (or could not be asked), else incremental. */
  function ModeOf(forceFull: bool, query: Result<seq<YearRow>>): (m: Mode)
    ensures m == Incremental <==>
              !forceFull && query.Ok? && |query.value| > 0 && query.value[0].count > 0
  {
    if forceFull || !CheckExistingData(query).0 then Full else Incremental
  }

  // ------------------------------------------------------- rows and years

  /** A fetched row: its TIME_PERIOD cell (None when missing) and the rest
      of its cells, which the scraper passes through untouched. */
  datatype CsoRow = CsoRow(timePeriod: Option<string>, cells: seq<string>)

  /** The fetched table: whether it has a TIME_PERIOD column, and its rows. */
  datatype Frame = Frame(hasTimePeriod: bool, rows: seq<CsoRow>)

  /** `pd.to_numeric(TIME_PERIOD.str[:4], errors='coerce')` for a plain
      digit prefix: the number the first four characters spell, or None
      (NaN) when the cell is missing or they are not all digits. */
  function YearOf(timePeriod: Option<string>): (y: Option<nat>)
    ensures y.Some? ==> timePeriod.Some?
    ensures y.Some? ==> var s := timePeriod.value;
              var k := if |s| < 4 then |s| else 4;
              k > 0 && AllDigits(s[..k]) && y.value == DigitsValue(s[..k])
  {
    if timePeriod.None? then None
    else
      var s := timePeriod.value;
      var head := s[..if |s| < 4 then |s| else 4];
      if head != [] && AllDigits(head) then Some(DigitsValue(head)) else None
  }

  /** A row the incremental filter keeps: its year is a number above the
      latest stored year (NaN compares false and is dropped). */
  predicate IsNewYear(r: CsoRow, latestYear: int)
  {
    YearOf(r.timePeriod).Some? && YearOf(r.timePeriod).value > latestYear
  }

  /** `df[df['year'] > latest_year]`: the rows of later years, in order. */
  function NewRows(rows: seq<CsoRow>, latestYear: int): (r: seq<CsoRow>)
    ensures |r| <= |rows|
    decreases |rows|
  {
    if rows == [] then []
    else
      var rest := NewRows(rows[..|rows| - 1], latestYear);
      var last := rows[|rows| - 1];
      if IsNewYear(last, latestYear) then rest + [last] else rest
  }

  /** The filter keeps exactly the rows of later years. */
  lemma {:induction false} NewRowsKeeps(rows: seq<CsoRow>, latestYear: int)
    ensures forall x :: x in NewRows(rows, latestYear) <==> x in rows && IsNewYear(x, latestYear)
    decreases |rows|
  {
    if rows != [] {
      var init, last := rows[..|rows| - 1], rows[|rows| - 1];
      NewRowsKeeps(init, latestYear);
      assert rows == init + [last];
    }
  }

  /** One more row is kept at the end exactly when its year is new. */
  lemma NewRowsSnoc(rows: seq<CsoRow>, x: CsoRow, latestYear: int)
    ensures NewRows(rows + [x], latestYear) ==
              NewRows(rows, latestYear) + (if IsNewYear(x, latestYear) then [x] else [])
  {
    var s := rows + [x];
    assert s[..|s| - 1] == rows;
  }

  /** Filtering two blocks of rows is filtering each block: the filter keeps
      the rows' order and looks at each row alone. */
  lemma {:induction false} NewRowsAppend(a: seq<CsoRow>, b: seq<CsoRow>, latestYear: int)
    ensures NewRows(a + b, latestYear) == NewRows(a, latestYear) + NewRows(b, latestYear)
    decreases |b|
  {
    if b == [] {
      assert a + b == a;
    } else {
      var b', x := b[..|b| - 1], b[|b| - 1];
      assert b == b' + [x];
      assert a + b == (a + b') + [x];
      NewRowsAppend(a, b', latestYear);
      NewRowsSnoc(a + b', x, latestYear);
      NewRowsSnoc(b', x, latestYear);
      var tail := if IsNewYear(x, latestYear) then [x] else [];
      assert (NewRows(a, latestYear) + NewRows(b', latestYear)) + tail ==
             NewRows(a, latestYear) + (NewRows(b', latestYear) + tail);
    }
  }

  /** A year written as four digits at the head of TIME_PERIOD ("2023Q1",
      "2023M04", "2023") is read back as that year. */
  lemma {:induction false} YearOfFourDigits(year: nat, rest: string)
    requires 1000 <= year <= 9999
    ensures YearOf(Some(NatToString(year) + rest)) == Some(year)
  {
    var s := NatToString(year);
    assert NatToString(year / 10) == NatToString(year / 10 / 10) + [DigitChar(year / 10 % 10)];
    assert NatToString(year / 10 / 10) == NatToString(year / 10 / 10 / 10) + [DigitChar(year / 10 / 10 % 10)];
    assert |NatToString(year / 10 / 10 / 10)| == 1;
    assert |s| == 4;
    assert (s + rest)[..4] == s;
    NatToStringValue(year);
  }

  // ----------------------------------------------------- one dataset

  /** How a call ended: with a boolean, or by raising. */
  datatype Outcome = Returned(success: bool) | Raised

  /** A call's outcome and the table it handed to a loader, if any. */
  datatype Run = Run(outcome: Outcome, loaded: Option<Frame>)

  /** Whether the `DataLoader` defines the loader `scrape_dataset` calls for
      this key: `load_cso_income` exists, while `load_cso_rent`,
      `load_cso_cpi` and `load_cso_population` do not, so calling them
      raises AttributeError inside the loading `try`. */
  predicate HasLoader(key: string) { key == "income" }

  /** The rows the loader is given, once the incremental filter (if it
      applies) has run. */
  function RowsToLoad(mode: Mode, latestYear: Option<int>, frame: Frame): seq<CsoRow>
  {
    if mode == Incremental && latestYear.Some? && frame.hasTimePeriod
    then NewRows(frame.rows, latestYear.value)
    else frame.rows
  }

  /** `scrape_dataset`. `query` is what the existence check's query gave,
      `fetched` the table `_fetch_cso_dataset` gave (None on any failure),
      and `loadIncome` the row count `load_cso_income` returns for a table,
      or the error it raises. */
  function ScrapeDataset(key: string, forceFull: bool, query: Result<seq<YearRow>>,
                         fetched: Option<Frame>, loadIncome: Frame -> Result<int>): (r: Run)
    // an unknown key raises KeyError before anything else happens
    ensures key !in DatasetKeys ==> r == Run(Raised, None)
    ensures key in DatasetKeys ==> r.outcome.Returned?
    // a failed or empty fetch gives False and loads nothing
    ensures key in DatasetKeys && (fetched.None? || fetched.value.rows == []) ==> r == Run(Returned(false), None)
    // what reaches the loader is the fetched table, filtered in incremental mode
    ensures r.loaded.Some? ==>
              HasLoader(key) && fetched.Some? && r.loaded.value.hasTimePeriod == fetched.value.hasTimePeriod &&
              r.loaded.value.rows == RowsToLoad(ModeOf(forceFull, query), CheckExistingData(query).1, fetched.value) &&
              r.loaded.value.rows != []
    // True means the filter left nothing new, or the loader wrote rows
    ensures r.outcome == Returned(true) <==>
              key in DatasetKeys && fetched.Some? && fetched.value.rows != [] &&
              (RowsToLoad(ModeOf(forceFull, query), CheckExistingData(query).1, fetched.value) == [] ||
               (r.loaded.Some? && loadIncome(r.loaded.value).Ok? && loadIncome(r.loaded.value).value != 0))
  {
    if DatasetOf(key).None? then Run(Raised, None)
    else
      var (hasData, latestYear) := CheckExistingData(query);
      var mode := if forceFull then Full else if !hasData then Full else Incremental;
      if fetched.None? || fetched.value.rows == [] then Run(Returned(false), None)
      else
        var frame := fetched.value;
        var filtering := mode == Incremental && latestYear.Some? && frame.hasTimePeriod;
        var rows := if filtering then NewRows(frame.rows, latestYear.value) else frame.rows;
        if filtering && rows == [] then Run(Returned(true), None)
        else if !HasLoader(key) then Run(Returned(false), None)
        else
          var toLoad := Frame(frame.hasTimePeriod, rows);
          match loadIncome(toLoad)
          case Err(_) => Run(Returned(false), Some(toLoad))
          case Ok(n) => Run(Returned(n != 0), Some(toLoad))
  }

  /** The rent, CPI and population datasets are never loaded: their loader
      methods do not exist, so such a call succeeds only when the
      incremental filter finds no new rows. */
  lemma MissingLoaderNeverLoads(key: string, forceFull: bool, query: Result<seq<YearRow>>,
                                fetched: Option<Frame>, loadIncome: Frame -> Result<int>)
    requires key in DatasetKeys && !HasLoader(key)
    ensures ScrapeDataset(key, forceFull, query, fetched, loadIncome).loaded.None?
    ensures ScrapeDataset(key, forceFull, query, fetched, loadIncome).outcome == Returned(true) ==>
              ModeOf(forceFull, query) == Incremental && fetched.Some? && fetched.value.rows != [] &&
              NewRows(fetched.value.rows, CheckExistingData(query).1.value) == []
  {
  }

  /** A forced full load never filters: the loader gets every fetched row. */
  lemma ForcedLoadTakesEveryRow(key: string, query: Result<seq<YearRow>>,
                                fetched: Option<Frame>, loadIncome: Frame -> Result<int>)
    requires HasLoader(key) && fetched.Some? && fetched.value.rows != []
    ensures ScrapeDataset(key, true, query, fetched, loadIncome).loaded == Some(fetched.value)
  {
  }

  // ------------------------------------------------------ all datasets

  /** The world one run of the scraper sees: the existence query of each
      dataset key, the fetched table of each dataset code, and the income
      loader. */
  datatype Env = Env(query: string -> Result<seq<YearRow>>, fetch: string -> Option<Frame>,
                     loadIncome: Frame -> Result<int>)

  /** The entry `scrape_all_datasets` records for a key: the call's result,
      or False when it raised. */
  function DatasetResult(env: Env, key: string, forceFull: bool): bool
  {
    var code := if DatasetOf(key).Some? then DatasetOf(key).value.code else "";
    ScrapeDataset(key, forceFull, env.query(key), env.fetch(code), env.loadIncome).outcome == Returned(true)
  }

  /** The entry recorded for a key is the boolean its scrape returned, or
      False when it raised. */
  lemma DatasetResultOfRun(env: Env, key: string, forceFull: bool)
    requires key in DatasetKeys
    ensures var run := ScrapeDataset(key, forceFull, env.query(key), env.fetch(DatasetOf(key).value.code), env.loadIncome);
            DatasetResult(env, key, forceFull) == (run.outcome.Returned? && run.outcome.success)
  {
  }

  /** `sum(1 for s in results.values() if s)` over the keys in `keys`. */
  function Successes(keys: seq<string>, results: map<string, bool>): (n: nat)
    requires forall k :: k in keys ==> k in results
    ensures n <= |keys|
    decreases |keys|
  {
    if keys == [] then 0
    else Successes(keys[..|keys| - 1], results) + (if results[keys[|keys| - 1]] then 1 else 0)
  }

  /** Nothing fails exactly when every key reports success. */
  lemma {:induction false} SuccessesAll(keys: seq<string>, results: map<string, bool>)
    requires forall k :: k in keys ==> k in results
    ensures Successes(keys, results) == |keys| <==> forall k :: k in keys ==> results[k]
    decreases |keys|
  {
    if keys != [] {
      var init := keys[..|keys| - 1];
      SuccessesAll(init, results);
      assert keys == init + [keys[|keys| - 1]];
      assert forall k :: k in keys ==> k in init || k == keys[|keys| - 1];
    }
  }

  /** Recording the entry of the next key keeps the table of recorded
      entries equal to the keys seen so far, each with its own result. */
  lemma RecordStep(env: Env, forceFull: bool, keys: seq<string>, i: nat, next: nat,
                   results: map<string, bool>, ok: bool, updated: map<string, bool>)
    requires i < |keys| && next == i + 1
    requires results.Keys == set k | k in keys[..i]
    requires forall k :: k in results ==> results[k] == DatasetResult(env, k, forceFull)
    requires ok == DatasetResult(env, keys[i], forceFull) && updated == results[keys[i] := ok]
    ensures updated.Keys == set k | k in keys[..next]
    ensures forall k :: k in updated ==> updated[k] == DatasetResult(env, k, forceFull)
  {
    assert keys[..next] == keys[..i] + [keys[i]];
  }

  /** The `try` around one dataset in `scrape_all_datasets`: the boolean the
      scrape returned, or False when it raised. */
  method ScrapeOrFalse(env: Env, key: string, forceFull: bool) returns (ok: bool)
    requires key in DatasetKeys
    ensures ok == DatasetResult(env, key, forceFull)
  {
    var code := DatasetOf(key).value.code;
    var run := ScrapeDataset(key, forceFull, env.query(key), env.fetch(code), env.loadIncome);
    DatasetResultOfRun(env, key, forceFull);
    match run.outcome {
      case Returned(success) => ok := success;
      case Raised => ok := false;
    }
  }

  /** `scrape_all_datasets`: every key of `DATASETS` gets an entry, the
      outcome of its own scrape (False where it raised); `successful` is the
      number of True entries. */
  method ScrapeAllDatasets(env: Env, forceFull: bool) returns (results: map<string, bool>, successful: nat)
    ensures results.Keys == set k | k in DatasetKeys
    ensures forall k :: k in results ==> results[k] == DatasetResult(env, k, forceFull)
    ensures successful == Successes(DatasetKeys, results)
  {
    results := map[];
    var i := 0;
    while i < |DatasetKeys|
      invariant 0 <= i <= |DatasetKeys|
      invariant results.Keys == set k | k in DatasetKeys[..i]
      invariant forall k :: k in results ==> results[k] == DatasetResult(env, k, forceFull)
    {
      var key := DatasetKeys[i];
      var ok := ScrapeOrFalse(env, key, forceFull);
      var updated := results[key := ok];
      RecordStep(env, forceFull, DatasetKeys, i, i + 1, results, ok, updated);
      results := updated;
      i := i + 1;
    }
    assert DatasetKeys[..i] == DatasetKeys;
    successful := Successes(DatasetKeys, results);
  }

  /** `run_smart_cso_scraper`: with a non-empty list of names, only the
      known names are scraped (unknown ones are logged and get no entry);
      with no list, or an empty one, every dataset is scraped. */
  method RunSmartCsoScraper(env: Env, datasets: Option<seq<string>>, forceFull: bool)
    returns (results: map<string, bool>)
    ensures datasets.Some? && datasets.value != [] ==>
              results.Keys == set d | d in datasets.value && d in DatasetKeys
    ensures datasets.None? || datasets.value == [] ==> results.Keys == set k | k in DatasetKeys
    ensures forall k :: k in results ==> results[k] == DatasetResult(env, k, forceFull)
  {
    if datasets.Some? && datasets.value != [] {
      var names := datasets.value;
      results := map[];
      var i := 0;
      while i < |names|
        invariant 0 <= i <= |names|
        invariant results.Keys == set d | d in names[..i] && d in DatasetKeys
        invariant forall k :: k in results ==> results[k] == DatasetResult(env, k, forceFull)
      {
        var name := names[i];
        if DatasetOf(name).Some? {
          var run := ScrapeDataset(name, forceFull, env.query(name), env.fetch(DatasetOf(name).value.code),
                                   env.loadIncome);
          results := results[name := run.outcome.success];
        }
        assert names[..i + 1] == names[..i] + [name];
        i := i + 1;
      }
      assert names[..i] == names;
    } else {
      var successful;
      results, successful := ScrapeAllDatasets(env, forceFull);
    }
  }
}
