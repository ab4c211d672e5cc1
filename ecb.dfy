/** The ECB scraper: flattening the SDMX JSON answer of the ECB data
    warehouse (series → observations) into one record per observation, and
    gathering the three policy-rate series while skipping the ones whose
    request fails.

    The HTTP request is a parameter `get` from URL to the decoded JSON body,
    or to the error raised by the request, the status check or the
    decoding. */
module Ecb {
  import opened Common

  /** A JSON value as `json.loads` returns it. Numbers are exact decimals
      `mantissa * 10^exponent`; an object's fields are the dict's items in
      order (a Python dict has no repeated keys). */
  datatype Json =
    | JNull
    | JBool(b: bool)
    | JNum(mantissa: int, exponent: int)
    | JStr(s: string)
    | JArr(items: seq<Json>)
    | JObj(fields: seq<(string, Json)>)

  /** `d.get(key)` on a dict's items. */
  function Get(fields: seq<(string, Json)>, key: string): (r: Option<Json>)
    ensures r.Some? ==> exists i :: 0 <= i < |fields| && fields[i] == (key, r.value)
    ensures r.None? <==> forall i :: 0 <= i < |fields| ==> fields[i].0 != key
    decreases |fields|
  {
    if fields == [] then None
    else if fields[0].0 == key then Some(fields[0].1)
    else
      var r := Get(fields[1..], key);
      assert forall i :: 1 <= i < |fields| ==> fields[i] == fields[1..][i - 1];
      r
  }

  /** `d.get(key, default)` on a dict's items. */
  function GetOr(fields: seq<(string, Json)>, key: string, default: Json): Json
  {
    if Get(fields, key).Some? then Get(fields, key).value else default
  }

  const EcbSource: string := "ecb.europa.eu"

  /** One row of the parsed table (`date_fetched`, a clock reading, is not
      modelled). */
  datatype EcbRecord = EcbRecord(rateType: string, timePeriod: string, rateValue: Option<Json>,
                                 seriesKey: string, source: string)

  // ------------------------------------------------------- the JSON walk

  /** `data.get('dataSets', [{}])[0].get('series', {}).items()`: the series
      map, or an error where Python would raise (data not a dict, dataSets
      not a non-empty list, its first element or `series` not a dict). */
  function SeriesOf(data: Json): (r: Result<seq<(string, Json)>>)
    ensures r.Ok? ==> data.JObj?
  {
    if !data.JObj? then Err("AttributeError")
    else
      var sets := GetOr(data.fields, "dataSets", JArr([JObj([])]));
      if !sets.JArr? || sets.items == [] then Err("no first data set")
      else if !sets.items[0].JObj? then Err("AttributeError")
      else
        var series := GetOr(sets.items[0].fields, "series", JObj([]));
        if !series.JObj? then Err("AttributeError") else Ok(series.fields)
  }

  /** `series_data.get('observations', {}).items()`. */
  function ObservationsOf(seriesData: Json): (r: Result<seq<(string, Json)>>)
  {
    if !seriesData.JObj? then Err("AttributeError")
    else
      var obs := GetOr(seriesData.fields, "observations", JObj([]));
      if !obs.JObj? then Err("AttributeError") else Ok(obs.fields)
  }

  /** Python truthiness of a JSON value. */
  predicate Truthy(v: Json)
  {
    match v
    case JNull => false
    case JBool(b) => b
    case JNum(m, _) => m != 0
    case JStr(s) => s != []
    case JArr(items) => items != []
    case JObj(fields) => fields != []
  }

  /** `values[0] if values else None`: falsy values give None, a list its
      first element, a string its first character; indexing a number, a
      boolean or a dict (whose keys are strings) raises. */
  function FirstValue(values: Json): (r: Result<Option<Json>>)
    ensures !Truthy(values) ==> r == Ok(None)
    ensures values.JArr? && values.items != [] ==> r == Ok(Some(values.items[0]))
    ensures r.Ok? && r.value.Some? ==> Truthy(values)
  {
    if !Truthy(values) then Ok(None)
    else match values
      case JArr(items) => Ok(Some(items[0]))
      case JStr(s) => Ok(Some(JStr([s[0]])))
      case _ => Err("TypeError")
  }

  /** The records of one series' observations, in order; an error as soon
      as one observation's value cannot be indexed. */
  function ObservationRecords(rateName: string, key: string, obs: seq<(string, Json)>): (r: Result<seq<EcbRecord>>)
    ensures r.Ok? <==> forall j :: 0 <= j < |obs| ==> FirstValue(obs[j].1).Ok?
    ensures r.Ok? ==> |r.value| == |obs|
    ensures r.Ok? ==> forall j :: 0 <= j < |obs| ==>
              r.value[j] == EcbRecord(rateName, obs[j].0, FirstValue(obs[j].1).value, key, EcbSource)
    decreases |obs|
  {
    if obs == [] then Ok([])
    else
      var init := ObservationRecords(rateName, key, obs[..|obs| - 1]);
      var (period, values) := obs[|obs| - 1];
      if init.Err? then Err(init.message)
      else match FirstValue(values)
        case Err(m) => Err(m)
        case Ok(v) => Ok(init.value + [EcbRecord(rateName, period, v, key, EcbSource)])
  }

  /** The records of one series (an error where Python would raise). */
  function SeriesRecords(rateName: string, entry: (string, Json)): Result<seq<EcbRecord>>
  {
    match ObservationsOf(entry.1)
    case Err(m) => Err(m)
    case Ok(obs) => ObservationRecords(rateName, entry.0, obs)
  }

  /** Number of observations a series holds (none when it is malformed). */
  function ObservationCount(entry: (string, Json)): nat
  {
    if ObservationsOf(entry.1).Ok? then |ObservationsOf(entry.1).value| else 0
  }

  function TotalObservations(series: seq<(string, Json)>): nat
    decreases |series|
  {
    if series == [] then 0
    else TotalObservations(series[..|series| - 1]) + ObservationCount(series[|series| - 1])
  }

  /** The records of every series, series after series: one per
      observation, each tagged with its own series' key. */
  function AllRecords(rateName: string, series: seq<(string, Json)>): (r: Result<seq<EcbRecord>>)
    ensures r.Ok? ==> |r.value| == TotalObservations(series)
    ensures r.Ok? ==> forall x :: x in r.value ==>
              x.rateType == rateName && x.source == EcbSource &&
              exists i :: 0 <= i < |series| && series[i].0 == x.seriesKey
    decreases |series|
  {
    if series == [] then Ok([])
    else
      var init := AllRecords(rateName, series[..|series| - 1]);
      if init.Err? then Err(init.message)
      else match SeriesRecords(rateName, series[|series| - 1])
        case Err(m) => Err(m)
        case Ok(rs) =>
          assert forall x :: x in rs ==> x.seriesKey == series[|series| - 1].0 by {
            forall x | x in rs ensures x.seriesKey == series[|series| - 1].0 {
              var j :| 0 <= j < |rs| && rs[j] == x;
            }
          }
          Ok(init.value + rs)
  }

  /** Every observation of a well-formed answer yields its record: the
      flattening loses nothing. */
  lemma {:induction false} ObservationHasRecord(rateName: string, series: seq<(string, Json)>, i: nat, j: nat)
    requires AllRecords(rateName, series).Ok? && i < |series|
    requires ObservationsOf(series[i].1).Ok? && j < |ObservationsOf(series[i].1).value|
    ensures var obs := ObservationsOf(series[i].1).value;
            FirstValue(obs[j].1).Ok? &&
            EcbRecord(rateName, obs[j].0, FirstValue(obs[j].1).value, series[i].0, EcbSource)
              in AllRecords(rateName, series).value
    decreases |series|
  {
    var init := series[..|series| - 1];
    var rs := SeriesRecords(rateName, series[|series| - 1]);
    assert AllRecords(rateName, series).value == AllRecords(rateName, init).value + rs.value;
    if i < |series| - 1 {
      assert init[i] == series[i];
      ObservationHasRecord(rateName, init, i, j);
    } else {
      assert rs.value[j] in rs.value;
    }
  }

  /** A failed prefix makes the whole walk fail: Python stops at the first
      exception. */
  lemma {:induction false} AllRecordsErrPersists(rateName: string, series: seq<(string, Json)>, k: nat)
    requires k <= |series| && AllRecords(rateName, series[..k]).Err?
    ensures AllRecords(rateName, series).Err?
    decreases |series| - k
  {
    if k < |series| {
      assert series[..k + 1][..k] == series[..k];
      AllRecordsErrPersists(rateName, series, k + 1);
    } else {
      assert series[..k] == series;
    }
  }

  /** `_parse_ecb_json`: the flattened records, or an empty table when the
      walk raises. Every record carries the requested rate name and the
      source tag. */
  function ParseEcbJson(data: Json, rateName: string): (r: seq<EcbRecord>)
    ensures forall x :: x in r ==> x.rateType == rateName && x.source == EcbSource
    ensures SeriesOf(data).Err? ==> r == []
    ensures SeriesOf(data).Ok? && AllRecords(rateName, SeriesOf(data).value).Err? ==> r == []
    ensures SeriesOf(data).Ok? && AllRecords(rateName, SeriesOf(data).value).Ok? ==>
              r == AllRecords(rateName, SeriesOf(data).value).value &&
              |r| == TotalObservations(SeriesOf(data).value)
  {
    match SeriesOf(data)
    case Err(_) => []
    case Ok(series) =>
      match AllRecords(rateName, series)
      case Err(_) => []
      case Ok(rs) => rs
  }

  /** The inner loop of `_parse_ecb_json`: one record per observation of a
      series appended to `records`; `ok` is false where indexing a value
      raised. */
  method AppendObservations(rateName: string, key: string, obs: seq<(string, Json)>, records0: seq<EcbRecord>)
    returns (records: seq<EcbRecord>, ok: bool)
    ensures ok <==> ObservationRecords(rateName, key, obs).Ok?
    ensures ok ==> records == records0 + ObservationRecords(rateName, key, obs).value
  {
    records := records0;
    var j := 0;
    while j < |obs|
      invariant 0 <= j <= |obs|
      invariant ObservationRecords(rateName, key, obs[..j]).Ok?
      invariant records == records0 + ObservationRecords(rateName, key, obs[..j]).value
    {
      var (period, values) := obs[j];
      assert obs[..j + 1][..j] == obs[..j];
      var first := FirstValue(values);
      if first.Err? {
        assert obs[..j + 1][j] == obs[j];
        return records, false;
      }
      records := records + [EcbRecord(rateName, period, first.value, key, EcbSource)];
      j := j + 1;
    }
    assert obs[..j] == obs;
    ok := true;
  }

  /** One more series extends the walk by its own records, or makes it
      fail. */
  lemma AllRecordsStep(rateName: string, series: seq<(string, Json)>, i: nat, records: seq<EcbRecord>)
    requires i < |series| && AllRecords(rateName, series[..i]) == Ok(records)
    ensures var one := SeriesRecords(rateName, series[i]);
            (one.Err? ==> AllRecords(rateName, series[..i + 1]).Err?) &&
            (one.Ok? ==> AllRecords(rateName, series[..i + 1]) == Ok(records + one.value))
  {
    assert series[..i + 1][..i] == series[..i];
  }

  /** The nested loops of `_parse_ecb_json`, appending one record per
      observation and giving up with an empty table at the first error. */
  method ParseEcbJsonLoop(data: Json, rateName: string) returns (records: seq<EcbRecord>)
    ensures records == ParseEcbJson(data, rateName)
  {
    var found := SeriesOf(data);
    if found.Err? {
      return [];
    }
    var series := found.value;
    records := [];
    var i := 0;
    while i < |series|
      invariant 0 <= i <= |series|
      invariant AllRecords(rateName, series[..i]) == Ok(records)
    {
      AllRecordsStep(rateName, series, i, records);
      var (key, seriesData) := series[i];
      var observed := ObservationsOf(seriesData);
      if observed.Err? {
        AllRecordsErrPersists(rateName, series, i + 1);
        return [];
      }
      var ok;
      records, ok := AppendObservations(rateName, key, observed.value, records);
      if !ok {
        AllRecordsErrPersists(rateName, series, i + 1);
        return [];
      }
      i := i + 1;
    }
    assert series[..i] == series;
  }

  // ----------------------------------------------------- the series fetched

  /** The three policy-rate series `fetch_interest_rates` asks for, in order. */
  const RatesToFetch: seq<(string, string)> := [
    ("main_refinancing", "FM/M.U2.EUR.4F.KR.MRR_FR.LEV"),
    ("deposit_facility", "FM/M.U2.EUR.4F.KR.DFR.LEV"),
    ("marginal_lending", "FM/M.U2.EUR.4F.KR.MLFR.LEV")
  ]

  const MortgageSeriesKey: string := "MIR/M.IE.B.A2C.AM.R.A.2250.EUR.N"
  const MortgageRateName: string := "ireland_mortgage_rate"

  function SeriesUrl(baseUrl: string, seriesKey: string): (u: string)
    ensures IsPrefix(baseUrl, u) && u[|baseUrl|..] == "/service/data/" + seriesKey
  {
    baseUrl + "/service/data/" + seriesKey
  }

  /** `_fetch_series`: a request error propagates; an answer is parsed. */
  function FetchSeries(baseUrl: string, get: string -> Result<Json>, seriesKey: string, rateName: string)
    : (r: Result<seq<EcbRecord>>)
    ensures r.Err? <==> get(SeriesUrl(baseUrl, seriesKey)).Err?
    ensures r.Ok? ==> r.value == ParseEcbJson(get(SeriesUrl(baseUrl, seriesKey)).value, rateName)
  {
    match get(SeriesUrl(baseUrl, seriesKey))
    case Err(m) => Err(m)
    case Ok(data) => Ok(ParseEcbJson(data, rateName))
  }

  /** The tables of the series in `rates` whose request succeeded, in order. */
  function SuccessfulSeries(baseUrl: string, get: string -> Result<Json>, rates: seq<(string, string)>)
    : (r: seq<seq<EcbRecord>>)
    ensures |r| <= |rates|
    decreases |rates|
  {
    if rates == [] then []
    else
      var init := SuccessfulSeries(baseUrl, get, rates[..|rates| - 1]);
      var (name, key) := rates[|rates| - 1];
      match FetchSeries(baseUrl, get, key, name)
      case Err(_) => init
      case Ok(df) => init + [df]
  }

  lemma {:induction false} SuccessfulSeriesAppend(baseUrl: string, get: string -> Result<Json>,
                                                  a: seq<(string, string)>, b: seq<(string, string)>)
    ensures SuccessfulSeries(baseUrl, get, a + b) ==
            SuccessfulSeries(baseUrl, get, a) + SuccessfulSeries(baseUrl, get, b)
    decreases |b|
  {
    if b == [] {
      assert a + b == a;
    } else {
      var b', x := b[..|b| - 1], b[|b| - 1];
      SuccessfulSeriesAppend(baseUrl, get, a, b');
      assert (a + b)[..|a + b| - 1] == a + b';
      assert (a + b)[|a + b| - 1] == x;
    }
  }

  /** A series whose request fails is skipped: the result is what the other
      series give, as if it had not been asked for. */
  lemma FailedSeriesSkipped(baseUrl: string, get: string -> Result<Json>, rates: seq<(string, string)>, k: nat)
    requires k < |rates| && get(SeriesUrl(baseUrl, rates[k].1)).Err?
    ensures SuccessfulSeries(baseUrl, get, rates) ==
            SuccessfulSeries(baseUrl, get, rates[..k] + rates[k + 1..])
  {
    assert rates == rates[..k] + ([rates[k]] + rates[k + 1..]);
    SuccessfulSeriesAppend(baseUrl, get, rates[..k], [rates[k]] + rates[k + 1..]);
    SuccessfulSeriesAppend(baseUrl, get, [rates[k]], rates[k + 1..]);
    SuccessfulSeriesAppend(baseUrl, get, rates[..k], rates[k + 1..]);
    assert SuccessfulSeries(baseUrl, get, [rates[k]]) == [] by {
      assert [rates[k]][..0] == [];
    }
  }

  /** Every gathered record is tagged with the name of one of the rates
      asked for. */
  lemma {:induction false} GatheredRateTypes(baseUrl: string, get: string -> Result<Json>,
                                             rates: seq<(string, string)>, x: EcbRecord)
    requires x in Concat(SuccessfulSeries(baseUrl, get, rates))
    ensures x.source == EcbSource && exists k :: 0 <= k < |rates| && rates[k].0 == x.rateType
    decreases |rates|
  {
    var init := rates[..|rates| - 1];
    var (name, key) := rates[|rates| - 1];
    var f := FetchSeries(baseUrl, get, key, name);
    if f.Ok? {
      ConcatAppend(SuccessfulSeries(baseUrl, get, init), f.value);
    }
    if x in Concat(SuccessfulSeries(baseUrl, get, init)) {
      GatheredRateTypes(baseUrl, get, init, x);
      var k :| 0 <= k < |init| && init[k].0 == x.rateType;
      assert rates[k] == init[k];
    } else {
      assert x.rateType == rates[|rates| - 1].0;
    }
  }

  /** `fetch_interest_rates`: every configured series in turn, skipping the
      ones that raise; the concatenated tables (or an empty table). */
  method FetchInterestRates(baseUrl: string, get: string -> Result<Json>) returns (rates: seq<EcbRecord>)
    ensures rates == Concat(SuccessfulSeries(baseUrl, get, RatesToFetch))
  {
    ghost var tables: seq<seq<EcbRecord>> := [];
    rates := [];
    var i := 0;
    while i < |RatesToFetch|
      invariant 0 <= i <= |RatesToFetch|
      invariant tables == SuccessfulSeries(baseUrl, get, RatesToFetch[..i])
      invariant rates == Concat(tables)
    {
      var (name, key) := RatesToFetch[i];
      assert RatesToFetch[..i + 1][..i] == RatesToFetch[..i];
      var df := FetchSeries(baseUrl, get, key, name);
      if df.Ok? {
        ConcatAppend(tables, df.value);
        tables := tables + [df.value];
        rates := rates + df.value;
      }
      i := i + 1;
    }
    assert RatesToFetch[..i] == RatesToFetch;
  }

  /** When no series can be fetched the result is the empty table. */
  lemma {:induction false} NoSeriesNoRates(baseUrl: string, get: string -> Result<Json>, rates: seq<(string, string)>)
    requires forall k :: 0 <= k < |rates| ==> get(SeriesUrl(baseUrl, rates[k].1)).Err?
    ensures Concat(SuccessfulSeries(baseUrl, get, rates)) == []
    decreases |rates|
  {
    if rates != [] {
      var init := rates[..|rates| - 1];
      assert forall k :: 0 <= k < |init| ==> init[k] == rates[k];
      NoSeriesNoRates(baseUrl, get, init);
    }
  }

  /** `fetch_mortgage_rates`: the Irish mortgage-rate series, or an empty
      table on any error. */
  function FetchMortgageRates(baseUrl: string, get: string -> Result<Json>): (r: seq<EcbRecord>)
    ensures get(SeriesUrl(baseUrl, MortgageSeriesKey)).Err? ==> r == []
    ensures get(SeriesUrl(baseUrl, MortgageSeriesKey)).Ok? ==>
              r == ParseEcbJson(get(SeriesUrl(baseUrl, MortgageSeriesKey)).value, MortgageRateName)
    ensures forall x :: x in r ==> x.rateType == MortgageRateName && x.source == EcbSource
  {
    match FetchSeries(baseUrl, get, MortgageSeriesKey, MortgageRateName)
    case Err(_) => []
    case Ok(df) => df
  }
}
