/**
 * src/dataCache.ts: the data-source dispatch `fetchData` and the per-symbol
 * range cache `DataCache`, which fetches a symbol's whole history once and
 * then answers every request by cutting that history at a date string.
 */
module DataCacheModel {
  import opened Wrappers
  import opened StringOrder
  import opened Dates
  import opened Series

  /** The time range selector (`DataRange`). */
  datatype DataRange = Month | Year | TenYears

  /** Where quotes come from: the local server, or any other source the type admits. */
  datatype DataSource = LocalData | OtherSource(name: string)

  datatype DataSourceInfo = DataSourceInfo(source: DataSource, apiToken: Option<string>)

  /** Why a fetch rejects. */
  datatype Error =
    | UnknownDataSource(message: string)   // the `Error` fetchData throws
    | FetchFailed(path: string)            // the GET or the JSON decoding of `path` failed

  /** The message of the `Error` that `fetchData` throws for a source it does not know. */
  const UnknownDataSourceMessage: string := "Unknown data source."

  // ---------------------------------------------------------------------
  // The data source.
  // ---------------------------------------------------------------------

  /** The URL `localData(exchange, symbol, freq)` requests; an absent argument prints as `undefined`. */
  function RequestPath(exchange: string, symbol: string, freq: Option<string>): string
  {
    "/timeseries/" + exchange + "/" + symbol + "/" + FreqText(freq)
  }

  /** How the template literal prints the `freq` argument. */
  function FreqText(freq: Option<string>): string
  {
    match freq
    case Some(f) => f
    case None => "undefined"
  }

  /** The position of the first `/` in `s`, or `|s|` when there is none. */
  function SlashIndex(s: string): (i: nat)
    ensures i <= |s|
  {
    if s == [] || s[0] == '/' then 0 else 1 + SlashIndex(s[1..])
  }

  /** In a string `a + "/" + x` with no `/` in `a`, the first `/` ends `a`. */
  lemma {:induction false} FirstSlash(a: string, x: string)
    requires '/' !in a
    ensures SlashIndex(a + "/" + x) == |a|
  {
    if a != [] {
      assert (a + "/" + x)[1..] == a[1..] + "/" + x;
      FirstSlash(a[1..], x);
    }
  }

  /** Two strings each followed by `/` and a rest, neither containing `/`, split at that `/`. */
  lemma SplitAtSlash(a: string, x: string, b: string, y: string)
    requires '/' !in a && '/' !in b
    requires a + "/" + x == b + "/" + y
    ensures a == b && x == y
  {
    var s := a + "/" + x;
    FirstSlash(a, x);
    FirstSlash(b, y);
    assert a == s[..|a|] == b;
    assert x == s[|a| + 1..] == y;
  }

  /**
   * Exchanges and symbols without a `/` give distinct URLs, so the server can
   * tell every request apart; only the printed frequency is compared, since
   * an absent `freq` prints as the string "undefined".
   */
  lemma RequestPathInjective(e1: string, s1: string, f1: Option<string>, e2: string, s2: string, f2: Option<string>)
    requires '/' !in e1 && '/' !in s1 && '/' !in e2 && '/' !in s2
    ensures RequestPath(e1, s1, f1) == RequestPath(e2, s2, f2)
      <==> e1 == e2 && s1 == s2 && FreqText(f1) == FreqText(f2)
  {
    if RequestPath(e1, s1, f1) == RequestPath(e2, s2, f2) {
      var r1, r2 := s1 + "/" + FreqText(f1), s2 + "/" + FreqText(f2);
      RequestPathTail(e1, s1, f1);
      RequestPathTail(e2, s2, f2);
      SplitAtSlash(e1, r1, e2, r2);
      SplitAtSlash(s1, FreqText(f1), s2, FreqText(f2));
    }
  }

  /** What follows the fixed `/timeseries/` prefix of a URL. */
  lemma RequestPathTail(e: string, s: string, f: Option<string>)
    ensures |RequestPath(e, s, f)| >= 12
    ensures RequestPath(e, s, f)[12..] == e + "/" + (s + "/" + FreqText(f))
  {
    var prefix := "/timeseries/";
    var tail := e + "/" + (s + "/" + FreqText(f));
    assert RequestPath(e, s, f) == prefix + tail;
    assert (prefix + tail)[|prefix|..] == tail;
  }

  /** What a server holding `responses` answers to a GET of `path`. */
  function Respond(responses: map<string, Series>, path: string): (r: Result<Series, Error>)
    ensures r.Success? <==> path in responses
    ensures r.Success? ==> r.value == responses[path]
    ensures r.Failure? ==> r.error == FetchFailed(path)
  {
    if path in responses then Success(responses[path]) else Failure(FetchFailed(path))
  }

  /**
   * The quote server behind `localData`: the JSON object it returns for each
   * URL it can serve, and the log of every URL requested from it.
   */
  class LocalDataServer {
    const responses: map<string, Series>
    var requests: seq<string>

    /** A decoded JSON object has no key twice. */
    ghost predicate Valid()
      reads this
    {
      forall p :: p in responses ==> UniqueKeys(responses[p])
    }

    constructor (responses: map<string, Series>)
      requires forall p :: p in responses ==> UniqueKeys(responses[p])
      ensures Valid() && this.responses == responses && requests == []
    {
      this.responses := responses;
      requests := [];
    }

    /** `localData(exchange, symbol, freq)`: one GET, resolving with the decoded body or rejecting. */
    method LocalData(exchange: string, symbol: string, freq: Option<string>) returns (r: Result<Series, Error>)
      requires Valid()
      modifies this
      ensures Valid()
      ensures requests == old(requests) + [RequestPath(exchange, symbol, freq)]
      ensures r == Respond(responses, RequestPath(exchange, symbol, freq))
      ensures r.Success? ==> UniqueKeys(r.value)
    {
      var path := RequestPath(exchange, symbol, freq);
      requests := requests + [path];
      r := Respond(responses, path);
    }
  }

  /**
   * The requests `fetchData` sends: one for the local source, where the two
   * arguments `(symbol, freq)` land in `localData`'s `exchange` and `symbol`
   * parameters and its `freq` is undefined; none for any other source.
   */
  function FetchRequests(source: DataSourceInfo, symbol: string, freq: string): (rs: seq<string>)
    ensures |rs| <= 1
    ensures source.source == LocalData <==> rs == ["/timeseries/" + symbol + "/" + freq + "/" + "undefined"]
    ensures source.source != LocalData ==> rs == []
  {
    if source.source == LocalData then [RequestPath(symbol, freq, None)] else []
  }

  /** How `fetchData` settles. */
  function FetchOutcome(source: DataSourceInfo, symbol: string, freq: string, responses: map<string, Series>): (r: Result<Series, Error>)
    ensures source.source != LocalData ==> r == Failure(UnknownDataSource(UnknownDataSourceMessage))
    ensures r.Success? <==> source.source == LocalData && RequestPath(symbol, freq, None) in responses
    ensures r.Success? ==> r.value == responses[RequestPath(symbol, freq, None)]
    ensures source.source == LocalData && r.Failure? ==> r.error == FetchFailed(RequestPath(symbol, freq, None))
  {
    if source.source == LocalData then Respond(responses, RequestPath(symbol, freq, None))
    else Failure(UnknownDataSource(UnknownDataSourceMessage))
  }

  /** `fetchData(source, symbol, freq, mode, dataRangeQuery)`; `mode` and `dataRangeQuery` are never read. */
  method FetchData(source: DataSourceInfo, symbol: string, freq: string, server: LocalDataServer)
    returns (r: Result<Series, Error>)
    requires server.Valid()
    modifies server
    ensures server.Valid()
    ensures server.requests == old(server.requests) + FetchRequests(source, symbol, freq)
    ensures r == FetchOutcome(source, symbol, freq, server.responses)
    ensures r.Success? ==> UniqueKeys(r.value)
  {
    match source.source {
      case LocalData =>
        r := server.LocalData(symbol, freq, None);
      case OtherSource(_) =>
        r := Failure(UnknownDataSource(UnknownDataSourceMessage));
    }
  }

  // ---------------------------------------------------------------------
  // The cutoff.
  // ---------------------------------------------------------------------

  /** `dataRangeTime`: how far back from now the cache reaches, in milliseconds. */
  function WindowMs(freq: string): (w: int)
    ensures freq == "D" ==> w == 730 * MsPerDay
    ensures freq != "D" ==> w == 3650 * MsPerDay
  {
    if freq == "D" then 2 * 365 * 24 * 60 * 60 * 1000 else 10 * 365 * 24 * 60 * 60 * 1000
  }

  /**
   * `date_from` for a request at time value `now`: the UTC date exactly 730
   * days (daily frequency) or 3650 days (any other frequency) before today's
   * UTC date, printed as `${year}-MM-DD`.
   */
  function CutoffString(now: int, freq: string): (s: string)
    ensures IsTimeValue(now - WindowMs(freq)) ==>
      var d := CivilFromDays(now / MsPerDay - (if freq == "D" then 730 else 3650));
      && ValidDate(d) && DaysFromCivil(d) == now / MsPerDay - (if freq == "D" then 730 else 3650)
      && s == FormatDate(d)
    ensures !IsTimeValue(now - WindowMs(freq)) ==> s == InvalidDateFrom
  {
    var days := if freq == "D" then 730 else 3650;
    DayOfShift(now, days);
    CivilFromDaysRoundTrip(now / MsPerDay - days);
    DateFrom(now - WindowMs(freq))
  }

  /**
   * For keys that start with a `YYYY-MM-DD` date, the string filter is the
   * calendar filter: a cached bar is returned exactly when its date is not
   * before the cutoff date (the cutoff day itself included).
   */
  lemma RangeFilterByDate(s: Series, cutoff: CivilDate, e: Entry, date: CivilDate, rest: string)
    requires FourDigitYear(cutoff) && FourDigitYear(date)
    requires e in s && e.0 == FormatDate(date) + rest
    ensures e in RangeFilter(s, FormatDate(cutoff)) <==> !Before(date, cutoff)
  {
    RangeFilterMembership(s, FormatDate(cutoff), e);
    FormatDateShape(date);
    FormatDateShape(cutoff);
    FormatDateOrder(date, cutoff);
    LessBlock(FormatDate(date), rest, FormatDate(cutoff), []);
    assert FormatDate(cutoff) + [] == FormatDate(cutoff);
  }

  // ---------------------------------------------------------------------
  // The cache.
  // ---------------------------------------------------------------------

  /** One step of the key walk: the entry at position `k` joins the result built from the entries after it. */
  lemma CollectStep(cached: Series, dateFrom: string, k: int, before: Series, after: Series)
    requires UniqueKeys(cached) && 0 <= k < |cached|
    requires before == RangeFilter(cached[k + 1..], dateFrom)
    requires after == if AtLeast(cached[k].0, dateFrom) then Put(before, cached[k].0, cached[k].1) else before
    ensures after == RangeFilter(cached[k..], dateFrom)
  {
    var e := cached[k];
    assert cached[k..] == [e] + cached[k + 1..];
    RangeFilterReversesOrder([e], cached[k + 1..], dateFrom);
    assert KeepFrom([e], dateFrom) == if AtLeast(e.0, dateFrom) then [e] else [];
    if AtLeast(e.0, dateFrom) {
      RangeFilterKeys(cached[k + 1..], dateFrom, e.0);
      InKeys(cached[k + 1..], e.0);
      assert e.0 !in Keys(cached[k + 1..]);
    }
  }

  /**
   * The `forEach` over `Object.keys(timeseriesData).reverse()`: every key
   * `>= dateFrom` is copied, with its record, into a new object.
   */
  method CollectRange(cached: Series, dateFrom: string) returns (data: Series)
    requires UniqueKeys(cached)
    ensures data == RangeFilter(cached, dateFrom)
  {
    var keys := Reverse(Keys(cached));
    data := [];
    assert |keys| == |cached|;
    for i := 0 to |keys|
      invariant data == RangeFilter(cached[|cached| - i..], dateFrom)
    {
      var key := keys[i];
      ReversedKeyAt(cached, i);
      GetEntry(cached, |cached| - 1 - i);
      ghost var before := data;
      if AtLeast(key, dateFrom) {
        var record := Get(cached, key).value;
        data := Put(data, key, record);
      }
      CollectStep(cached, dateFrom, |cached| - 1 - i, before, data);
    }
    assert cached[|cached| - |keys|..] == cached;
  }


  /** `DataCache`: one symbol's quotes, fetched on the first request and kept. */
  class DataCache {
    const symbol: string
    const freq: string
    const dataSource: DataSourceInfo
    var timeseriesData: Option<Series>

    ghost predicate Valid()
      reads this
    {
      timeseriesData.Some? ==> UniqueKeys(timeseriesData.value)
    }

    constructor (symbol: string, freq: string, dataSource: DataSourceInfo)
      ensures Valid() && timeseriesData == None
      ensures this.symbol == symbol && this.freq == freq && this.dataSource == dataSource
    {
      this.symbol := symbol;
      this.freq := freq;
      this.dataSource := dataSource;
      timeseriesData := None;
    }

    /** `isDailyDataValid()`: whether the history has been fetched (an object is always truthy). */
    predicate IsDailyDataValid(): (valid: bool)
      reads this
      ensures valid <==> timeseriesData != None
    {
      timeseriesData.Some?
    }

    /**
     * `getDailyData(dataRange)` at time value `now`. With the history held it
     * filters it and fetches nothing; otherwise it fetches once, stores a
     * successful result and serves the request from it, and on a rejected
     * fetch stores nothing and rejects. `dataRange` is never read.
     */
    method GetDailyData(dataRange: DataRange, now: int, server: LocalDataServer) returns (r: Result<Series, Error>)
      requires Valid() && server.Valid()
      requires IsTimeValue(now)
      modifies this, server
      decreases if timeseriesData.Some? then 0 else 1
      ensures Valid() && server.Valid()
      ensures old(IsDailyDataValid()) ==>
        timeseriesData == old(timeseriesData) && server.requests == old(server.requests)
      ensures !old(IsDailyDataValid()) ==>
        server.requests == old(server.requests) + FetchRequests(dataSource, symbol, freq)
        && timeseriesData == (match FetchOutcome(dataSource, symbol, freq, server.responses)
                              case Success(s) => Some(s)
                              case Failure(_) => None)
      ensures IsDailyDataValid() ==> r == Success(RangeFilter(timeseriesData.value, CutoffString(now, freq)))
      ensures !IsDailyDataValid() ==> r == FetchOutcome(dataSource, symbol, freq, server.responses)
    {
      if IsDailyDataValid() {
        var dateFrom := CutoffString(now, freq);
        var data := CollectRange(timeseriesData.value, dateFrom);
        r := Success(data);
      } else {
        var fetched := FetchData(dataSource, symbol, freq, server);
        match fetched {
          case Failure(_) =>
            r := fetched;
          case Success(data) =>
            timeseriesData := Some(data);
            r := GetDailyData(dataRange, now, server);
        }
      }
    }
  }
}
