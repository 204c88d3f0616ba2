/**
 * The search flow of src/app.ts: the selected range picks a frequency, each
 * search builds a new `DataCache` for the symbol, and the data it returns is
 * rendered under a title naming the range, or the search is reported as failed.
 */
module TradingApp {
  import opened Wrappers
  import opened Dates
  import opened Series
  import opened DataCacheModel
  import opened ChartData

  /** The `switch (dataRange)` of searchData: the frequency requested for a range. */
  function FreqFor(range: DataRange): (freq: string)
    ensures freq == "D" <==> range == Month
    ensures freq == "W" <==> range == Year
    ensures freq == "M" <==> range == TenYears
  {
    match range
    case Month => "D"
    case Year => "W"
    case TenYears => "M"
  }

  /** The `dataRangeLabel` of renderOHLCData. */
  function RangeLabel(range: DataRange): (text: string)
    ensures text == "1 month" <==> range == Month
    ensures text == "1 year" <==> range == Year
    ensures text == "10 years" <==> range == TenYears
  {
    if range.Month? then "1 month" else if range.Year? then "1 year" else "10 years"
  }

  /** The chart title names the range unambiguously: different ranges get different labels. */
  lemma RangeLabelDistinct(a: DataRange, b: DataRange)
    ensures RangeLabel(a) == RangeLabel(b) <==> a == b
  {
    assert |RangeLabel(Month)| == 7 && |RangeLabel(Year)| == 6 && |RangeLabel(TenYears)| == 8;
  }

  /**
   * Because every search builds its cache with the frequency of the selected
   * range, a Month search cuts its data 730 days back and a Year or TenYears
   * search 3650 days back.
   */
  lemma SearchWindow(range: DataRange)
    ensures WindowMs(FreqFor(range)) == (if range == Month then 730 else 3650) * MsPerDay
  {
  }

  /** What the charts show after a successful search. */
  datatype Rendering = Rendering(title: string, arrays: ChartArrays, histogram: seq<Point>)

  /**
   * `r` is what `renderOHLCData` shows for `data` under the name `name` with
   * `range` selected: the shaped arrays, the histogram stepped from the volume
   * points, and a title naming the range.
   */
  ghost predicate Renders(r: Rendering, name: string, range: DataRange, data: Series, timeOf: string -> int)
  {
    && Shaped(r.arrays, data, timeOf)
    && r.histogram == Steps(r.arrays.volume)
    && r.title == name + " (" + RangeLabel(range) + ")"
  }

  /** The arrays and title `renderOHLCData` gives the charts. */
  method ShapeChart(name: string, range: DataRange, data: Series, timeOf: string -> int) returns (r: Rendering)
    ensures Renders(r, name, range, data, timeOf)
  {
    var arrays := MapTradingData(data, timeOf);
    var histogram := HistogramSteps(arrays.volume);
    var rangeLabel := RangeLabel(range);
    r := Rendering(name + " (" + rangeLabel + ")", arrays, histogram);
  }

  /** The application state `searchData` and `renderOHLCData` work on. */
  class App {
    const dataSource: DataSourceInfo
    /** `new Date(key).getTime()` for a quote key. */
    const timeOf: string -> int
    var dataRange: DataRange
    var freq: string
    var dataCaches: map<string, DataCache>
    var dataExists: bool
    var shown: Option<Rendering>
    /** The symbols reported by `dataSearchFailed`, in order. */
    var failedSearches: seq<string>

    constructor (dataSource: DataSourceInfo, timeOf: string -> int)
      ensures this.dataSource == dataSource && this.timeOf == timeOf
      ensures dataRange == Year && freq == "D" && dataCaches == map[]
      ensures !dataExists && shown == None && failedSearches == []
    {
      this.dataSource := dataSource;
      this.timeOf := timeOf;
      dataRange := Year;
      freq := "D";
      dataCaches := map[];
      dataExists := false;
      shown := None;
      failedSearches := [];
    }

    /** The `change` listeners of the three range inputs. */
    method SelectRange(range: DataRange)
      modifies this
      ensures dataRange == range
      ensures freq == old(freq) && dataCaches == old(dataCaches) && dataExists == old(dataExists)
      ensures shown == old(shown) && failedSearches == old(failedSearches)
    {
      dataRange := range;
    }

    /** `renderOHLCData(name, data)`: shape the data and title the OHLC chart. */
    method RenderOHLCData(name: string, data: Series) returns (r: Rendering)
      modifies this
      ensures Renders(r, name, dataRange, data, timeOf)
      ensures dataExists && shown == Some(r)
      ensures dataRange == old(dataRange) && freq == old(freq) && dataCaches == old(dataCaches)
      ensures failedSearches == old(failedSearches)
    {
      r := ShapeChart(name, dataRange, data, timeOf);
      dataExists := true;
      shown := Some(r);
    }

    /**
     * The handlers attached to the data promise: render the data under the
     * symbol's name, or report the symbol as not found.
     */
    method ShowOutcome(symbol: string, data: Result<Series, Error>) returns (outcome: Result<Rendering, Error>)
      modifies this
      ensures dataRange == old(dataRange) && freq == old(freq) && dataCaches == old(dataCaches)
      ensures data.Success? ==>
        && outcome.Success?
        && Renders(outcome.value, symbol, dataRange, data.value, timeOf)
        && dataExists && shown == Some(outcome.value) && failedSearches == old(failedSearches)
      ensures data.Failure? ==>
        && outcome == Failure(data.error)
        && shown == old(shown) && dataExists == old(dataExists)
        && failedSearches == old(failedSearches) + [symbol]
    {
      match data {
        case Success(d) =>
          var r := RenderOHLCData(symbol, d);
          outcome := Success(r);
        case Failure(e) =>
          failedSearches := failedSearches + [symbol];
          outcome := Failure(e);
      }
    }

    /**
     * The first half of `searchData()`: the frequency of the selected range,
     * and a new cache for the symbol under it that replaces any earlier one
     * (the check for an existing cache is disabled).
     */
    method ReplaceCache(symbol: string) returns (cache: DataCache)
      modifies this
      ensures fresh(cache) && cache.Valid() && cache.timeseriesData == None
      ensures cache.symbol == symbol && cache.freq == freq && cache.dataSource == dataSource
      ensures freq == FreqFor(dataRange) && dataCaches == old(dataCaches)[symbol := cache]
      ensures dataRange == old(dataRange) && dataExists == old(dataExists)
      ensures shown == old(shown) && failedSearches == old(failedSearches)
    {
      freq := FreqFor(dataRange);
      cache := new DataCache(symbol, freq, dataSource);
      dataCaches := dataCaches[symbol := cache];
    }

    /**
     * `searchData()` for the symbol typed in, at time value `now`: replace the
     * symbol's cache, ask it for the data and show the outcome. Since the new
     * cache holds nothing, every search fetches.
     */
    method SearchData(symbol: string, now: int, server: LocalDataServer) returns (outcome: Result<Rendering, Error>)
      requires server.Valid() && IsTimeValue(now)
      modifies this, server
      ensures server.Valid()
      ensures dataRange == old(dataRange) && freq == FreqFor(dataRange)
      ensures symbol in dataCaches && dataCaches == old(dataCaches)[symbol := dataCaches[symbol]]
      ensures fresh(dataCaches[symbol]) && dataCaches[symbol].symbol == symbol && dataCaches[symbol].freq == freq
      ensures server.requests == old(server.requests) + FetchRequests(dataSource, symbol, freq)
      ensures var fetched := FetchOutcome(dataSource, symbol, freq, server.responses);
        && dataCaches[symbol].timeseriesData == (if fetched.Success? then Some(fetched.value) else None)
        && outcome.Success? == fetched.Success?
        && (fetched.Success? ==>
              && Renders(outcome.value, symbol, dataRange, RangeFilter(fetched.value, CutoffString(now, freq)), timeOf)
              && dataExists && shown == Some(outcome.value) && failedSearches == old(failedSearches))
        && (fetched.Failure? ==>
              && outcome == Failure(fetched.error)
              && dataExists == old(dataExists) && shown == old(shown)
              && failedSearches == old(failedSearches) + [symbol])
    {
      var cache := ReplaceCache(symbol);
      var data := cache.GetDailyData(dataRange, now, server);
      ghost var fetched := FetchOutcome(dataSource, symbol, freq, server.responses);
      assert cache.timeseriesData == (if fetched.Success? then Some(fetched.value) else None);
      assert data == (if fetched.Success? then Success(RangeFilter(fetched.value, CutoffString(now, freq))) else fetched);
      outcome := ShowOutcome(symbol, data);
    }

    /**
     * Picking a range: the first listener of the range input records the
     * range, and the second searches again for the symbol in the input field,
     * but only once some data has been shown.
     */
    method ChangeRange(range: DataRange, symbol: string, now: int, server: LocalDataServer)
      returns (outcome: Option<Result<Rendering, Error>>)
      requires server.Valid() && IsTimeValue(now)
      modifies this, server
      ensures server.Valid() && dataRange == range
      ensures !old(dataExists) ==>
        && outcome == None && server.requests == old(server.requests)
        && freq == old(freq) && dataCaches == old(dataCaches) && !dataExists
        && shown == old(shown) && failedSearches == old(failedSearches)
      ensures old(dataExists) ==>
        && outcome.Some? && dataExists && freq == FreqFor(range)
        && symbol in dataCaches && dataCaches == old(dataCaches)[symbol := dataCaches[symbol]]
        && fresh(dataCaches[symbol]) && dataCaches[symbol].symbol == symbol && dataCaches[symbol].freq == freq
        && server.requests == old(server.requests) + FetchRequests(dataSource, symbol, freq)
        && var fetched := FetchOutcome(dataSource, symbol, freq, server.responses);
          && dataCaches[symbol].timeseriesData == (if fetched.Success? then Some(fetched.value) else None)
          && outcome.value.Success? == fetched.Success?
          && (fetched.Success? ==>
                && Renders(outcome.value.value, symbol, range, RangeFilter(fetched.value, CutoffString(now, freq)), timeOf)
                && shown == Some(outcome.value.value) && failedSearches == old(failedSearches))
          && (fetched.Failure? ==>
                && outcome.value == Failure(fetched.error)
                && shown == old(shown) && failedSearches == old(failedSearches) + [symbol])
    {
      SelectRange(range);
      if dataExists {
        var searched := SearchData(symbol, now, server);
        outcome := Some(searched);
      } else {
        outcome := None;
      }
    }
  }
}
