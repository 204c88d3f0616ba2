# Trading chart data cache and data shaping, in Dafny

This project models the logic behind a trading chart web application: a
per-symbol cache of daily quotes, and the code that turns the quotes into the
point arrays a chart library draws.

**The cache (`src/dataCache.ts`).** A `DataCache` belongs to one symbol and one
frequency. Its first request fetches the symbol's whole history from the data
source and stores it; that request and every later one are served from the
stored object:

- It computes a cutoff of 730 days back (frequency `'D'`) or 3650 days back
  (any other frequency) from now.
- It prints the cutoff's UTC date as `${year}-MM-DD`.
- It keeps every key that compares `>=` that string, walking the keys from
  last to first.

**The application (`src/app.ts`).**

- The selected range picks a frequency, and every search builds a new cache.
- The returned object is mapped to OHLC, volume, ATR, EMA and stochastic
  arrays, with a step histogram built from the volume points.
- The chart title names the range.
- A failed search is reported.
- The dashboard row layout and the cursor label padding are modelled as well.

## Modules

- **`Wrappers`**: `Option` and `Result`.
- **`StringOrder`**: the relational comparison of JavaScript strings.
  - A proper prefix is smaller; otherwise the first differing character decides.
  - It is a strict total order.
  - It is compatible with joining equal-width blocks.
- **`Dates`**: the time-value-to-date split that `getUTCFullYear`,
  `getUTCMonth` and `getUTCDate` perform, and the printing of `date_from`.
  - Dates use 400-year eras of years beginning on the 1st of March.
  - Every day number gets a valid Gregorian date, and every valid date is the
    date of exactly one day number: the round trip with the inverse day count
    is proved in both directions.
  - For four-digit years, the string order of cutoff strings is proved to be
    the calendar order.
- **`Series`**: the quote object.
  - It is the sequence of its entries in insertion order, which is the order
    `Object.keys` lists non-numeric keys, with no key twice.
  - Key lookup, key assignment, `reverse` and the range filter are specified
    here.
- **`DataCacheModel`**: `fetchData`, the local data source, and the `DataCache`
  class.
  - The HTTP server is a class holding a fixed table from URL to decoded JSON
    object, plus the log of requested URLs.
  - `now` is an input: the time value in milliseconds since the epoch.
- **`ChartData`**: `countRowIndexForChart`, `parseCursorValueLabelText`, the
  mapping loop of `renderOHLCData`, and the volume histogram loop.
- **`TradingApp`**: the application state (`dataRange`, `freq`, `dataCaches`,
  `dataExists`), `searchData` with its promise handlers, `renderOHLCData`, and
  the range listeners.

### Where the code and its comments disagree

- **Cutoff windows.** The comments beside the windows in
  `src/dataCache.ts:62-66` say "1 Year" and "5 Year". The code computes 2 × 365
  and 10 × 365 days, and the model follows the code.
- **Range label versus data.** Because the range selects the frequency, the
  range labelled "1 year" is served with a 3650-day window, and "1 month" with
  a 730-day window (`TradingApp.SearchWindow`).
- **`localData` arguments.** `localData` takes `(exchange, symbol, freq)` but is
  called as `localData(symbol, freq)`. The URL requested is therefore
  `/timeseries/<symbol>/<freq>/undefined` (`DataCacheModel.FetchRequests`).

## Model

| member | source | states |
|---|---|---|
| StringOrder.LessIrreflexive | src/dataCache.ts:80 | no string is below itself under the relational string comparison |
| StringOrder.LessAsymmetric | src/dataCache.ts:80 | of two strings at most one is below the other |
| StringOrder.LessTransitive | src/dataCache.ts:80 | the string comparison is transitive |
| StringOrder.LessTotal | src/dataCache.ts:80 | of two different strings one is below the other |
| StringOrder.AtLeastTransitive | src/dataCache.ts:80 | `key >= date_from` is transitive, so a later cutoff admits fewer keys |
| StringOrder.LessBlock | src/dataCache.ts:75-80 | comparing two strings that start with blocks of equal width compares the blocks first, then the rests; such strings are equal exactly when both parts are |
| Dates.YearOfEra | src/dataCache.ts:72-74 | a day of a 400-year era falls in a year of the era that starts on or before it, at a day below that year's length (366 days when the following February has a 29th, else 365) |
| Dates.MonthDay | src/dataCache.ts:73-74 | a day of a March-based year has a month in 1..12 and a day within that month's length, February 29 only on day 365 of a year; the day-of-year count of that month and day gives the day back |
| Dates.CivilFromDays | src/dataCache.ts:72-74 | the UTC date of any day number, negative ones included, is a valid Gregorian date: month in 1..12, day within the month, February 29 only in leap years |
| Dates.CivilOfEraDay | src/dataCache.ts:72-74 | the date on any day of an era is a valid Gregorian date |
| Dates.LeapYearOfEra | src/dataCache.ts:72-74 | moving a year by whole 400-year eras does not change whether it is a leap year |
| Dates.YearOfEraOf | src/dataCache.ts:72-74 | a day of year `yoe` of an era that is below the year's length is split back into exactly that year and that day, so the year of a day is unique |
| Dates.MonthDayOf | src/dataCache.ts:73-74 | a valid month and day are split back from their day of the March-based year, which is 365 only for February 29 |
| Dates.DaysFromCivilRoundTrip | src/dataCache.ts:72-74 | every valid date is the UTC date of its own day number, so dates and day numbers correspond one to one |
| Dates.DaysFromCivilParts | src/dataCache.ts:72-74 | the day count of a date is its era's first day plus the start of its year of era plus its day in the year |
| Dates.CivilOfEraDayRoundTrip | src/dataCache.ts:72-74 | counting the days of the date on day `doe` of an era gives that day back |
| Dates.CivilFromDaysRoundTrip | src/dataCache.ts:72-74 | the year, month and day of a day number determine it: counting their days gives the day number back |
| Dates.UtcDateOf | src/dataCache.ts:72-74 | the UTC year, `getUTCMonth() + 1` and `getUTCDate()` of a time value form a valid date whose day number is the floor of `t / msPerDay` |
| Dates.DayOfShift | src/dataCache.ts:67-70 | subtracting a whole number of days from a time value moves its UTC day back by exactly that many days |
| Dates.NatToString | src/dataCache.ts:75 | a number prints as a nonempty digit string with no leading zero |
| Dates.NatToStringRoundTrip | src/dataCache.ts:75 | reading the printed digits of a number back gives the number |
| Dates.IntToString | src/dataCache.ts:72-75 | the printed year starts with `-` exactly when it is negative; the rest is a digit string with no leading zero that denotes the year's magnitude |
| Dates.Pad2 | src/dataCache.ts:73-74 | a padded month or day is a digit string of at least two characters |
| Dates.DateFrom | src/dataCache.ts:67-75 | for a valid time value, `date_from` is the printed UTC year, `-`, two digits denoting the month, `-`, two digits denoting the day, of the valid date whose day number is the floor of `t / msPerDay`; for an invalid one it is `NaN-0NaN-0NaN` |
| Dates.FixedOrder | src/dataCache.ts:75-80 | among numbers below 10^w, their w-digit strings compare and are equal exactly as the numbers are |
| Dates.NatToStringIsFixed | src/dataCache.ts:75 | a number with exactly w digits prints as its w-digit string |
| Dates.Pad2IsFixed | src/dataCache.ts:73-75 | a month or day below 100 is printed as exactly two digits that denote it |
| Dates.FormatDateFields | src/dataCache.ts:72-75 | `FormatDate`: `date_from` is the year as printed, `-`, the month as exactly two digits, `-`, the day as exactly two digits, and those digits denote the month and the day |
| Dates.YearIsFixed | src/dataCache.ts:72-75 | a year in 1000..9999 prints as exactly four digits |
| Dates.FormatDateShape | src/dataCache.ts:72-75 | with a four-digit year the cutoff string is ten characters `YYYY-MM-DD` with dashes at positions 4 and 7 |
| Dates.JoinOrder | src/dataCache.ts:75-80 | two `y-m-d` strings with equally wide year and month fields compare field by field |
| Dates.FormatDateOrder | src/dataCache.ts:75-80 | for four-digit years one cutoff string is below another exactly when its date is earlier, and equal exactly when the dates are equal |
| Series.Keys | src/dataCache.ts:78 | `Object.keys` lists one key per entry |
| Series.KeysAt | src/dataCache.ts:78 | key `i` of `Object.keys` is the key of entry `i` |
| Series.InKeys | src/dataCache.ts:78 | a key is listed by `Object.keys` exactly when some entry has it |
| Series.Get | src/dataCache.ts:81 | reading a key finds a value exactly when the key is present, and the value is that key's entry |
| Series.GetEntry | src/dataCache.ts:81 | in an object, reading an entry's key yields that entry's value |
| Series.ReversedKeyAt | src/dataCache.ts:78 | position `i` of the reversed key list holds the key of entry `n - 1 - i` |
| Series.Put | src/dataCache.ts:81 | assigning a new key appends the entry at the end of the key order |
| Series.PutExistingKeys | src/dataCache.ts:81 | assigning an existing key keeps the keys and their order |
| Series.PutGet | src/dataCache.ts:81 | after assigning `v` to `k`, reading `k` gives `v` and every other key reads as before |
| Series.Reverse | src/dataCache.ts:78 | `reverse` keeps the length of the list |
| Series.ReverseAt | src/dataCache.ts:78 | position `i` of the reversed list holds position `n - 1 - i` |
| Series.ReverseConcat | src/dataCache.ts:78 | reversing a concatenation reverses the parts and swaps them |
| Series.ReverseReverse | src/dataCache.ts:78 | reversing twice gives the list back |
| Series.ReverseMembership | src/dataCache.ts:78 | reversing keeps the same elements |
| Series.KeepFrom | src/dataCache.ts:76-83 | keeping the entries at or after the cutoff never lengthens the object |
| Series.KeepFromMembership | src/dataCache.ts:80-81 | an entry is kept exactly when it is present and its key is `>= date_from` |
| Series.KeepFromConcat | src/dataCache.ts:76-83 | the filter distributes over concatenation |
| Series.KeepFromUnique | src/dataCache.ts:76-83 | the kept entries have no key twice |
| Series.KeepFromIdempotent | src/dataCache.ts:76-83 | keeping twice with the same cutoff keeps the same entries |
| Series.KeepFromReverse | src/dataCache.ts:78-83 | keeping the entries of the reversed object gives the reverse of the kept entries |
| Series.RangeFilter | src/dataCache.ts:76-83 | the filtered object is never longer than the cached one; its contents and order are stated by the four lemmas below |
| Series.RangeFilterMembership | src/dataCache.ts:76-83 | an entry is returned exactly when it is cached and its key is `>= date_from`, with the cached record |
| Series.RangeFilterKeys | src/dataCache.ts:76-83 | a key is returned exactly when it is cached and `>= date_from`; the bound is inclusive |
| Series.RangeFilterUnique | src/dataCache.ts:76-83 | the returned object has no key twice |
| Series.RangeFilterReversesOrder | src/dataCache.ts:78-82 | entries kept from a later part of the object come before those kept from an earlier part: the result is in reverse key order |
| Series.RangeFilterIdempotent | src/dataCache.ts:76-83 | filtering the result again with the same cutoff gives back the kept entries in cached order, with the same entry set as the result |
| Series.RangeFilterMonotone | src/dataCache.ts:76-83 | a later cutoff returns a subset of what an earlier cutoff returns |
| DataCacheModel.Respond | src/dataSources/localData.ts:7-8 | the request resolves exactly when the server can answer the URL, with the server's object for it, and otherwise rejects naming the URL |
| DataCacheModel.RequestPathInjective | src/dataSources/localData.ts:7 | `RequestPath`: for exchanges and symbols without `/`, two URLs are equal exactly when the exchange, the symbol and the printed frequency are, an absent frequency printing as `undefined` |
| DataCacheModel.LocalDataServer.constructor | src/dataSources/localData.ts:1-9 | a server starts with no requests, and every object it serves has unique keys |
| DataCacheModel.LocalDataServer.LocalData | src/dataSources/localData.ts:1-9 | one GET of the URL is logged, and the result is the server's answer for it |
| DataCacheModel.FetchRequests | src/dataCache.ts:31-43 | the local source sends exactly one request, for `/timeseries/<symbol>/<freq>/undefined`; any other source sends none |
| DataCacheModel.FetchOutcome | src/dataCache.ts:31-43 | an unknown source rejects with the error `Unknown data source.`; the fetch succeeds exactly when the source is local and the server answers `/timeseries/<symbol>/<freq>/undefined`, resolving with that answer, and a local failure rejects naming that URL |
| DataCacheModel.FetchData | src/dataCache.ts:31-43 | `fetchData` sends exactly the requests above and settles as described, and a resolved object has unique keys |
| DataCacheModel.WindowMs | src/dataCache.ts:62-66 | the window is 730 days of milliseconds for `'D'` and 3650 days for every other frequency |
| DataCacheModel.CutoffString | src/dataCache.ts:61-75 | for a valid shifted time value, the cutoff is the printed valid date whose day number is exactly 730 (`'D'`) or 3650 (other frequencies) days before today's UTC day; otherwise it is `NaN-0NaN-0NaN` |
| DataCacheModel.RangeFilterByDate | src/dataCache.ts:72-83 | for keys that begin with a four-digit-year date, a bar is returned exactly when its date is not before the cutoff date |
| DataCacheModel.CollectStep | src/dataCache.ts:78-82 | copying one more key, walking backwards, extends the filtered result from a suffix of the object to the next longer suffix |
| DataCacheModel.CollectRange | src/dataCache.ts:76-83 | the `forEach` over the reversed keys builds exactly the range filter of the cached object |
| DataCacheModel.DataCache.IsDailyDataValid | src/dataCache.ts:94-96 | the cache is valid exactly when it holds an object; `GetDailyData` fetches exactly when it is not |
| DataCacheModel.DataCache.constructor | src/dataCache.ts:52-57 | a new cache holds no data and keeps its symbol, frequency and source |
| DataCacheModel.DataCache.GetDailyData | src/dataCache.ts:59-96 | holding data, it makes no request, leaves the data unchanged and returns the range filter of it at the cutoff for `now`. Holding none, it sends exactly the fetch's requests. On success it stores the object, becomes valid and returns the filter of the stored object; on failure it stays empty and rejects with the fetch's error |
| ChartData.ReduceRowsSum | src/app.ts:121-124 | running the reducer from chart `i` adds the spans of the shown charts from `i` up to `chartIndex` |
| ChartData.CountRowIndexForChart | src/app.ts:120-124 | `countRowIndexForChart(i)` is the sum of `verticalSpans` over the shown charts at indices below `i` |
| ChartData.DashboardRows | src/app.ts:120-130 | with the configured charts, the OHLC, volume and stochastic charts start at rows 0, 3 and 4, and the dashboard has 5 rows |
| ChartData.ParseCursorValueLabelText | src/app.ts:544-550 | the label is the prefix, then spaces up to width 10 (none if the prefix is already that long), then the value |
| ChartData.Bars | src/app.ts:672-694 | one OHLC row per bar |
| ChartData.Line | src/app.ts:672-696 | one point per bar |
| ChartData.BarsAt | src/app.ts:675-694 | OHLC row `i` holds bar `i`'s time, open, high, low and close, in key order |
| ChartData.LineAt | src/app.ts:675-696 | point `i` of a line holds bar `i`'s time and field |
| ChartData.Truthy | src/app.ts:697-709 | dropping falsy values never lengthens an array |
| ChartData.TruthyMembership | src/app.ts:697-709 | a point survives exactly when it is present and its value is nonzero |
| ChartData.TruthyConcat | src/app.ts:697-709 | dropping falsy values keeps the survivors in their original order |
| ChartData.LineStep | src/app.ts:695-709 | one more bar pushes its point onto a line, and onto an indicator array only when its value is truthy |
| ChartData.BarsStep | src/app.ts:694 | one more bar pushes its OHLC row |
| ChartData.PerBarStep | src/app.ts:694-696 | one more bar keeps the OHLC, volume and ATR arrays in step with the bars read so far |
| ChartData.AverageLinesStep | src/app.ts:697-705 | one more bar keeps the EMA arrays the truthy parts of their lines, the EMA-200 array read from volume |
| ChartData.StochasticLinesStep | src/app.ts:706-709 | one more bar keeps the stochastic arrays the truthy parts of their lines |
| ChartData.ShapedStep | src/app.ts:675-711 | one more bar keeps all nine arrays in step with the bars read so far |
| ChartData.MapTradingData | src/app.ts:661-711 | the loop yields an OHLC row, a volume point and an ATR point per bar in key order, and each indicator array holds exactly the truthy values of its field (EMA-200 from volume) |
| ChartData.ShapedLengths | src/app.ts:661-711 | OHLC, volume and ATR have one entry per bar, each indicator array at most one, and the EMA-200 array is the truthy part of the volume array |
| ChartData.TruthyLineMembership | src/app.ts:686-709 | an indicator array holds a point exactly when some bar has that time and a nonzero value of the field |
| ChartData.Steps | src/app.ts:745-755 | the histogram has `2n - 1` points for `n >= 1` volume points and none for `n = 0` |
| ChartData.StepsAt | src/app.ts:745-755 | `out[2i]` is volume point `i`, and `out[2i-1]` takes the x of point `i-1` and the y of point `i` |
| ChartData.StepsExtend | src/app.ts:748-754 | one more volume point adds its step point when it has a predecessor, then the point itself |
| ChartData.HistogramSteps | src/app.ts:745-755 | the loop with `prev` builds exactly the step histogram of the volume points |
| ChartData.EveryOther | src/app.ts:745-755 | taking every other point keeps half the points, rounded up |
| ChartData.EveryOtherAt | src/app.ts:745-755 | point `i` of every other point is point `2i` |
| ChartData.StepsKeepVolume | src/app.ts:745-755 | the step points are extra: every other histogram point, from the first, gives back the volume points |
| TradingApp.FreqFor | src/app.ts:821-833 | the frequency is `'D'` exactly for Month, `'W'` exactly for Year and `'M'` exactly for TenYears |
| TradingApp.RangeLabel | src/app.ts:776-780 | the label is `1 month` exactly for Month, `1 year` exactly for Year and `10 years` exactly for TenYears |
| TradingApp.RangeLabelDistinct | src/app.ts:776-780 | the three title labels differ, so the title tells the ranges apart |
| TradingApp.SearchWindow | src/app.ts:821-843 | a Month search cuts 730 days back; a Year or TenYears search cuts 3650 days back |
| TradingApp.ShapeChart | src/app.ts:657-781 | the rendering holds the shaped arrays of the data, the step histogram of their volume points, and the title `name (label)` |
| TradingApp.App.constructor | src/app.ts:109-110 | the application starts on Year with frequency `'D'`, no caches and no data shown |
| TradingApp.App.SelectRange | src/app.ts:111-113 | a range listener records the range and changes nothing else |
| TradingApp.App.RenderOHLCData | src/app.ts:657-789 | the data is shaped and titled under the current range, is shown, and `dataExists` becomes true |
| TradingApp.App.ShowOutcome | src/app.ts:844-850 | a resolved search renders its data under the symbol's name; a rejected one reports the symbol and leaves the charts as they were |
| TradingApp.App.ReplaceCache | src/app.ts:821-842 | the frequency follows the range, and the symbol's cache is replaced by a new, empty one; other symbols' caches are kept |
| TradingApp.App.SearchData | src/app.ts:808-851 | every search replaces the symbol's cache and fetches exactly once. On success the filtered data is rendered under `symbol (label)`; on failure the symbol is reported and the charts are unchanged |
| TradingApp.App.ChangeRange | src/app.ts:865-874 | picking a range records it; if no data has been shown nothing else changes. Otherwise it searches again under the new range, with everything `SearchData` promises: the symbol's cache is replaced and fetches once, and the outcome succeeds exactly when the fetch does, rendering the filtered data under the new range's label, or else reporting the symbol with the charts unchanged |

## Left out

- Drawing: the chart library, dashboard construction, series styling, axes, the custom cursor and its handlers. These are calls into a library this model does not contain.
- DOM lookup and event wiring, `alert`, `console.log` and `window.performance` timing. These are I/O. The input field is a parameter of `SearchData`, and a reported failure is a log entry (`failedSearches`).
- The HTTP request and JSON decoding in `localData`. The server is a fixed table from URL to decoded object, and a failed request or decode is a rejection naming the URL. A successful fetch always yields an object. A `null` body, on which `getDailyData` would recurse forever, is not modelled.
- `new Date(key).getTime()` on quote keys. This is library date parsing; the model takes it as the function `timeOf`.
- `Number(...)` and NaN. Quote fields are reals, and truthiness is "nonzero".
- The clock. `now` is a parameter, and one value serves the whole search.
- Async behaviour and interleaving of promises. Each search runs to completion, and its handlers see the state at the time of the search.
- `Object.keys` lists integer-like keys first, in numeric order. Date keys are never integer-like, so the model keeps insertion order.
- JavaScript strings are UTF-16 code units; the model compares characters.
- The unused `mode`, `dataRangeQuery` and `dataDates` values, the unused `dataRange` parameter of `getDailyData`, the earlier cache lookup in `searchData`, and the `seriesOHLC.setName` call.
- Errors thrown inside the `then` handler, which the `catch` would also report. The model's rendering cannot fail.
- `DataSource` members other than `LocalData`. They come from a module that is not part of this model, and all of them are `OtherSource`.
