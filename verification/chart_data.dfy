/**
 * The data shaping in src/app.ts: the dashboard row layout, the cursor label
 * padding, the mapping of a quote object to the chart series' point arrays,
 * and the step points of the volume histogram.
 */
module ChartData {
  import opened Wrappers
  import opened Series

  // ---------------------------------------------------------------------
  // Dashboard rows.
  // ---------------------------------------------------------------------

  /** The layout part of a chart configuration: whether it is shown and how many rows it spans. */
  datatype ChartConfig = ChartConfig(show: bool, verticalSpans: int)

  /** `chartConfigs`: the OHLC chart (3 rows), the volume chart and the stochastic chart (1 row each). */
  const ChartConfigs: seq<ChartConfig> := [ChartConfig(true, 3), ChartConfig(true, 1), ChartConfig(true, 1)]

  /** `reduce` from position `i` with accumulator `sum` of the reducer in countRowIndexForChart. */
  function ReduceRows(configs: seq<ChartConfig>, chartIndex: int, i: nat, sum: int): int
    requires i <= |configs|
    decreases |configs| - i
  {
    if i == |configs| then sum
    else
      var c := configs[i];
      ReduceRows(configs, chartIndex, i + 1, sum + (if c.show && i < chartIndex then c.verticalSpans else 0))
  }

  /**
   * `countRowIndexForChart(chartIndex)`: the dashboard row where chart
   * `chartIndex` starts, which is the sum of the vertical spans of the shown
   * charts at indices below it.
   */
  function CountRowIndexForChart(configs: seq<ChartConfig>, chartIndex: int): (row: int)
    ensures row == ShownSpans(configs, Below(configs, chartIndex))
  {
    ReduceRowsSum(configs, chartIndex, 0, 0);
    ReduceRows(configs, chartIndex, 0, 0)
  }

  /** The rows spanned by the shown charts among the first `k` configurations. */
  function ShownSpans(configs: seq<ChartConfig>, k: nat): int
    requires k <= |configs|
  {
    if k == 0 then 0
    else ShownSpans(configs, k - 1) + (if configs[k - 1].show then configs[k - 1].verticalSpans else 0)
  }

  /** The number of configurations whose index is below `chartIndex`. */
  function Below(configs: seq<ChartConfig>, chartIndex: int): (k: nat)
    ensures k <= |configs|
  {
    if chartIndex < 0 then 0 else if chartIndex > |configs| then |configs| else chartIndex
  }

  lemma {:induction false} ReduceRowsSum(configs: seq<ChartConfig>, chartIndex: int, i: nat, sum: int)
    requires i <= |configs|
    decreases |configs| - i
    ensures var m := Below(configs, chartIndex);
      ReduceRows(configs, chartIndex, i, sum)
        == sum + (if i < m then ShownSpans(configs, m) - ShownSpans(configs, i) else 0)
  {
    if i < |configs| {
      var c := configs[i];
      ReduceRowsSum(configs, chartIndex, i + 1, sum + (if c.show && i < chartIndex then c.verticalSpans else 0));
    }
  }

  /** With the configured charts the OHLC, volume and stochastic charts start at rows 0, 3 and 4 of a 5-row dashboard. */
  lemma DashboardRows()
    ensures CountRowIndexForChart(ChartConfigs, 0) == 0
    ensures CountRowIndexForChart(ChartConfigs, 1) == 3
    ensures CountRowIndexForChart(ChartConfigs, 2) == 4
    ensures CountRowIndexForChart(ChartConfigs, |ChartConfigs|) == 5
  {
  }

  // ---------------------------------------------------------------------
  // Cursor labels.
  // ---------------------------------------------------------------------

  /** The width the cursor label prefix is padded to. */
  const LabelPrefixWidth: nat := 10

  function Max(a: int, b: int): int
  {
    if a < b then b else a
  }

  /**
   * `parseCursorValueLabelText(prefix, value)`: the prefix, spaces appended
   * until it is at least ten characters long, then the value.
   */
  method ParseCursorValueLabelText(prefix: string, value: string) returns (text: string)
    ensures var w := Max(|prefix|, LabelPrefixWidth);
      && |text| == w + |value|
      && text[..|prefix|] == prefix
      && (forall i :: |prefix| <= i < w ==> text[i] == ' ')
      && text[w..] == value
  {
    var padded := prefix;
    while |padded| < LabelPrefixWidth
      invariant |prefix| <= |padded| <= Max(|prefix|, LabelPrefixWidth)
      invariant padded[..|prefix|] == prefix
      invariant forall i :: |prefix| <= i < |padded| ==> padded[i] == ' '
    {
      padded := padded + " ";
    }
    text := padded + value;
  }

  // ---------------------------------------------------------------------
  // From the quote object to chart points.
  // ---------------------------------------------------------------------

  /** A line or area point `{x, y}`; `x` is the epoch time of the bar. */
  datatype Point = Point(x: int, y: real)

  /** An OHLC row `[x, o, h, l, c]`. */
  datatype XOHLC = XOHLC(x: int, open: real, high: real, low: real, close: real)

  /** The fields of a quote a point can be read from. */
  datatype Field = Volume | Atr | Ema20 | Ema50 | Ema100 | Ema200 | StochK | StochD

  function FieldOf(q: Quote, f: Field): real
  {
    match f
    case Volume => q.volume
    case Atr => q.atr
    case Ema20 => q.ema20
    case Ema50 => q.ema50
    case Ema100 => q.ema100
    case Ema200 => q.ema200
    case StochK => q.stochK
    case StochD => q.stochD
  }

  /** One OHLC row per bar, in key order; `timeOf` is `new Date(key).getTime()`. */
  function Bars(data: Series, timeOf: string -> int): (r: seq<XOHLC>)
    ensures |r| == |data|
  {
    if data == [] then []
    else
      var (key, q) := data[|data| - 1];
      Bars(data[..|data| - 1], timeOf) + [XOHLC(timeOf(key), q.open, q.high, q.low, q.close)]
  }

  /** One point per bar, in key order, with field `f` as its value. */
  function Line(data: Series, timeOf: string -> int, f: Field): (r: seq<Point>)
    ensures |r| == |data|
  {
    if data == [] then []
    else
      var (key, q) := data[|data| - 1];
      Line(data[..|data| - 1], timeOf, f) + [Point(timeOf(key), FieldOf(q, f))]
  }

  /** Row `i` of the OHLC array is bar `i`, at the time of its key. */
  lemma {:induction false} BarsAt(data: Series, timeOf: string -> int, i: int)
    requires 0 <= i < |data|
    ensures Bars(data, timeOf)[i]
      == XOHLC(timeOf(data[i].0), data[i].1.open, data[i].1.high, data[i].1.low, data[i].1.close)
  {
    if i < |data| - 1 {
      BarsAt(data[..|data| - 1], timeOf, i);
    }
  }

  /** Point `i` of a line is bar `i`'s field `f`, at the time of its key. */
  lemma {:induction false} LineAt(data: Series, timeOf: string -> int, f: Field, i: int)
    requires 0 <= i < |data|
    ensures Line(data, timeOf, f)[i] == Point(timeOf(data[i].0), FieldOf(data[i].1, f))
  {
    if i < |data| - 1 {
      LineAt(data[..|data| - 1], timeOf, f, i);
    }
  }

  /** The points whose value is truthy, i.e. nonzero, in their original order. */
  function Truthy(points: seq<Point>): (r: seq<Point>)
    ensures |r| <= |points|
  {
    if points == [] then []
    else
      var p := points[|points| - 1];
      Truthy(points[..|points| - 1]) + (if p.y != 0.0 then [p] else [])
  }

  lemma {:induction false} TruthyMembership(points: seq<Point>, p: Point)
    ensures p in Truthy(points) <==> p in points && p.y != 0.0
  {
    if points != [] {
      var init := points[..|points| - 1];
      TruthyMembership(init, p);
      assert points == init + [points[|points| - 1]];
    }
  }

  /** Dropping falsy points commutes with concatenation: the order of the survivors is kept. */
  lemma {:induction false} TruthyConcat(a: seq<Point>, b: seq<Point>)
    ensures Truthy(a + b) == Truthy(a) + Truthy(b)
  {
    if b == [] {
      assert a + b == a;
    } else {
      var init := b[..|b| - 1];
      assert (a + b)[..|a + b| - 1] == a + init;
      TruthyConcat(a, init);
    }
  }

  /** The nine point arrays `renderOHLCData` fills. */
  datatype ChartArrays = ChartArrays(
    xohlc: seq<XOHLC>, volume: seq<Point>, atr: seq<Point>,
    ema20: seq<Point>, ema50: seq<Point>, ema100: seq<Point>, ema200: seq<Point>,
    stochK: seq<Point>, stochD: seq<Point>)

  /**
   * The arrays `renderOHLCData` derives from `data`: an OHLC row, a volume
   * point and an ATR point for every bar, and an indicator point only where
   * the indicator is truthy. The EMA-200 line is read from the volume field.
   */
  ghost predicate Shaped(c: ChartArrays, data: Series, timeOf: string -> int)
  {
    PerBar(c, data, timeOf) && AverageLines(c, data, timeOf) && StochasticLines(c, data, timeOf)
  }

  ghost predicate PerBar(c: ChartArrays, data: Series, timeOf: string -> int)
  {
    && c.xohlc == Bars(data, timeOf)
    && c.volume == Line(data, timeOf, Volume)
    && c.atr == Line(data, timeOf, Atr)
  }

  ghost predicate AverageLines(c: ChartArrays, data: Series, timeOf: string -> int)
  {
    && c.ema20 == Truthy(Line(data, timeOf, Ema20))
    && c.ema50 == Truthy(Line(data, timeOf, Ema50))
    && c.ema100 == Truthy(Line(data, timeOf, Ema100))
    && c.ema200 == Truthy(Line(data, timeOf, Volume))
  }

  ghost predicate StochasticLines(c: ChartArrays, data: Series, timeOf: string -> int)
  {
    && c.stochK == Truthy(Line(data, timeOf, StochK))
    && c.stochD == Truthy(Line(data, timeOf, StochD))
  }

  function Push(points: seq<Point>, p: Point): seq<Point>
  {
    points + [p]
  }

  function PushIfTruthy(points: seq<Point>, p: Point): seq<Point>
  {
    if p.y != 0.0 then points + [p] else points
  }

  /** The nine arrays after the pushes for one more bar at time `x`. */
  function PushBar(c: ChartArrays, x: int, q: Quote): ChartArrays
  {
    ChartArrays(
      c.xohlc + [XOHLC(x, q.open, q.high, q.low, q.close)],
      Push(c.volume, Point(x, q.volume)), Push(c.atr, Point(x, q.atr)),
      PushIfTruthy(c.ema20, Point(x, q.ema20)), PushIfTruthy(c.ema50, Point(x, q.ema50)),
      PushIfTruthy(c.ema100, Point(x, q.ema100)), PushIfTruthy(c.ema200, Point(x, q.volume)),
      PushIfTruthy(c.stochK, Point(x, q.stochK)), PushIfTruthy(c.stochD, Point(x, q.stochD)))
  }

  lemma LineStep(data: Series, timeOf: string -> int, f: Field, i: int)
    requires 0 <= i < |data|
    ensures Line(data[..i + 1], timeOf, f) == Push(Line(data[..i], timeOf, f), Point(timeOf(data[i].0), FieldOf(data[i].1, f)))
    ensures Truthy(Line(data[..i + 1], timeOf, f))
      == PushIfTruthy(Truthy(Line(data[..i], timeOf, f)), Point(timeOf(data[i].0), FieldOf(data[i].1, f)))
  {
    assert data[..i + 1][..i] == data[..i];
  }

  lemma BarsStep(data: Series, timeOf: string -> int, i: int)
    requires 0 <= i < |data|
    ensures Bars(data[..i + 1], timeOf)
      == Bars(data[..i], timeOf) + [XOHLC(timeOf(data[i].0), data[i].1.open, data[i].1.high, data[i].1.low, data[i].1.close)]
  {
    assert data[..i + 1][..i] == data[..i];
  }

  lemma PerBarStep(c: ChartArrays, data: Series, timeOf: string -> int, i: int)
    requires 0 <= i < |data| && PerBar(c, data[..i], timeOf)
    ensures PerBar(PushBar(c, timeOf(data[i].0), data[i].1), data[..i + 1], timeOf)
  {
    BarsStep(data, timeOf, i);
    LineStep(data, timeOf, Volume, i);
    LineStep(data, timeOf, Atr, i);
  }

  lemma AverageLinesStep(c: ChartArrays, data: Series, timeOf: string -> int, i: int)
    requires 0 <= i < |data| && AverageLines(c, data[..i], timeOf)
    ensures AverageLines(PushBar(c, timeOf(data[i].0), data[i].1), data[..i + 1], timeOf)
  {
    LineStep(data, timeOf, Ema20, i);
    LineStep(data, timeOf, Ema50, i);
    LineStep(data, timeOf, Ema100, i);
    LineStep(data, timeOf, Volume, i);
  }

  lemma StochasticLinesStep(c: ChartArrays, data: Series, timeOf: string -> int, i: int)
    requires 0 <= i < |data| && StochasticLines(c, data[..i], timeOf)
    ensures StochasticLines(PushBar(c, timeOf(data[i].0), data[i].1), data[..i + 1], timeOf)
  {
    LineStep(data, timeOf, StochK, i);
    LineStep(data, timeOf, StochD, i);
  }

  lemma ShapedStep(c: ChartArrays, data: Series, timeOf: string -> int, i: int)
    requires 0 <= i < |data| && Shaped(c, data[..i], timeOf)
    ensures Shaped(PushBar(c, timeOf(data[i].0), data[i].1), data[..i + 1], timeOf)
  {
    PerBarStep(c, data, timeOf, i);
    AverageLinesStep(c, data, timeOf, i);
    StochasticLinesStep(c, data, timeOf, i);
  }

  /** The `for` loop of renderOHLCData over `Object.keys(data)`. */
  method MapTradingData(data: Series, timeOf: string -> int) returns (c: ChartArrays)
    ensures Shaped(c, data, timeOf)
  {
    var xohlc, volume, atr := [], [], [];
    var ema20, ema50, ema100, ema200, stochK, stochD := [], [], [], [], [], [];
    var i := 0;
    while i < |data|
      invariant 0 <= i <= |data|
      invariant Shaped(ChartArrays(xohlc, volume, atr, ema20, ema50, ema100, ema200, stochK, stochD), data[..i], timeOf)
    {
      var (key, q) := data[i];
      var x := timeOf(key);
      ShapedStep(ChartArrays(xohlc, volume, atr, ema20, ema50, ema100, ema200, stochK, stochD), data, timeOf, i);
      xohlc := xohlc + [XOHLC(x, q.open, q.high, q.low, q.close)];
      volume := Push(volume, Point(x, q.volume));
      atr := Push(atr, Point(x, q.atr));
      ema20 := PushIfTruthy(ema20, Point(x, q.ema20));
      ema50 := PushIfTruthy(ema50, Point(x, q.ema50));
      ema100 := PushIfTruthy(ema100, Point(x, q.ema100));
      ema200 := PushIfTruthy(ema200, Point(x, q.volume));
      stochK := PushIfTruthy(stochK, Point(x, q.stochK));
      stochD := PushIfTruthy(stochD, Point(x, q.stochD));
      i := i + 1;
    }
    assert data[..i] == data;
    c := ChartArrays(xohlc, volume, atr, ema20, ema50, ema100, ema200, stochK, stochD);
  }

  /**
   * The OHLC, volume and ATR arrays hold a point per bar; each indicator array
   * holds at most one, and the EMA-200 array is the truthy part of the volume array.
   */
  lemma ShapedLengths(c: ChartArrays, data: Series, timeOf: string -> int)
    requires Shaped(c, data, timeOf)
    ensures |c.xohlc| == |data| && |c.volume| == |data| && |c.atr| == |data|
    ensures |c.ema20| <= |data| && |c.ema50| <= |data| && |c.ema100| <= |data| && |c.ema200| <= |data|
    ensures |c.stochK| <= |data| && |c.stochD| <= |data|
    ensures c.ema200 == Truthy(c.volume)
  {
  }

  /** An indicator array holds exactly the nonzero values of its field, one per bar at that bar's time. */
  lemma TruthyLineMembership(data: Series, timeOf: string -> int, f: Field, p: Point)
    ensures p in Truthy(Line(data, timeOf, f))
      <==> p.y != 0.0 && exists i :: 0 <= i < |data| && p == Point(timeOf(data[i].0), FieldOf(data[i].1, f))
  {
    var line := Line(data, timeOf, f);
    TruthyMembership(line, p);
    if p in line {
      var i :| 0 <= i < |line| && line[i] == p;
      LineAt(data, timeOf, f, i);
    }
    if exists i :: 0 <= i < |data| && p == Point(timeOf(data[i].0), FieldOf(data[i].1, f)) {
      var i :| 0 <= i < |data| && p == Point(timeOf(data[i].0), FieldOf(data[i].1, f));
      LineAt(data, timeOf, f, i);
    }
  }

  // ---------------------------------------------------------------------
  // The volume histogram.
  // ---------------------------------------------------------------------

  /**
   * The histogram points for `volumeValues`: every volume point, with a step
   * point between two neighbours that keeps the earlier x and takes the later y.
   */
  function Steps(v: seq<Point>): (out: seq<Point>)
    ensures |out| == if |v| == 0 then 0 else 2 * |v| - 1
  {
    if |v| <= 1 then v
    else Steps(v[..|v| - 1]) + [Point(v[|v| - 2].x, v[|v| - 1].y), v[|v| - 1]]
  }

  /**
   * Position `2 i` of the histogram is volume point `i`, and position `2 i - 1`
   * is the step from point `i - 1` to point `i`.
   */
  lemma {:induction false} StepsAt(v: seq<Point>, i: nat)
    requires i < |v|
    ensures Steps(v)[2 * i] == v[i]
    ensures i >= 1 ==> Steps(v)[2 * i - 1] == Point(v[i - 1].x, v[i].y)
  {
    if i < |v| - 1 {
      StepsAt(v[..|v| - 1], i);
    }
  }

  /** Taking one more volume point adds its step point, when it has a predecessor, and the point itself. */
  lemma StepsExtend(v: seq<Point>, i: nat)
    requires i < |v|
    ensures Steps(v[..i + 1]) == Steps(v[..i]) + (if i == 0 then [] else [Point(v[i - 1].x, v[i].y)]) + [v[i]]
  {
    assert v[..i + 1][..i] == v[..i];
  }

  /** The loop that builds `histogramBarValues`, remembering the previous point in `prev`. */
  method HistogramSteps(volumeValues: seq<Point>) returns (histogram: seq<Point>)
    ensures histogram == Steps(volumeValues)
  {
    histogram := [];
    var prev: Option<Point> := None;
    for i := 0 to |volumeValues|
      invariant histogram == Steps(volumeValues[..i])
      invariant prev == if i == 0 then None else Some(volumeValues[i - 1])
    {
      var cur := volumeValues[i];
      StepsExtend(volumeValues, i);
      if prev.Some? {
        histogram := histogram + [Point(prev.value.x, cur.y)];
      }
      histogram := histogram + [cur];
      prev := Some(cur);
    }
    assert volumeValues[..|volumeValues|] == volumeValues;
  }

  /** Every other point of a sequence, starting with the first. */
  function EveryOther(s: seq<Point>): (r: seq<Point>)
    ensures |r| == (|s| + 1) / 2
  {
    if |s| <= 1 then s else [s[0]] + EveryOther(s[2..])
  }

  lemma {:induction false} EveryOtherAt(s: seq<Point>, i: nat)
    requires i < (|s| + 1) / 2
    ensures EveryOther(s)[i] == s[2 * i]
  {
    if i > 0 {
      EveryOtherAt(s[2..], i - 1);
    }
  }

  /** The step points are extra: the even positions of the histogram are the volume points themselves. */
  lemma StepsKeepVolume(v: seq<Point>)
    ensures EveryOther(Steps(v)) == v
  {
    var h := Steps(v);
    forall i | 0 <= i < |v|
      ensures EveryOther(h)[i] == v[i]
    {
      EveryOtherAt(h, i);
      StepsAt(v, i);
    }
  }
}
