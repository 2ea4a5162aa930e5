/** The indicator calculation engine for one ticker: its indicators from
    its merged row and the historical frame. */
module Calculator {
  import opened Values
  import opened Series
  import opened Matching

  /** The keys of a computed indicator row, in the order the engine first
      writes them: ticker_symbol, company_name, stock_price, stock_change,
      price_change_1d_pct, price_change_1w_pct, price_change_1m_pct,
      moving_average_20d/50d/200d, all_time_high, all_time_low,
      distance_from_ath_pct, rsi_14, return_cagr, then the ten nested
      metrics market_cap … total_return_1y. */
  datatype Field =
    | TickerSymbol | CompanyName | StockPrice | StockChange
    | Change1d | Change1w | Change1m
    | MovingAverage20 | MovingAverage50 | MovingAverage200
    | AllTimeHigh | AllTimeLow | DistanceFromAth | Rsi14 | ReturnCagr
    | MarketCap | Revenue | PeRatio | PbRatio | PsRatio | DividendYield
    | Week52Low | Week52High | TotalReturn1m | TotalReturn1y

  type IndicatorRow = map<Field, Value>

  /** `IndicatorCalculationError` (the first two, which the batch skips) and
      the Python exceptions that escape the engine. */
  datatype CalcError =
    | MissingTicker
    | MissingPrice(ticker: string)
    | KeyError(key: string)
    | ZeroDivision

  /** The errors `calculate_batch` catches. */
  predicate Skipped(e: CalcError)
  {
    e.MissingTicker? || e.MissingPrice?
  }

  /** One row of the historical frame, which is given in date order. */
  datatype HistoryRow = HistoryRow(ticker: string, price: Value)

  type Frame = seq<HistoryRow>

  /** `historical.loc[historical["ticker_symbol"] == ticker]["stock_price"]`. */
  function PriceColumn(frame: Frame, ticker: string): (column: seq<Value>)
    ensures |column| <= |frame|
    ensures |column| == 0 <==> forall k :: 0 <= k < |frame| ==> frame[k].ticker != ticker
  {
    if |frame| == 0 then []
    else
      var init := frame[..|frame| - 1];
      assert forall k :: 0 <= k < |init| ==> init[k] == frame[k];
      PriceColumn(init, ticker) + (if frame[|frame| - 1].ticker == ticker then [frame[|frame| - 1].price] else [])
  }

  /** `pd.to_numeric(column, errors="coerce").dropna()`: the finite prices,
      in order. */
  function NumericPrices(column: seq<Value>): (prices: seq<real>)
    ensures |prices| <= |column|
  {
    if |column| == 0 then []
    else
      NumericPrices(column[..|column| - 1])
      + (match FiniteOf(column[|column| - 1]) case Some(x) => [x] case None => [])
  }

  /** The row's own price if float() reads it, else the last historical
      price before non-numeric prices are dropped. */
  function LatestPrice(row: Row, column: seq<Value>): (p: Option<Float>)
    ensures ToFloat(Get(row, "stock_price")).Some? ==> p == ToFloat(Get(row, "stock_price"))
    ensures ToFloat(Get(row, "stock_price")).None? ==>
              p == (if |column| > 0 then ToFloat(column[|column| - 1]) else None)
  {
    var own := ToFloat(Get(row, "stock_price"));
    if own.Some? then own
    else if |column| > 0 then ToFloat(column[|column| - 1])
    else None
  }

  /** `row.get("company_name") or row.get("stock_name") or ticker`. */
  function CompanyNameOf(row: Row, ticker: string): (v: Value)
    ensures Truthy(Get(row, "company_name")) ==> v == Get(row, "company_name")
    ensures !Truthy(Get(row, "company_name")) && Truthy(Get(row, "stock_name")) ==> v == Get(row, "stock_name")
    ensures !Truthy(Get(row, "company_name")) && !Truthy(Get(row, "stock_name")) ==> v == Str(ticker)
  {
    if Truthy(Get(row, "company_name")) then Get(row, "company_name")
    else if Truthy(Get(row, "stock_name")) then Get(row, "stock_name")
    else Str(ticker)
  }

  /** A float or None as a value. */
  function OptFloat(f: Option<Float>): Value
  {
    match f
    case None => Null
    case Some(x) => FloatValue(x)
  }

  /** The primary 1-day rule, from the absolute change: None when the key is
      not written. The previous price is `latest - change`; a non-finite
      operand makes it nan, which is not positive. */
  function DailyFromChange(latest: Float, change: Option<Float>): (v: Option<Value>)
    ensures change.None? <==> v.None?
    ensures latest.Finite? && change.Some? && change.value.Finite? && latest.x - change.value.x > 0.0 ==>
              v == Some(Num(change.value.x / (latest.x - change.value.x) * 100.0))
    ensures latest.Finite? && change.Some? && change.value.Finite? && latest.x - change.value.x <= 0.0 ==>
              v == Some(if -0.0001 < change.value.x < 0.0001 then Num(0.0) else Null)
    ensures change == Some(NonFinite) ==> v == Some(Null)
  {
    match change
    case None => None
    case Some(c) =>
      var prevPositive := latest.Finite? && c.Finite? && latest.x - c.x > 0.0;
      if prevPositive then Some(Num(c.x / (latest.x - c.x) * 100.0))
      else if c.Finite? && (if c.x < 0.0 then -c.x else c.x) < 0.0001 then Some(Num(0.0))
      else Some(Null)
  }

  /** `(latest / all_time_high - 1) * 100`; with no numeric history the high
      is nan and so is the distance. */
  function Distance(latest: Float, prices: seq<real>): Value
    requires |prices| == 0 || MaxOf(prices) != 0.0
  {
    if |prices| == 0 then NaN
    else match latest
      case Finite(x) => Num((x / MaxOf(prices) - 1.0) * 100.0)
      case NonFinite => NaN
  }

  /** `(end / start) ** (1 / years) - 1` over n >= 252 prices with a
      positive start; the real power is the parameter `power`. */
  function Cagr(prices: seq<real>, power: (real, real) -> real): real
    requires |prices| >= 252 && prices[0] > 0.0
  {
    var years := |prices| as real / 252.0;
    power(prices[|prices| - 1] / prices[0], 1.0 / years) - 1.0
  }

  /** A percentage change against the price `back` places from the end,
      written when there are at least `back` prices. */
  function ChangeEntry(prices: seq<real>, k: Field, back: nat): (e: IndicatorRow)
    requires back >= 2
    ensures k in e <==> |prices| >= back
    ensures |prices| >= back ==> e[k] == PctChange(prices[|prices| - 1], prices[|prices| - back])
  {
    var n := |prices|;
    if n >= back then map[k := PctChange(prices[n - 1], prices[n - back])] else map[]
  }

  /** The mean of the last `window` prices, written when there are at least
      `needed` prices. */
  function AverageEntry(prices: seq<real>, k: Field, window: nat, needed: nat): (e: IndicatorRow)
    requires 0 < window <= needed
    ensures k in e <==> |prices| >= needed
    ensures |prices| >= needed ==> e[k] == Num(Mean(Tail(prices, window)))
  {
    if |prices| >= needed then map[k := Num(Mean(Tail(prices, window)))] else map[]
  }

  /** The 1-day fallback, written only when the primary rule left the field
      absent or None and there are at least two prices. */
  function FallbackEntry(written: IndicatorRow, prices: seq<real>): (e: IndicatorRow)
    ensures Change1d in e <==> (Change1d !in written || written[Change1d] == Null) && |prices| >= 2
    ensures Change1d in e ==> e[Change1d] == PctChange(prices[|prices| - 1], prices[|prices| - 2])
  {
    var n := |prices|;
    if (Change1d !in written || written[Change1d] == Null) && n >= 2 then
      map[Change1d := PctChange(prices[n - 1], prices[n - 2])]
    else map[]
  }

  /** RSI, written when there are at least 14 returns. */
  function RsiEntry(prices: seq<real>): (e: IndicatorRow)
    ensures forall j :: j in e ==> j == Rsi14
    ensures Rsi14 in e <==> |Returns(prices)| >= 14
    ensures Rsi14 in e ==> e[Rsi14] == Num(Rsi(Returns(prices)))
  {
    var rets := Returns(prices);
    if |rets| >= 14 then map[Rsi14 := Num(Rsi(rets))] else map[]
  }

  /** CAGR, written over at least 252 prices with a positive start. */
  function CagrEntry(prices: seq<real>, power: (real, real) -> real): (e: IndicatorRow)
    ensures forall j :: j in e ==> j == ReturnCagr
    ensures ReturnCagr in e <==> |prices| >= 252 && prices[0] > 0.0
    ensures ReturnCagr in e ==> e[ReturnCagr] == Num(Cagr(prices, power))
  {
    if |prices| >= 252 && prices[0] > 0.0 then map[ReturnCagr := Num(Cagr(prices, power))] else map[]
  }

  /** The first half of the history block of `calculate_for_row`: the
      1-day fallback, the weekly and monthly changes and the moving
      averages. */
  function WithWindows(written: IndicatorRow, prices: seq<real>): IndicatorRow
  {
    written
    + FallbackEntry(written, prices)
    + ChangeEntry(prices, Change1w, 5)
    + ChangeEntry(prices, Change1m, 22)
    + AverageEntry(prices, MovingAverage20, 20, 22)
    + AverageEntry(prices, MovingAverage50, 50, 50)
    + AverageEntry(prices, MovingAverage200, 200, 200)
  }

  /** The all-time high of the numeric prices (nan when there are none). */
  function High(prices: seq<real>): Value
  {
    if |prices| > 0 then Num(MaxOf(prices)) else NaN
  }

  /** The all-time low of the numeric prices (nan when there are none). */
  function Low(prices: seq<real>): Value
  {
    if |prices| > 0 then Num(MinOf(prices)) else NaN
  }

  /** With a numeric price, the all-time low is at most the all-time
      high. */
  lemma LowBelowHigh(prices: seq<real>)
    requires |prices| > 0
    ensures High(prices).Num? && Low(prices).Num? && Low(prices).r <= High(prices).r
  {
    MinOfBounds(prices);
    MaxOfBounds(prices);
  }

  /** The second half: all-time high and low, the distance from the high,
      RSI and CAGR. */
  function WithExtremes(written: IndicatorRow, prices: seq<real>, latest: Float,
                        power: (real, real) -> real): IndicatorRow
    requires |prices| == 0 || MaxOf(prices) != 0.0
  {
    written
    + map[AllTimeHigh := High(prices)]
    + map[AllTimeLow := Low(prices)]
    + map[DistanceFromAth := Distance(latest, prices)]
    + RsiEntry(prices)
    + CagrEntry(prices, power)
  }

  /** The metrics after the whole history block. */
  function WithHistory(written: IndicatorRow, prices: seq<real>, latest: Float,
                       power: (real, real) -> real): IndicatorRow
    requires |prices| == 0 || MaxOf(prices) != 0.0
  {
    WithExtremes(WithWindows(written, prices), prices, latest, power)
  }

  /** Writing a key is a union with a one-entry map. */
  lemma WriteIsUnion(m: IndicatorRow, k: Field, v: Value)
    ensures m[k := v] == m + map[k := v]
  {
  }

  lemma NoWriteIsUnion(m: IndicatorRow)
    ensures m == m + map[]
  {
  }

  /** Where the nested metrics are read: the row keys of the four payloads
      and the candidate keys tried for each metric, in order. */
  datatype MetricKeys = MetricKeys(
    overview: string, dividends: string, priceMetrics: string, performance: string,
    marketCap: seq<string>, revenue: seq<string>, peRatio: seq<string>, pbRatio: seq<string>,
    psRatio: seq<string>, dividendYield: seq<string>, week52Low: seq<string>, week52High: seq<string>,
    totalReturn1m: seq<string>, totalReturn1y: seq<string>)

  /** The payload keys and candidate lists of `calculate_for_row`. */
  const SourceKeys: MetricKeys := MetricKeys(
    "overview_metrics", "dividends_metrics", "price_metrics", "performance_metrics",
    ["marketCap", "market_cap", "Market Cap"],
    ["revenue", "Revenue"],
    ["peRatio", "pe_ratio", "PE Ratio"],
    ["pbRatio", "pb_ratio", "PB Ratio"],
    ["psRatio", "ps_ratio", "PS Ratio"],
    ["dividendYield", "dividend_yield", "Dividend Yield"],
    ["low52", "52 Week Low", "52_week_low"],
    ["high52", "52 Week High", "52_week_high"],
    ["tr1m", "Total Return 1M"],
    ["tr1y", "Total Return 1Y"])

  /** The ten nested metrics, each found by tolerant key matching in its
      payload: overview for the first five, then dividends, price metrics
      and performance. */
  function Nested(row: Row, keys: MetricKeys): IndicatorRow
  {
    var overview := Payload(row, keys.overview);
    var dividends := Payload(row, keys.dividends);
    var priceMetrics := Payload(row, keys.priceMetrics);
    var performance := Payload(row, keys.performance);
    map[
      MarketCap := ExtractMetric(overview, keys.marketCap),
      Revenue := ExtractMetric(overview, keys.revenue),
      PeRatio := ExtractMetric(overview, keys.peRatio),
      PbRatio := ExtractMetric(overview, keys.pbRatio),
      PsRatio := ExtractMetric(overview, keys.psRatio),
      DividendYield := ExtractMetric(dividends, keys.dividendYield),
      Week52Low := ExtractMetric(priceMetrics, keys.week52Low),
      Week52High := ExtractMetric(priceMetrics, keys.week52High),
      TotalReturn1m := ExtractMetric(performance, keys.totalReturn1m),
      TotalReturn1y := ExtractMetric(performance, keys.totalReturn1y)]
  }

  /** What the history block sees of a price column: nothing when the
      ticker has no historical rows, else its numeric prices. */
  function HistoryOf(column: seq<Value>): (h: Option<seq<real>>)
    ensures h.None? <==> |column| == 0
    ensures h.Some? ==> h.value == NumericPrices(column)
  {
    if |column| > 0 then Some(NumericPrices(column)) else None
  }

  /** Whether the distance from the high divides by a zero all-time high
      (a Python ZeroDivisionError). */
  predicate ZeroHigh(history: Option<seq<real>>)
  {
    history.Some? && |history.value| > 0 && MaxOf(history.value) == 0.0
  }

  /** The fields written before the history block, whatever happens. */
  predicate OpeningField(k: Field)
  {
    k == TickerSymbol || k == CompanyName || k == StockPrice || k == StockChange
  }

  /** The four opening fields, then the primary 1-day rule's result when
      it writes one. */
  function Opening(row: Row, ticker: string, latest: Float, change: Option<Float>): (m: IndicatorRow)
    ensures forall k :: k in m <==> OpeningField(k) || (k == Change1d && DailyFromChange(latest, change).Some?)
    ensures TickerSymbol in m && m[TickerSymbol] == Str(ticker)
    ensures CompanyName in m && m[CompanyName] == CompanyNameOf(row, ticker)
    ensures StockPrice in m && m[StockPrice] == FloatValue(latest)
    ensures StockChange in m && m[StockChange] == OptFloat(change)
    ensures DailyFromChange(latest, change).Some? ==>
              Change1d in m && m[Change1d] == DailyFromChange(latest, change).value
  {
    var base: IndicatorRow := map[
      TickerSymbol := Str(ticker),
      CompanyName := CompanyNameOf(row, ticker),
      StockPrice := FloatValue(latest),
      StockChange := OptFloat(change)];
    var daily := DailyFromChange(latest, change);
    if daily.Some? then base[Change1d := daily.value] else base
  }

  /** Everything `calculate_for_row` writes before the nested metrics, for
      the ticker's history, latest price and parsed change. */
  function Core(row: Row, ticker: string, history: Option<seq<real>>, latest: Float, change: Option<Float>,
                power: (real, real) -> real): IndicatorRow
    requires !ZeroHigh(history)
  {
    AfterOpening(Opening(row, ticker, latest, change), history, latest, power)
  }

  /** The history block applied to the metrics written so far, when the
      ticker has history. */
  function AfterOpening(written: IndicatorRow, history: Option<seq<real>>, latest: Float,
                        power: (real, real) -> real): IndicatorRow
    requires !ZeroHigh(history)
  {
    if history.Some? then WithHistory(written, history.value, latest, power) else written
  }

  /** The whole metrics dict of a row that passed both checks. */
  function Computed(row: Row, ticker: string, history: Option<seq<real>>, latest: Float, change: Option<Float>,
                    power: (real, real) -> real, keys: MetricKeys): IndicatorRow
    requires !ZeroHigh(history)
  {
    Core(row, ticker, history, latest, change, power) + Nested(row, keys)
  }

  /** What `calculate_for_row` computes, with a historical frame that has
      no rows treated as an empty history for every ticker. The engine's own
      errors are a blank ticker and a missing price; the only other error is
      the division by a zero all-time high. */
  function Indicators(row: Row, frame: Frame, power: (real, real) -> real): (r: Result<IndicatorRow, CalcError>)
    ensures r == Failure(MissingTicker) <==> TickerOf(row) == ""
    ensures r.Failure? && Skipped(r.error) <==>
              TickerOf(row) == "" || LatestPrice(row, PriceColumn(frame, TickerOf(row))).None?
    ensures r == Failure(ZeroDivision) <==>
              && TickerOf(row) != ""
              && LatestPrice(row, PriceColumn(frame, TickerOf(row))).Some?
              && ZeroHigh(HistoryOf(PriceColumn(frame, TickerOf(row))))
    ensures r.Failure? ==> Skipped(r.error) || r.error == ZeroDivision
  {
    var ticker := TickerOf(row);
    if ticker == "" then Failure(MissingTicker)
    else
      var column := PriceColumn(frame, ticker);
      var latest := LatestPrice(row, column);
      if latest.None? then Failure(MissingPrice(ticker))
      else if ZeroHigh(HistoryOf(column)) then Failure(ZeroDivision)
      else
        Success(Computed(row, ticker, HistoryOf(column), latest.value, ToFloat(Get(row, "stock_change")), power, SourceKeys))
  }

  /** `calculate_for_row` as written: a historical frame with no rows is
      replaced by a frame with no columns, whose `sort_values("date")`
      raises KeyError. */
  function IndicatorsAsWritten(row: Row, frame: Frame, power: (real, real) -> real): Result<IndicatorRow, CalcError>
  {
    if TickerOf(row) == "" then Failure(MissingTicker)
    else if |frame| == 0 then Failure(KeyError("date"))
    else Indicators(row, frame, power)
  }

  /** `calculate_for_row`: the metrics dict is filled by successive
      insertions and overwrites. */
  method CalculateForRow(row: Row, frame: Frame, power: (real, real) -> real)
    returns (r: Result<IndicatorRow, CalcError>)
    ensures r == Indicators(row, frame, power)
  {
    var ticker := TickerOf(row);
    if ticker == "" {
      return Failure(MissingTicker);
    }
    var history := PriceColumn(frame, ticker);
    var latest := ToFloat(Get(row, "stock_price"));
    if latest.None? && |history| > 0 {
      latest := ToFloat(history[|history| - 1]);
    }
    assert latest == LatestPrice(row, history);
    if latest.None? {
      return Failure(MissingPrice(ticker));
    }
    var price := latest.value;
    var change := ToFloat(Get(row, "stock_change"));
    var metrics := OpenMetrics(row, ticker, price, change);
    if |history| > 0 {
      var prices := NumericPrices(history);
      var extended := AddHistoryMetrics(metrics, prices, price, power);
      if extended.Failure? {
        return extended;
      }
      metrics := extended.value;
    }
    assert !ZeroHigh(HistoryOf(history));
    assert metrics == Core(row, ticker, HistoryOf(history), price, change, power);
    var nested := Nested(row, SourceKeys);
    metrics := metrics + nested;
    r := Success(metrics);
  }

  /** The metrics dict as first built, with the primary 1-day rule applied. */
  method OpenMetrics(row: Row, ticker: string, price: Float, change: Option<Float>) returns (metrics: IndicatorRow)
    ensures metrics == Opening(row, ticker, price, change)
  {
    metrics := map[
      TickerSymbol := Str(ticker),
      CompanyName := CompanyNameOf(row, ticker),
      StockPrice := FloatValue(price),
      StockChange := OptFloat(change)];
    var daily := DailyFromChange(price, change);
    if daily.Some? {
      metrics := metrics[Change1d := daily.value];
    }
  }

  /** The history block of `calculate_for_row`, run over the numeric
      prices when the ticker has historical rows. */
  method AddHistoryMetrics(metrics0: IndicatorRow, prices: seq<real>, price: Float, power: (real, real) -> real)
    returns (r: Result<IndicatorRow, CalcError>)
    ensures ZeroHigh(Some(prices)) ==> r == Failure(ZeroDivision)
    ensures !ZeroHigh(Some(prices)) ==> r == Success(WithHistory(metrics0, prices, price, power))
  {
    var metrics := AddWindowMetrics(metrics0, prices);
    var n := |prices|;
    ghost var m6 := metrics;
    metrics := metrics[AllTimeHigh := High(prices)];
    WriteIsUnion(m6, AllTimeHigh, High(prices));
    ghost var m7 := metrics;
    metrics := metrics[AllTimeLow := Low(prices)];
    WriteIsUnion(m7, AllTimeLow, Low(prices));
    if n > 0 && MaxOf(prices) == 0.0 {
      return Failure(ZeroDivision);
    }
    ghost var m8 := metrics;
    metrics := metrics[DistanceFromAth := Distance(price, prices)];
    WriteIsUnion(m8, DistanceFromAth, Distance(price, prices));
    var rets := Returns(prices);
    ghost var m9 := metrics;
    if |rets| >= 14 {
      metrics := metrics[Rsi14 := Num(Rsi(rets))];
      WriteIsUnion(m9, Rsi14, Num(Rsi(rets)));
    } else {
      NoWriteIsUnion(m9);
    }
    assert metrics == m9 + RsiEntry(prices);
    ghost var m10 := metrics;
    if n >= 252 && prices[0] > 0.0 {
      metrics := metrics[ReturnCagr := Num(Cagr(prices, power))];
      WriteIsUnion(m10, ReturnCagr, Num(Cagr(prices, power)));
    } else {
      NoWriteIsUnion(m10);
    }
    assert metrics == m10 + CagrEntry(prices, power);
    r := Success(metrics);
  }

  /** The gated writes at the start of the history block. */
  method AddWindowMetrics(metrics0: IndicatorRow, prices: seq<real>) returns (metrics: IndicatorRow)
    ensures metrics == WithWindows(metrics0, prices)
  {
    metrics := AddChangeMetrics(metrics0, prices);
    metrics := AddAverageMetrics(metrics, prices);
  }

  /** The 1-day fallback and the weekly change. */
  method AddChangeMetrics(metrics0: IndicatorRow, prices: seq<real>) returns (metrics: IndicatorRow)
    ensures metrics == metrics0 + FallbackEntry(metrics0, prices) + ChangeEntry(prices, Change1w, 5)
  {
    metrics := metrics0;
    var n := |prices|;
    if (Change1d !in metrics || metrics[Change1d] == Null) && n >= 2 {
      metrics := metrics[Change1d := PctChange(prices[n - 1], prices[n - 2])];
      WriteIsUnion(metrics0, Change1d, PctChange(prices[n - 1], prices[n - 2]));
    } else {
      NoWriteIsUnion(metrics0);
    }
    ghost var m1 := metrics;
    if n >= 5 {
      metrics := metrics[Change1w := PctChange(prices[n - 1], prices[n - 5])];
      WriteIsUnion(m1, Change1w, PctChange(prices[n - 1], prices[n - 5]));
    } else {
      NoWriteIsUnion(m1);
    }
  }

  /** The monthly change and the three moving averages. */
  method AddAverageMetrics(metrics0: IndicatorRow, prices: seq<real>) returns (metrics: IndicatorRow)
    ensures metrics == metrics0 + ChangeEntry(prices, Change1m, 22) + AverageEntry(prices, MovingAverage20, 20, 22)
                       + AverageEntry(prices, MovingAverage50, 50, 50) + AverageEntry(prices, MovingAverage200, 200, 200)
  {
    metrics := metrics0;
    var n := |prices|;
    ghost var m3 := metrics;
    if n >= 22 {
      metrics := metrics[Change1m := PctChange(prices[n - 1], prices[n - 22])];
      WriteIsUnion(metrics0, Change1m, PctChange(prices[n - 1], prices[n - 22]));
      m3 := metrics;
      metrics := metrics[MovingAverage20 := Num(Mean(Tail(prices, 20)))];
      WriteIsUnion(m3, MovingAverage20, Num(Mean(Tail(prices, 20))));
    } else {
      NoWriteIsUnion(metrics0);
    }
    assert m3 == metrics0 + ChangeEntry(prices, Change1m, 22);
    ghost var m4 := metrics;
    if n >= 50 {
      metrics := metrics[MovingAverage50 := Num(Mean(Tail(prices, 50)))];
      WriteIsUnion(m4, MovingAverage50, Num(Mean(Tail(prices, 50))));
    } else {
      NoWriteIsUnion(m4);
    }
    ghost var m5 := metrics;
    if n >= 200 {
      metrics := metrics[MovingAverage200 := Num(Mean(Tail(prices, 200)))];
      WriteIsUnion(m5, MovingAverage200, Num(Mean(Tail(prices, 200))));
    } else {
      NoWriteIsUnion(m5);
    }
  }

  // ---------------------------------------------------------------------
  // Properties of one row's indicators

  /** The fields the history block writes up to the moving averages. */
  predicate WindowField(k: Field)
  {
    k == Change1d || k == Change1w || k == Change1m
    || k == MovingAverage20 || k == MovingAverage50 || k == MovingAverage200
  }

  /** The fields the history block writes after the moving averages. */
  predicate ExtremeField(k: Field)
  {
    k == AllTimeHigh || k == AllTimeLow || k == DistanceFromAth || k == Rsi14 || k == ReturnCagr
  }

  /** The ten fields read from the nested payloads. */
  predicate NestedField(k: Field)
  {
    k == MarketCap || k == Revenue || k == PeRatio || k == PbRatio || k == PsRatio
    || k == DividendYield || k == Week52Low || k == Week52High || k == TotalReturn1m || k == TotalReturn1y
  }

  lemma NestedKeys(row: Row, keys: MetricKeys)
    ensures forall k :: k in Nested(row, keys) <==> NestedField(k)
  {
  }

  /** A union with a map holding at most the key `k`, seen at `k`. */
  lemma UnionSingle(m: IndicatorRow, extra: IndicatorRow, k: Field)
    requires forall j :: j in extra ==> j == k
    ensures k in m + extra <==> k in m || k in extra
    ensures k in extra ==> (m + extra)[k] == extra[k]
    ensures k !in extra && k in m ==> (m + extra)[k] == m[k]
  {
  }

  /** A union with a map without the key `j` leaves `j` as it was. */
  lemma UnionMiss(m: IndicatorRow, extra: IndicatorRow, j: Field)
    requires j !in extra
    ensures j in m + extra <==> j in m
    ensures j in m ==> (m + extra)[j] == m[j]
  {
  }

  /** The numeric prices the history block sees; none without history. */
  function Prices(history: Option<seq<real>>): (p: seq<real>)
    ensures history.None? ==> p == []
    ensures history.Some? ==> p == history.value
  {
    if history.Some? then history.value else []
  }

  // The history block, field by field. The `...Write` lemmas follow one
  // field through the gated writes of one half of the block; the `...Gate`
  // lemmas carry the result through the other half to `AfterOpening`.

  /** The first half of the history block leaves every other field alone. */
  lemma WindowFrame(written: IndicatorRow, p: seq<real>, j: Field)
    requires !WindowField(j)
    ensures var m := WithWindows(written, p);
            (j in m <==> j in written) && (j in written ==> m[j] == written[j])
  {
    var m1 := written + FallbackEntry(written, p);
    UnionMiss(written, FallbackEntry(written, p), j);
    var m2 := m1 + ChangeEntry(p, Change1w, 5);
    UnionMiss(m1, ChangeEntry(p, Change1w, 5), j);
    var m3 := m2 + ChangeEntry(p, Change1m, 22);
    UnionMiss(m2, ChangeEntry(p, Change1m, 22), j);
    var m4 := m3 + AverageEntry(p, MovingAverage20, 20, 22);
    UnionMiss(m3, AverageEntry(p, MovingAverage20, 20, 22), j);
    var m5 := m4 + AverageEntry(p, MovingAverage50, 50, 50);
    UnionMiss(m4, AverageEntry(p, MovingAverage50, 50, 50), j);
    UnionMiss(m5, AverageEntry(p, MovingAverage200, 200, 200), j);
  }

  /** The second half of the history block leaves every other field alone. */
  lemma ExtremeFrame(w: IndicatorRow, p: seq<real>, latest: Float, power: (real, real) -> real, j: Field)
    requires |p| == 0 || MaxOf(p) != 0.0
    requires !ExtremeField(j)
    ensures var m := WithExtremes(w, p, latest, power);
            (j in m <==> j in w) && (j in w ==> m[j] == w[j])
  {
    var m1 := w + map[AllTimeHigh := High(p)];
    UnionMiss(w, map[AllTimeHigh := High(p)], j);
    var m2 := m1 + map[AllTimeLow := Low(p)];
    UnionMiss(m1, map[AllTimeLow := Low(p)], j);
    var m3 := m2 + map[DistanceFromAth := Distance(latest, p)];
    UnionMiss(m2, map[DistanceFromAth := Distance(latest, p)], j);
    var m4 := m3 + RsiEntry(p);
    UnionMiss(m3, RsiEntry(p), j);
    UnionMiss(m4, CagrEntry(p, power), j);
  }

  /** The history block leaves every field it does not write as it was. */
  lemma HistoryKeeps(written: IndicatorRow, history: Option<seq<real>>, latest: Float, power: (real, real) -> real, j: Field)
    requires !ZeroHigh(history)
    requires !WindowField(j) && !ExtremeField(j)
    ensures var r := AfterOpening(written, history, latest, power);
            (j in r <==> j in written) && (j in written ==> r[j] == written[j])
  {
    if history.Some? {
      var p := history.value;
      WindowFrame(written, p, j);
      ExtremeFrame(WithWindows(written, p), p, latest, power, j);
    }
  }

  /** A window field leaves the history block as its first half left it. */
  lemma WindowLift(written: IndicatorRow, history: Option<seq<real>>, latest: Float, power: (real, real) -> real, j: Field)
    requires history.Some? && !ZeroHigh(history)
    requires WindowField(j)
    ensures var r, w := AfterOpening(written, history, latest, power), WithWindows(written, history.value);
            (j in r <==> j in w) && (j in w ==> r[j] == w[j])
  {
    ExtremeFrame(WithWindows(written, history.value), history.value, latest, power, j);
  }

  lemma FallbackWrite(written: IndicatorRow, p: seq<real>)
    ensures var m := WithWindows(written, p);
            && (Change1d in written && written[Change1d] != Null ==> Change1d in m && m[Change1d] == written[Change1d])
            && ((Change1d !in written || written[Change1d] == Null) && |p| >= 2 ==>
                  Change1d in m && m[Change1d] == PctChange(p[|p| - 1], p[|p| - 2]))
            && (|p| < 2 ==> (Change1d in m <==> Change1d in written))
            && (|p| < 2 && Change1d in written ==> m[Change1d] == written[Change1d])
  {
    var m1 := written + FallbackEntry(written, p);
    UnionSingle(written, FallbackEntry(written, p), Change1d);
    var m2 := m1 + ChangeEntry(p, Change1w, 5);
    UnionMiss(m1, ChangeEntry(p, Change1w, 5), Change1d);
    var m3 := m2 + ChangeEntry(p, Change1m, 22);
    UnionMiss(m2, ChangeEntry(p, Change1m, 22), Change1d);
    var m4 := m3 + AverageEntry(p, MovingAverage20, 20, 22);
    UnionMiss(m3, AverageEntry(p, MovingAverage20, 20, 22), Change1d);
    var m5 := m4 + AverageEntry(p, MovingAverage50, 50, 50);
    UnionMiss(m4, AverageEntry(p, MovingAverage50, 50, 50), Change1d);
    UnionMiss(m5, AverageEntry(p, MovingAverage200, 200, 200), Change1d);
  }

  /** The 1-day fallback: a value other than None already written stays;
      otherwise two or more prices give the change against the previous
      price, and fewer leave the field as it was. */
  lemma FallbackGate(written: IndicatorRow, history: Option<seq<real>>, latest: Float, power: (real, real) -> real)
    requires !ZeroHigh(history)
    ensures var r, p := AfterOpening(written, history, latest, power), Prices(history);
            && (Change1d in written && written[Change1d] != Null ==> Change1d in r && r[Change1d] == written[Change1d])
            && ((Change1d !in written || written[Change1d] == Null) && |p| >= 2 ==>
                  Change1d in r && r[Change1d] == PctChange(p[|p| - 1], p[|p| - 2]))
            && (|p| < 2 ==> (Change1d in r <==> Change1d in written))
            && (|p| < 2 && Change1d in written ==> r[Change1d] == written[Change1d])
  {
    if history.Some? {
      FallbackWrite(written, history.value);
      WindowLift(written, history, latest, power, Change1d);
    }
  }

  lemma WeeklyWrite(written: IndicatorRow, p: seq<real>)
    requires Change1w !in written
    ensures var m := WithWindows(written, p);
            && (Change1w in m <==> |p| >= 5)
            && (|p| >= 5 ==> m[Change1w] == PctChange(p[|p| - 1], p[|p| - 5]))
  {
    var m1 := written + FallbackEntry(written, p);
    UnionMiss(written, FallbackEntry(written, p), Change1w);
    var m2 := m1 + ChangeEntry(p, Change1w, 5);
    UnionSingle(m1, ChangeEntry(p, Change1w, 5), Change1w);
    var m3 := m2 + ChangeEntry(p, Change1m, 22);
    UnionMiss(m2, ChangeEntry(p, Change1m, 22), Change1w);
    var m4 := m3 + AverageEntry(p, MovingAverage20, 20, 22);
    UnionMiss(m3, AverageEntry(p, MovingAverage20, 20, 22), Change1w);
    var m5 := m4 + AverageEntry(p, MovingAverage50, 50, 50);
    UnionMiss(m4, AverageEntry(p, MovingAverage50, 50, 50), Change1w);
    UnionMiss(m5, AverageEntry(p, MovingAverage200, 200, 200), Change1w);
  }

  /** `price_change_1w_pct` is written exactly when there are at least 5
      prices, against the fifth price from the end. */
  lemma WeeklyGate(written: IndicatorRow, history: Option<seq<real>>, latest: Float, power: (real, real) -> real)
    requires !ZeroHigh(history)
    requires Change1w !in written
    ensures var r, p := AfterOpening(written, history, latest, power), Prices(history);
            && (Change1w in r <==> |p| >= 5)
            && (|p| >= 5 ==> r[Change1w] == PctChange(p[|p| - 1], p[|p| - 5]))
  {
    if history.Some? {
      WeeklyWrite(written, history.value);
      WindowLift(written, history, latest, power, Change1w);
    }
  }

  lemma MonthlyWrite(written: IndicatorRow, p: seq<real>)
    requires Change1m !in written
    ensures var m := WithWindows(written, p);
            && (Change1m in m <==> |p| >= 22)
            && (|p| >= 22 ==> m[Change1m] == PctChange(p[|p| - 1], p[|p| - 22]))
  {
    var m1 := written + FallbackEntry(written, p);
    UnionMiss(written, FallbackEntry(written, p), Change1m);
    var m2 := m1 + ChangeEntry(p, Change1w, 5);
    UnionMiss(m1, ChangeEntry(p, Change1w, 5), Change1m);
    var m3 := m2 + ChangeEntry(p, Change1m, 22);
    UnionSingle(m2, ChangeEntry(p, Change1m, 22), Change1m);
    var m4 := m3 + AverageEntry(p, MovingAverage20, 20, 22);
    UnionMiss(m3, AverageEntry(p, MovingAverage20, 20, 22), Change1m);
    var m5 := m4 + AverageEntry(p, MovingAverage50, 50, 50);
    UnionMiss(m4, AverageEntry(p, MovingAverage50, 50, 50), Change1m);
    UnionMiss(m5, AverageEntry(p, MovingAverage200, 200, 200), Change1m);
  }

  /** `price_change_1m_pct` is written exactly when there are at least 22
      prices, against the 22nd price from the end. */
  lemma MonthlyGate(written: IndicatorRow, history: Option<seq<real>>, latest: Float, power: (real, real) -> real)
    requires !ZeroHigh(history)
    requires Change1m !in written
    ensures var r, p := AfterOpening(written, history, latest, power), Prices(history);
            && (Change1m in r <==> |p| >= 22)
            && (|p| >= 22 ==> r[Change1m] == PctChange(p[|p| - 1], p[|p| - 22]))
  {
    if history.Some? {
      MonthlyWrite(written, history.value);
      WindowLift(written, history, latest, power, Change1m);
    }
  }

  lemma Average20Write(written: IndicatorRow, p: seq<real>)
    requires MovingAverage20 !in written
    ensures var m := WithWindows(written, p);
            && (MovingAverage20 in m <==> |p| >= 22)
            && (|p| >= 22 ==> m[MovingAverage20] == Num(Mean(Tail(p, 20))))
  {
    var m1 := written + FallbackEntry(written, p);
    UnionMiss(written, FallbackEntry(written, p), MovingAverage20);
    var m2 := m1 + ChangeEntry(p, Change1w, 5);
    UnionMiss(m1, ChangeEntry(p, Change1w, 5), MovingAverage20);
    var m3 := m2 + ChangeEntry(p, Change1m, 22);
    UnionMiss(m2, ChangeEntry(p, Change1m, 22), MovingAverage20);
    var m4 := m3 + AverageEntry(p, MovingAverage20, 20, 22);
    UnionSingle(m3, AverageEntry(p, MovingAverage20, 20, 22), MovingAverage20);
    var m5 := m4 + AverageEntry(p, MovingAverage50, 50, 50);
    UnionMiss(m4, AverageEntry(p, MovingAverage50, 50, 50), MovingAverage20);
    UnionMiss(m5, AverageEntry(p, MovingAverage200, 200, 200), MovingAverage20);
  }

  /** `moving_average_20d` is written exactly when there are at least 22
      prices, as the mean of the last 20. */
  lemma Average20Gate(written: IndicatorRow, history: Option<seq<real>>, latest: Float, power: (real, real) -> real)
    requires !ZeroHigh(history)
    requires MovingAverage20 !in written
    ensures var r, p := AfterOpening(written, history, latest, power), Prices(history);
            && (MovingAverage20 in r <==> |p| >= 22)
            && (|p| >= 22 ==> r[MovingAverage20] == Num(Mean(Tail(p, 20))))
  {
    if history.Some? {
      Average20Write(written, history.value);
      WindowLift(written, history, latest, power, MovingAverage20);
    }
  }

  lemma Average50Write(written: IndicatorRow, p: seq<real>)
    requires MovingAverage50 !in written
    ensures var m := WithWindows(written, p);
            && (MovingAverage50 in m <==> |p| >= 50)
            && (|p| >= 50 ==> m[MovingAverage50] == Num(Mean(Tail(p, 50))))
  {
    var m1 := written + FallbackEntry(written, p);
    UnionMiss(written, FallbackEntry(written, p), MovingAverage50);
    var m2 := m1 + ChangeEntry(p, Change1w, 5);
    UnionMiss(m1, ChangeEntry(p, Change1w, 5), MovingAverage50);
    var m3 := m2 + ChangeEntry(p, Change1m, 22);
    UnionMiss(m2, ChangeEntry(p, Change1m, 22), MovingAverage50);
    var m4 := m3 + AverageEntry(p, MovingAverage20, 20, 22);
    UnionMiss(m3, AverageEntry(p, MovingAverage20, 20, 22), MovingAverage50);
    var m5 := m4 + AverageEntry(p, MovingAverage50, 50, 50);
    UnionSingle(m4, AverageEntry(p, MovingAverage50, 50, 50), MovingAverage50);
    UnionMiss(m5, AverageEntry(p, MovingAverage200, 200, 200), MovingAverage50);
  }

  /** `moving_average_50d` is written exactly when there are at least 50
      prices, as the mean of the last 50. */
  lemma Average50Gate(written: IndicatorRow, history: Option<seq<real>>, latest: Float, power: (real, real) -> real)
    requires !ZeroHigh(history)
    requires MovingAverage50 !in written
    ensures var r, p := AfterOpening(written, history, latest, power), Prices(history);
            && (MovingAverage50 in r <==> |p| >= 50)
            && (|p| >= 50 ==> r[MovingAverage50] == Num(Mean(Tail(p, 50))))
  {
    if history.Some? {
      Average50Write(written, history.value);
      WindowLift(written, history, latest, power, MovingAverage50);
    }
  }

  lemma Average200Write(written: IndicatorRow, p: seq<real>)
    requires MovingAverage200 !in written
    ensures var m := WithWindows(written, p);
            && (MovingAverage200 in m <==> |p| >= 200)
            && (|p| >= 200 ==> m[MovingAverage200] == Num(Mean(Tail(p, 200))))
  {
    var m1 := written + FallbackEntry(written, p);
    UnionMiss(written, FallbackEntry(written, p), MovingAverage200);
    var m2 := m1 + ChangeEntry(p, Change1w, 5);
    UnionMiss(m1, ChangeEntry(p, Change1w, 5), MovingAverage200);
    var m3 := m2 + ChangeEntry(p, Change1m, 22);
    UnionMiss(m2, ChangeEntry(p, Change1m, 22), MovingAverage200);
    var m4 := m3 + AverageEntry(p, MovingAverage20, 20, 22);
    UnionMiss(m3, AverageEntry(p, MovingAverage20, 20, 22), MovingAverage200);
    var m5 := m4 + AverageEntry(p, MovingAverage50, 50, 50);
    UnionMiss(m4, AverageEntry(p, MovingAverage50, 50, 50), MovingAverage200);
    UnionSingle(m5, AverageEntry(p, MovingAverage200, 200, 200), MovingAverage200);
  }

  /** `moving_average_200d` is written exactly when there are at least 200
      prices, as the mean of the last 200. */
  lemma Average200Gate(written: IndicatorRow, history: Option<seq<real>>, latest: Float, power: (real, real) -> real)
    requires !ZeroHigh(history)
    requires MovingAverage200 !in written
    ensures var r, p := AfterOpening(written, history, latest, power), Prices(history);
            && (MovingAverage200 in r <==> |p| >= 200)
            && (|p| >= 200 ==> r[MovingAverage200] == Num(Mean(Tail(p, 200))))
  {
    if history.Some? {
      Average200Write(written, history.value);
      WindowLift(written, history, latest, power, MovingAverage200);
    }
  }

  lemma ExtremesWrite(w: IndicatorRow, p: seq<real>, latest: Float, power: (real, real) -> real)
    requires |p| == 0 || MaxOf(p) != 0.0
    ensures var m := WithExtremes(w, p, latest, power);
            && AllTimeHigh in m && m[AllTimeHigh] == High(p)
            && AllTimeLow in m && m[AllTimeLow] == Low(p)
            && DistanceFromAth in m && m[DistanceFromAth] == Distance(latest, p)
  {
    var m1 := w + map[AllTimeHigh := High(p)];
    UnionSingle(w, map[AllTimeHigh := High(p)], AllTimeHigh);
    UnionMiss(w, map[AllTimeHigh := High(p)], AllTimeLow);
    UnionMiss(w, map[AllTimeHigh := High(p)], DistanceFromAth);
    var m2 := m1 + map[AllTimeLow := Low(p)];
    UnionMiss(m1, map[AllTimeLow := Low(p)], AllTimeHigh);
    UnionSingle(m1, map[AllTimeLow := Low(p)], AllTimeLow);
    UnionMiss(m1, map[AllTimeLow := Low(p)], DistanceFromAth);
    var m3 := m2 + map[DistanceFromAth := Distance(latest, p)];
    UnionMiss(m2, map[DistanceFromAth := Distance(latest, p)], AllTimeHigh);
    UnionMiss(m2, map[DistanceFromAth := Distance(latest, p)], AllTimeLow);
    UnionSingle(m2, map[DistanceFromAth := Distance(latest, p)], DistanceFromAth);
    var m4 := m3 + RsiEntry(p);
    UnionMiss(m3, RsiEntry(p), AllTimeHigh);
    UnionMiss(m3, RsiEntry(p), AllTimeLow);
    UnionMiss(m3, RsiEntry(p), DistanceFromAth);
    UnionMiss(m4, CagrEntry(p, power), AllTimeHigh);
    UnionMiss(m4, CagrEntry(p, power), AllTimeLow);
    UnionMiss(m4, CagrEntry(p, power), DistanceFromAth);
  }

  /** With history, the high and the low are always written; without
      history they stay absent. */
  lemma ExtremesGate(written: IndicatorRow, history: Option<seq<real>>, latest: Float, power: (real, real) -> real)
    requires !ZeroHigh(history)
    requires AllTimeHigh !in written && AllTimeLow !in written
    ensures var r, p := AfterOpening(written, history, latest, power), Prices(history);
            && (AllTimeHigh in r <==> history.Some?) && (AllTimeLow in r <==> history.Some?)
            && (history.Some? ==> r[AllTimeHigh] == High(p) && r[AllTimeLow] == Low(p))
  {
    if history.Some? {
      ExtremesWrite(WithWindows(written, history.value), history.value, latest, power);
    }
  }

  /** With history, the distance from the high is always written; without
      history it stays absent. */
  lemma DistanceGate(written: IndicatorRow, history: Option<seq<real>>, latest: Float, power: (real, real) -> real)
    requires !ZeroHigh(history)
    requires DistanceFromAth !in written
    ensures var r, p := AfterOpening(written, history, latest, power), Prices(history);
            && (DistanceFromAth in r <==> history.Some?)
            && (history.Some? ==> r[DistanceFromAth] == Distance(latest, p))
  {
    if history.Some? {
      ExtremesWrite(WithWindows(written, history.value), history.value, latest, power);
    }
  }

  lemma RsiWrite(w: IndicatorRow, p: seq<real>, latest: Float, power: (real, real) -> real)
    requires |p| == 0 || MaxOf(p) != 0.0
    requires Rsi14 !in w
    ensures var m := WithExtremes(w, p, latest, power);
            && (Rsi14 in m <==> |Returns(p)| >= 14)
            && (|Returns(p)| >= 14 ==> m[Rsi14] == Num(Rsi(Returns(p))))
  {
    var m1 := w + map[AllTimeHigh := High(p)];
    UnionMiss(w, map[AllTimeHigh := High(p)], Rsi14);
    var m2 := m1 + map[AllTimeLow := Low(p)];
    UnionMiss(m1, map[AllTimeLow := Low(p)], Rsi14);
    var m3 := m2 + map[DistanceFromAth := Distance(latest, p)];
    UnionMiss(m2, map[DistanceFromAth := Distance(latest, p)], Rsi14);
    var m4 := m3 + RsiEntry(p);
    UnionSingle(m3, RsiEntry(p), Rsi14);
    UnionMiss(m4, CagrEntry(p, power), Rsi14);
  }

  /** `rsi_14` is written exactly when there are at least 14 returns. */
  lemma RsiGate(written: IndicatorRow, history: Option<seq<real>>, latest: Float, power: (real, real) -> real)
    requires !ZeroHigh(history)
    requires Rsi14 !in written
    ensures var r, p := AfterOpening(written, history, latest, power), Prices(history);
            && (Rsi14 in r <==> |Returns(p)| >= 14)
            && (|Returns(p)| >= 14 ==> r[Rsi14] == Num(Rsi(Returns(p))))
  {
    if history.Some? {
      var p := history.value;
      WindowFrame(written, p, Rsi14);
      RsiWrite(WithWindows(written, p), p, latest, power);
    }
  }

  lemma CagrWrite(w: IndicatorRow, p: seq<real>, latest: Float, power: (real, real) -> real)
    requires |p| == 0 || MaxOf(p) != 0.0
    requires ReturnCagr !in w
    ensures var m := WithExtremes(w, p, latest, power);
            && (ReturnCagr in m <==> |p| >= 252 && p[0] > 0.0)
            && (|p| >= 252 && p[0] > 0.0 ==> m[ReturnCagr] == Num(Cagr(p, power)))
  {
    var m1 := w + map[AllTimeHigh := High(p)];
    UnionMiss(w, map[AllTimeHigh := High(p)], ReturnCagr);
    var m2 := m1 + map[AllTimeLow := Low(p)];
    UnionMiss(m1, map[AllTimeLow := Low(p)], ReturnCagr);
    var m3 := m2 + map[DistanceFromAth := Distance(latest, p)];
    UnionMiss(m2, map[DistanceFromAth := Distance(latest, p)], ReturnCagr);
    var m4 := m3 + RsiEntry(p);
    UnionMiss(m3, RsiEntry(p), ReturnCagr);
    UnionSingle(m4, CagrEntry(p, power), ReturnCagr);
  }

  /** `return_cagr` is written exactly over at least 252 prices with a
      positive start. */
  lemma CagrGate(written: IndicatorRow, history: Option<seq<real>>, latest: Float, power: (real, real) -> real)
    requires !ZeroHigh(history)
    requires ReturnCagr !in written
    ensures var r, p := AfterOpening(written, history, latest, power), Prices(history);
            && (ReturnCagr in r <==> |p| >= 252 && p[0] > 0.0)
            && (|p| >= 252 && p[0] > 0.0 ==> r[ReturnCagr] == Num(Cagr(p, power)))
  {
    if history.Some? {
      var p := history.value;
      WindowFrame(written, p, ReturnCagr);
      CagrWrite(WithWindows(written, p), p, latest, power);
    }
  }

  // ---------------------------------------------------------------------
  // Properties of `calculate_for_row`

  /** A successful row passed both checks, and its metrics are `Computed`
      from its history, its latest price and its parsed change. */
  lemma SuccessValue(row: Row, frame: Frame, power: (real, real) -> real)
    requires Indicators(row, frame, power).Success?
    ensures var t := TickerOf(row);
            var column := PriceColumn(frame, t);
            && t != ""
            && LatestPrice(row, column).Some?
            && !ZeroHigh(HistoryOf(column))
            && Indicators(row, frame, power).value
               == Computed(row, t, HistoryOf(column), LatestPrice(row, column).value,
                           ToFloat(Get(row, "stock_change")), power, SourceKeys)
  {
  }

  /** The nested metrics never overwrite a core field. */
  lemma NestedKeeps(core: IndicatorRow, row: Row, keys: MetricKeys, k: Field)
    requires !NestedField(k)
    ensures k in core + Nested(row, keys) <==> k in core
    ensures k in core ==> (core + Nested(row, keys))[k] == core[k]
  {
    NestedKeys(row, keys);
    UnionMiss(core, Nested(row, keys), k);
  }
  // The metrics before the nested block, for a row's ticker, history,
  // latest price and parsed change: `Core` is the history block applied to
  // `Opening`, whose keys `Opening`'s contract lists.

  /** `ticker_symbol`, `company_name`, `stock_price` and `stock_change` are
      always present: the ticker, the first truthy of company_name and
      stock_name (else the ticker), the latest price, and the parsed change
      or None. */
  lemma OpeningFieldsFinal(row: Row, t: string, history: Option<seq<real>>, latest: Float, change: Option<Float>,
                           power: (real, real) -> real)
    requires !ZeroHigh(history)
    ensures var r := Core(row, t, history, latest, change, power);
            && TickerSymbol in r && r[TickerSymbol] == Str(t)
            && CompanyName in r && r[CompanyName] == CompanyNameOf(row, t)
            && StockPrice in r && r[StockPrice] == FloatValue(latest)
            && StockChange in r && r[StockChange] == OptFloat(change)
  {
    var o := Opening(row, t, latest, change);
    forall k | OpeningField(k)
      ensures var r := AfterOpening(o, history, latest, power); k in r && r[k] == o[k]
    {
      HistoryKeeps(o, history, latest, power, k);
    }
  }

  /** `price_change_1d_pct`: a value other than None from the absolute
      change stays; otherwise two or more prices give the change against
      the previous price; with fewer, the field is None when the change key
      was written and absent when it was not. */
  lemma DailyChangeFinal(row: Row, t: string, history: Option<seq<real>>, latest: Float, change: Option<Float>,
                         power: (real, real) -> real)
    requires !ZeroHigh(history)
    ensures var r, p, d := Core(row, t, history, latest, change, power), Prices(history), DailyFromChange(latest, change);
            && (d.Some? && d.value != Null ==> Change1d in r && r[Change1d] == d.value)
            && ((d.None? || d == Some(Null)) && |p| >= 2 ==>
                  Change1d in r && r[Change1d] == PctChange(p[|p| - 1], p[|p| - 2]))
            && (d.None? && |p| < 2 ==> Change1d !in r)
            && (d == Some(Null) && |p| < 2 ==> Change1d in r && r[Change1d] == Null)
  {
    FallbackGate(Opening(row, t, latest, change), history, latest, power);
  }

  /** `price_change_1w_pct` is present exactly when there are at least 5
      numeric prices, as the change against the fifth from the end. */
  lemma WeeklyChangeFinal(row: Row, t: string, history: Option<seq<real>>, latest: Float, change: Option<Float>,
                          power: (real, real) -> real)
    requires !ZeroHigh(history)
    ensures var r, p := Core(row, t, history, latest, change, power), Prices(history);
            && (Change1w in r <==> |p| >= 5)
            && (|p| >= 5 ==> r[Change1w] == PctChange(p[|p| - 1], p[|p| - 5]))
  {
    WeeklyGate(Opening(row, t, latest, change), history, latest, power);
  }

  /** `price_change_1m_pct` is present exactly when there are at least 22
      numeric prices, as the change against the 22nd from the end. */
  lemma MonthlyChangeFinal(row: Row, t: string, history: Option<seq<real>>, latest: Float, change: Option<Float>,
                           power: (real, real) -> real)
    requires !ZeroHigh(history)
    ensures var r, p := Core(row, t, history, latest, change, power), Prices(history);
            && (Change1m in r <==> |p| >= 22)
            && (|p| >= 22 ==> r[Change1m] == PctChange(p[|p| - 1], p[|p| - 22]))
  {
    MonthlyGate(Opening(row, t, latest, change), history, latest, power);
  }

  /** `moving_average_20d` is present exactly when there are at least 22
      numeric prices, as the mean of the last 20. */
  lemma Average20Final(row: Row, t: string, history: Option<seq<real>>, latest: Float, change: Option<Float>,
                       power: (real, real) -> real)
    requires !ZeroHigh(history)
    ensures var r, p := Core(row, t, history, latest, change, power), Prices(history);
            && (MovingAverage20 in r <==> |p| >= 22)
            && (|p| >= 22 ==> r[MovingAverage20] == Num(Mean(Tail(p, 20))))
  {
    Average20Gate(Opening(row, t, latest, change), history, latest, power);
  }

  /** `moving_average_50d` is present exactly when there are at least 50
      numeric prices, as the mean of the last 50. */
  lemma Average50Final(row: Row, t: string, history: Option<seq<real>>, latest: Float, change: Option<Float>,
                       power: (real, real) -> real)
    requires !ZeroHigh(history)
    ensures var r, p := Core(row, t, history, latest, change, power), Prices(history);
            && (MovingAverage50 in r <==> |p| >= 50)
            && (|p| >= 50 ==> r[MovingAverage50] == Num(Mean(Tail(p, 50))))
  {
    Average50Gate(Opening(row, t, latest, change), history, latest, power);
  }

  /** `moving_average_200d` is present exactly when there are at least 200
      numeric prices, as the mean of the last 200. */
  lemma Average200Final(row: Row, t: string, history: Option<seq<real>>, latest: Float, change: Option<Float>,
                       power: (real, real) -> real)
    requires !ZeroHigh(history)
    ensures var r, p := Core(row, t, history, latest, change, power), Prices(history);
            && (MovingAverage200 in r <==> |p| >= 200)
            && (|p| >= 200 ==> r[MovingAverage200] == Num(Mean(Tail(p, 200))))
  {
    Average200Gate(Opening(row, t, latest, change), history, latest, power);
  }

  /** With history, `all_time_high` and `all_time_low` are the largest and
      smallest numeric price (nan when none is numeric); without history
      neither is present. */
  lemma ExtremesFinal(row: Row, t: string, history: Option<seq<real>>, latest: Float, change: Option<Float>,
                      power: (real, real) -> real)
    requires !ZeroHigh(history)
    ensures var r, p := Core(row, t, history, latest, change, power), Prices(history);
            && (AllTimeHigh in r <==> history.Some?) && (AllTimeLow in r <==> history.Some?)
            && (history.Some? ==> r[AllTimeHigh] == High(p) && r[AllTimeLow] == Low(p))
  {
    ExtremesGate(Opening(row, t, latest, change), history, latest, power);
  }

  /** With history, `distance_from_ath_pct` is `(latest / high - 1) * 100`
      for a finite latest price, and nan when no price is numeric; without
      history it is not present. */
  lemma DistanceFinal(row: Row, t: string, history: Option<seq<real>>, latest: Float, change: Option<Float>,
                      power: (real, real) -> real)
    requires !ZeroHigh(history)
    ensures var r, p := Core(row, t, history, latest, change, power), Prices(history);
            && (DistanceFromAth in r <==> history.Some?)
            && (history.Some? ==> r[DistanceFromAth] == Distance(latest, p))
  {
    DistanceGate(Opening(row, t, latest, change), history, latest, power);
  }

  /** `rsi_14` is present exactly when there are at least 14 returns. */
  lemma RsiFinal(row: Row, t: string, history: Option<seq<real>>, latest: Float, change: Option<Float>,
                 power: (real, real) -> real)
    requires !ZeroHigh(history)
    ensures var r, p := Core(row, t, history, latest, change, power), Prices(history);
            && (Rsi14 in r <==> |Returns(p)| >= 14)
            && (|Returns(p)| >= 14 ==> r[Rsi14] == Num(Rsi(Returns(p))))
  {
    RsiGate(Opening(row, t, latest, change), history, latest, power);
  }

  /** `return_cagr` is present exactly over at least 252 numeric prices with
      a positive start. */
  lemma CagrFinal(row: Row, t: string, history: Option<seq<real>>, latest: Float, change: Option<Float>,
                  power: (real, real) -> real)
    requires !ZeroHigh(history)
    ensures var r, p := Core(row, t, history, latest, change, power), Prices(history);
            && (ReturnCagr in r <==> |p| >= 252 && p[0] > 0.0)
            && (|p| >= 252 && p[0] > 0.0 ==> r[ReturnCagr] == Num(Cagr(p, power)))
  {
    CagrGate(Opening(row, t, latest, change), history, latest, power);
  }
}
