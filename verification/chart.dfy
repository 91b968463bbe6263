/**
 * The dashboard's `chartData` memo: one row per candle, each indicator output
 * right-aligned against the candle axis, price-level fields scaled by the
 * USD-to-EUR rate.
 */
module Chart {

  import opened Options
  import opened Indicators

  /** One element of the MACD output; either value may be missing during warm-up. */
  datatype MacdPoint = MacdPoint(macd: Option<real>, signal: Option<real>)

  /** The outputs of the four indicator computations, each of its own length. */
  datatype IndicatorOutputs = IndicatorOutputs(
    sma20: seq<real>,
    ema50: seq<real>,
    rsi14: seq<real>,
    macd: seq<MacdPoint>)

  /** The indicator library, which is not part of this model: SMA, EMA and RSI take the
      series and a period, MACD takes the series and its fast, slow and signal periods. */
  datatype Engine = Engine(
    sma: (seq<real>, nat) -> seq<real>,
    ema: (seq<real>, nat) -> seq<real>,
    rsi: (seq<real>, nat) -> seq<real>,
    macd: (seq<real>, nat, nat, nat) -> seq<MacdPoint>)

  datatype ChartRow = ChartRow(
    date: string,
    close: Option<real>,
    sma20: Option<real>,
    ema50: Option<real>,
    rsi14: Option<real>,
    macd: Option<real>,
    signal: Option<real>)

  datatype Field = Close | Sma20 | Ema50 | Rsi14 | Macd | Signal

  function Get(row: ChartRow, f: Field): Option<real> {
    match f
    case Close => row.close
    case Sma20 => row.sma20
    case Ema50 => row.ema50
    case Rsi14 => row.rsi14
    case Macd => row.macd
    case Signal => row.signal
  }

  /** The column of one field, top row first. */
  function Column(rows: seq<ChartRow>, f: Field): (col: seq<Option<real>>)
    ensures |col| == |rows|
  {
    seq(|rows|, i requires 0 <= i < |rows| => Get(rows[i], f))
  }

  /** `fx?.quote?.regularMarketPrice ?? 1` */
  function FxRate(quote: Option<real>): real {
    if quote.Some? then quote.value else 1.0
  }

  function Scaled(v: Option<real>, rate: real): Option<real> {
    if v.Some? then Some(v.value * rate) else None
  }

  function Scale(s: seq<real>, rate: real): (r: seq<real>)
    ensures |r| == |s|
  {
    seq(|s|, i requires 0 <= i < |s| => s[i] * rate)
  }

  /** Row `idx` of `n` reads `series[idx - (n - |series|)]` once `idx >= n - |series|`. */
  function Aligned<T>(series: seq<T>, n: nat, idx: nat): Option<T>
    requires idx < n
  {
    if idx >= n - |series| then Some(series[idx - (n - |series|)]) else None
  }

  function AlignedColumn<T>(series: seq<T>, n: nat): (col: seq<Option<T>>)
    ensures |col| == n
  {
    seq(n, idx requires 0 <= idx < n => Aligned(series, n, idx))
  }

  /** `c.date ? new Date(c.date).toLocaleDateString() : ""` */
  function DateLabel(date: Option<string>, localeDate: string -> string): string {
    if date.Some? && date.value != "" then localeDate(date.value) else ""
  }

  function Row(candles: seq<Candle>, ind: IndicatorOutputs, rate: real,
               localeDate: string -> string, idx: nat): ChartRow
    requires idx < |candles|
  {
    var n := |candles|;
    var m := Aligned(ind.macd, n, idx);
    ChartRow(
      date := DateLabel(candles[idx].date, localeDate),
      close := Scaled(candles[idx].close, rate),
      sma20 := Scaled(Aligned(ind.sma20, n, idx), rate),
      ema50 := Scaled(Aligned(ind.ema50, n, idx), rate),
      rsi14 := Aligned(ind.rsi14, n, idx),
      macd := if m.Some? then m.value.macd else None,
      signal := if m.Some? then m.value.signal else None)
  }

  /** The merge: one row per candle, in candle order. */
  function ChartData(candles: seq<Candle>, ind: IndicatorOutputs, fxQuote: Option<real>,
                     localeDate: string -> string): (rows: seq<ChartRow>)
    ensures |rows| == |candles|
    ensures forall i :: 0 <= i < |rows| ==> rows[i].date == DateLabel(candles[i].date, localeDate)
  {
    var rate := FxRate(fxQuote);
    seq(|candles|, idx requires 0 <= idx < |candles| => Row(candles, ind, rate, localeDate, idx))
  }

  /** The indicator computations over the close series, with the periods the page uses. */
  function Compute(engine: Engine, closes: seq<real>): IndicatorOutputs {
    IndicatorOutputs(engine.sma(closes, 20), engine.ema(closes, 50), engine.rsi(closes, 14),
                     engine.macd(closes, 12, 26, 9))
  }

  /** The whole memo: no history means no candles; indicators are computed over the
      extracted closes but aligned against the candles. */
  function ChartMemo(history: Option<seq<Candle>>, fxQuote: Option<real>, engine: Engine,
                     localeDate: string -> string): (rows: seq<ChartRow>)
    ensures history.None? ==> rows == []
    ensures history.Some? ==> |rows| == |history.value|
  {
    var candles := if history.Some? then history.value else [];
    ChartData(candles, Compute(engine, ExtractCloses(candles)), fxQuote, localeDate)
  }

  // ---------------------------------------------------------------------------
  // Alignment

  /** Row `idx` has a value exactly when it lies in the last `|series|` rows, and the
      element read is then in range. */
  lemma AlignedWindow<T>(series: seq<T>, n: nat, idx: nat)
    requires idx < n
    ensures Aligned(series, n, idx).Some? <==> idx >= n - |series|
    ensures Aligned(series, n, idx).Some? ==>
              0 <= idx - (n - |series|) < |series|
              && Aligned(series, n, idx).value == series[idx - (n - |series|)]
  {
  }

  /** Dropping the newest element of the series and the newest row of the axis leaves
      the older rows as they were; the newest row holds the newest element. */
  lemma AlignedColumnSnoc<T>(series: seq<T>, n: nat)
    requires 1 <= |series| && 1 <= n
    ensures AlignedColumn(series, n)
              == AlignedColumn(series[..|series| - 1], n - 1) + [Some(series[|series| - 1])]
  {
    var front := series[..|series| - 1];
    var col := AlignedColumn(series, n);
    var older := AlignedColumn(front, n - 1);
    forall idx | 0 <= idx < n - 1
      ensures col[idx] == older[idx]
    {
      assert col[idx] == Aligned(series, n, idx);
      assert older[idx] == Aligned(front, n - 1, idx);
    }
    assert col == older + [col[n - 1]];
  }

  /** An empty series leaves every row empty. */
  lemma AlignedColumnOfEmpty<T>(series: seq<T>, n: nat)
    requires series == []
    ensures DropNulls(AlignedColumn(series, n)) == []
  {
    var col := AlignedColumn(series, n);
    forall i | 0 <= i < |col|
      ensures col[i].None?
    {
      assert col[i] == Aligned(series, n, i);
    }
    DropNullsNonePresent(col);
  }

  /** Dropping the gaps of a column after adding the newest element to the series and
      a row to the axis adds that element to the end. */
  lemma AlignedColumnValuesSnoc<T>(series: seq<T>, n: nat)
    requires 1 <= |series| && 1 <= n
    ensures DropNulls(AlignedColumn(series, n))
              == DropNulls(AlignedColumn(series[..|series| - 1], n - 1)) + [series[|series| - 1]]
  {
    var older := AlignedColumn(series[..|series| - 1], n - 1);
    AlignedColumnSnoc(series, n);
    DropNullsSnoc(older, series[|series| - 1]);
  }

  /** Reading the column top to bottom and dropping the gaps gives back the series, or
      its last `n` elements when it is longer than the axis: no element is lost,
      repeated or reordered. */
  lemma {:induction false} AlignedColumnValues<T>(series: seq<T>, n: nat)
    ensures DropNulls(AlignedColumn(series, n)) ==
              if |series| <= n then series else series[|series| - n..]
  {
    if n == 0 {
      assert AlignedColumn(series, n) == [];
    } else if |series| == 0 {
      AlignedColumnOfEmpty(series, n);
    } else {
      var L := |series|;
      var front := series[..L - 1];
      AlignedColumnValues(front, n - 1);
      AlignedColumnValuesSnoc(series, n);
      if L <= n {
        assert front + [series[L - 1]] == series;
      } else {
        assert front[L - n..] + [series[L - 1]] == series[L - n..];
      }
    }
  }

  lemma AlignedScale(series: seq<real>, rate: real, n: nat, idx: nat)
    requires idx < n
    ensures Aligned(Scale(series, rate), n, idx) == Scaled(Aligned(series, n, idx), rate)
  {
    if idx >= n - |series| {
      var j := idx - (n - |series|);
      assert Scale(series, rate)[j] == series[j] * rate;
      var l := Aligned(Scale(series, rate), n, idx);
      var r := Scaled(Aligned(series, n, idx), rate);
      assert l.Some? && r.Some? && l.value == r.value;
    }
  }

  /** Each chart row reads its indicator values through the right-aligned window of
      that indicator; `macd` and `signal` come from one and the same MACD element. */
  lemma RowWindows(candles: seq<Candle>, ind: IndicatorOutputs, fxQuote: Option<real>,
                   localeDate: string -> string, idx: nat)
    requires idx < |candles|
    ensures var row := ChartData(candles, ind, fxQuote, localeDate)[idx];
            var n := |candles|;
            var rate := FxRate(fxQuote);
            && (row.sma20.Some? <==> idx >= n - |ind.sma20|)
            && (row.ema50.Some? <==> idx >= n - |ind.ema50|)
            && (row.rsi14.Some? <==> idx >= n - |ind.rsi14|)
            && (idx >= n - |ind.sma20| ==> row.sma20.value == ind.sma20[idx - (n - |ind.sma20|)] * rate)
            && (idx >= n - |ind.ema50| ==> row.ema50.value == ind.ema50[idx - (n - |ind.ema50|)] * rate)
            && (idx >= n - |ind.rsi14| ==> row.rsi14 == Some(ind.rsi14[idx - (n - |ind.rsi14|)]))
            && (idx < n - |ind.macd| ==> row.macd.None? && row.signal.None?)
            && (idx >= n - |ind.macd| ==>
                  var p := ind.macd[idx - (n - |ind.macd|)];
                  row.macd == p.macd && row.signal == p.signal)
  {
    var n := |candles|;
    var rate := FxRate(fxQuote);
    var row := ChartData(candles, ind, fxQuote, localeDate)[idx];
    assert row == Row(candles, ind, rate, localeDate, idx);
  }

  /** `macd` and `signal` share one coverage window: neither has a value outside it. */
  lemma MacdSignalShareWindow(candles: seq<Candle>, ind: IndicatorOutputs,
                              fxQuote: Option<real>, localeDate: string -> string, idx: nat)
    requires idx < |candles|
    ensures var row := ChartData(candles, ind, fxQuote, localeDate)[idx];
            (row.macd.Some? || row.signal.Some?) ==> idx >= |candles| - |ind.macd|
  {
    RowWindows(candles, ind, fxQuote, localeDate, idx);
  }

  /** The most recent row carries the last element of every non-empty indicator. */
  lemma LatestRow(candles: seq<Candle>, ind: IndicatorOutputs, fxQuote: Option<real>,
                  localeDate: string -> string)
    requires |candles| >= 1
    ensures var row := ChartData(candles, ind, fxQuote, localeDate)[|candles| - 1];
            var rate := FxRate(fxQuote);
            && (|ind.sma20| >= 1 ==> row.sma20.Some? && row.sma20.value == ind.sma20[|ind.sma20| - 1] * rate)
            && (|ind.ema50| >= 1 ==> row.ema50.Some? && row.ema50.value == ind.ema50[|ind.ema50| - 1] * rate)
            && (|ind.rsi14| >= 1 ==> row.rsi14 == Some(ind.rsi14[|ind.rsi14| - 1]))
            && (|ind.macd| >= 1 ==>
                  row.macd == ind.macd[|ind.macd| - 1].macd && row.signal == ind.macd[|ind.macd| - 1].signal)
  {
    RowWindows(candles, ind, fxQuote, localeDate, |candles| - 1);
  }

  /** The oldest row has an indicator value only when that indicator covers every row. */
  lemma OldestRow(candles: seq<Candle>, ind: IndicatorOutputs, fxQuote: Option<real>,
                  localeDate: string -> string)
    requires |candles| >= 1
    ensures var row := ChartData(candles, ind, fxQuote, localeDate)[0];
            && (row.sma20.Some? <==> |ind.sma20| >= |candles|)
            && (row.ema50.Some? <==> |ind.ema50| >= |candles|)
            && (row.rsi14.Some? <==> |ind.rsi14| >= |candles|)
            && (|ind.macd| < |candles| ==> row.macd.None? && row.signal.None?)
  {
    RowWindows(candles, ind, fxQuote, localeDate, 0);
  }

  /** Read down a column, the chart shows every element of an indicator that fits the
      axis exactly once and in order: scaled for SMA and EMA, as computed for RSI. */
  lemma IndicatorColumns(candles: seq<Candle>, ind: IndicatorOutputs, fxQuote: Option<real>,
                         localeDate: string -> string)
    ensures var rows := ChartData(candles, ind, fxQuote, localeDate);
            var rate := FxRate(fxQuote);
            && (|ind.sma20| <= |candles| ==> DropNulls(Column(rows, Sma20)) == Scale(ind.sma20, rate))
            && (|ind.ema50| <= |candles| ==> DropNulls(Column(rows, Ema50)) == Scale(ind.ema50, rate))
            && (|ind.rsi14| <= |candles| ==> DropNulls(Column(rows, Rsi14)) == ind.rsi14)
  {
    var rows := ChartData(candles, ind, fxQuote, localeDate);
    var rate := FxRate(fxQuote);
    var n := |candles|;
    forall idx | 0 <= idx < n
      ensures Aligned(Scale(ind.sma20, rate), n, idx) == Scaled(Aligned(ind.sma20, n, idx), rate)
      ensures Aligned(Scale(ind.ema50, rate), n, idx) == Scaled(Aligned(ind.ema50, n, idx), rate)
    {
      AlignedScale(ind.sma20, rate, n, idx);
      AlignedScale(ind.ema50, rate, n, idx);
    }
    assert Column(rows, Sma20) == AlignedColumn(Scale(ind.sma20, rate), n);
    assert Column(rows, Ema50) == AlignedColumn(Scale(ind.ema50, rate), n);
    assert Column(rows, Rsi14) == AlignedColumn(ind.rsi14, n);
    AlignedColumnValues(Scale(ind.sma20, rate), n);
    AlignedColumnValues(Scale(ind.ema50, rate), n);
    AlignedColumnValues(ind.rsi14, n);
  }

  // ---------------------------------------------------------------------------
  // Currency conversion

  /** The FX quote scales exactly the price-level fields (close, SMA, EMA); the date,
      RSI, MACD and signal are the same with or without it. */
  lemma FxScalesPriceFieldsOnly(candles: seq<Candle>, ind: IndicatorOutputs, rate: real,
                                localeDate: string -> string, idx: nat)
    requires idx < |candles|
    ensures var eur := ChartData(candles, ind, Some(rate), localeDate)[idx];
            var usd := ChartData(candles, ind, None, localeDate)[idx];
            && eur.close == Scaled(usd.close, rate)
            && eur.sma20 == Scaled(usd.sma20, rate)
            && eur.ema50 == Scaled(usd.ema50, rate)
            && eur.date == usd.date
            && eur.rsi14 == usd.rsi14
            && eur.macd == usd.macd
            && eur.signal == usd.signal
  {
    var usd := ChartData(candles, ind, None, localeDate)[idx];
    assert usd.close == Scaled(candles[idx].close, 1.0);
  }

  /** Without an FX quote the rate is 1: a candle's close is shown as it is. */
  lemma MissingFxKeepsPrices(candles: seq<Candle>, ind: IndicatorOutputs,
                             localeDate: string -> string, idx: nat)
    requires idx < |candles|
    ensures var row := ChartData(candles, ind, None, localeDate)[idx];
            && row.close == candles[idx].close
            && row.sma20 == Aligned(ind.sma20, |candles|, idx)
            && row.ema50 == Aligned(ind.ema50, |candles|, idx)
  {
  }

  // ---------------------------------------------------------------------------
  // The two axes

  /** An indicator library that never returns more values than it was given. */
  ghost predicate Shortening(engine: Engine) {
    && (forall xs, p :: |engine.sma(xs, p)| <= |xs|)
    && (forall xs, p :: |engine.ema(xs, p)| <= |xs|)
    && (forall xs, p :: |engine.rsi(xs, p)| <= |xs|)
    && (forall xs, f, s, g :: |engine.macd(xs, f, s, g)| <= |xs|)
  }

  /** Indicators computed over the extracted closes never outgrow the candle axis. */
  lemma IndicatorsFitCandleAxis(candles: seq<Candle>, engine: Engine)
    requires Shortening(engine)
    ensures var ind := Compute(engine, ExtractCloses(candles));
            && |ind.sma20| <= |candles| && |ind.ema50| <= |candles|
            && |ind.rsi14| <= |candles| && |ind.macd| <= |candles|
  {
  }

  /** With no null close the close series and the candles are one axis: the row that
      shows element `k` of an indicator is the candle whose close ends that element's
      right-aligned window over the closes. */
  lemma NoGapAxesCoincide(candles: seq<Candle>, engine: Engine, fxQuote: Option<real>,
                          localeDate: string -> string, k: nat)
    requires forall i :: 0 <= i < |candles| ==> candles[i].close.Some?
    requires k < |engine.sma(ExtractCloses(candles), 20)| <= |ExtractCloses(candles)|
    ensures var closes := ExtractCloses(candles);
            var sma := engine.sma(closes, 20);
            var row := k + |candles| - |sma|;
            && row < |candles|
            && ChartMemo(Some(candles), fxQuote, engine, localeDate)[row].sma20.Some?
            && ChartMemo(Some(candles), fxQuote, engine, localeDate)[row].sma20.value
                 == sma[k] * FxRate(fxQuote)
            && candles[row].close == Some(closes[k + |closes| - |sma|])
  {
    GapsShiftRows(candles, engine, fxQuote, localeDate, k);
    ExtractClosesAllPresent(candles);
  }

  /** Element `k` of an indicator of length `len` over the closes ends its window at
      close `j`, which belongs to candle `p`; the row that shows the element lies below
      `p` by the number of null closes after `p`, and is `p` exactly when no later
      candle lacks a close. */
  lemma WindowEndRow(candles: seq<Candle>, len: nat, k: nat)
    requires k < len <= |ExtractCloses(candles)|
    ensures var xs := ClosesOrNull(candles);
            var closes := ExtractCloses(candles);
            var j := k + |closes| - len;
            var p := PresentIndices(xs)[j];
            var row := k + |candles| - len;
            && candles[p].close == Some(closes[j])
            && row == p + NullCount(xs[p + 1..])
            && (row == p <==> forall i :: p < i < |candles| ==> candles[i].close.Some?)
  {
    ClosePosition(candles, k + |ExtractCloses(candles)| - len);
  }

  /** For the SMA column: element `k` is shown, FX-scaled, on the row `WindowEndRow`
      names, whatever null closes come before or after its window. */
  lemma GapsShiftRows(candles: seq<Candle>, engine: Engine, fxQuote: Option<real>,
                      localeDate: string -> string, k: nat)
    requires k < |engine.sma(ExtractCloses(candles), 20)| <= |ExtractCloses(candles)|
    ensures var sma := engine.sma(ExtractCloses(candles), 20);
            var row := k + |candles| - |sma|;
            && row < |candles|
            && ChartMemo(Some(candles), fxQuote, engine, localeDate)[row].sma20.Some?
            && ChartMemo(Some(candles), fxQuote, engine, localeDate)[row].sma20.value
                 == sma[k] * FxRate(fxQuote)
  {
    var closes := ExtractCloses(candles);
    var ind := Compute(engine, closes);
    var row := k + |candles| - |ind.sma20|;
    var rows := ChartData(candles, ind, fxQuote, localeDate);
    assert ChartMemo(Some(candles), fxQuote, engine, localeDate) == rows;
    RowWindows(candles, ind, fxQuote, localeDate, row);
  }
}
