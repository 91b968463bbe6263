/**
 * The text assembled by the dashboard's `exportToCSV`: a header line and one line
 * per chart row, cells joined by commas, lines by newlines. The Blob and the
 * download link built from it are not part of this model.
 */
module CsvExport {

  import opened Options
  import opened Text
  import opened Indicators
  import opened Chart

  const Headers: seq<string> :=
    ["Date", "Close (EUR)", "SMA 20 (EUR)", "EMA 50 (EUR)", "RSI 14", "MACD", "Signal"]

  /** `toFixed` is a parameter: `toFixed(x, d)` renders `x` with `d` decimals. */
  type Formatter = (real, nat) -> string

  /** `v?.toFixed(d) ?? ""` */
  function Cell(v: Option<real>, digits: nat, toFixed: Formatter): string {
    if v.Some? then toFixed(v.value, digits) else ""
  }

  /** The seven cells of a row, in header order: two decimals for close, SMA, EMA and
      RSI, four for MACD and signal. */
  function RowCells(row: ChartRow, toFixed: Formatter): (cells: seq<string>)
    ensures |cells| == |Headers|
  {
    [row.date,
     Cell(row.close, 2, toFixed),
     Cell(row.sma20, 2, toFixed),
     Cell(row.ema50, 2, toFixed),
     Cell(row.rsi14, 2, toFixed),
     Cell(row.macd, 4, toFixed),
     Cell(row.signal, 4, toFixed)]
  }

  /** Close, SMA, EMA and RSI are written with two decimals, MACD and signal with four;
      an absent value leaves its cell empty. */
  lemma CellDigits(row: ChartRow, toFixed: Formatter)
    ensures var cells := RowCells(row, toFixed);
            && cells[0] == row.date
            && (row.close.Some? ==> cells[1] == toFixed(row.close.value, 2))
            && (row.sma20.Some? ==> cells[2] == toFixed(row.sma20.value, 2))
            && (row.ema50.Some? ==> cells[3] == toFixed(row.ema50.value, 2))
            && (row.rsi14.Some? ==> cells[4] == toFixed(row.rsi14.value, 2))
            && (row.macd.Some? ==> cells[5] == toFixed(row.macd.value, 4))
            && (row.signal.Some? ==> cells[6] == toFixed(row.signal.value, 4))
            && (row.close.None? ==> cells[1] == "") && (row.sma20.None? ==> cells[2] == "")
            && (row.ema50.None? ==> cells[3] == "") && (row.rsi14.None? ==> cells[4] == "")
            && (row.macd.None? ==> cells[5] == "") && (row.signal.None? ==> cells[6] == "")
  {
  }

  function HeaderLine(): string {
    Join(Headers, ',')
  }

  function RowLine(row: ChartRow, toFixed: Formatter): string {
    Join(RowCells(row, toFixed), ',')
  }

  function Lines(rows: seq<ChartRow>, toFixed: Formatter): (lines: seq<string>)
    ensures |lines| == |rows| + 1
  {
    [HeaderLine()] + seq(|rows|, i requires 0 <= i < |rows| => RowLine(rows[i], toFixed))
  }

  /** `exportToCSV`: nothing for an empty chart, else the lines joined by newlines. */
  function ExportCsv(rows: seq<ChartRow>, toFixed: Formatter): (csv: Option<string>)
    ensures csv.None? <==> rows == []
  {
    if |rows| == 0 then None else Some(Join(Lines(rows, toFixed), '\n'))
  }

  /** No cell of any row contains `sep`. */
  predicate CellsAvoid(rows: seq<ChartRow>, toFixed: Formatter, sep: char) {
    forall i, k :: 0 <= i < |rows| && 0 <= k < |Headers| ==> sep !in RowCells(rows[i], toFixed)[k]
  }

  lemma HeadersAvoid(sep: char)
    requires sep == ',' || sep == '\n'
    ensures forall k :: 0 <= k < |Headers| ==> sep !in Headers[k]
  {
  }

  /** Cells free of newlines give lines free of newlines. */
  lemma {:induction false} JoinAvoids(parts: seq<string>, sep: char, c: char)
    requires c != sep
    requires forall k :: 0 <= k < |parts| ==> c !in parts[k]
    ensures c !in Join(parts, sep)
  {
    if |parts| > 1 {
      JoinAvoids(parts[1..], sep, c);
    }
  }

  /** Split at newlines, the export is exactly the header line followed by one line
      per row, in row order. */
  lemma ExportLines(rows: seq<ChartRow>, toFixed: Formatter)
    requires rows != []
    requires CellsAvoid(rows, toFixed, '\n')
    ensures var lines := Split(ExportCsv(rows, toFixed).value, '\n');
            && |lines| == |rows| + 1
            && lines[0] == HeaderLine()
            && (forall i :: 0 <= i < |rows| ==> lines[i + 1] == RowLine(rows[i], toFixed))
  {
    var lines := Lines(rows, toFixed);
    HeadersAvoid('\n');
    JoinAvoids(Headers, ',', '\n');
    forall j | 0 <= j < |lines|
      ensures '\n' !in lines[j]
    {
      if j > 0 {
        var row := rows[j - 1];
        assert forall k :: 0 <= k < |Headers| ==> '\n' !in RowCells(row, toFixed)[k];
        JoinAvoids(RowCells(row, toFixed), ',', '\n');
      }
    }
    SplitJoin(lines, '\n');
  }

  /** Split at commas, a row's line gives back its seven cells. */
  lemma RowLineCells(row: ChartRow, toFixed: Formatter)
    requires forall k :: 0 <= k < |Headers| ==> ',' !in RowCells(row, toFixed)[k]
    ensures Split(RowLine(row, toFixed), ',') == RowCells(row, toFixed)
  {
    SplitJoin(RowCells(row, toFixed), ',');
  }

  /** The header line splits into the seven column names. */
  lemma HeaderLineCells()
    ensures Split(HeaderLine(), ',') == Headers
  {
    HeadersAvoid(',');
    SplitJoin(Headers, ',');
  }

  /** Given a formatter that never returns the empty string, a number cell is empty
      exactly when the value is absent. */
  lemma EmptyCellIffAbsent(row: ChartRow, toFixed: Formatter)
    requires forall x: real, d: nat :: toFixed(x, d) != ""
    ensures var cells := RowCells(row, toFixed);
            && (cells[1] == "" <==> row.close.None?)
            && (cells[2] == "" <==> row.sma20.None?)
            && (cells[3] == "" <==> row.ema50.None?)
            && (cells[4] == "" <==> row.rsi14.None?)
            && (cells[5] == "" <==> row.macd.None?)
            && (cells[6] == "" <==> row.signal.None?)
  {
    CellNonEmpty(row.close, 2, toFixed);
    CellNonEmpty(row.sma20, 2, toFixed);
    CellNonEmpty(row.ema50, 2, toFixed);
    CellNonEmpty(row.rsi14, 2, toFixed);
    CellNonEmpty(row.macd, 4, toFixed);
    CellNonEmpty(row.signal, 4, toFixed);
  }

  lemma CellNonEmpty(v: Option<real>, digits: nat, toFixed: Formatter)
    requires forall x: real, d: nat :: toFixed(x, d) != ""
    ensures Cell(v, digits, toFixed) == "" <==> v.None?
  {
    if v.Some? {
      var x := v.value;
      assert toFixed(x, digits) != "";
    }
  }

  /** The export of a merged chart is its full round trip: line `i + 1` of the text,
      split at commas, gives the cells of row `i`, which is candle `i`. */
  lemma ExportRoundTrip(candles: seq<Candle>, ind: IndicatorOutputs, fxQuote: Option<real>,
                        localeDate: string -> string, toFixed: Formatter, i: nat)
    requires i < |candles|
    requires CellsAvoid(ChartData(candles, ind, fxQuote, localeDate), toFixed, '\n')
    requires CellsAvoid(ChartData(candles, ind, fxQuote, localeDate), toFixed, ',')
    ensures var rows := ChartData(candles, ind, fxQuote, localeDate);
            var lines := Split(ExportCsv(rows, toFixed).value, '\n');
            && |lines| == |candles| + 1
            && Split(lines[i + 1], ',') == RowCells(rows[i], toFixed)
  {
    var rows := ChartData(candles, ind, fxQuote, localeDate);
    ExportLines(rows, toFixed);
    assert forall k :: 0 <= k < |Headers| ==> ',' !in RowCells(rows[i], toFixed)[k];
    RowLineCells(rows[i], toFixed);
  }

  /** No history gives no rows, and no rows give no export. */
  lemma NoHistoryNoExport(fxQuote: Option<real>, engine: Engine,
                          localeDate: string -> string, toFixed: Formatter)
    ensures ExportCsv(ChartMemo(None, fxQuote, engine, localeDate), toFixed).None?
  {
  }
}
