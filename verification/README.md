# Project Buffet dashboard: a Dafny model of its data core

Project Buffet is a Next.js stock dashboard. A server route, `/api/history`, fetches
daily price candles for a ticker from a market-data provider. The client page then
does the following:

- extracts the close series from the candles;
- computes SMA 20, EMA 50, RSI 14 and MACD (12, 26, 9) over that series;
- merges the results into one chart row per candle, converting prices from USD to
  EUR with a live FX quote;
- exports the rows as CSV;
- keeps a user-extensible ticker list together with the current selection.

This project models that data path:

| file | models |
|---|---|
| `options.dfy` | the `Option` type used for every nullable value |
| `text.dfy` | `trim`, `toUpperCase`, `join`, and `split` as the inverse of `join` |
| `indicators.dfy` | the `Candle` record and `extractCloses` |
| `chart.dfy` | the `chartData` memo: right-aligned indicator windows and FX scaling |
| `csv_export.dfy` | the text `exportToCSV` builds |
| `tickers.dfy` | the ticker list and selection, as a class whose methods update both fields |
| `history.dfy` | the history route: query defaults, the missing-ticker check, `periodToMs`, the time window, candle normalisation and the error responses |

The indicator library, the market-data provider, the clock and three JavaScript
calls appear as function-typed parameters, because their code is not part of this
model:

- the indicator library is the `Engine` datatype;
- the market-data provider is `chart: ChartQuery -> ProviderResult`;
- the clock is `now: int`;
- `Number.prototype.toFixed` is `Formatter`;
- `toLocaleDateString` is `localeDate`;
- `toISOString` is `iso`.

The proofs therefore hold for every behaviour of those functions.

Two details of the code are worth noting:

- The RSI column is exported with two decimals (`page.tsx:60`), like the price
  columns. Only MACD and signal get four.
- `typeof c.close === "number"` in `extractCloses` also admits NaN and ±Infinity.
  Dafny's `real` has neither (see Left out).

## Model

| member | source | states |
|---|---|---|
| Text.TrimStart | project-buffet-web/src/app/page.tsx:92 | the result is a suffix of the input; every character dropped is whitespace, and the first character kept is not |
| Text.TrimEnd | project-buffet-web/src/app/page.tsx:92 | the result is a prefix of the input; every character dropped is whitespace, and the last character kept is not |
| Text.Trim | project-buffet-web/src/app/page.tsx:92 | `trim()` is no longer than its input, and neither of its ends is whitespace |
| Text.TrimIsSlice | project-buffet-web/src/app/page.tsx:92 | `trim()` is the slice between a whitespace-only prefix and a whitespace-only suffix |
| Text.TrimOfTrimmed | project-buffet-web/src/app/page.tsx:92 | a string with no whitespace at either end is its own trim |
| Text.TrimIdempotent | project-buffet-web/src/app/page.tsx:92 | trimming twice is trimming once |
| Text.UpperChar | project-buffet-web/src/app/page.tsx:92 | a lower-case ASCII letter becomes its capital (code point minus 32); every other character is kept |
| Text.ToUpper | project-buffet-web/src/app/api/history/route.ts:45 | `toUpperCase()` keeps the length; each lower-case ASCII letter becomes its capital, and every other character stays where it was |
| Text.ToUpperUnchangedIff | project-buffet-web/src/app/page.tsx:92 | upper-casing leaves a string unchanged iff it holds no lower-case letter |
| Text.ToUpperAppend | project-buffet-web/src/app/page.tsx:92 | upper-casing works character by character, so it distributes over concatenation |
| Text.ToUpperIdempotent | project-buffet-web/src/app/page.tsx:92 | upper-casing twice is upper-casing once |
| Text.Join | project-buffet-web/src/app/page.tsx:52-65 | joining a single part gives that part |
| Text.Split | project-buffet-web/src/app/page.tsx:52-65 | splitting always yields at least one part |
| Text.SplitNoSeparator | project-buffet-web/src/app/page.tsx:52-65 | a string without the separator splits into itself alone |
| Text.SplitAround | project-buffet-web/src/app/page.tsx:52-65 | splitting `a + sep + b` splits `a` and `b` independently |
| Text.SplitJoin | project-buffet-web/src/app/page.tsx:52-65 | if no part contains the separator, splitting the joined string gives back exactly the parts |
| Indicators.ClosesOrNull | project-buffet-web/src/lib/indicators.ts:34-35 | the map step gives one entry per candle |
| Indicators.DropNulls | project-buffet-web/src/lib/indicators.ts:36 | the filter never lengthens its input |
| Indicators.ExtractCloses | project-buffet-web/src/lib/indicators.ts:33-37 | the close series is no longer than the candle list |
| Indicators.PresentIndices | project-buffet-web/src/lib/indicators.ts:33-37 | every position the filter keeps lies inside the input, and there is one position per kept value |
| Indicators.DropNullsIsOrderedSubsequence | project-buffet-web/src/lib/indicators.ts:36 | the filter output is the present values, one for one, at strictly increasing positions, and no present value is skipped |
| Indicators.ExtractClosesIsOrderedSubsequence | project-buffet-web/src/lib/indicators.ts:33-37 | element `k` of the series is the close of the `k`-th candle that has one; candle order is kept, and every numeric close appears |
| Indicators.DropNullsAppend | project-buffet-web/src/lib/indicators.ts:36 | the filter distributes over concatenation |
| Indicators.ExtractClosesAppend | project-buffet-web/src/lib/indicators.ts:33-37 | extraction distributes over concatenation of candle lists |
| Indicators.NullCloseContributesNothing | project-buffet-web/src/lib/indicators.ts:35-36 | removing a candle whose close is null leaves the series unchanged, so no placeholder is substituted |
| Indicators.DropNullsAllPresent | project-buffet-web/src/lib/indicators.ts:36 | with no null, the filter is the identity on the values |
| Indicators.ExtractClosesAllPresent | project-buffet-web/src/lib/indicators.ts:33-37 | with no null close, the series has one entry per candle, in candle order |
| Indicators.DropNullsSnoc | project-buffet-web/src/lib/indicators.ts:36 | filtering after appending a present value appends that value |
| Indicators.NullCount | project-buffet-web/src/lib/indicators.ts:35-36 | the number of null entries is at most the length |
| Indicators.NullCountComplement | project-buffet-web/src/lib/indicators.ts:35-36 | every entry is either kept by the filter or counted as null |
| Indicators.NullCountZero | project-buffet-web/src/lib/indicators.ts:35-36 | there are no nulls iff every entry is present |
| Indicators.PresentPosition | project-buffet-web/src/lib/indicators.ts:36 | the `j`-th kept value sits at position `j` plus the nulls before it, which is all the nulls minus those after it |
| Indicators.ClosePosition | project-buffet-web/src/lib/indicators.ts:33-37 | close `j` of the series belongs to candle `p`; `p` plus the null closes after it is `j` plus the number of candles without a close |
| Indicators.DropNullsNonePresent | project-buffet-web/src/lib/indicators.ts:36 | with only nulls, the filter gives nothing |
| Indicators.ExtractClosesNonePresent | project-buffet-web/src/lib/indicators.ts:33-37 | with no close at all (including no candle), the series is empty |
| Chart.Column | project-buffet-web/src/app/page.tsx:37-45 | a column has one entry per row |
| Chart.Scale | project-buffet-web/src/app/page.tsx:40-41 | scaling keeps the length of a series |
| Chart.AlignedColumn | project-buffet-web/src/app/page.tsx:40-44 | an aligned column has one entry per candle |
| Chart.ChartData | project-buffet-web/src/app/page.tsx:37-45 | one row per candle, in candle order; the row's date label comes from its own candle |
| Chart.ChartMemo | project-buffet-web/src/app/page.tsx:28-46 | no history gives no rows; otherwise there is one row per candle |
| Chart.AlignedWindow | project-buffet-web/src/app/page.tsx:40-44 | a row has a value exactly when it lies in the last `length` rows; the index read is then in range |
| Chart.AlignedColumnSnoc | project-buffet-web/src/app/page.tsx:40-44 | the newest row holds the newest element, and the older rows are aligned as for the shorter series |
| Chart.AlignedColumnValues | project-buffet-web/src/app/page.tsx:40-44 | reading a column top to bottom gives back the whole series, or its last `n` values when it is longer than the axis; nothing is lost, repeated or reordered |
| Chart.AlignedScale | project-buffet-web/src/app/page.tsx:40-41 | aligning a scaled series is scaling an aligned value |
| Chart.RowWindows | project-buffet-web/src/app/page.tsx:40-44 | each indicator field of a row is present iff the row is inside that indicator's right-aligned window; it then holds the aligned element (times the FX rate for SMA and EMA); `macd` and `signal` come from the same MACD element |
| Chart.MacdSignalShareWindow | project-buffet-web/src/app/page.tsx:43-44 | neither `macd` nor `signal` has a value outside the MACD window |
| Chart.LatestRow | project-buffet-web/src/app/page.tsx:40-44 | the newest row carries the last element of every non-empty indicator |
| Chart.OldestRow | project-buffet-web/src/app/page.tsx:40-44 | the oldest row has an SMA, EMA or RSI value iff that indicator covers every row |
| Chart.IndicatorColumns | project-buffet-web/src/app/page.tsx:40-42 | when an indicator fits the axis, its column read down without gaps is the indicator itself: FX-scaled for SMA and EMA, as computed for RSI |
| Chart.FxScalesPriceFieldsOnly | project-buffet-web/src/app/page.tsx:35-44 | an FX quote multiplies close, SMA and EMA by the rate; date, RSI, MACD and signal do not depend on it |
| Chart.MissingFxKeepsPrices | project-buffet-web/src/app/page.tsx:35 | with no FX quote the rate is 1, so prices are shown unchanged |
| Chart.IndicatorsFitCandleAxis | project-buffet-web/src/app/page.tsx:29-34 | an indicator library that never lengthens its input gives outputs no longer than the candle list |
| Chart.NoGapAxesCoincide | project-buffet-web/src/app/page.tsx:29-40 | with no null close, SMA element `k` is on the row of the candle whose close ends that element's window |
| Chart.WindowEndRow | project-buffet-web/src/app/page.tsx:29-44 | element `k` of an indicator over the closes is shown on the row of the candle that ends its window, moved down by the number of null closes after that candle; the row is that candle iff no later candle lacks a close |
| Chart.GapsShiftRows | project-buffet-web/src/app/page.tsx:29-40 | SMA element `k` is shown, FX-scaled, on row `k + candles - length`, the row `Chart.WindowEndRow` places it on |
| CsvExport.RowCells | project-buffet-web/src/app/page.tsx:55-63 | a row gives one cell per header |
| CsvExport.CellDigits | project-buffet-web/src/app/page.tsx:55-63 | the first cell is the date label; close, SMA, EMA and RSI use two decimals; MACD and signal use four; an absent value gives an empty cell |
| CsvExport.Lines | project-buffet-web/src/app/page.tsx:52-65 | the export has the header line plus one line per row |
| CsvExport.ExportCsv | project-buffet-web/src/app/page.tsx:48-65 | nothing is exported exactly when there are no rows |
| CsvExport.HeadersAvoid | project-buffet-web/src/app/page.tsx:51 | no header contains a comma or a newline |
| CsvExport.JoinAvoids | project-buffet-web/src/app/page.tsx:52-65 | joining parts that lack a character (other than the separator) gives a string that lacks it |
| CsvExport.ExportLines | project-buffet-web/src/app/page.tsx:52-65 | split at newlines, the export is the header line followed by each row's line, in row order |
| CsvExport.RowLineCells | project-buffet-web/src/app/page.tsx:54-63 | split at commas, a row's line gives back its seven cells |
| CsvExport.HeaderLineCells | project-buffet-web/src/app/page.tsx:51-53 | split at commas, the header line gives back the seven column names |
| CsvExport.CellNonEmpty | project-buffet-web/src/app/page.tsx:57-62 | given a formatter that never returns "", a cell is empty iff its value is absent |
| CsvExport.EmptyCellIffAbsent | project-buffet-web/src/app/page.tsx:57-62 | given a formatter that never returns "", each numeric cell of a row is empty iff that field is absent |
| CsvExport.ExportRoundTrip | project-buffet-web/src/app/page.tsx:28-65 | line `i + 1` of the export of the merged chart, split at commas, gives the cells of the row for candle `i` |
| CsvExport.NoHistoryNoExport | project-buffet-web/src/app/page.tsx:48-49 | with no history there is nothing to export |
| Tickers.NormaliseTicker | project-buffet-web/src/app/page.tsx:92 | the entered value, normalised, has no whitespace at either end and no lower-case ASCII letter |
| Tickers.NormaliseExample | project-buffet-web/src/app/page.tsx:92 | " sap.de" followed by a tab is entered as "SAP.DE" |
| Tickers.NormaliseIdempotent | project-buffet-web/src/app/page.tsx:92 | normalising a normalised ticker changes nothing |
| Tickers.WithTicker | project-buffet-web/src/app/page.tsx:93 | the list grows by at most one ticker, at the end; the existing entries are kept, and it stays free of duplicates |
| Tickers.WithTickerAdds | project-buffet-web/src/app/page.tsx:92-93 | a ticker is added iff its normalised form is non-empty and new; the one added is that form, and afterwards it is listed |
| Tickers.WithTickerTwice | project-buffet-web/src/app/page.tsx:92-93 | entering the same text twice adds it at most once |
| Tickers.Reselect | project-buffet-web/src/app/page.tsx:79 | a selection still listed is kept; otherwise the first ticker, `tickers[0]`, is chosen; there is no selection only for an empty list |
| Tickers.TickerBoard.constructor | project-buffet-web/src/app/page.tsx:11-15 | the default six tickers, the first selected |
| Tickers.TickerBoard.AddTicker | project-buffet-web/src/app/page.tsx:90-95 | the list becomes the list with the entered ticker added; the selection is unchanged; the list stays non-empty and duplicate-free, and contains the selection |
| Tickers.TickerBoard.Select | project-buffet-web/src/app/page.tsx:126 | clicking a listed ticker selects it and leaves the list unchanged |
| History.GetParam | project-buffet-web/src/app/api/history/route.ts:6-8 | a parameter is null iff no pair carries its name |
| History.GetParamFirst | project-buffet-web/src/app/api/history/route.ts:6-8 | `get` returns the value of the first pair with that name |
| History.OrDefault | project-buffet-web/src/app/api/history/route.ts:7-8 | `get(name) \|\| fallback` gives the value when it is given and non-empty, and the fallback otherwise |
| History.PeriodToMs | project-buffet-web/src/app/api/history/route.ts:19-40 | every window is a whole number of days, between one day and twenty years |
| History.PeriodsIncrease | project-buffet-web/src/app/api/history/route.ts:19-40 | the windows of 1d, 5d, 1mo, 3mo, 6mo, 1y, 5y and max strictly increase |
| History.PeriodConstants | project-buffet-web/src/app/api/history/route.ts:21-36 | 1d is 86 400 000 ms; 5y is five times 1y; max is twenty times 1y |
| History.UnknownPeriodIsOneYear | project-buffet-web/src/app/api/history/route.ts:37-38 | any unlisted period code gives the one-year window |
| History.Window | project-buffet-web/src/app/api/history/route.ts:42-43 | the window ends now, and its length is exactly the period's, so it is never empty |
| History.PlanRequest | project-buffet-web/src/app/api/history/route.ts:6-49 | a 400 with "Missing ticker query parameter" iff the ticker is absent or empty; otherwise a query over a non-empty window ending now, with a non-empty interval |
| History.NormaliseQuotes | project-buffet-web/src/app/api/history/route.ts:51-58 | one candle per quote |
| History.HandleGet | project-buffet-web/src/app/api/history/route.ts:4-64 | the status is 200, 400 or 500, and it is 200 exactly when the body holds candles |
| History.MissingTickerNoProviderCall | project-buffet-web/src/app/api/history/route.ts:10-15 | without a ticker the answer is the 400 error, whatever the provider would do |
| History.QueryDefaults | project-buffet-web/src/app/api/history/route.ts:7-49 | the provider is asked for the upper-cased ticker; the period defaults to one year and the interval to one day, and each is otherwise passed through |
| History.NormalisePreserves | project-buffet-web/src/app/api/history/route.ts:51-58 | each candle carries its quote's prices and volume, and a missing date stays missing |
| History.NormalisedCloses | project-buffet-web/src/app/api/history/route.ts:51-58 | the close series later extracted from the route's candles is the provider's non-null closes, in order |
| History.SuccessfulFetch | project-buffet-web/src/app/api/history/route.ts:45-60 | a successful fetch answers 200 with the upper-cased ticker and the normalised quotes |
| History.FailedFetch | project-buffet-web/src/app/api/history/route.ts:61-63 | a provider failure answers 500 with the error's message, or "Unknown error" |

## Left out

- The four `calculate*` wrappers (`indicators.ts:17-31`) only call the
  technicalindicators library, whose code is not part of this model. `Engine` stands
  for it. Nothing is assumed about its values. Three lemmas assume only that it does
  not return more values than it was given: `Chart.IndicatorsFitCandleAxis`,
  `Chart.NoGapAxesCoincide` and `Chart.GapsShiftRows`. Its warm-up lengths (for
  example no SMA 20 value for fewer than 20 closes) are not modelled.
- The news and quote routes are not part of this model. The quote route supplies only
  the FX rate, and that rate enters as `fxQuote`.
- Date.now, the provider's network call, `toFixed`, `toLocaleDateString` and
  `toISOString` are parameters. Their formats (locale, rounding, ISO layout) are not
  modelled.
- JavaScript numbers are modelled as `real`. So floating-point rounding of the FX
  multiplication, NaN and the infinities are not modelled.
- Text.ToUpper: only ASCII letters are upper-cased. JavaScript's `toUpperCase` maps
  every Unicode letter, including length-changing mappings such as `ß` to `SS`.
- URL parsing and percent-decoding of the query string are not modelled. Parameters
  arrive already decoded, as name/value pairs.
- An invalid provider date: `toISOString` throws a RangeError, which the route
  answers with a 500. `iso` is total here, so that path is not modelled.
- A thrown value is either an `Error` with a message or something else. The model
  keeps only that distinction, as `Thrown(message)`.
- Tickers.TickerBoard.AddTicker: the duplicate test reads the list as rendered, while
  the update is applied to the latest list. Two Enter presses within one render could
  therefore both append the same ticker. The model performs each Enter as one atomic
  step.
- Clearing the input field after Enter is not modelled, nor is SWR fetching and
  revalidation.
- The Blob, the download link and the file name built in `exportToCSV`
  (`page.tsx:67-75`) are not modelled. Only the CSV text is.
- Rendering is not modelled. That covers the charts, the `Intl.NumberFormat` quote
  display and the news list.
- Invalid date strings: `new Date(c.date).toLocaleDateString()` for a malformed date
  is whatever `localeDate` returns.
