/**
 * The price-history route: read and default the query parameters, reject a missing
 * ticker, compute the time window from the period code, ask the market-data
 * provider for quotes and normalise them into candles. The provider, the clock and
 * `Date.toISOString` are parameters.
 */
module History {

  import opened Options
  import opened Text
  import opened Indicators

  /** The query string as (name, value) pairs, in the order given. */
  type Params = seq<(string, string)>

  /** `searchParams.get(name)`: the first value given for `name`, or null. */
  function GetParam(params: Params, name: string): (r: Option<string>)
    ensures r.None? <==> forall i :: 0 <= i < |params| ==> params[i].0 != name
  {
    if params == [] then None
    else if params[0].0 == name then Some(params[0].1)
    else GetParam(params[1..], name)
  }

  /** The value `get` returns is the one of the first pair with that name. */
  lemma {:induction false} GetParamFirst(params: Params, name: string, i: nat)
    requires i < |params| && params[i].0 == name
    requires forall j :: 0 <= j < i ==> params[j].0 != name
    ensures GetParam(params, name) == Some(params[i].1)
  {
    if i > 0 {
      GetParamFirst(params[1..], name, i - 1);
    }
  }

  /** A parameter that is present and not the empty string (what `!ticker` rejects). */
  predicate Given(v: Option<string>) {
    v.Some? && v.value != ""
  }

  /** `get(name) || fallback` */
  function OrDefault(v: Option<string>, fallback: string): (r: string)
    ensures Given(v) ==> r == v.value
    ensures !Given(v) ==> r == fallback
    ensures fallback != "" ==> r != ""
  {
    if Given(v) then v.value else fallback
  }

  const DayMs: nat := 24 * 60 * 60 * 1000
  const YearMs: nat := 365 * DayMs

  /** The period codes the route knows, shortest window first. */
  const KnownPeriods: seq<string> := ["1d", "5d", "1mo", "3mo", "6mo", "1y", "5y", "max"]

  /** `periodToMs`: the window length in milliseconds, one year for unknown codes. */
  function PeriodToMs(p: string): (ms: nat)
    ensures DayMs <= ms <= 20 * YearMs
    ensures ms % DayMs == 0
  {
    if p == "1d" then DayMs
    else if p == "5d" then 5 * DayMs
    else if p == "1mo" then 30 * DayMs
    else if p == "3mo" then 90 * DayMs
    else if p == "6mo" then 182 * DayMs
    else if p == "1y" then YearMs
    else if p == "5y" then 5 * YearMs
    else if p == "max" then 20 * YearMs
    else YearMs
  }

  /** The known windows strictly increase in the order the codes are listed. */
  lemma PeriodsIncrease()
    ensures forall i, j :: 0 <= i < j < |KnownPeriods| ==>
              PeriodToMs(KnownPeriods[i]) < PeriodToMs(KnownPeriods[j])
  {
    var ms := seq(|KnownPeriods|, i requires 0 <= i < |KnownPeriods| => PeriodToMs(KnownPeriods[i]));
    assert ms == [DayMs, 5 * DayMs, 30 * DayMs, 90 * DayMs, 182 * DayMs, YearMs, 5 * YearMs, 20 * YearMs];
    assert forall i :: 0 <= i < |ms| - 1 ==> ms[i] < ms[i + 1];
    forall i, j | 0 <= i < j < |KnownPeriods|
      ensures ms[i] < ms[j]
    {
      var k := i;
      while k < j
        invariant i <= k <= j
        invariant ms[i] <= ms[k]
        invariant k > i ==> ms[i] < ms[k]
      {
        k := k + 1;
      }
    }
  }

  lemma PeriodConstants()
    ensures PeriodToMs("1d") == 86_400_000
    ensures PeriodToMs("5y") == 5 * PeriodToMs("1y")
    ensures PeriodToMs("max") == 20 * PeriodToMs("1y")
  {
  }

  /** Any code the switch does not list gets the one-year window. */
  lemma UnknownPeriodIsOneYear(p: string)
    requires p !in KnownPeriods
    ensures PeriodToMs(p) == PeriodToMs("1y")
  {
    assert p != KnownPeriods[0] && p != KnownPeriods[1] && p != KnownPeriods[2];
    assert p != KnownPeriods[3] && p != KnownPeriods[4] && p != KnownPeriods[6];
    assert p != KnownPeriods[7];
  }

  /** `period1 = now - periodToMs(period)`, `period2 = now`: a non-empty window ending now. */
  function Window(now: int, period: string): (w: (int, int))
    ensures w.0 < w.1 == now
    ensures w.1 - w.0 == PeriodToMs(period)
  {
    (now - PeriodToMs(period), now)
  }

  /** What the route asks the provider for. */
  datatype ChartQuery = ChartQuery(symbol: string, period1: int, period2: int, interval: string)

  /** A quote as the provider returns it; the date is in milliseconds since the epoch. */
  datatype Quote = Quote(
    date: Option<int>,
    open: Option<real>,
    high: Option<real>,
    low: Option<real>,
    close: Option<real>,
    volume: Option<real>)

  /** What the provider call does: return quotes, or throw (an `Error` with a message,
      or some other value). */
  datatype ProviderResult = Quotes(quotes: seq<Quote>) | Thrown(message: Option<string>)

  datatype Body = ErrorBody(error: string) | HistoryBody(ticker: string, candles: seq<Candle>)

  datatype Response = Response(status: nat, body: Body)

  const MissingTickerMessage := "Missing ticker query parameter"

  /** Where the route stands before any provider call. */
  datatype Plan = BadRequest(response: Response) | Fetch(query: ChartQuery)

  /** Query defaults, the missing-ticker check and the window. */
  function PlanRequest(params: Params, now: int): (plan: Plan)
    ensures plan.BadRequest? <==> !Given(GetParam(params, "ticker"))
    ensures plan.BadRequest? ==> plan.response == Response(400, ErrorBody(MissingTickerMessage))
    ensures plan.Fetch? ==> plan.query.period1 < plan.query.period2 == now
    ensures plan.Fetch? ==> plan.query.interval != "" && |plan.query.symbol| > 0
  {
    var ticker := GetParam(params, "ticker");
    var period := OrDefault(GetParam(params, "period"), "1y");
    var interval := OrDefault(GetParam(params, "interval"), "1d");
    if !Given(ticker) then BadRequest(Response(400, ErrorBody(MissingTickerMessage)))
    else
      var w := Window(now, period);
      Fetch(ChartQuery(ToUpper(ticker.value), w.0, w.1, interval))
  }

  /** `q.date?.toISOString() ?? null`, and every other absent field becomes null. */
  function NormaliseQuote(q: Quote, iso: int -> string): Candle {
    Candle(
      date := if q.date.Some? then Some(iso(q.date.value)) else None,
      open := q.open,
      high := q.high,
      low := q.low,
      close := q.close,
      volume := q.volume)
  }

  function NormaliseQuotes(quotes: seq<Quote>, iso: int -> string): (candles: seq<Candle>)
    ensures |candles| == |quotes|
  {
    seq(|quotes|, i requires 0 <= i < |quotes| => NormaliseQuote(quotes[i], iso))
  }

  /** The route's response for a request, given the clock and the provider. */
  function HandleGet(params: Params, now: int, chart: ChartQuery -> ProviderResult,
                     iso: int -> string): (resp: Response)
    ensures resp.status in {200, 400, 500}
    ensures resp.status == 200 <==> resp.body.HistoryBody?
  {
    match PlanRequest(params, now)
    case BadRequest(r) => r
    case Fetch(q) =>
      match chart(q)
      case Quotes(qs) => Response(200, HistoryBody(q.symbol, NormaliseQuotes(qs, iso)))
      case Thrown(m) => Response(500, ErrorBody(if m.Some? then m.value else "Unknown error"))
  }

  /** Without a non-empty ticker the answer is 400 whatever the provider would do: the
      provider is not consulted. */
  lemma MissingTickerNoProviderCall(params: Params, now: int,
                                    chart1: ChartQuery -> ProviderResult,
                                    chart2: ChartQuery -> ProviderResult, iso: int -> string)
    requires !Given(GetParam(params, "ticker"))
    ensures HandleGet(params, now, chart1, iso) == HandleGet(params, now, chart2, iso)
    ensures HandleGet(params, now, chart1, iso) == Response(400, ErrorBody(MissingTickerMessage))
  {
  }

  /** With a ticker, the provider is asked for the upper-cased symbol over the window the
      period (default one year) gives, at the interval asked for (default one day). */
  lemma QueryDefaults(params: Params, now: int)
    requires Given(GetParam(params, "ticker"))
    ensures var q := PlanRequest(params, now).query;
            && q.symbol == ToUpper(GetParam(params, "ticker").value)
            && q.period2 == now
            && (!Given(GetParam(params, "period")) ==> q.period1 == now - YearMs)
            && (Given(GetParam(params, "period")) ==>
                  q.period1 == now - PeriodToMs(GetParam(params, "period").value))
            && (!Given(GetParam(params, "interval")) ==> q.interval == "1d")
            && (Given(GetParam(params, "interval")) ==> q.interval == GetParam(params, "interval").value)
  {
  }

  /** Normalisation keeps count and order; each candle carries its quote's prices, and
      an absent field stays absent. */
  lemma NormalisePreserves(quotes: seq<Quote>, iso: int -> string, i: nat)
    requires i < |quotes|
    ensures var c := NormaliseQuotes(quotes, iso)[i];
            && c.open == quotes[i].open && c.high == quotes[i].high && c.low == quotes[i].low
            && c.close == quotes[i].close && c.volume == quotes[i].volume
            && (c.date.None? <==> quotes[i].date.None?)
  {
  }

  /** The close series the dashboard later extracts is the provider's non-null closes,
      in quote order. */
  lemma NormalisedCloses(quotes: seq<Quote>, iso: int -> string)
    ensures ExtractCloses(NormaliseQuotes(quotes, iso))
              == DropNulls(seq(|quotes|, i requires 0 <= i < |quotes| => quotes[i].close))
  {
    var candles := NormaliseQuotes(quotes, iso);
    assert ClosesOrNull(candles) == seq(|quotes|, i requires 0 <= i < |quotes| => quotes[i].close);
  }

  /** A successful fetch answers 200 with the upper-cased ticker and one candle per quote. */
  lemma SuccessfulFetch(params: Params, now: int, chart: ChartQuery -> ProviderResult,
                        iso: int -> string)
    requires Given(GetParam(params, "ticker"))
    requires chart(PlanRequest(params, now).query).Quotes?
    ensures var resp := HandleGet(params, now, chart, iso);
            var qs := chart(PlanRequest(params, now).query).quotes;
            && resp.status == 200
            && resp.body.ticker == ToUpper(GetParam(params, "ticker").value)
            && resp.body.candles == NormaliseQuotes(qs, iso)
  {
  }

  /** A provider failure answers 500 with the error's message, or "Unknown error". */
  lemma FailedFetch(params: Params, now: int, chart: ChartQuery -> ProviderResult,
                    iso: int -> string)
    requires Given(GetParam(params, "ticker"))
    requires chart(PlanRequest(params, now).query).Thrown?
    ensures var resp := HandleGet(params, now, chart, iso);
            var m := chart(PlanRequest(params, now).query).message;
            && resp.status == 500
            && resp.body == ErrorBody(if m.Some? then m.value else "Unknown error")
  {
  }
}
