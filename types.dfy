/** The record shapes shared between the server routes and the views. */
module Types {
  import opened Wrappers

  /** One calendar day of the sentiment history, keyed by its "YYYY-MM-DD" date
      in US Eastern time. `composite` is in 0..100. */
  datatype DayScore = DayScore(
    date: string,
    composite: int,
    fg: Option<real>,
    vix: Option<real>,
    tnxChange: Option<real>,
    dxyChange: Option<real>,
    marketOpen: bool)

  /** The Fear & Greed reading on the market payload. */
  datatype FearGreedData = FearGreedData(score: real, rating: string, timestamp: Option<string>)

  /** The VIX quote on the market payload. */
  datatype VixData = VixData(value: real, change: real, changePercent: real)

  /** One macro indicator quote (10Y yield, dollar index, gold, ...); `name` is the source's `label`. */
  datatype MacroItem = MacroItem(symbol: string, name: string, price: real, change: real, changePercent: real)
}
