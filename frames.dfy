/**
 * The fundamentals snapshot fetched for one ticker: the profile (`info`) and the statement tables.
 * A table maps a line-item name to its row of periods, most recent first; a NaN cell is `None`.
 */
module Frames {
  import opened Options

  type Row = seq<Option<real>>
  type Frame = map<string, Row>
  /** Profile fields; a field that is present but `None` and a missing field both read as `None`. */
  type Info = map<string, Option<real>>

  datatype Snapshot = Snapshot(
    info: Info,
    financials: Frame,   // annual income statement
    quarterly: Frame,    // quarterly income statement
    balance: Frame,      // balance sheet
    estimates: Frame)    // analyst earnings estimates

  /** `info.get(key)`. */
  function Get(info: Info, key: string): (r: Option<real>)
    ensures r.Some? <==> key in info && info[key].Some?
    ensures r.Some? ==> info[key] == r
  {
    if key in info then info[key] else None
  }

  /** The line item `name` of `frame` has a cell at period `i`. */
  predicate HasCell(frame: Frame, name: string, i: nat) {
    name in frame && i < |frame[name]|
  }

  // Field and line-item names used by the screener
  const TrailingPE := "trailingPE"
  const ForwardPE := "forwardPE"
  const TrailingEps := "trailingEps"
  const TrailingPegRatio := "trailingPegRatio"
  const DividendRate := "dividendRate"
  const SharesOutstanding := "sharesOutstanding"
  const CurrentPrice := "currentPrice"
  const NetIncome := "Net Income"
  const DilutedEps := "Diluted EPS"
  const CombinedCash := "Cash Cash Equivalents And Short Term Investments"
  const CashAndEquivalents := "Cash And Cash Equivalents"
  const OtherShortTermInvestments := "Other Short Term Investments"
  const LongTermDebt := "Long Term Debt"
}
