/**
 * The screening script: the metrics `get_stock_data` derives from one snapshot, their grades,
 * the result row, and the batch driver `analyze_stocks`.
 *
 * Every path on which the script raises an uncaught exception (a missing line item, a period
 * out of range, arithmetic on `None`, an unbound local) is excluded by a precondition; the
 * exceptions the script catches leave the affected figure `None`.
 */
module Screener {
  import opened Options
  import opened Numerics
  import opened Frames
  import opened Grading

  // ---------------------------------------------------------------- P/E and EPS figures

  /** `kgv`: the trailing P/E rounded to two places; `None` when it is missing or zero. */
  function Kgv(info: Info): (k: Option<real>)
    ensures k.Some? <==> Truthy(Get(info, TrailingPE))
    ensures k.Some? ==> k.value == Round(Get(info, TrailingPE).value, 2)
  {
    var pe := Get(info, TrailingPE);
    if Truthy(pe) then Some(Round(pe.value, 2)) else None
  }

  /** A statement cell as the script reads it: rounded to `digits` places; a NaN cell is `None`. */
  function RoundedCell(cell: Option<real>, digits: nat): (r: Option<real>)
    ensures r.Some? <==> cell.Some?
    ensures r.Some? ==> r.value == Round(cell.value, digits)
  {
    if cell.Some? then Some(Round(cell.value, digits)) else None
  }

  /** The rows and periods the EPS block reads without a guard. */
  predicate HasEpsRows(s: Snapshot) {
    && NetIncome in s.financials
    && NetIncome in s.quarterly
    && HasCell(s.quarterly, DilutedEps, 4)
    && HasCell(s.financials, DilutedEps, 1)
    && (|s.financials[NetIncome]| > 3 ==> HasCell(s.financials, DilutedEps, 3))
  }

  datatype EpsFigures = EpsFigures(
    currentQuarter: Option<real>,
    yearAgoQuarter: Option<real>,
    fiscalYear: Option<real>,
    priorYear: Option<real>,
    threeYearsAgo: Option<real>)

  /**
   * The diluted EPS figures: quarters 0 and 4, fiscal years 0, 1 and 3. A NaN fiscal-year figure
   * falls back to the profile's trailing EPS; the three-year figure needs more than three
   * annual periods (a NaN there, like `None`, only ever leaves the long-term growth `None`).
   */
  function ReadEps(s: Snapshot): (e: EpsFigures)
    requires HasEpsRows(s)
    ensures e.currentQuarter == RoundedCell(s.quarterly[DilutedEps][0], 2)
    ensures e.yearAgoQuarter == RoundedCell(s.quarterly[DilutedEps][4], 2)
    ensures s.financials[DilutedEps][0].Some? ==> e.fiscalYear == Some(Round(s.financials[DilutedEps][0].value, 2))
    ensures s.financials[DilutedEps][0].None? ==> e.fiscalYear == Get(s.info, TrailingEps)
    ensures e.priorYear == RoundedCell(s.financials[DilutedEps][1], 2)
    ensures e.threeYearsAgo.Some? <==> |s.financials[NetIncome]| > 3 && s.financials[DilutedEps][3].Some?
    ensures e.threeYearsAgo.Some? ==> e.threeYearsAgo == RoundedCell(s.financials[DilutedEps][3], 3)
  {
    var q := s.quarterly[DilutedEps];
    var f := s.financials[DilutedEps];
    EpsFigures(
      RoundedCell(q[0], 2),
      RoundedCell(q[4], 2),
      if f[0].Some? then Some(Round(f[0].value, 2)) else Get(s.info, TrailingEps),
      RoundedCell(f[1], 2),
      if |s.financials[NetIncome]| > 3 then RoundedCell(f[3], 3) else None)
  }

  // ---------------------------------------------------------------- growth

  /**
   * Growth in percent of `current` over `prior`, the rule the script applies alike to the fiscal
   * year and to the year-ago quarter: ratio growth on a positive base, and on a non-positive base
   * the substitute `(current + (current - prior)) / current - 1`. A `None` operand or a zero
   * `current` under the substitute raises inside the `try`, which leaves `None`.
   */
  function PeriodGrowth(prior: Option<real>, current: Option<real>): (g: Option<real>)
    ensures g.Some? <==> prior.Some? && current.Some? && (prior.value > 0.0 || current.value != 0.0)
    ensures g.Some? && prior.value > 0.0 ==>
      g.value == Round((current.value - prior.value) / prior.value * 100.0, 2)
    ensures g.Some? && prior.value <= 0.0 ==>
      g.value == Round((current.value - prior.value) / current.value * 100.0, 2)
  {
    if prior.None? || current.None? then None
    else
      var p, c := prior.value, current.value;
      if p > 0.0 then
        DivMinusOne(c, p);
        Some(Round((c / p - 1.0) * 100.0, 2))
      else if c == 0.0 then None
      else
        SubstituteGrowth(c, p);
        Some(Round(((c + (c - p)) / c - 1.0) * 100.0, 2))
  }

  /** On a positive base, growth is reported non-negative when EPS did not fall, and positive only when it rose. */
  lemma GrowthSignOnPositiveBase(p: real, c: real)
    requires p > 0.0
    ensures PeriodGrowth(Some(p), Some(c)).Some?
    ensures c >= p ==> PeriodGrowth(Some(p), Some(c)).value >= 0.0
    ensures PeriodGrowth(Some(p), Some(c)).value > 0.0 ==> c > p
  {
    var x := (c - p) / p * 100.0;
    if c >= p {
      assert x >= 0.0;
      RoundTwoAtLeast(x, 0);
    }
    if c <= p {
      assert x <= 0.0;
      RoundTwoAtMost(x, 0);
    }
  }

  /** A swing from a loss (or zero) to a profit is always reported as at least 100 percent growth. */
  lemma GrowthFromLossToProfit(p: real, c: real)
    requires p <= 0.0 < c
    ensures PeriodGrowth(Some(p), Some(c)).Some?
    ensures PeriodGrowth(Some(p), Some(c)).value >= 100.0
  {
    var x := (c - p) / c * 100.0;
    assert (c - p) / c >= 1.0;
    RoundTwoAtLeast(x, 100);
  }

  /** A narrowing loss is reported as growth of at most 0: the substitute divides by the (negative) current EPS. */
  lemma GrowthOfNarrowingLoss(p: real, c: real)
    requires p < c < 0.0
    ensures PeriodGrowth(Some(p), Some(c)).Some?
    ensures PeriodGrowth(Some(p), Some(c)).value <= 0.0
  {
    var x := (c - p) / c * 100.0;
    assert (c - p) / c < 0.0;
    RoundTwoAtMost(x, 0);
  }

  /**
   * Long-term growth in percent: the three-year CAGR of EPS on a positive base, and on a
   * non-positive one the substitute `(fy + (fy - e3) / 3) / fy - 1`. A missing operand, a zero
   * `fy` under the substitute, and the complex root of a negative ratio all leave `None`.
   */
  function LongGrowth(eps3: Option<real>, epsFy: Option<real>, root: Root): (g: Option<real>)
    ensures g.Some? <==>
      (eps3.Some? && epsFy.Some? && (if eps3.value > 0.0 then epsFy.value >= 0.0 else epsFy.value != 0.0))
    ensures g.Some? && eps3.value > 0.0 ==>
      g.value == Round((root(epsFy.value / eps3.value, 3) - 1.0) * 100.0, 2)
    ensures g.Some? && eps3.value <= 0.0 ==>
      g.value == Round((epsFy.value - eps3.value) / (3.0 * epsFy.value) * 100.0, 2)
  {
    if eps3.None? then None
    else if eps3.value > 0.0 then
      match CalculateCagr(eps3, epsFy, 3, root)
      case None => None
      case Some(ComplexNum) => None
      case Some(Float(cagr)) => Some(Round(cagr * 100.0, 2))
    else if epsFy.None? || epsFy.value == 0.0 then None
    else
      var e3, f := eps3.value, epsFy.value;
      SubstituteLongGrowth(f, e3);
      Some(Round(((f + (f - e3) / 3.0) / f - 1.0) * 100.0, 2))
  }

  // ---------------------------------------------------------------- net liquidity

  /** The balance-sheet rows and periods the net-liquidity block reads without a guard. */
  predicate HasBalanceRows(b: Frame) {
    && (CombinedCash in b ==> HasCell(b, CombinedCash, 0))
    && (CombinedCash !in b ==> HasCell(b, CashAndEquivalents, 0) && HasCell(b, OtherShortTermInvestments, 0))
    && HasCell(b, LongTermDebt, 0)
    && (b[LongTermDebt][0].None? ==> HasCell(b, LongTermDebt, 1))
  }

  /** Cash: the combined row when present, else cash and equivalents plus other short-term investments; NaN (`None`) propagates. */
  function CashPosition(b: Frame): (cash: Option<real>)
    requires HasBalanceRows(b)
    ensures CombinedCash in b ==> cash == b[CombinedCash][0]
    ensures CombinedCash !in b ==>
      (cash.Some? <==> b[CashAndEquivalents][0].Some? && b[OtherShortTermInvestments][0].Some?)
    ensures CombinedCash !in b && cash.Some? ==>
      cash.value == b[CashAndEquivalents][0].value + b[OtherShortTermInvestments][0].value
  {
    if CombinedCash in b then b[CombinedCash][0]
    else
      var c, o := b[CashAndEquivalents][0], b[OtherShortTermInvestments][0];
      if c.Some? && o.Some? then Some(c.value + o.value) else None
  }

  /** Long-term debt: period 0 unless it is NaN, then period 1 unless it is NaN, else `None`. */
  function LongTermDebtFigure(b: Frame): (debt: Option<real>)
    requires HasBalanceRows(b)
    ensures debt.Some? <==> b[LongTermDebt][0].Some? || b[LongTermDebt][1].Some?
    ensures b[LongTermDebt][0].Some? ==> debt == b[LongTermDebt][0]
    ensures b[LongTermDebt][0].None? ==> debt == b[LongTermDebt][1]
  {
    var row := b[LongTermDebt];
    if row[0].Some? then row[0] else row[1]
  }

  /** Net liquidity = cash - long-term debt; NaN cash gives NaN (`None`). */
  function NetLiquidity(b: Frame): (net: Option<real>)
    requires HasBalanceRows(b) && LongTermDebtFigure(b).Some?
    ensures net.Some? <==> CashPosition(b).Some?
    ensures net.Some? ==> net.value == CashPosition(b).value - LongTermDebtFigure(b).value
  {
    match CashPosition(b)
    case None => None
    case Some(cash) => Some(cash - LongTermDebtFigure(b).value)
  }

  /** The separate cash rows do not matter when the combined row is present, nor period 1 of the debt when period 0 is a number. */
  lemma NetLiquidityReadsOnlyItsRows(b1: Frame, b2: Frame)
    requires HasBalanceRows(b1) && LongTermDebtFigure(b1).Some?
    requires HasBalanceRows(b2) && LongTermDebtFigure(b2).Some?
    requires CombinedCash in b1 && CombinedCash in b2 && b1[CombinedCash][0] == b2[CombinedCash][0]
    requires b1[LongTermDebt][0].Some? && b1[LongTermDebt][0] == b2[LongTermDebt][0]
    ensures NetLiquidity(b1) == NetLiquidity(b2)
  {
  }

  /** The profile fields the price block divides by or subtracts from without a guard. */
  predicate HasPriceFields(info: Info) {
    && Get(info, CurrentPrice).Some?
    && Truthy(Get(info, TrailingEps))
    && Truthy(Get(info, SharesOutstanding))
  }

  /** `KGV-Adj`: (price - net liquidity per share) / trailing EPS, each step rounded to two places; NaN cash gives NaN (`None`). */
  function KgvAdj(s: Snapshot): (adj: Option<real>)
    requires HasBalanceRows(s.balance) && LongTermDebtFigure(s.balance).Some? && HasPriceFields(s.info)
    ensures adj.Some? <==> CashPosition(s.balance).Some?
  {
    match NetLiquidity(s.balance)
    case None => None
    case Some(net) =>
      var perShare := Round(net / Get(s.info, SharesOutstanding).value, 2);
      Some(Round((Get(s.info, CurrentPrice).value - perShare) / Get(s.info, TrailingEps).value, 2))
  }

  // ---------------------------------------------------------------- PEG and growth-adjusted P/E

  /**
   * The PEG ratio: a float `trailingPegRatio` wins, else P/E over fiscal-year growth when both are
   * floats, else it stays 0.0 (the last branch of the script compares with `None`, it does not assign).
   */
  function PegRatio(info: Info, kgv: Option<real>, gwFy: Option<real>): (peg: real)
    requires Get(info, TrailingPegRatio).None? && kgv.Some? && gwFy.Some? ==> gwFy.value != 0.0
    ensures Get(info, TrailingPegRatio).Some? ==> peg == Get(info, TrailingPegRatio).value
    ensures Get(info, TrailingPegRatio).None? && kgv.Some? && gwFy.Some? ==> peg * gwFy.value == kgv.value
    ensures Get(info, TrailingPegRatio).None? && (kgv.None? || gwFy.None?) ==> peg == 0.0
  {
    var trailing := Get(info, TrailingPegRatio);
    if trailing.Some? then trailing.value
    else if kgv.Some? && gwFy.Some? then kgv.value / gwFy.value
    else 0.0
  }

  /** Without a provider PEG and without both P/E and fiscal-year growth, the PEG is graded worst (6). */
  lemma MissingPegGradedWorst(info: Info, kgv: Option<real>, gwFy: Option<real>)
    requires Get(info, TrailingPegRatio).None? && (kgv.None? || gwFy.None?)
    ensures PegGrade(PegRatio(info, kgv, gwFy)) == WorstGrade
  {
  }

  /** `(growth + dividend) / kgv` when the dividend rate is a float, `growth / kgv` otherwise, rounded to two places. */
  function AdjustedRatio(growth: real, dividend: Option<real>, kgv: real): (r: real)
    requires kgv != 0.0
    ensures -0.005 <= r - (if dividend.Some? then growth + dividend.value else growth) / kgv <= 0.005
  {
    Pow10Two();
    Round((if dividend.Some? then growth + dividend.value else growth) / kgv, 2)
  }

  /** `KGV_PRO_YOY`: `None` exactly when the year-over-year growth is not a float. */
  function KgvProYoy(gwYoy: Option<real>, dividend: Option<real>, kgv: Option<real>): (r: Option<real>)
    requires gwYoy.Some? ==> kgv.Some? && kgv.value != 0.0
    ensures r.None? <==> gwYoy.None?
    ensures r.Some? ==> r.value == AdjustedRatio(gwYoy.value, dividend, kgv.value)
  {
    if gwYoy.Some? && dividend.Some? then Some(AdjustedRatio(gwYoy.value, dividend, kgv.value))
    else if gwYoy.Some? && dividend.None? && kgv.Some? then Some(AdjustedRatio(gwYoy.value, dividend, kgv.value))
    else None
  }

  /**
   * `KGV_PRO_FY`: its string test `gw_fy != "None"` always holds, so with a float dividend the
   * growth and P/E must be floats; without one the ratio is `None` unless both are floats.
   */
  function KgvProFy(gwFy: Option<real>, dividend: Option<real>, kgv: Option<real>): (r: Option<real>)
    requires dividend.Some? ==> gwFy.Some? && kgv.Some?
    requires gwFy.Some? && kgv.Some? ==> kgv.value != 0.0
    ensures r.Some? <==> gwFy.Some? && kgv.Some?
    ensures r.Some? ==> r.value == AdjustedRatio(gwFy.value, dividend, kgv.value)
  {
    if dividend.Some? then Some(AdjustedRatio(gwFy.value, dividend, kgv.value))
    else if gwFy.Some? && kgv.Some? then Some(AdjustedRatio(gwFy.value, dividend, kgv.value))
    else None
  }

  /**
   * `KGV_PRO_LONG`: both live branches only test the dividend and the P/E, so the long-term growth
   * must be a float whenever either is; the ratio is `None` exactly when the P/E is.
   */
  function KgvProLong(longGw: Option<real>, dividend: Option<real>, kgv: Option<real>): (r: Option<real>)
    requires dividend.Some? ==> longGw.Some? && kgv.Some?
    requires kgv.Some? ==> longGw.Some? && kgv.value != 0.0
    ensures r.Some? <==> kgv.Some?
    ensures r.Some? ==> r.value == AdjustedRatio(longGw.value, dividend, kgv.value)
  {
    if dividend.Some? then Some(AdjustedRatio(longGw.value, dividend, kgv.value))
    else if kgv.Some? then Some(AdjustedRatio(longGw.value, dividend, kgv.value))
    else None
  }

  // ---------------------------------------------------------------- the whole derivation

  datatype Metrics = Metrics(
    kgv: Option<real>,
    kgvAdj: Option<real>,
    dividend: Option<real>,
    gwYoy: Option<real>,
    gwFy: Option<real>,
    longGw: Option<real>,
    peg: real,
    kgvProYoy: Option<real>,
    kgvProFy: Option<real>,
    kgvProLong: Option<real>)

  /** The snapshot passes through `get_stock_data` without an uncaught exception. */
  predicate WellFormed(s: Snapshot, root: Root) {
    && HasEpsRows(s)
    && HasBalanceRows(s.balance)
    && LongTermDebtFigure(s.balance).Some?
    && HasPriceFields(s.info)
    && var e := ReadEps(s);
       var kgv := Kgv(s.info);
       var div := Get(s.info, DividendRate);
       var gwYoy := PeriodGrowth(e.yearAgoQuarter, e.currentQuarter);
       var gwFy := PeriodGrowth(e.priorYear, e.fiscalYear);
       var longGw := LongGrowth(e.threeYearsAgo, e.fiscalYear, root);
       && (Get(s.info, TrailingPegRatio).None? && kgv.Some? && gwFy.Some? ==> gwFy.value != 0.0)
       && (kgv.Some? ==> kgv.value != 0.0)
       && (gwYoy.Some? ==> kgv.Some?)
       && (div.Some? ==> gwFy.Some? && kgv.Some? && longGw.Some?)
       && (kgv.Some? ==> longGw.Some?)
  }

  /** The metrics `get_stock_data` derives from a snapshot. */
  function DeriveMetrics(s: Snapshot, root: Root): (m: Metrics)
    requires WellFormed(s, root)
    ensures m.kgv.Some? <==> Truthy(Get(s.info, TrailingPE))
    ensures m.dividend == Get(s.info, DividendRate)
    ensures m.kgvProYoy.None? <==> m.gwYoy.None?
    ensures m.kgvProFy.Some? <==> m.gwFy.Some? && m.kgv.Some?
    ensures m.kgvProLong.Some? <==> m.kgv.Some?
  {
    var e := ReadEps(s);
    var kgv := Kgv(s.info);
    var div := Get(s.info, DividendRate);
    var gwYoy := PeriodGrowth(e.yearAgoQuarter, e.currentQuarter);
    var gwFy := PeriodGrowth(e.priorYear, e.fiscalYear);
    var longGw := LongGrowth(e.threeYearsAgo, e.fiscalYear, root);
    Metrics(
      kgv, KgvAdj(s), div, gwYoy, gwFy, longGw,
      PegRatio(s.info, kgv, gwFy),
      KgvProYoy(gwYoy, div, kgv), KgvProFy(gwFy, div, kgv), KgvProLong(longGw, div, kgv))
  }

  // ---------------------------------------------------------------- grades and the result row

  /** A displayed figure with its grade, as in `"1.67 (2)"`. */
  datatype Scored = Scored(value: Option<real>, grade: Option<nat>)

  datatype StockRow = StockRow(
    ticker: string,
    kgv: Option<real>,
    kgvAdj: Option<real>,
    dividend: Option<real>,
    gwYoy: Option<real>,
    gwFy: Option<real>,
    longGw: Option<real>,
    gwKgvYoy: Scored,
    gwKgvFy: Scored,
    gwKgvLong: Scored,
    kgvProYoy: Scored,
    kgvProFy: Scored,
    kgvProLong: Scored,
    peg: Scored,
    grade: Option<real>)

  /** A growth-to-P/E ratio as displayed: rounded to two places, `None` when either operand is falsy. */
  function DisplayedRatio(growth: Option<real>, kgv: Option<real>): (r: Option<real>)
    ensures r.Some? <==> Truthy(growth) && Truthy(kgv)
  {
    if Truthy(growth) && Truthy(kgv) then Some(Round(growth.value / kgv.value, 2)) else None
  }

  /** The seven sub-grades in the order the script lists them. */
  function SubGrades(m: Metrics): (gs: seq<Option<nat>>)
    ensures |gs| == 7 && gs[6].Some?
    ensures GradesInRange(gs)
  {
    var gs := [
      RatioGrade(m.gwYoy, m.kgv),
      RatioGrade(m.gwFy, m.kgv),
      RatioGrade(m.longGw, m.kgv),
      TruthyGrade(m.kgvProYoy),
      FloatGrade(m.kgvProFy),
      TruthyGrade(m.kgvProLong),
      Some(PegGrade(m.peg))];
    gs
  }

  /**
   * `get_stock_data` for one ticker and its snapshot. Because the PEG grade is never `None`, the
   * composite grade always exists and lies between 1 and 6.
   */
  function GetStockData(ticker: string, s: Snapshot, root: Root): (row: StockRow)
    requires WellFormed(s, root)
    ensures row.ticker == ticker
    ensures row.grade.Some? && 1.0 <= row.grade.value <= 6.0
    ensures row.peg.grade.Some? && 1 <= row.peg.grade.value <= WorstGrade
    ensures row.gwKgvYoy.grade.None? <==> !Truthy(row.gwYoy) || !Truthy(row.kgv) || row.gwYoy.value / row.kgv.value == Sentinel
    ensures row.kgvProFy.value == Some(0.0) ==> row.kgvProFy.grade == Some(WorstGrade)
  {
    var m := DeriveMetrics(s, root);
    var gs := SubGrades(m);
    StockRow(
      ticker, m.kgv, m.kgvAdj, m.dividend, m.gwYoy, m.gwFy, m.longGw,
      Scored(DisplayedRatio(m.gwYoy, m.kgv), gs[0]),
      Scored(DisplayedRatio(m.gwFy, m.kgv), gs[1]),
      Scored(DisplayedRatio(m.longGw, m.kgv), gs[2]),
      Scored(m.kgvProYoy, gs[3]),
      Scored(m.kgvProFy, gs[4]),
      Scored(m.kgvProLong, gs[5]),
      Scored(Some(Round(m.peg, 2)), gs[6]),
      CompositeGrade(gs))
  }

  // ---------------------------------------------------------------- the batch

  /**
   * `analyze_stocks` before the sort: one row per ticker, in input order. The filter of the list
   * comprehension never drops a row, because a non-empty dict is always truthy.
   */
  function AnalyzeStocks(tickers: seq<string>, fetch: string -> Snapshot, root: Root): (rows: seq<StockRow>)
    requires forall i :: 0 <= i < |tickers| ==> WellFormed(fetch(tickers[i]), root)
    ensures |rows| == |tickers|
    ensures forall i :: 0 <= i < |tickers| ==> rows[i].ticker == tickers[i] && rows[i].grade.Some?
  {
    seq(|tickers|, i requires 0 <= i < |tickers| => GetStockData(tickers[i], fetch(tickers[i]), root))
  }

  /** `a` comes no later than `b` when sorting ascending by grade, missing grades last. */
  predicate GradeBefore(a: Option<real>, b: Option<real>) {
    match (a, b)
    case (Some(x), Some(y)) => x <= y
    case (Some(_), None) => true
    case (None, None) => true
    case (None, Some(_)) => false
  }

  predicate SortedByGrade(rows: seq<StockRow>) {
    forall i, j :: 0 <= i < j < |rows| ==> GradeBefore(rows[i].grade, rows[j].grade)
  }

  lemma GradeBeforeTotal(a: Option<real>, b: Option<real>)
    ensures GradeBefore(a, b) || GradeBefore(b, a)
  {
  }

  lemma GradeBeforeTransitive(a: Option<real>, b: Option<real>, c: Option<real>)
    requires GradeBefore(a, b) && GradeBefore(b, c)
    ensures GradeBefore(a, c)
  {
  }

  function Insert(row: StockRow, sorted: seq<StockRow>): (r: seq<StockRow>)
    requires SortedByGrade(sorted)
    ensures forall x :: x in r ==> x == row || x in sorted
    ensures SortedByGrade(r)
    ensures multiset(r) == multiset(sorted) + multiset{row}
  {
    if sorted == [] then [row]
    else if GradeBefore(row.grade, sorted[0].grade) then
      assert forall j :: 0 <= j < |sorted| ==> GradeBefore(row.grade, sorted[j].grade) by {
        forall j | 0 <= j < |sorted| ensures GradeBefore(row.grade, sorted[j].grade) {
          if j > 0 { GradeBeforeTransitive(row.grade, sorted[0].grade, sorted[j].grade); }
        }
      }
      [row] + sorted
    else
      var rest := Insert(row, sorted[1..]);
      GradeBeforeTotal(row.grade, sorted[0].grade);
      assert forall x :: x in rest ==> GradeBefore(sorted[0].grade, x.grade);
      assert sorted == [sorted[0]] + sorted[1..];
      [sorted[0]] + rest
  }

  /**
   * `df.sort_values(by="Grade", ascending=True)`: a rearrangement of the rows, ascending by grade.
   * The library's sort is not stable, so nothing is claimed about the order of equal grades.
   */
  function SortByGrade(rows: seq<StockRow>): (r: seq<StockRow>)
    ensures SortedByGrade(r)
    ensures multiset(r) == multiset(rows)
  {
    if rows == [] then []
    else
      assert rows == [rows[0]] + rows[1..];
      Insert(rows[0], SortByGrade(rows[1..]))
  }

  /** The table the script prints: every ticker's row, sorted ascending by grade. */
  function ScreenTable(tickers: seq<string>, fetch: string -> Snapshot, root: Root): (table: seq<StockRow>)
    requires forall i :: 0 <= i < |tickers| ==> WellFormed(fetch(tickers[i]), root)
    ensures SortedByGrade(table)
    ensures multiset(table) == multiset(AnalyzeStocks(tickers, fetch, root))
    ensures |table| == |tickers|
  {
    var rows := AnalyzeStocks(tickers, fetch, root);
    assert |multiset(rows)| == |rows|;
    SortByGrade(rows)
  }
}
