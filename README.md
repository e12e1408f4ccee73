# A verified model of a Peter-Lynch-style stock screener

The repository has two scripts. Both turn a market-data provider's fundamentals snapshot of a
ticker into comparable figures.

- `aktienscreener.py` derives P/E, EPS growth (quarter over year-ago quarter, fiscal year over
  prior year, three-year CAGR), net liquidity, a PEG ratio and growth-adjusted P/E ratios. It grades
  seven of them on a 1 (best) to 6 (worst) scale with two threshold walks (`grade_value`,
  `grade_value2`), averages the grades that exist into a composite grade, and sorts the table by it.
- `stockvaluator.py` puts a cache in front of the provider: one pickle file per upper-cased ticker,
  fresh for 24 hours, with a randomized pause before every provider round. A small analyzer then
  derives P/E, fiscal-year growth, three-year growth and PEG from each snapshot; tickers whose load
  failed are skipped.

The model has six modules:

- `Options`: `None` for Python's `None` and for a NaN cell.
- `Numerics`: truthiness, Python's `round` as round-half-even on exact reals, `calculate_cagr`.
- `Frames`: the snapshot, where a statement table maps a line item to its periods, most recent first.
- `Grading`: the threshold walks, the grade substitutions at their call sites, the composite grade.
- `Screener`: `get_stock_data`, `analyze_stocks` and the sort of `aktienscreener.py`.
- `StockLoader` and `StockAnalysis`: `stockvaluator.py`.

The fractional power `x ** (1/3)` is a parameter `root` of the functions that need it. A negative
base yields a complex number (`Num.ComplexNum`), as in Python. The clock reading of each load and
the provider round are parameters as well.

Paths on which a script raises an uncaught exception are preconditions. Examples:

- a line item or period read without a guard;
- arithmetic on `None` outside a `try`;
- `round` of a complex number.

These are `Screener.WellFormed`, `StockAnalysis.Analyzable`, and, for the batch of
`stockvaluator.py`, that every snapshot the batch loads is analyzable. For that last one,
`StockAnalysis.RunLoadsAnalyzable` gives a sufficient condition on the inputs: the cache files and
provider snapshots of the batch's own tickers. Exceptions that the scripts catch leave the figure `None`.

The cache directory is a `StockLoader.CacheDir` object. Its `files` map is updated in place by
`StockLoader.StockDataLoader.Load`, which is proved against the function `StockLoader.LoadSpec`.
The `analyze_stocks` loop of `stockvaluator.py` is a method proved against the recursive
specification `StockAnalysis.RunLoads` / `StockAnalysis.Collect`.

Some behaviour of the code is easy to misread; the model follows the code as written:

- The long-term growth substitute for a non-positive base is `(fy + (fy - e3) / 3) / fy - 1`. It
  is not the fiscal-year substitute `(c + (c - p)) / c - 1`; see `Screener.LongGrowth`.
- A ratio just below a threshold gets the grade of the band below it. A growth-adjusted P/E of 1.67
  grades 3 and one of 1.30 grades 4, because the growth table requires at least 1.7 for grade 2
  and at least 1.4 for grade 3; see `Grading.AdjustedRatioGradesBelowThreshold`.
- An unreadable cache file is not treated as a miss. `pickle.load` sits outside the `try`, so the
  model's cache entries are always readable (see "Left out").

## Model

| member | source | states |
|---|---|---|
| Numerics.RoundHalfEven | aktienscreener.py:27 | the integer nearest to `y`, within 0.5 of it, and even on a tie (Python's rounding rule) |
| Numerics.Units | aktienscreener.py:27 | the whole number of units of 10^-digits nearest to `x`, even on a tie |
| Numerics.Round | aktienscreener.py:27 | `round(x, digits)` is a whole number of units of 10^-digits, the one nearest to `x`, and on a tie the even one |
| Numerics.RoundTwoWithin | aktienscreener.py:257 | rounding to two places keeps a value between two whole numbers between them |
| Numerics.CalculateCagr | stockvaluator.py:71-74 | `None` exactly when an operand is missing or the start is not positive; complex exactly when the end is negative; otherwise `root(end / start, years) - 1` |
| Numerics.CagrTenPercent | aktienscreener.py:15-19 | 100 growing to 133.1 over three years is a CAGR of 0.1 for any principal cube root |
| Frames.Get | stockvaluator.py:93 | `info.get(key)` is a value exactly when the key is present with a value |
| Grading.GradeValue | aktienscreener.py:187-194 | the sentinel 100 gives `None` exactly when the table is non-empty |
| Grading.GradeValue2 | aktienscreener.py:196-201 | the grade lies in 1..6 whenever every grade of the table does |
| Grading.GradeValueFirstMatch | aktienscreener.py:189-193 | the walk returns the grade of the first threshold the value meets or exceeds |
| Grading.GradeValueNoMatch | aktienscreener.py:194 | a value below every threshold gets 6 |
| Grading.GradeValue2FirstMatch | aktienscreener.py:198-200 | the ascending walk returns the grade of the first bound the value does not exceed |
| Grading.GradeValueAtLeast | aktienscreener.py:187-194 | every grade given lies between the table's least grade and 6 |
| Grading.GradeValueAntitone | aktienscreener.py:187-194 | on a descending table a larger value never gets a worse grade |
| Grading.GrowthTableDescending | aktienscreener.py:209 | the growth table's thresholds strictly fall while its grades rise |
| Grading.GrowthGradeBands | aktienscreener.py:207-236 | the growth table as grade bands: >= 2 gives 1, >= 1.7 gives 2, >= 1.4 gives 3, >= 1.2 gives 4, >= 0.85 gives 5, otherwise 6; 100 gives `None` |
| Grading.GrowthGradeAntitone | aktienscreener.py:207-236 | on the growth table every value but the sentinel is graded 1..6, and a larger value never worse |
| Grading.PegGradeBands | aktienscreener.py:239-242 | the PEG table as grade bands: <= 0 gives 6, <= 0.7 gives 1, <= 1 gives 2, <= 1.2 gives 3, <= 1.5 gives 4, <= 1.8 gives 5, otherwise 6 |
| Grading.RatioGrade | aktienscreener.py:207-220 | a growth-to-P/E grade is `None` exactly when growth or P/E is falsy or the ratio is the sentinel; otherwise 1..6 |
| Grading.TruthyGrade | aktienscreener.py:223-236 | a falsy ratio (`None` or 0.0) is unscored; a present grade is 1..6 |
| Grading.FloatGrade | aktienscreener.py:228-231 | only a missing ratio or the sentinel is unscored; a ratio of 0.0 grades 6; a present grade is 1..6 |
| Grading.AdjustedRatioGradesBelowThreshold | aktienscreener.py:228-236 | ratios of 1.67 and 1.30 grade 3 and 4 |
| Grading.PegGrade | aktienscreener.py:239-242 | the PEG grade always exists and lies in 1..6; a falsy PEG grades 6 |
| Grading.ValidGrades | aktienscreener.py:256 | the grades kept are exactly those present: as many as are present, with the same total; none are kept exactly when all are missing |
| Grading.SumOfGrades | aktienscreener.py:257 | `n` grades in 1..6 sum to between `n` and `6n` |
| Grading.MeanInRange | aktienscreener.py:257 | the mean of grades in 1..6 lies in [1, 6] |
| Grading.CompositeGrade | aktienscreener.py:247-257 | the composite grade is `None` exactly when every sub-grade is; otherwise it is the mean of the present sub-grades rounded to two places (so within 0.005 of it), and in [1, 6] |
| Grading.RoundWhole | aktienscreener.py:257 | a whole number rounds to itself |
| Grading.OnlyValidGrade | aktienscreener.py:256 | with one sub-grade present, it is the only one kept |
| Grading.CompositeOfOne | aktienscreener.py:256-257 | with one sub-grade `g` present, the composite grade is `g` |
| Screener.Kgv | aktienscreener.py:27 | P/E is the trailing P/E rounded to two places, `None` exactly when that is falsy |
| Screener.RoundedCell | aktienscreener.py:34-57 | a statement cell is a value exactly when it is not NaN, and then it is rounded |
| Screener.ReadEps | aktienscreener.py:32-62 | quarter EPS from periods 0 and 4, fiscal EPS from 0, 1 and 3, each rounded; a NaN fiscal figure falls back to trailing EPS; the three-year figure exists only with more than three annual periods, and is period 3 rounded to three places |
| Screener.PeriodGrowth | aktienscreener.py:82-100 | growth is defined exactly when both figures exist and the base is positive or the current figure nonzero; it is `(c - p) / p` percent on a positive base, `(c - p) / c` percent otherwise |
| Screener.GrowthSignOnPositiveBase | aktienscreener.py:84-85 | on a positive base EPS that did not fall is non-negative growth, and positive growth means EPS rose |
| Screener.GrowthFromLossToProfit | aktienscreener.py:86-88 | a swing from a loss to a profit is at least 100% growth |
| Screener.GrowthOfNarrowingLoss | aktienscreener.py:96-98 | a narrowing loss is reported as growth of at most 0% |
| Screener.LongGrowth | aktienscreener.py:72-80 | long-term growth is the CAGR percentage on a positive base (`None` for a negative end), the substitute `(fy - e3) / (3 fy)` percent on a non-positive base |
| Screener.CashPosition | aktienscreener.py:105-114 | cash is the combined row when present, else the sum of the two separate rows; NaN propagates |
| Screener.LongTermDebtFigure | aktienscreener.py:116-126 | debt is period 0 unless NaN, then period 1 |
| Screener.NetLiquidity | aktienscreener.py:128-129 | net liquidity is cash minus debt, `None` exactly when cash is NaN |
| Screener.NetLiquidityReadsOnlyItsRows | aktienscreener.py:105-129 | rows a branch does not read cannot change net liquidity |
| Screener.KgvAdj | aktienscreener.py:131-140 | the adjusted P/E exists exactly when cash is not NaN |
| Screener.PegRatio | aktienscreener.py:146-151 | a provider PEG wins; else P/E over fiscal-year growth; else it stays 0.0 |
| Screener.MissingPegGradedWorst | aktienscreener.py:146-151 | without a provider PEG and without both P/E and growth, the PEG grade is 6 |
| Screener.AdjustedRatio | aktienscreener.py:160-180 | a growth-adjusted P/E is within 0.005 of the growth, plus the dividend rate when there is one, over the P/E |
| Screener.KgvProYoy | aktienscreener.py:157-164 | `KGV_PRO_YOY` is `None` exactly when the year-over-year growth is |
| Screener.KgvProFy | aktienscreener.py:166-173 | `KGV_PRO_FY` exists exactly when growth and P/E do; the always-true string test becomes a precondition |
| Screener.KgvProLong | aktienscreener.py:175-182 | `KGV_PRO_LONG` exists exactly when the P/E does |
| Screener.DeriveMetrics | aktienscreener.py:21-182 | the derived metrics, with the existence relations of the P/E ratios above |
| Screener.DisplayedRatio | aktienscreener.py:272-274 | a displayed ratio exists exactly when growth and P/E are truthy |
| Screener.SubGrades | aktienscreener.py:247-255 | seven sub-grades, each present one in 1..6, and the PEG grade always present |
| Screener.GetStockData | aktienscreener.py:21-289 | the row keeps the ticker; its composite grade always exists and lies in [1, 6] |
| Screener.AnalyzeStocks | aktienscreener.py:291-292 | one row per ticker in input order, each with a grade |
| Screener.GradeBeforeTotal | aktienscreener.py:294 | any two grades are ordered one way or the other |
| Screener.GradeBeforeTransitive | aktienscreener.py:294 | the grade order is transitive |
| Screener.Insert | aktienscreener.py:294 | inserting into a sorted table keeps it sorted and adds exactly that row |
| Screener.SortByGrade | aktienscreener.py:294 | the sorted table is ascending by grade, missing last, and a permutation of the rows |
| Screener.ScreenTable | aktienscreener.py:291-294 | the printed table holds every ticker's row, ascending by grade |
| StockLoader.IsCacheValid | stockvaluator.py:21-23 | a file is fresh exactly when it is less than 86400 seconds old |
| StockLoader.UpperChar | stockvaluator.py:34 | lower-case ASCII letters map to upper case; every other character is kept |
| StockLoader.Upper | stockvaluator.py:34 | upper-casing keeps the length and maps each character |
| StockLoader.UpperIdempotent | stockvaluator.py:30-35 | upper-casing twice is upper-casing once |
| StockLoader.CachePath | stockvaluator.py:30-31 | the cache file is named by the upper-cased ticker, in the cache directory, with the `.pkl` extension |
| StockLoader.CachePathCaseInsensitive | stockvaluator.py:30-35 | two tickers share a cache file exactly when they agree upper-cased |
| StockLoader.LoadSpec | stockvaluator.py:33-68 | a load calls the provider exactly when no fresh file exists; a hit returns the file; a successful fetch is stored stamped with the clock; a failure warns with the ticker, returns `None` and leaves the cache |
| StockLoader.LoadCaseInsensitive | stockvaluator.py:33-38 | tickers equal up to case load identically |
| StockLoader.CacheTtlIdempotence | stockvaluator.py:21-64 | a second load within 24 hours is a hit with the same data; one 24 hours or more after the fetch calls the provider again |
| StockLoader.NoCacheAlwaysFetches | stockvaluator.py:38-64 | with caching off every load calls the provider and the cache is unchanged |
| StockLoader.CacheDir.constructor | stockvaluator.py:10-11 | the cache directory holds the given files |
| StockLoader.StockDataLoader.constructor | stockvaluator.py:27-28 | a new loader has its caching flag and has made no provider call |
| StockLoader.StockDataLoader.Load | stockvaluator.py:33-68 | the result and new cache are those of `LoadSpec`; one provider call is counted exactly when it fetched, and one warning exactly when that failed |
| StockAnalysis.SafeGet | stockvaluator.py:77-82 | the cell at a position, counted from the end when negative; `None` for a missing row, a position out of range or NaN |
| StockAnalysis.EpsNow | stockvaluator.py:94 | the diluted EPS of the latest fiscal year, `None` when the row or period is missing or NaN |
| StockAnalysis.EpsOneYear | stockvaluator.py:95 | the diluted EPS of the year before, `None` when missing |
| StockAnalysis.EpsThreeYears | stockvaluator.py:96 | the diluted EPS three years before, `None` when missing |
| StockAnalysis.ValuatorKgv | stockvaluator.py:93 | the trailing P/E when truthy, else the forward P/E |
| StockAnalysis.FyGrowth | stockvaluator.py:98-102 | growth exists exactly when both EPS figures are truthy, and is `(now - prior) / prior` percent |
| StockAnalysis.FyGrowthPositiveIffRising | stockvaluator.py:98-102 | with a positive prior year, growth is positive exactly when EPS rose |
| StockAnalysis.GrowthReportedIffChanged | stockvaluator.py:98-115 | growth is truthy exactly when both EPS figures are truthy and differ |
| StockAnalysis.LongGrowthPercent | stockvaluator.py:104-106 | three-year growth exists exactly when both EPS figures are truthy, and is 100 times their CAGR |
| StockAnalysis.LongGrowthTenPercent | stockvaluator.py:104-106 | EPS from 1.0 to 1.331 is ten percent |
| StockAnalysis.PegOf | stockvaluator.py:108-110 | PEG times positive growth is the P/E; otherwise the provider's PEG |
| StockAnalysis.Reported | stockvaluator.py:114-117 | a column is present exactly when its figure is truthy, and then within 0.005 of it |
| StockAnalysis.Analyze | stockvaluator.py:112-113 | the result row is labelled with the ticker it was asked for |
| StockAnalysis.AnalyzePresence | stockvaluator.py:93-117 | the P/E column is present exactly when either P/E is truthy; the growth column exactly when both EPS figures are truthy and differ; the three-year column exactly when both EPS figures are truthy and the CAGR is not zero |
| StockAnalysis.AnalyzeColumns | stockvaluator.py:93-117 | each present column is within 0.005 of its figure: the P/E, `(now - prior) / prior` percent, 100 times the CAGR, and P/E over a positive growth; otherwise the PEG column is the provider's PEG, rounded |
| StockAnalysis.RunLoads | stockvaluator.py:121-130 | one load per ticker in order; at most one provider call each; every ticker yields a snapshot or a warning |
| StockAnalysis.LoadKeepsAnalyzable | stockvaluator.py:36-62 | when the batch's tickers have analyzable cache files and provider snapshots, loading one of them returns an analyzable snapshot, if any, and keeps their cache files analyzable |
| StockAnalysis.RunLoadsAnalyzableUpTo | stockvaluator.py:127-128 | under the same condition, loading any prefix of the batch loads only analyzable snapshots |
| StockAnalysis.RunLoadsAnalyzable | stockvaluator.py:127-128 | a batch whose tickers have analyzable cache files and provider snapshots loads only analyzable snapshots |
| StockAnalysis.RunLoadsPrefix | stockvaluator.py:127-128 | the loads of the first `i` tickers are the first `i` loads of the whole batch |
| StockAnalysis.Kept | stockvaluator.py:127-130 | as many tickers are kept as loads succeeded |
| StockAnalysis.Collect | stockvaluator.py:125-130 | there are as many results as kept tickers |
| StockAnalysis.CollectNamesKept | stockvaluator.py:125-130 | the results name the kept tickers, in input order |
| StockAnalysis.RunLoadsSnoc | stockvaluator.py:127-128 | one more ticker extends the batch by that ticker's load |
| StockAnalysis.CollectSnoc | stockvaluator.py:129-130 | one more load appends its analysis when it brought a snapshot |
| StockAnalysis.AnalyzeNext | stockvaluator.py:127-130 | one turn of the loop extends the batch by the next ticker's load and the results by its analysis |
| StockAnalysis.AnalyzeStocks | stockvaluator.py:121-132 | when every snapshot the batch loads is analyzable, the results, cache, provider calls and warnings of the loop are those of `RunLoads` / `Collect` |
| StockAnalysis.FailuresStayUncached | stockvaluator.py:61-68 | a ticker whose provider round fails never gets a cache file |
| StockAnalysis.LoadFailsIffProviderFails | stockvaluator.py:38-68 | without a cache file, a load fails exactly when the provider does, and then warns |
| StockAnalysis.BatchLoadFailsIffProviderFails | stockvaluator.py:127-129 | the batch drops exactly the tickers whose provider round fails |
| StockAnalysis.BatchWarnsFailures | stockvaluator.py:66-67 | the warnings name the failed tickers, upper-cased, in order |
| StockAnalysis.KeptAreSucceeding | stockvaluator.py:129-130 | the kept tickers are the succeeding ones |
| StockAnalysis.ResultsAreSucceedingTickers | stockvaluator.py:121-132 | when the batch's tickers have analyzable cache files and provider snapshots, and no failing ticker has a cache file, the result rows are one per succeeding ticker, in input order |
| StockAnalysis.RunLoadsPair | stockvaluator.py:121-130 | a batch of two tickers is two loads, the second seeing the cache the first left |
| StockAnalysis.RepeatedTickerLoadedOnce | stockvaluator.py:121-130 | a ticker listed twice in any case, loaded again within 24 hours, costs one provider call |

## Left out

- Floating point: figures are exact reals. NaN in a statement cell is `None`. A NaN or infinity in the profile, overflow and IEEE rounding are not modelled. Python's `round` is exact round-half-even.
- NumPy scalar types: `round` of a statement cell is an `np.float64`. The model treats every number as a Python float. So `type(x) == float` tests count such a value as a float, though the code's test would not. Division by a zero NumPy scalar is taken to raise (leaving `None` inside a `try`), not to give infinity. Likewise `**` with a negative `np.float64` base gives NaN, not a complex number. So in `aktienscreener.py` a P/E with a negative current EPS over a positive base would give a NaN long-term growth, which is truthy and grades 6. The model instead takes the complex result, and `Screener.WellFormed` excludes that input as raising.
- Numerics.CalculateCagr: the value of `x ** (1/years)` is the caller's `root` function, not a proved root.
- The provider (`yfinance`), the network, the pickle format, file modification times as read from disk, `time.time()` and the random pause: the provider round is the parameter `fetch`, the clock readings are parameters, and the pause has no observable effect in the model. `fetch` gives one fixed answer per ticker for the whole batch. A provider that fails for a ticker and later succeeds for it in the same batch is not modelled. `StockAnalysis.FailuresStayUncached` and `StockAnalysis.BatchLoadFailsIffProviderFails` are therefore about a provider that fails that ticker every time.
- An unreadable or corrupt cache file: `pickle.load` is outside the `try` and would abort the batch. The model's cache entries are always readable. The same holds for a failing `pickle.dump`, which the code reports as a provider failure.
- StockLoader.LoadSpec, StockLoader.StockDataLoader.Load: a new cache entry is stamped with the load's own clock reading, taken before the pause and the provider round, not with the time `pickle.dump` writes the file. So a reload exactly 24 hours after a fetch counts as stale in the model, while the real file, written up to about 1.4 seconds later, may still be fresh for that short window.
- `str.upper` beyond ASCII letters: Unicode case mapping is not modelled.
- Printing the table, building the DataFrame, and the fixed ticker lists at the end of each script.
- Screener.AnalyzeStocks: `get_stock_data` is called twice per ticker in the list comprehension, and each call asks the provider again. The model assumes a deterministic provider, so that both calls give the same row, and calls it once. A provider whose answers differ between the two calls is not modelled.
- Screener.SortByGrade: pandas' sort is not stable, so the order among equal grades is left unspecified (only sortedness and permutation are stated). NaN grades sorting last is modelled as `None` last.
- `calculate_cagr` appears in both scripts with the same body and is modelled once.
- `SCORING_WEIGHTS` is never read by the code and is not modelled.
- Screener.PegRatio: the `else: peg_ratio is None` branch is a comparison with no effect, so the PEG stays 0.0.
- Screener.KgvProYoy, Screener.KgvProFy, Screener.KgvProLong: the inputs on which these raise (an unbound `kgv_pro_yoy`, the always-true `!= "None"` string tests followed by arithmetic on `None`) are excluded by preconditions gathered in `Screener.WellFormed`.
- Screener.KgvAdj: the value is stated only through its existence condition. The figure itself is two nested roundings of price, net liquidity per share and trailing EPS.
- StockAnalysis.Analyze: snapshots on which `long_gw` raises are excluded by `StockAnalysis.Analyzable`. These are a negative three-year EPS with a truthy current EPS, where `None * 100` raises (a three-year EPS of 0.0 is falsy and leaves `long_gw` as `None`), and a negative current EPS over a positive base, where `round` of a complex number raises.
