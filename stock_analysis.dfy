/**
 * The valuation side of `stockvaluator.py`: `safe_get`, `StockAnalyzer.analyze` and the batch
 * driver `analyze_stocks`, which loads every ticker through one caching loader and analyzes the
 * snapshots it gets, skipping the tickers whose load failed.
 */
module StockAnalysis {
  import opened Options
  import opened Numerics
  import opened Frames
  import opened StockLoader

  /**
   * `safe_get(df, row, idx)`: the cell of line item `row` at position `idx`, counted from the end
   * when negative; `None` when the line item is missing, the position is out of range or the cell is NaN.
   */
  function SafeGet(frame: Frame, row: string, idx: int): (v: Option<real>)
    ensures v.Some? ==> row in frame && -|frame[row]| <= idx < |frame[row]|
    ensures row in frame && 0 <= idx < |frame[row]| ==> v == frame[row][idx]
    ensures row in frame && -|frame[row]| <= idx < 0 ==> v == frame[row][|frame[row]| + idx]
  {
    if row !in frame then None
    else
      var cells := frame[row];
      if 0 <= idx < |cells| then cells[idx]
      else if -|cells| <= idx < 0 then cells[|cells| + idx]
      else None
  }

  /**
   * The diluted EPS of the latest fiscal year and of the years one and three before it: the cell
   * of the `Frames.DilutedEps` line item at that period, `None` when the row or period is missing.
   */
  function EpsNow(s: Snapshot): (e: Option<real>)
    ensures e == (if DilutedEps in s.financials && |s.financials[DilutedEps]| > 0 then s.financials[DilutedEps][0] else None)
  {
    SafeGet(s.financials, "Diluted EPS", 0)
  }

  function EpsOneYear(s: Snapshot): (e: Option<real>)
    ensures e == (if DilutedEps in s.financials && |s.financials[DilutedEps]| > 1 then s.financials[DilutedEps][1] else None)
  {
    SafeGet(s.financials, "Diluted EPS", 1)
  }

  function EpsThreeYears(s: Snapshot): (e: Option<real>)
    ensures e == (if DilutedEps in s.financials && |s.financials[DilutedEps]| > 3 then s.financials[DilutedEps][3] else None)
  {
    SafeGet(s.financials, "Diluted EPS", 3)
  }

  /** `kgv`: the trailing P/E when it is truthy, otherwise whatever the forward P/E is. */
  function ValuatorKgv(info: Info): (k: Option<real>)
    ensures Truthy(k) <==> Truthy(Get(info, TrailingPE)) || Truthy(Get(info, ForwardPE))
    ensures Truthy(Get(info, TrailingPE)) ==> k == Get(info, TrailingPE)
    ensures !Truthy(Get(info, TrailingPE)) ==> k == Get(info, ForwardPE)
  {
    var trailing := Get(info, TrailingPE);
    if Truthy(trailing) then trailing else Get(info, ForwardPE)
  }

  /** `gw_fy`: the year-on-year EPS growth in percent, when both years' EPS are truthy. */
  function FyGrowth(now: Option<real>, prior: Option<real>): (g: Option<real>)
    ensures g.Some? <==> Truthy(now) && Truthy(prior)
    ensures g.Some? ==> g.value == (now.value - prior.value) / prior.value * 100.0
  {
    if Truthy(now) && Truthy(prior) then
      DivMinusOne(now.value, prior.value);
      Some((now.value / prior.value - 1.0) * 100.0)
    else None
  }

  /** With a positive prior year, the growth is positive exactly when the EPS rose. */
  lemma FyGrowthPositiveIffRising(now: real, prior: real)
    requires now != 0.0 && prior > 0.0
    ensures FyGrowth(Some(now), Some(prior)).value > 0.0 <==> now > prior
  {
    var q := (now - prior) / prior;
    assert q * prior == now - prior;
    if q > 0.0 {
      assert q * prior > 0.0;
    } else {
      assert q * prior <= 0.0;
    }
  }

  /** The three-year EPS figures never make `long_gw` raise: when both are truthy, both are positive. */
  predicate LongGrowthDefined(eps3: Option<real>, now: Option<real>) {
    Truthy(eps3) && Truthy(now) ==> eps3.value > 0.0 && now.value > 0.0
  }

  /** `long_gw`: the three-year EPS CAGR in percent, when both EPS figures are truthy. */
  function LongGrowthPercent(eps3: Option<real>, now: Option<real>, root: Root): (g: Option<real>)
    requires LongGrowthDefined(eps3, now)
    ensures g.Some? <==> Truthy(eps3) && Truthy(now)
    ensures g.Some? ==> CalculateCagr(eps3, now, 3, root) == Some(Float(g.value / 100.0))
  {
    if Truthy(eps3) && Truthy(now) then
      var cagr := CalculateCagr(eps3, now, 3, root);
      assert cagr.Some? && cagr.value.Float?;
      Some(cagr.value.value * 100.0)
    else None
  }

  /** EPS rising from 1.0 to 1.331 over three years is a long-term growth of ten percent. */
  lemma LongGrowthTenPercent(root: Root)
    requires root(1.331, 3) >= 0.0
    requires root(1.331, 3) * root(1.331, 3) * root(1.331, 3) == 1.331
    ensures LongGrowthPercent(Some(1.0), Some(1.331), root) == Some(10.0)
  {
    var c := root(1.331, 3);
    assert (c - 1.1) * (c * c + 1.1 * c + 1.21) == 0.0;
    assert c * c + 1.1 * c + 1.21 > 0.0;
    assert c == 1.1;
    assert CalculateCagr(Some(1.0), Some(1.331), 3, root) == Some(Float(0.1));
  }

  /** `peg`: P/E over the fiscal-year growth when both are truthy and the growth is positive, else the provider's ratio. */
  function PegOf(kgv: Option<real>, gwFy: Option<real>, info: Info): (p: Option<real>)
    ensures Truthy(kgv) && gwFy.Some? && gwFy.value > 0.0 ==> p.Some? && p.value * gwFy.value == kgv.value
    ensures !(Truthy(kgv) && gwFy.Some? && gwFy.value > 0.0) ==> p == Get(info, TrailingPegRatio)
  {
    if Truthy(kgv) && Truthy(gwFy) && gwFy.value > 0.0 then Some(kgv.value / gwFy.value)
    else Get(info, TrailingPegRatio)
  }

  /** An output column: the figure rounded to two places when it is truthy, `None` otherwise. */
  function Reported(x: Option<real>): (r: Option<real>)
    ensures r.Some? <==> Truthy(x)
    ensures r.Some? ==> -0.005 <= r.value - x.value <= 0.005
  {
    if Truthy(x) then
      Pow10Two();
      Some(Round(x.value, 2))
    else None
  }

  /** The result row of `analyze`. */
  datatype Analysis = Analysis(
    ticker: string,
    kgv: Option<real>,
    gwFy: Option<real>,
    longGw: Option<real>,
    peg: Option<real>)

  /** The fiscal-year growth is reported exactly when both years' EPS are truthy and differ. */
  lemma {:induction false} GrowthReportedIffChanged(now: Option<real>, prior: Option<real>)
    ensures Truthy(FyGrowth(now, prior)) <==> Truthy(now) && Truthy(prior) && now.value != prior.value
  {
    if Truthy(now) && Truthy(prior) {
      var q := (now.value - prior.value) / prior.value;
      assert q * prior.value == now.value - prior.value;
      if now.value == prior.value {
        assert q == 0.0;
      } else {
        assert q * prior.value != 0.0;
      }
    }
  }

  /** A snapshot `analyze` can process without raising. */
  predicate Analyzable(s: Snapshot) {
    LongGrowthDefined(EpsThreeYears(s), EpsNow(s))
  }

  /**
   * `StockAnalyzer.analyze(ticker, raw)`: P/E, fiscal-year growth, three-year growth and PEG of
   * one snapshot, each rounded to two places and `None` when it is missing or zero. The row
   * carries the ticker it was asked for; `AnalyzePresence` gives when each column is present and
   * `AnalyzeColumns` gives their values.
   */
  function Analyze(ticker: string, s: Snapshot, root: Root): (a: Analysis)
    requires Analyzable(s)
    ensures a.ticker == ticker
  {
    var kgv := ValuatorKgv(s.info);
    var gwFy := FyGrowth(EpsNow(s), EpsOneYear(s));
    var longGw := LongGrowthPercent(EpsThreeYears(s), EpsNow(s), root);
    var peg := PegOf(kgv, gwFy, s.info);
    Analysis(ticker, Reported(kgv), Reported(gwFy), Reported(longGw), Reported(peg))
  }

  /**
   * The P/E is reported when either P/E is truthy, the fiscal-year growth when both EPS figures
   * are truthy and differ, and the three-year growth when both EPS figures are truthy and the
   * CAGR is not exactly zero.
   */
  lemma AnalyzePresence(ticker: string, s: Snapshot, root: Root)
    requires Analyzable(s)
    ensures var a := Analyze(ticker, s, root);
      && (a.kgv.Some? <==> Truthy(Get(s.info, TrailingPE)) || Truthy(Get(s.info, ForwardPE)))
      && (a.gwFy.Some? <==> Truthy(EpsNow(s)) && Truthy(EpsOneYear(s)) && EpsNow(s) != EpsOneYear(s))
      && (a.longGw.Some? <==>
           && Truthy(EpsThreeYears(s)) && Truthy(EpsNow(s))
           && CalculateCagr(EpsThreeYears(s), EpsNow(s), 3, root) != Some(Float(0.0)))
  {
    GrowthReportedIffChanged(EpsNow(s), EpsOneYear(s));
  }

  /**
   * The columns of `analyze` to within rounding: the P/E, the fiscal-year growth in percent, the
   * CAGR in percent, and the PEG: P/E over a positive growth, or else the provider's PEG.
   */
  lemma AnalyzeColumns(ticker: string, s: Snapshot, root: Root)
    requires Analyzable(s)
    ensures var a := Analyze(ticker, s, root);
      a.kgv.Some? ==> -0.005 <= a.kgv.value - ValuatorKgv(s.info).value <= 0.005
    ensures var a := Analyze(ticker, s, root);
      a.gwFy.Some? ==>
        var g := (EpsNow(s).value - EpsOneYear(s).value) / EpsOneYear(s).value * 100.0;
        -0.005 <= a.gwFy.value - g <= 0.005
    ensures var a := Analyze(ticker, s, root);
      a.longGw.Some? ==>
        var cagr := CalculateCagr(EpsThreeYears(s), EpsNow(s), 3, root);
        cagr.Some? && cagr.value.Float? && -0.005 <= a.longGw.value - cagr.value.value * 100.0 <= 0.005
    ensures var a := Analyze(ticker, s, root);
      var kgv, gwFy := ValuatorKgv(s.info), FyGrowth(EpsNow(s), EpsOneYear(s));
      if Truthy(kgv) && gwFy.Some? && gwFy.value > 0.0 then
        a.peg.Some? && -0.005 <= a.peg.value - kgv.value / gwFy.value <= 0.005
      else
        a.peg == Reported(Get(s.info, TrailingPegRatio))
  {
    var kgv := ValuatorKgv(s.info);
    var gwFy := FyGrowth(EpsNow(s), EpsOneYear(s));
    var peg := PegOf(kgv, gwFy, s.info);
    if Truthy(kgv) && gwFy.Some? && gwFy.value > 0.0 {
      assert peg.value == kgv.value / gwFy.value;
    }
  }

  // ---------------------------------------------------------------- the batch driver

  /** The cache file of every ticker of the batch, where there is one, holds a snapshot that can be analyzed. */
  predicate CachedAnalyzable(files: Files, tickers: seq<string>) {
    forall i :: 0 <= i < |tickers| && CachePath(tickers[i]) in files ==> Analyzable(files[CachePath(tickers[i])].data)
  }

  /** The provider's snapshot for every ticker of the batch, where there is one, can be analyzed. */
  ghost predicate FetchedAnalyzable(fetch: Provider, tickers: seq<string>) {
    forall i :: 0 <= i < |tickers| && fetch(Upper(tickers[i])).Some? ==> Analyzable(fetch(Upper(tickers[i])).value)
  }

  /** Every snapshot among the loads can be analyzed. */
  predicate LoadsAnalyzable(loads: seq<Option<Snapshot>>) {
    forall i :: 0 <= i < |loads| && loads[i].Some? ==> Analyzable(loads[i].value)
  }

  function CountLoaded(loads: seq<Option<Snapshot>>): (n: nat)
    ensures n <= |loads|
  {
    if loads == [] then 0
    else CountLoaded(loads[..|loads| - 1]) + (if loads[|loads| - 1].Some? then 1 else 0)
  }

  /** The state of a batch after loading a prefix of its tickers through one caching loader. */
  datatype Batch = Batch(loads: seq<Option<Snapshot>>, files: Files, calls: nat, warnings: seq<string>)

  /**
   * The loads of `analyze_stocks`, one `load` per ticker in order, the i-th at clock reading
   * `clock[i]`, each seeing the cache the previous ones left.
   */
  function RunLoads(files: Files, tickers: seq<string>, clock: seq<real>, fetch: Provider): (b: Batch)
    requires |clock| == |tickers|
    ensures |b.loads| == |tickers|
    ensures b.calls <= |tickers|
    ensures |b.warnings| + CountLoaded(b.loads) == |tickers|
    decreases |tickers|
  {
    if tickers == [] then Batch([], files, 0, [])
    else
      var n := |tickers| - 1;
      var b := RunLoads(files, tickers[..n], clock[..n], fetch);
      var step := LoadSpec(b.files, true, tickers[n], clock[n], fetch);
      var loads := b.loads + [step.data];
      assert loads[..n] == b.loads;
      Batch(
        loads,
        step.files,
        b.calls + (if step.fetched then 1 else 0),
        b.warnings + (if step.warning.Some? then [step.warning.value] else []))
  }

  /**
   * Loading the `k`-th ticker of a batch whose cache files and provider snapshots can be analyzed
   * returns an analyzable snapshot, if any, and leaves the batch's cache files analyzable.
   */
  lemma LoadKeepsAnalyzable(files: Files, tickers: seq<string>, k: nat, now: real, fetch: Provider)
    requires k < |tickers| && CachedAnalyzable(files, tickers) && FetchedAnalyzable(fetch, tickers)
    ensures var step := LoadSpec(files, true, tickers[k], now, fetch);
      && (step.data.Some? ==> Analyzable(step.data.value))
      && CachedAnalyzable(step.files, tickers)
  {
    var step := LoadSpec(files, true, tickers[k], now, fetch);
    if step.fetched && step.data.Some? {
      forall j | 0 <= j < |tickers| && CachePath(tickers[j]) in step.files
        ensures Analyzable(step.files[CachePath(tickers[j])].data)
      {
        if CachePath(tickers[j]) == CachePath(tickers[k]) {
          CachePathCaseInsensitive(tickers[j], tickers[k]);
        }
      }
    }
  }

  /** Loading the first `i` tickers keeps the batch's cache files analyzable and loads only analyzable snapshots. */
  lemma {:induction false} RunLoadsAnalyzableUpTo(files: Files, tickers: seq<string>, clock: seq<real>, fetch: Provider, i: nat)
    requires |clock| == |tickers| && i <= |tickers|
    requires CachedAnalyzable(files, tickers) && FetchedAnalyzable(fetch, tickers)
    ensures CachedAnalyzable(RunLoads(files, tickers[..i], clock[..i], fetch).files, tickers)
    ensures LoadsAnalyzable(RunLoads(files, tickers[..i], clock[..i], fetch).loads)
  {
    if i > 0 {
      RunLoadsAnalyzableUpTo(files, tickers, clock, fetch, i - 1);
      var b := RunLoads(files, tickers[..i - 1], clock[..i - 1], fetch);
      var step := LoadSpec(b.files, true, tickers[i - 1], clock[i - 1], fetch);
      RunLoadsSnoc(files, tickers, clock, fetch, i - 1);
      LoadKeepsAnalyzable(b.files, tickers, i - 1, clock[i - 1], fetch);
      LoadsAnalyzableSnoc(b.loads, step.data);
    }
  }

  /**
   * A batch whose tickers' cache files and provider snapshots can all be analyzed loads only
   * analyzable snapshots: what `analyze_stocks` needs of its inputs.
   */
  lemma RunLoadsAnalyzable(files: Files, tickers: seq<string>, clock: seq<real>, fetch: Provider)
    requires |clock| == |tickers|
    requires CachedAnalyzable(files, tickers) && FetchedAnalyzable(fetch, tickers)
    ensures LoadsAnalyzable(RunLoads(files, tickers, clock, fetch).loads)
  {
    RunLoadsAnalyzableUpTo(files, tickers, clock, fetch, |tickers|);
    assert tickers[..|tickers|] == tickers && clock[..|clock|] == clock;
  }

  /** The loads of the first `i` tickers are the first `i` loads of the whole batch. */
  lemma {:induction false} RunLoadsPrefix(files: Files, tickers: seq<string>, clock: seq<real>, fetch: Provider, i: nat)
    requires |clock| == |tickers| && i <= |tickers|
    ensures RunLoads(files, tickers[..i], clock[..i], fetch).loads == RunLoads(files, tickers, clock, fetch).loads[..i]
    decreases |tickers|
  {
    if i == |tickers| {
      assert tickers[..i] == tickers && clock[..i] == clock;
    } else {
      var n := |tickers| - 1;
      RunLoadsPrefix(files, tickers[..n], clock[..n], fetch, i);
      PrefixOfPrefixAt(tickers, n, i);
      PrefixOfPrefixAt(clock, n, i);
      var b := RunLoads(files, tickers[..n], clock[..n], fetch);
      var step := LoadSpec(b.files, true, tickers[n], clock[n], fetch);
      assert RunLoads(files, tickers, clock, fetch).loads == b.loads + [step.data];
      PrefixOfSnocAt(b.loads, step.data, i);
    }
  }

  /** The tickers whose load returned a snapshot, in input order. */
  function Kept(tickers: seq<string>, loads: seq<Option<Snapshot>>): (kept: seq<string>)
    requires |loads| == |tickers|
    ensures |kept| == CountLoaded(loads)
  {
    if tickers == [] then []
    else
      var n := |tickers| - 1;
      Kept(tickers[..n], loads[..n]) + (if loads[n].Some? then [tickers[n]] else [])
  }

  /** The analyses of the loaded snapshots: `results.append(analyzer.analyze(t, raw))` whenever `raw` is truthy. */
  function Collect(tickers: seq<string>, loads: seq<Option<Snapshot>>, root: Root): (results: seq<Analysis>)
    requires |loads| == |tickers| && LoadsAnalyzable(loads)
    ensures |results| == |Kept(tickers, loads)|
  {
    if tickers == [] then []
    else
      var n := |tickers| - 1;
      Collect(tickers[..n], loads[..n], root)
        + (if loads[n].Some? then [Analyze(tickers[n], loads[n].value, root)] else [])
  }

  /** The results name the kept tickers, in input order. */
  lemma {:induction false} CollectNamesKept(tickers: seq<string>, loads: seq<Option<Snapshot>>, root: Root)
    requires |loads| == |tickers| && LoadsAnalyzable(loads)
    ensures var results := Collect(tickers, loads, root);
      forall k :: 0 <= k < |results| ==> results[k].ticker == Kept(tickers, loads)[k]
    decreases |tickers|
  {
    if tickers != [] {
      var n := |tickers| - 1;
      LoadsAnalyzablePrefix(loads, n);
      CollectNamesKept(tickers[..n], loads[..n], root);
      var results, prior := Collect(tickers, loads, root), Collect(tickers[..n], loads[..n], root);
      var kept, keptPrior := Kept(tickers, loads), Kept(tickers[..n], loads[..n]);
      CollectLast(tickers, loads, root);
      assert kept == keptPrior + (if loads[n].Some? then [tickers[n]] else []);
      forall k | 0 <= k < |results| ensures results[k].ticker == kept[k] {
        if k < |prior| {
          assert results[k] == prior[k] && kept[k] == keptPrior[k];
        }
      }
    }
  }

  lemma LoadsAnalyzablePrefix(loads: seq<Option<Snapshot>>, n: nat)
    requires n <= |loads| && LoadsAnalyzable(loads)
    ensures LoadsAnalyzable(loads[..n])
  {
    forall k | 0 <= k < n && loads[..n][k].Some? ensures Analyzable(loads[..n][k].value) {
      assert loads[..n][k] == loads[k];
    }
  }

  lemma PrefixOfSnocAt<T>(s: seq<T>, x: T, i: nat)
    requires i <= |s|
    ensures (s + [x])[..i] == s[..i]
  {
  }

  lemma PrefixOfPrefixAt<T>(s: seq<T>, n: nat, i: nat)
    requires i <= n <= |s|
    ensures s[..n][..i] == s[..i]
  {
  }

  /** Loading one more ticker extends the batch by that ticker's `load`. */
  lemma RunLoadsSnoc(files: Files, tickers: seq<string>, clock: seq<real>, fetch: Provider, i: nat)
    requires |clock| == |tickers| && i < |tickers|
    ensures var b := RunLoads(files, tickers[..i], clock[..i], fetch);
      var step := LoadSpec(b.files, true, tickers[i], clock[i], fetch);
      RunLoads(files, tickers[..i + 1], clock[..i + 1], fetch) == Batch(
        b.loads + [step.data],
        step.files,
        b.calls + (if step.fetched then 1 else 0),
        b.warnings + (if step.warning.Some? then [step.warning.value] else []))
  {
    assert tickers[..i + 1][..i] == tickers[..i];
    assert clock[..i + 1][..i] == clock[..i];
  }

  lemma LoadsAnalyzableSnoc(loads: seq<Option<Snapshot>>, load: Option<Snapshot>)
    requires LoadsAnalyzable(loads) && (load.Some? ==> Analyzable(load.value))
    ensures LoadsAnalyzable(loads + [load])
  {
    forall k | 0 <= k < |loads + [load]| && (loads + [load])[k].Some?
      ensures Analyzable((loads + [load])[k].value)
    {
      if k < |loads| {
        assert (loads + [load])[k] == loads[k];
      }
    }
  }

  /** The last load contributes its analysis, if any, after those of the others. */
  lemma CollectLast(tickers: seq<string>, loads: seq<Option<Snapshot>>, root: Root)
    requires |loads| == |tickers| > 0 && LoadsAnalyzable(loads) && LoadsAnalyzable(loads[..|loads| - 1])
    ensures var n := |tickers| - 1;
      Collect(tickers, loads, root) ==
        Collect(tickers[..n], loads[..n], root) + (if loads[n].Some? then [Analyze(tickers[n], loads[n].value, root)] else [])
  {
  }

  /** Collecting one more load appends its analysis when it brought a snapshot. */
  lemma CollectSnoc(tickers: seq<string>, i: nat, loads: seq<Option<Snapshot>>, load: Option<Snapshot>, root: Root)
    requires i < |tickers| && |loads| == i && LoadsAnalyzable(loads) && LoadsAnalyzable(loads + [load])
    requires load.Some? ==> Analyzable(load.value)
    ensures Collect(tickers[..i + 1], loads + [load], root) ==
      Collect(tickers[..i], loads, root) + (if load.Some? then [Analyze(tickers[i], load.value, root)] else [])
  {
    var ts, ls := tickers[..i + 1], loads + [load];
    PrefixOfPrefixAt(tickers, i + 1, i);
    PrefixOfSnocAt(loads, load, i);
    assert loads[..i] == loads;
    CollectLast(ts, ls, root);
    assert ts[i] == tickers[i] && ls[i] == load;
  }

  /**
   * One turn of the loop of `analyze_stocks`: load the `i`-th ticker and, when a snapshot
   * arrives, append its analysis. `run` is the batch so far and `files` the cache before it.
   */
  method AnalyzeNext(loader: StockDataLoader, tickers: seq<string>, clock: seq<real>, fetch: Provider, root: Root,
                     i: nat, results: seq<Analysis>, ghost files: Files, ghost run: Batch)
    returns (next: seq<Analysis>, ghost nextRun: Batch)
    requires loader.useCache && |clock| == |tickers| && i < |tickers|
    requires LoadsAnalyzable(RunLoads(files, tickers, clock, fetch).loads)
    requires run == RunLoads(files, tickers[..i], clock[..i], fetch)
    requires LoadsAnalyzable(run.loads)
    requires results == Collect(tickers[..i], run.loads, root)
    requires loader.dir.files == run.files && loader.providerCalls == run.calls && loader.warnings == run.warnings
    modifies loader, loader.dir
    ensures nextRun == RunLoads(files, tickers[..i + 1], clock[..i + 1], fetch)
    ensures LoadsAnalyzable(nextRun.loads)
    ensures next == Collect(tickers[..i + 1], nextRun.loads, root)
    ensures loader.dir.files == nextRun.files
    ensures loader.providerCalls == nextRun.calls && loader.warnings == nextRun.warnings
  {
    var raw := loader.Load(tickers[i], clock[i], fetch);
    RunLoadsSnoc(files, tickers, clock, fetch, i);
    RunLoadsPrefix(files, tickers, clock, fetch, i + 1);
    LoadsAnalyzablePrefix(RunLoads(files, tickers, clock, fetch).loads, i + 1);
    assert (run.loads + [raw])[i] == raw;
    LoadsAnalyzableSnoc(run.loads, raw);
    CollectSnoc(tickers, i, run.loads, raw, root);
    nextRun := RunLoads(files, tickers[..i + 1], clock[..i + 1], fetch);
    next := results;
    if raw.Some? {
      next := next + [Analyze(tickers[i], raw.value, root)];
    }
  }

  /**
   * `analyze_stocks(tickers)`: one caching loader, one `load` per ticker in order (the i-th at
   * clock reading `clock[i]`), and the analysis of every snapshot that arrived. Also returns the
   * number of provider calls made and the tickers named in warnings.
   */
  method AnalyzeStocks(tickers: seq<string>, clock: seq<real>, fetch: Provider, root: Root, dir: CacheDir)
    returns (results: seq<Analysis>, ghost calls: nat, ghost warnings: seq<string>)
    requires |clock| == |tickers|
    requires LoadsAnalyzable(RunLoads(dir.files, tickers, clock, fetch).loads)
    modifies dir
    ensures var run := RunLoads(old(dir.files), tickers, clock, fetch);
      && results == Collect(tickers, run.loads, root)
      && dir.files == run.files
      && calls == run.calls
      && warnings == run.warnings
  {
    var loader := new StockDataLoader(true, dir);
    results := [];
    ghost var run := RunLoads(dir.files, [], [], fetch);
    var i := 0;
    while i < |tickers|
      invariant 0 <= i <= |tickers|
      invariant loader.dir == dir && loader.useCache
      invariant run == RunLoads(old(dir.files), tickers[..i], clock[..i], fetch)
      invariant LoadsAnalyzable(run.loads)
      invariant results == Collect(tickers[..i], run.loads, root)
      invariant dir.files == run.files && loader.providerCalls == run.calls && loader.warnings == run.warnings
    {
      results, run := AnalyzeNext(loader, tickers, clock, fetch, root, i, results, old(dir.files), run);
      i := i + 1;
    }
    assert tickers[..i] == tickers && clock[..i] == clock;
    calls := loader.providerCalls;
    warnings := loader.warnings;
  }

  // ---------------------------------------------------------------- properties of a batch

  /** The tickers whose provider round succeeds, in input order. */
  function Succeeding(tickers: seq<string>, fetch: Provider): (ok: seq<string>)
    ensures |ok| <= |tickers|
  {
    if tickers == [] then []
    else
      var n := |tickers| - 1;
      Succeeding(tickers[..n], fetch) + (if fetch(Upper(tickers[n])).Some? then [tickers[n]] else [])
  }

  /** The upper-cased tickers whose provider round fails, in input order. */
  function Failing(tickers: seq<string>, fetch: Provider): (failed: seq<string>)
    ensures |failed| <= |tickers|
  {
    if tickers == [] then []
    else
      var n := |tickers| - 1;
      Failing(tickers[..n], fetch) + (if fetch(Upper(tickers[n])).None? then [Upper(tickers[n])] else [])
  }

  /** A ticker whose provider round fails never gets a cache file from a batch. */
  lemma {:induction false} FailuresStayUncached(files: Files, tickers: seq<string>, clock: seq<real>, fetch: Provider, u: string)
    requires |clock| == |tickers|
    requires fetch(Upper(u)).None? && CachePath(u) !in files
    ensures CachePath(u) !in RunLoads(files, tickers, clock, fetch).files
    decreases |tickers|
  {
    if tickers != [] {
      var n := |tickers| - 1;
      var b := RunLoads(files, tickers[..n], clock[..n], fetch);
      FailuresStayUncached(files, tickers[..n], clock[..n], fetch, u);
      var step := LoadSpec(b.files, true, tickers[n], clock[n], fetch);
      if step.files != b.files {
        CachePathCaseInsensitive(u, tickers[n]);
        assert step.files == b.files[CachePath(tickers[n]) := CacheEntry(step.data.value, clock[n])];
      }
    }
  }

  /** No ticker of the batch whose provider round fails has a cache file. */
  predicate FailuresUncached(files: Files, tickers: seq<string>, fetch: Provider) {
    forall i :: 0 <= i < |tickers| && fetch(Upper(tickers[i])).None? ==> CachePath(tickers[i]) !in files
  }

  /** One load in a batch, for a ticker that has no cache file when its provider round fails. */
  lemma LoadFailsIffProviderFails(files: Files, t: string, now: real, fetch: Provider)
    requires fetch(Upper(t)).None? ==> CachePath(t) !in files
    ensures var step := LoadSpec(files, true, t, now, fetch);
      && (step.data.None? <==> fetch(Upper(t)).None?)
      && step.warning == (if fetch(Upper(t)).None? then Some(Upper(t)) else None)
  {
  }

  /** A batch in which no failing ticker has a cache file drops exactly the tickers whose provider round fails. */
  lemma {:induction false} BatchLoadFailsIffProviderFails(files: Files, tickers: seq<string>, clock: seq<real>, fetch: Provider)
    requires |clock| == |tickers|
    requires FailuresUncached(files, tickers, fetch)
    ensures var loads := RunLoads(files, tickers, clock, fetch).loads;
      forall i :: 0 <= i < |tickers| ==> (loads[i].None? <==> fetch(Upper(tickers[i])).None?)
    decreases |tickers|
  {
    if tickers != [] {
      var n := |tickers| - 1;
      var t := tickers[n];
      var prefix, times := tickers[..n], clock[..n];
      assert FailuresUncached(files, prefix, fetch);
      BatchLoadFailsIffProviderFails(files, prefix, times, fetch);
      var b := RunLoads(files, prefix, times, fetch);
      if fetch(Upper(t)).None? {
        FailuresStayUncached(files, prefix, times, fetch, t);
      }
      LoadFailsIffProviderFails(b.files, t, clock[n], fetch);
      var step := LoadSpec(b.files, true, t, clock[n], fetch);
      var loads := RunLoads(files, tickers, clock, fetch).loads;
      assert loads == b.loads + [step.data];
      forall i | 0 <= i < |tickers|
        ensures loads[i].None? <==> fetch(Upper(tickers[i])).None?
      {
        if i < n {
          assert loads[i] == b.loads[i] && tickers[i] == prefix[i];
        } else {
          assert i == n && loads[n] == step.data;
        }
      }
    }
  }

  /** The same batch warns about the failing tickers, upper-cased, in input order. */
  lemma {:induction false} BatchWarnsFailures(files: Files, tickers: seq<string>, clock: seq<real>, fetch: Provider)
    requires |clock| == |tickers|
    requires FailuresUncached(files, tickers, fetch)
    ensures RunLoads(files, tickers, clock, fetch).warnings == Failing(tickers, fetch)
    decreases |tickers|
  {
    if tickers != [] {
      var n := |tickers| - 1;
      var t := tickers[n];
      var prefix, times := tickers[..n], clock[..n];
      assert FailuresUncached(files, prefix, fetch);
      BatchWarnsFailures(files, prefix, times, fetch);
      var b := RunLoads(files, prefix, times, fetch);
      if fetch(Upper(t)).None? {
        FailuresStayUncached(files, prefix, times, fetch, t);
      }
      LoadFailsIffProviderFails(b.files, t, clock[n], fetch);
    }
  }

  /** Keeping the tickers whose load succeeded is keeping the ones whose provider round succeeds, when the two agree pointwise. */
  lemma {:induction false} KeptAreSucceeding(tickers: seq<string>, loads: seq<Option<Snapshot>>, fetch: Provider)
    requires |loads| == |tickers|
    requires forall i :: 0 <= i < |tickers| ==> (loads[i].None? <==> fetch(Upper(tickers[i])).None?)
    ensures Kept(tickers, loads) == Succeeding(tickers, fetch)
    decreases |tickers|
  {
    if tickers != [] {
      var n := |tickers| - 1;
      KeptAreSucceeding(tickers[..n], loads[..n], fetch);
    }
  }

  /** The rows of `analyze_stocks` under the same condition: one per succeeding ticker, in input order. */
  lemma ResultsAreSucceedingTickers(files: Files, tickers: seq<string>, clock: seq<real>, fetch: Provider, root: Root)
    requires |clock| == |tickers|
    requires CachedAnalyzable(files, tickers) && FetchedAnalyzable(fetch, tickers)
    requires FailuresUncached(files, tickers, fetch)
    ensures var loads := RunLoads(files, tickers, clock, fetch).loads;
      && LoadsAnalyzable(loads)
      && var results := Collect(tickers, loads, root);
      && |results| == |Succeeding(tickers, fetch)|
      && forall k :: 0 <= k < |results| ==> results[k].ticker == Succeeding(tickers, fetch)[k]
  {
    RunLoadsAnalyzable(files, tickers, clock, fetch);
    BatchLoadFailsIffProviderFails(files, tickers, clock, fetch);
    var loads := RunLoads(files, tickers, clock, fetch).loads;
    KeptAreSucceeding(tickers, loads, fetch);
    CollectNamesKept(tickers, loads, root);
  }

  /** A batch of two tickers is two loads, the second seeing the cache the first left. */
  lemma RunLoadsPair(files: Files, a: string, b: string, t0: real, t1: real, fetch: Provider)
    ensures var s0 := LoadSpec(files, true, a, t0, fetch);
      var s1 := LoadSpec(s0.files, true, b, t1, fetch);
      var run := RunLoads(files, [a, b], [t0, t1], fetch);
      && run.loads == [s0.data, s1.data]
      && run.calls == (if s0.fetched then 1 else 0) + (if s1.fetched then 1 else 0)
  {
    var s0 := LoadSpec(files, true, a, t0, fetch);
    assert [a][..0] == [] && [t0][..0] == [];
    assert RunLoads(files, [], [], fetch) == Batch([], files, 0, []);
    var first := RunLoads(files, [a], [t0], fetch);
    assert first.loads == [s0.data] && first.files == s0.files;
    assert first.calls == (if s0.fetched then 1 else 0);
    assert [a, b][..1] == [a] && [t0, t1][..1] == [t0];
  }

  /**
   * A ticker listed twice in one batch, in any mix of cases, costs one provider call when the
   * second load comes within 24 hours of the first: the second is served from the cache.
   */
  lemma RepeatedTickerLoadedOnce(files: Files, a: string, b: string, t0: real, t1: real, fetch: Provider)
    requires Upper(a) == Upper(b)
    requires CachePath(a) !in files && fetch(Upper(a)).Some?
    requires t0 <= t1 < t0 + 86400.0
    ensures var run := RunLoads(files, [a, b], [t0, t1], fetch);
      run.calls == 1 && run.loads == [fetch(Upper(a)), fetch(Upper(a))]
  {
    var s0 := LoadSpec(files, true, a, t0, fetch);
    CacheTtlIdempotence(files, a, t0, t1, t0 + 86400.0, fetch);
    LoadCaseInsensitive(s0.files, true, a, b, t1, fetch);
    RunLoadsPair(files, a, b, t0, t1, fetch);
  }
}
