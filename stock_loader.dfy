/**
 * The cached, rate-limited retrieval of `stockvaluator.py`: `StockDataLoader.load` in front of the
 * market-data provider, with one pickle file per upper-cased ticker that stays fresh for 24 hours.
 *
 * The cache directory is modelled as a map from file path to the stored snapshot and the file's
 * modification time; the clock reading and the provider are parameters of `Load`.
 */
module StockLoader {
  import opened Options
  import opened Frames

  const CacheTtlHours: real := 24.0
  const SecondsPerHour: real := 3600.0
  const CacheDirName: string := "stock_cache"

  /** `_is_cache_valid`: the file's age in hours is below the TTL (a file dated in the future counts as fresh). */
  function IsCacheValid(modified: real, now: real): (valid: bool)
    ensures valid <==> now - modified < 86400.0
  {
    (now - modified) / SecondsPerHour < CacheTtlHours
  }

  /** `str.upper` on one character, for ASCII letters. */
  function UpperChar(c: char): (u: char)
    ensures 'a' <= c <= 'z' ==> 'A' <= u <= 'Z' && u as int == c as int - 32
    ensures !('a' <= c <= 'z') ==> u == c
  {
    if 'a' <= c <= 'z' then (c as int - 32) as char else c
  }

  function Upper(s: string): (u: string)
    ensures |u| == |s|
    ensures forall i :: 0 <= i < |s| ==> u[i] == UpperChar(s[i])
  {
    if s == [] then [] else [UpperChar(s[0])] + Upper(s[1..])
  }

  /** Upper-casing twice is upper-casing once, so `load` and `_cache_path` agree on the key. */
  lemma UpperIdempotent(s: string)
    ensures Upper(Upper(s)) == Upper(s)
  {
    assert forall i :: 0 <= i < |s| ==> UpperChar(UpperChar(s[i])) == UpperChar(s[i]);
  }

  /** `_cache_path`: the pickle file of a ticker in the cache directory, named by the upper-cased ticker. */
  function CachePath(ticker: string): (p: string)
    ensures |p| == |CacheDirName| + |ticker| + 5
    ensures p[..|CacheDirName| + 1] == CacheDirName + "/" && p[|p| - 4..] == ".pkl"
    ensures p[|CacheDirName| + 1..|p| - 4] == Upper(ticker)
  {
    var p := CacheDirName + "/" + Upper(ticker) + ".pkl";
    assert p[..|CacheDirName| + 1] == CacheDirName + "/";
    assert p[|CacheDirName| + 1..|p| - 4] == Upper(ticker);
    p
  }

  /** Two tickers share a cache file exactly when they agree after upper-casing. */
  lemma CachePathCaseInsensitive(a: string, b: string)
    ensures CachePath(a) == CachePath(b) <==> Upper(a) == Upper(b)
  {
    if CachePath(a) == CachePath(b) {
      var n := |CacheDirName + "/"|;
      assert |Upper(a)| == |CachePath(a)| - n - 4 == |Upper(b)|;
      assert Upper(a) == CachePath(a)[n..n + |Upper(a)|];
      assert Upper(b) == CachePath(b)[n..n + |Upper(b)|];
    }
  }

  /** A pickle file: the snapshot dumped by `load` and the file's modification time. */
  datatype CacheEntry = CacheEntry(data: Snapshot, modified: real)

  type Files = map<string, CacheEntry>

  /** The provider round for an upper-cased ticker: a snapshot, or `None` when it raises. */
  type Provider = string -> Option<Snapshot>

  /** What one `load` call does: its result, the cache afterwards, whether the provider was called, and the warning printed. */
  datatype LoadStep = LoadStep(data: Option<Snapshot>, files: Files, fetched: bool, warning: Option<string>)

  /** A fresh cache file for the ticker exists and caching is on. */
  predicate IsHit(files: Files, useCache: bool, ticker: string, now: real) {
    var path := CachePath(ticker);
    useCache && path in files && IsCacheValid(files[path].modified, now)
  }

  /**
   * `StockDataLoader.load`: a fresh cache file is returned as it is; otherwise, after the pause,
   * exactly one provider round for the upper-cased ticker. Its snapshot is stored (when caching
   * is on) stamped with the clock reading and returned; a failure prints a warning naming the
   * ticker and returns `None`, leaving the cache as it was.
   */
  function LoadSpec(files: Files, useCache: bool, ticker: string, now: real, fetch: Provider): (r: LoadStep)
    ensures r.fetched <==> !IsHit(files, useCache, ticker, now)
    ensures !r.fetched ==> r.files == files && r.data == Some(files[CachePath(ticker)].data)
    ensures r.fetched ==> r.data == fetch(Upper(ticker))
    ensures r.data.None? || !useCache ==> r.files == files
    ensures r.fetched && r.data.Some? && useCache ==>
      r.files == files[CachePath(ticker) := CacheEntry(r.data.value, now)]
    ensures r.warning.Some? <==> r.fetched && r.data.None?
    ensures r.warning.Some? ==> r.warning.value == Upper(ticker)
  {
    var key := Upper(ticker);
    var path := CachePath(key);
    UpperIdempotent(ticker);
    if useCache && path in files && IsCacheValid(files[path].modified, now) then
      LoadStep(Some(files[path].data), files, false, None)
    else
      match fetch(key)
      case None => LoadStep(None, files, true, Some(key))
      case Some(data) =>
        LoadStep(Some(data), if useCache then files[path := CacheEntry(data, now)] else files, true, None)
  }

  /** Keys are case-insensitive: tickers that agree after upper-casing load alike. */
  lemma LoadCaseInsensitive(files: Files, useCache: bool, a: string, b: string, now: real, fetch: Provider)
    requires Upper(a) == Upper(b)
    ensures LoadSpec(files, useCache, a, now, fetch) == LoadSpec(files, useCache, b, now, fetch)
  {
    CachePathCaseInsensitive(a, b);
  }

  /**
   * The TTL at work: a first load that fetches, a second within 24 hours of it that is served from
   * the cache without a provider call, and a third 24 hours or more after the first that fetches again.
   */
  lemma CacheTtlIdempotence(files: Files, ticker: string, t0: real, t1: real, t2: real, fetch: Provider)
    requires CachePath(ticker) !in files && fetch(Upper(ticker)).Some?
    requires t0 <= t1 < t0 + 86400.0 <= t2
    ensures var s0 := LoadSpec(files, true, ticker, t0, fetch);
            var s1 := LoadSpec(s0.files, true, ticker, t1, fetch);
            var s2 := LoadSpec(s1.files, true, ticker, t2, fetch);
            s0.fetched && !s1.fetched && s2.fetched && s1.data == s0.data
  {
    var s0 := LoadSpec(files, true, ticker, t0, fetch);
    assert s0.files[CachePath(ticker)].modified == t0;
  }

  /** With caching off the cache is never consulted or written, and every load calls the provider. */
  lemma NoCacheAlwaysFetches(files: Files, ticker: string, now: real, fetch: Provider)
    ensures LoadSpec(files, false, ticker, now, fetch).fetched
    ensures LoadSpec(files, false, ticker, now, fetch).files == files
    ensures LoadSpec(files, false, ticker, now, fetch).data == fetch(Upper(ticker))
  {
  }

  /** The on-disk cache directory, shared by every loader. */
  class CacheDir {
    var files: Files

    constructor (files: Files)
      ensures this.files == files
    {
      this.files := files;
    }
  }

  class StockDataLoader {
    const useCache: bool
    const dir: CacheDir
    /** Provider rounds made so far; each one is preceded by the rate-limiting pause. */
    ghost var providerCalls: nat
    /** The tickers named in the warnings printed so far. */
    ghost var warnings: seq<string>

    constructor (useCache: bool, dir: CacheDir)
      ensures this.useCache == useCache && this.dir == dir
      ensures providerCalls == 0 && warnings == []
    {
      this.useCache := useCache;
      this.dir := dir;
      providerCalls := 0;
      warnings := [];
    }

    /** `load(ticker)` at clock reading `now`, with `fetch` standing for the provider round. */
    method Load(ticker: string, now: real, fetch: Provider) returns (data: Option<Snapshot>)
      modifies this, dir
      ensures var step := LoadSpec(old(dir.files), useCache, ticker, now, fetch);
        && data == step.data
        && dir.files == step.files
        && providerCalls == old(providerCalls) + (if step.fetched then 1 else 0)
        && warnings == old(warnings) + (if step.warning.Some? then [step.warning.value] else [])
    {
      var key := Upper(ticker);
      var path := CachePath(key);
      UpperIdempotent(ticker);
      if useCache && path in dir.files && IsCacheValid(dir.files[path].modified, now) {
        return Some(dir.files[path].data);
      }
      // the randomized pause of 0.8 to 1.4 seconds happens here; its duration is not modelled
      providerCalls := providerCalls + 1;
      var reply := fetch(key);
      if reply.None? {
        warnings := warnings + [key];
        return None;
      }
      if useCache {
        dir.files := dir.files[path := CacheEntry(reply.value, now)];
      }
      return reply;
    }
  }
}
