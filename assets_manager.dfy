/**
 * `PKAssetsManager.loadStockData` and the two cache readers it calls: the tier
 * sequence that fills the stock dictionary from a fresh provider download, the
 * local pickle, the pkscreener server snapshot and again the provider.
 *
 * The environment of a run is a `World`: the trading calendar and clock, the
 * provider oracle (indexed by the number of `downloadLatestData` calls made so
 * far), the provider's error registry after that many calls, the server's reply
 * and what the user would type at the replace prompt. The code list and the
 * user data directory are objects the run changes in place.
 */
module AssetsManager {
  import opened PyValues
  import opened CacheFiles
  import opened RateLimit
  import opened ServerSize
  import opened BatchDownload
  import opened Merge

  /** The `ConfigManager` settings the pipeline reads, with its class-level defaults. */
  datatype Config = Config(period: string, duration: string, isIntradayConfig: bool, baseIndex: string,
                           defaultPeriod: string, defaultDuration: string)

  /** A pickle file: unreadable (`UnpicklingError`/`EOFError`), or a dictionary with its keys in order. */
  datatype Content = Corrupt | Pickled(keys: seq<string>, data: StockDict)

  /** `Utility.tools.tryFetchFromServer`: no response, or a status, a length header and a body. */
  datatype ServerReply = NoReply | Reply(status: int, contentLength: ContentLength, body: Content)

  datatype World = World(
    calendar: Calendar,
    clock: Clock,
    tradedToday: bool,        // PKDateUtilities.wasTradedOn()
    holidayToday: bool,       // PKDateUtilities.isTodayHoliday()[0]
    provider: (nat, string, nat) -> Option<Record>,
    errorLog: nat -> seq<string>,
    server: ServerReply,
    typedAnswer: string)

  /** The caller's `stockCodes` list, which `loadStockData` changes in place. */
  class StockCodes {
    var items: seq<string>

    constructor (items: seq<string>)
      ensures this.items == items
    {
      this.items := items;
    }
  }

  /** The user data directory: file name to pickled content. */
  class DataDir {
    var files: map<string, Content>

    constructor (files: map<string, Content>)
      ensures this.files == files
    {
      this.files := files;
    }
  }

  /** Why a provider download ran. */
  datatype Kind =
    | Fresh       // trading or download-only: the origin first
    | Retry       // its 5% repeat
    | Fallback    // no cache tier delivered
    | Corrective  // the closing 5% repeat

  /** What one `loadStockData` call did, in order (a re-entered call keeps its own record). */
  datatype Step =
    | Download(kind: Kind, codes: seq<string>, round: nat)
    | ReadLocal(loaded: bool)
    | FetchServer(loaded: bool)
    | Reenter
    | Save

  /** How a call ended: with a dictionary, or with an exception that escaped it. */
  datatype Outcome = Returned(dict: StockDict) | Raised

  // ---------------------------------------------------------------------------
  // Decisions
  // ---------------------------------------------------------------------------

  /**
   * The trading test of `loadStockData`: the market is trading and today is a
   * trading day, and the user's download option does not mark a backtest.
   */
  function IsTradingSession(w: World, userDownloadOption: Option<string>): (r: bool)
    ensures !w.clock.tradingTime ==> !r
    ensures w.holidayToday && !w.tradedToday ==> !r
    ensures userDownloadOption.Some? && Contains(userDownloadOption.value, "B") ==> !r
    ensures w.clock.tradingTime && (w.tradedToday || !w.holidayToday) && userDownloadOption.None? ==> r
  {
    && w.clock.tradingTime
    && (w.tradedToday || !w.holidayToday)
    && !(userDownloadOption.Some? && Contains(userDownloadOption.value, "B"))
  }

  /**
   * A backtest option never trades; the re-entered call drops the option, so in
   * a trading session it trades although the outer call did not.
   */
  lemma BacktestOptionDroppedOnReentry(w: World, option: string)
    requires Contains(option, "B")
    ensures !IsTradingSession(w, Some(option))
    ensures w.clock.tradingTime && !w.holidayToday ==> IsTradingSession(w, None)
  {
  }

  /**
   * `len(missing) > int(len(codes) * 0.05) and not had_rate_limit_errors()`;
   * `int(n * 0.05)` is `n / 20` for every list length.
   */
  predicate NeedsCorrection(missing: nat, requested: nat, errors: seq<string>): (r: bool)
    ensures r ==> 0 < missing && !HadRateLimitErrors(errors)
    ensures requested < 20 ==> (r <==> 0 < missing && !HadRateLimitErrors(errors))
    ensures missing > requested ==> (r <==> !HadRateLimitErrors(errors))
  {
    missing > requested / 20 && !HadRateLimitErrors(errors)
  }

  /** The 5% rule without division: more than one code in twenty is missing. */
  lemma CorrectionThreshold(missing: nat, requested: nat, errors: seq<string>)
    ensures NeedsCorrection(missing, requested, errors) <==> 20 * missing > requested && !HadRateLimitErrors(errors)
  {
    var q := requested / 20;
    assert requested == 20 * q + requested % 20;
  }

  /** `if baseIndex not in stockCodes: stockCodes.insert(0, baseIndex)`. */
  function WithBaseIndex(codes: seq<string>, base: string): (r: seq<string>)
    ensures base in r
    ensures Elements(r) == Elements(codes) + {base}
    ensures base in codes ==> r == codes
    ensures base !in codes ==> r == [base] + codes
  {
    if base in codes then codes else [base] + codes
  }

  /** Inserting the base index twice is inserting it once. */
  lemma WithBaseIndexIdempotent(codes: seq<string>, base: string)
    ensures WithBaseIndex(WithBaseIndex(codes, base), base) == WithBaseIndex(codes, base)
  {
  }

  /** ASCII `str.upper` of one character. */
  function UpperChar(c: char): (u: char)
    ensures u == 'N' <==> c == 'n' || c == 'N'
  {
    if 'a' <= c <= 'z' then (c as int - 32) as char else c
  }

  /** `str.upper` on ASCII text. */
  function Upper(s: string): (r: string)
    ensures |r| == |s|
    ensures forall i :: 0 <= i < |s| ==> r[i] == UpperChar(s[i])
  {
    if |s| == 0 then "" else [UpperChar(s[0])] + Upper(s[1..])
  }

  /**
   * `promptFileExists`: a given default answer is used as it is, a typed one is
   * upper-cased. Which inputs give "N" is stated by `PromptAnswers`.
   */
  function PromptFileExists(defaultAnswer: Option<string>, typed: string): (r: string)
    ensures r == "Y" || r == "N"
  {
    var response := if defaultAnswer.Some? then defaultAnswer.value
                    else Upper(if |typed| == 0 then "Y" else typed);
    if response != "N" then "Y" else "N"
  }

  /**
   * The answer is "N" exactly for a default of "N" or, without a default, a typed
   * "n" or "N"; a default "n" is not upper-cased and counts as "Y".
   */
  lemma PromptAnswers(defaultAnswer: Option<string>, typed: string)
    ensures PromptFileExists(defaultAnswer, typed) == "N" <==>
            defaultAnswer == Some("N") || (defaultAnswer.None? && (typed == "n" || typed == "N"))
    ensures PromptFileExists(Some("n"), typed) == "Y"
  {
    if defaultAnswer.None? && |typed| > 0 {
      var u := Upper(typed);
      if u == "N" {
        assert UpperChar(typed[0]) == 'N';
        assert typed == [typed[0]];
      }
      if typed == "n" || typed == "N" {
        assert u == [UpperChar(typed[0])];
      }
    }
    assert "n" != "N";
  }

  /**
   * `deleteFileWithPattern()` with its default pattern, taken here as every
   * `*stock_data_*.pkl` file of the user data directory.
   */
  predicate IsCacheFileName(f: string) {
    Contains(f, "stock_data_") && EndsWith(f, ".pkl")
  }

  function DeleteCacheFiles(files: map<string, Content>): (r: map<string, Content>)
    ensures forall f :: f in r <==> f in files && !IsCacheFileName(f)
    ensures forall f :: f in r ==> r[f] == files[f]
  {
    map f | f in files && !IsCacheFileName(f) :: files[f]
  }

  /** Every cache file name is removed by the cleanup. */
  lemma CacheFileNamesAreCacheFiles(intraday: bool, d: Date)
    ensures IsCacheFileName(CacheFileName(intraday, d))
  {
    var name := CacheFileName(intraday, d);
    var at := |FilePrefix(intraday)| - 11;
    assert name[at..at + 11] == "stock_data_";
    assert OccursAt(name, "stock_data_", at);
  }

  /** The cache file of a run. */
  function CacheNameFor(cfg: Config, w: World, isIntraday: bool): string {
    CacheFileName(isIntraday || cfg.isIntradayConfig, CacheDay(w.calendar, w.clock))
  }

  /** The provider as the `round`-th `downloadLatestData` call sees it. */
  function ProviderAt(w: World, round: nat): Fetch {
    (ticker: string, attempt: nat) => w.provider(round, ticker, attempt)
  }

  /** A dictionary and the number of `downloadLatestData` calls made. */
  datatype Phase = Phase(dict: StockDict, rounds: nat)

  /** The record one `downloadLatestData` call stores for a ticker: the first attempt's answer, else the retry's. */
  function Answer(fetch: Fetch, ticker: string): Option<Record> {
    if fetch(ticker, 0).Some? then fetch(ticker, 0) else fetch(ticker, 1)
  }

  /** Lines 394-397: the fresh tier repeats the download when its first call left more than 5% missing. */
  predicate FreshRepeats(d: StockDict, codes: seq<string>, suffix: string, w: World, round: nat) {
    NeedsCorrection(|Downloaded(d, codes, suffix, ProviderAt(w, round)).failed|, |codes|, w.errorLog(round + 1))
  }

  /** The trading or download-only tier: one download, and a repeat for the failures past 5%. */
  function FreshPhase(d: StockDict, codes: seq<string>, suffix: string, w: World, round: nat): (p: Phase)
    ensures round + 1 <= p.rounds <= round + 2
  {
    var first := Downloaded(d, codes, suffix, ProviderAt(w, round));
    if FreshRepeats(d, codes, suffix, w, round) then
      Phase(Downloaded(first.dict, first.failed, suffix, ProviderAt(w, round + 1)).dict, round + 2)
    else Phase(first.dict, round + 1)
  }

  /**
   * A second `downloadLatestData` call over the first call's failures: a
   * requested code holds the first call's answer, else the second's, else its
   * old slot.
   */
  lemma RepeatSlots(d: StockDict, codes: seq<string>, suffix: string, f0: Fetch, f1: Fetch)
    ensures var first := Downloaded(d, codes, suffix, f0);
      forall k :: k in codes ==>
                    SlotOf(Downloaded(first.dict, first.failed, suffix, f1).dict, k) ==
                    if Answer(f0, k + suffix).Some? then Holds(Answer(f0, k + suffix))
                    else if Answer(f1, k + suffix).Some? then Holds(Answer(f1, k + suffix))
                    else SlotOf(d, k)
    ensures var first := Downloaded(d, codes, suffix, f0);
      forall k :: k !in codes ==> SlotOf(Downloaded(first.dict, first.failed, suffix, f1).dict, k) == SlotOf(d, k)
    ensures var first := Downloaded(d, codes, suffix, f0);
      d.Keys <= Downloaded(first.dict, first.failed, suffix, f1).dict.Keys
  {
    var first := Downloaded(d, codes, suffix, f0);
    DownloadedSlots(d, codes, suffix, f0);
    DownloadedFailed(d, codes, suffix, f0);
    DownloadedKeys(d, codes, suffix, f0);
    DownloadedSlots(first.dict, first.failed, suffix, f1);
    DownloadedKeys(first.dict, first.failed, suffix, f1);
  }

  /**
   * The fresh tier keeps every key and touches no key outside the code list. A
   * requested code holds the first call's answer; failing that, the repeat
   * call's answer when the repeat runs; failing both, its old slot.
   */
  lemma FreshPhaseSlots(d: StockDict, codes: seq<string>, suffix: string, w: World, round: nat)
    ensures d.Keys <= FreshPhase(d, codes, suffix, w, round).dict.Keys
    ensures forall k :: k in codes ==>
                          SlotOf(FreshPhase(d, codes, suffix, w, round).dict, k) ==
                          if Answer(ProviderAt(w, round), k + suffix).Some?
                          then Holds(Answer(ProviderAt(w, round), k + suffix))
                          else if FreshRepeats(d, codes, suffix, w, round)
                                  && Answer(ProviderAt(w, round + 1), k + suffix).Some?
                          then Holds(Answer(ProviderAt(w, round + 1), k + suffix))
                          else SlotOf(d, k)
    ensures forall k :: k !in codes ==> SlotOf(FreshPhase(d, codes, suffix, w, round).dict, k) == SlotOf(d, k)
  {
    var f0 := ProviderAt(w, round);
    var first := Downloaded(d, codes, suffix, f0);
    if FreshRepeats(d, codes, suffix, w, round) {
      var f1 := ProviderAt(w, round + 1);
      assert FreshPhase(d, codes, suffix, w, round).dict == Downloaded(first.dict, first.failed, suffix, f1).dict;
      RepeatSlots(d, codes, suffix, f0, f1);
    } else {
      assert FreshPhase(d, codes, suffix, w, round).dict == first.dict;
      DownloadedSlots(d, codes, suffix, f0);
      DownloadedKeys(d, codes, suffix, f0);
    }
  }

  /** A sequence with the elements of a set, each once, in no particular order. */
  method ListOfSet(s: set<string>) returns (xs: seq<string>)
    ensures Elements(xs) == s && Distinct(xs) && |xs| == |s|
  {
    xs := [];
    var rest := s;
    while rest != {}
      invariant Elements(xs) + rest == s
      invariant Elements(xs) !! rest
      invariant Distinct(xs)
      invariant |xs| + |rest| == |s|
      decreases |rest|
    {
      var x :| x in rest;
      ListStep(xs, rest, s, x);
      xs := xs + [x];
      rest := rest - {x};
    }
  }

  /** Moving one element from the rest of the set to the end of the list. */
  lemma ListStep(xs: seq<string>, rest: set<string>, s: set<string>, x: string)
    requires Elements(xs) + rest == s && Elements(xs) !! rest && Distinct(xs) && |xs| + |rest| == |s|
    requires x in rest
    ensures var ys, more := xs + [x], rest - {x};
      Elements(ys) + more == s && Elements(ys) !! more && Distinct(ys) && |ys| + |more| == |s|
  {
    var ys := xs + [x];
    assert Elements(ys) == Elements(xs) + {x};
    assert x !in xs;
  }

  // ---------------------------------------------------------------------------
  // The provider tiers
  // ---------------------------------------------------------------------------

  /** Lines 392-397: the origin download of a trading or download-only call, with its 5% repeat. */
  method DownloadPhase(d: StockDict, codes: seq<string>, suffix: string, w: World, round: nat)
    returns (r: StockDict, rounds: nat, ghost trace: seq<Step>)
    ensures Phase(r, rounds) == FreshPhase(d, codes, suffix, w, round)
    ensures d.Keys <= r.Keys
    ensures |trace| == rounds - round && trace[0] == Download(Fresh, codes, round)
    ensures forall i :: 0 < i < |trace| ==>
      trace[i].Download? && trace[i].kind == Retry && !HadRateLimitErrors(w.errorLog(trace[i].round))
  {
    FreshPhaseSlots(d, codes, suffix, w, round);
    var leftOutStocks;
    ghost var batches;
    r, leftOutStocks, batches := DownloadLatestData(d, codes, suffix, ProviderAt(w, round));
    rounds := round + 1;
    trace := [Download(Fresh, codes, round)];
    if |leftOutStocks| > |codes| / 20 && !HadRateLimitErrors(w.errorLog(rounds)) {
      var unused;
      r, unused, batches := DownloadLatestData(r, leftOutStocks, suffix, ProviderAt(w, rounds));
      trace := trace + [Download(Retry, leftOutStocks, rounds)];
      rounds := rounds + 1;
    }
  }

  /** The record of the closing tier: fallback, corrective pass and save, each when it ran. */
  function TailTrace(codes: seq<string>, round: nat, fallback: bool, corrective: Option<seq<string>>, saved: bool)
    : seq<Step>
  {
    var next := if fallback then round + 1 else round;
    (if fallback then [Download(Fallback, codes, round)] else [])
    + (if corrective.Some? then [Download(Corrective, corrective.value, next)] else [])
    + (if saved then [Save] else [])
  }

  /** One `downloadLatestData` call against the provider's answers for `round`. */
  method ProviderRound(d: StockDict, codes: seq<string>, suffix: string, w: World, round: nat)
    returns (r: StockDict)
    ensures r == Downloaded(d, codes, suffix, ProviderAt(w, round)).dict
    ensures d.Keys <= r.Keys <= d.Keys + Elements(codes)
  {
    DownloadedKeys(d, codes, suffix, ProviderAt(w, round));
    var unused;
    ghost var batches;
    r, unused, batches := DownloadLatestData(d, codes, suffix, ProviderAt(w, round));
  }

  /**
   * Lines 426-435: the provider fallback when no cache tier delivered, the
   * corrective pass for the codes still missing past 5%, and the save of a
   * download-only call. `mid` is the dictionary after the fallback.
   */
  method FinishLoad(d: StockDict, loadedIn: bool, recentDownload: bool, initialLoadCount: nat,
                    codes: seq<string>, suffix: string, w: World, round: nat, downloadOnly: bool)
    returns (r: StockDict, rounds: nat, fallback: bool, mid: StockDict,
             corrective: Option<seq<string>>, saved: bool)
    ensures fallback <==> !loadedIn && !recentDownload && !HadRateLimitErrors(w.errorLog(round))
    ensures mid == if fallback then Downloaded(d, codes, suffix, ProviderAt(w, round)).dict else d
    ensures corrective.Some? <==>
      20 * |set c | c in codes && c !in mid| > |codes| && !HadRateLimitErrors(w.errorLog(if fallback then round + 1 else round))
    ensures corrective.Some? ==>
      && Elements(corrective.value) == (set c | c in codes && c !in mid)
      && Distinct(corrective.value)
      && r == Downloaded(mid, corrective.value, suffix, ProviderAt(w, if fallback then round + 1 else round)).dict
    ensures corrective.None? ==> r == mid
    ensures d.Keys <= mid.Keys <= r.Keys
    ensures rounds == round + (if fallback then 1 else 0) + (if corrective.Some? then 1 else 0)
    ensures saved <==> downloadOnly && (loadedIn || (|mid| > 0 && |mid| != initialLoadCount))
  {
    r := d;
    rounds := round;
    fallback := false;
    corrective := None;
    saved := false;
    var stockDataLoaded := loadedIn;
    if !stockDataLoaded && !recentDownload && !HadRateLimitErrors(w.errorLog(rounds)) {
      r := ProviderRound(r, codes, suffix, w, rounds);
      fallback := true;
      rounds := rounds + 1;
    }
    mid := r;
    stockDataLoaded := stockDataLoaded || (|r| > 0 && |r| != initialLoadCount);
    var leftOutStocks := ListOfSet(set c | c in codes && c !in r);
    CorrectionThreshold(|leftOutStocks|, |codes|, w.errorLog(rounds));
    if |leftOutStocks| > |codes| / 20 && !HadRateLimitErrors(w.errorLog(rounds)) {
      r := ProviderRound(r, leftOutStocks, suffix, w, rounds);
      corrective := Some(leftOutStocks);
      rounds := rounds + 1;
    }
    if stockDataLoaded && downloadOnly {
      saved := true;
    }
  }

  // ---------------------------------------------------------------------------
  // Properties of a run's record
  // ---------------------------------------------------------------------------

  /** A cache tier that loaded something. */
  predicate Delivered(s: Step) {
    (s.ReadLocal? || s.FetchServer?) && s.loaded
  }

  predicate NoSave(t: seq<Step>) {
    forall i :: 0 <= i < |t| ==> !t[i].Save?
  }

  predicate AllDownloads(t: seq<Step>) {
    forall i :: 0 <= i < |t| ==> t[i].Download?
  }

  /** Once the provider has been asked, no cache tier follows. */
  predicate DownloadsLast(t: seq<Step>) {
    forall i, j :: 0 <= i < j < |t| && t[i].Download? ==> t[j].Download?
  }

  /** Every download but the first origin download ran only without a rate-limit signal. */
  predicate RateChecked(t: seq<Step>, w: World) {
    forall i :: 0 <= i < |t| && t[i].Download? && t[i].kind != Fresh ==> !HadRateLimitErrors(w.errorLog(t[i].round))
  }

  /** The fallback asks for the whole code list and only after no cache tier delivered. */
  predicate FallbackAfterMisses(t: seq<Step>, codes: seq<string>) {
    forall i :: 0 <= i < |t| && t[i].Download? && t[i].kind == Fallback ==>
      t[i].codes == codes && forall j :: 0 <= j < i ==> !Delivered(t[j])
  }

  /** The server is asked when forced, or for the default period and interval after a local miss. */
  predicate ServerTierGuarded(t: seq<Step>, forceRedownload: bool, defaultsMatch: bool) {
    forall i {:trigger t[i]} :: 0 <= i < |t| && t[i].FetchServer? ==>
      forceRedownload || (defaultsMatch && !(i > 0 && Delivered(t[i - 1])))
  }

  predicate NoReentry(t: seq<Step>) {
    forall i :: 0 <= i < |t| ==> t[i] != Reenter
  }

  /** `("1d" if isIntraday else default_period) == period` and the same for the interval. */
  predicate DefaultsMatch(cfg: Config, intraday: bool): (r: bool)
    ensures intraday ==> (r <==> cfg.period == "1d" && cfg.duration == "1m")
    ensures !intraday ==> (r <==> cfg.period == cfg.defaultPeriod && cfg.duration == cfg.defaultDuration)
  {
    && (if intraday then "1d" else cfg.defaultPeriod) == cfg.period
    && (if intraday then "1m" else cfg.defaultDuration) == cfg.duration
  }

  /** The facts of a record made only of downloads. */
  lemma DownloadTraceFacts(t: seq<Step>, codes: seq<string>, w: World, forceRedownload: bool, defaultsMatch: bool)
    requires |t| > 0 && t[0].Download? && t[0].kind == Fresh
    requires forall i :: 0 < i < |t| ==>
      t[i].Download? && t[i].kind == Retry && !HadRateLimitErrors(w.errorLog(t[i].round))
    ensures AllDownloads(t) && NoSave(t) && DownloadsLast(t) && RateChecked(t, w) && FallbackAfterMisses(t, codes)
    ensures ServerTierGuarded(t, forceRedownload, defaultsMatch) && NoReentry(t)
  {
  }

  /** Steps of the cache tiers only: no provider download and no save. */
  predicate CacheSteps(c: seq<Step>) {
    forall i :: 0 <= i < |c| ==> c[i].ReadLocal? || c[i].FetchServer? || c[i] == Reenter
  }

  predicate HasFallback(t: seq<Step>) {
    exists i :: 0 <= i < |t| && t[i].Download? && t[i].kind == Fallback
  }

  /** The closing tier on its own: downloads only, each rate-checked, the fallback first. */
  lemma TailFacts(codes: seq<string>, w: World, round: nat, fallback: bool, corrective: Option<seq<string>>)
    requires fallback ==> !HadRateLimitErrors(w.errorLog(round))
    requires corrective.Some? ==> !HadRateLimitErrors(w.errorLog(if fallback then round + 1 else round))
    ensures var tail := TailTrace(codes, round, fallback, corrective, false);
      && AllDownloads(tail) && NoSave(tail) && RateChecked(tail, w) && FallbackAfterMisses(tail, codes)
      && (HasFallback(tail) ==> fallback)
  {
  }

  /** Appending downloads to cache steps keeps every property of the record. */
  lemma AppendDownloads(c: seq<Step>, tail: seq<Step>, w: World, codes: seq<string>,
                        forceRedownload: bool, defaultsMatch: bool)
    requires CacheSteps(c) && ServerTierGuarded(c, forceRedownload, defaultsMatch)
    requires AllDownloads(tail) && NoSave(tail) && RateChecked(tail, w) && FallbackAfterMisses(tail, codes)
    requires HasFallback(tail) ==> forall j :: 0 <= j < |c| ==> !Delivered(c[j])
    ensures var t := c + tail;
      && NoSave(t) && DownloadsLast(t) && RateChecked(t, w) && FallbackAfterMisses(t, codes)
      && ServerTierGuarded(t, forceRedownload, defaultsMatch)
      && (NoReentry(c) ==> NoReentry(t))
  {
    var t := c + tail;
    assert forall i :: 0 <= i < |c| ==> t[i] == c[i];
    assert forall i :: |c| <= i < |t| ==> t[i] == tail[i - |c|];
    forall i | 0 <= i < |t| && t[i].FetchServer?
      ensures forceRedownload || (defaultsMatch && !(i > 0 && Delivered(t[i - 1])))
    {
      assert t[i] == c[i] && c[i].FetchServer?;
      assert forceRedownload || (defaultsMatch && !(i > 0 && Delivered(c[i - 1])));
      if i > 0 {
        assert t[i - 1] == c[i - 1];
      }
    }
    forall i | 0 <= i < |t| && t[i].Download? && t[i].kind == Fallback
      ensures t[i].codes == codes && forall j :: 0 <= j < i ==> !Delivered(t[j])
    {
      assert tail[i - |c|] == t[i];
      assert HasFallback(tail);
      forall j | 0 <= j < i ensures !Delivered(t[j]) {
        if j >= |c| {
          assert t[j] == tail[j - |c|];
        }
      }
    }
  }

  /** The cache tiers as `loadStockData` runs them: local pickle, then server, then one re-entry. */
  lemma CacheStepFacts(local: seq<Step>, server: seq<Step>, retrial: bool, forceRedownload: bool, defaultsMatch: bool)
    requires |local| <= 1 && (|local| == 1 ==> local[0].ReadLocal?)
    requires |server| <= 2 && (|server| > 0 ==> server[0].FetchServer?) && (|server| == 2 ==> server[1] == Reenter)
    requires |server| == 2 ==> !retrial
    requires |server| > 0 ==> forceRedownload || (defaultsMatch && !(|local| == 1 && Delivered(local[0])))
    ensures var c := local + server;
      && CacheSteps(c) && ServerTierGuarded(c, forceRedownload, defaultsMatch)
      && (retrial ==> NoReentry(c))
      && (forall j :: 0 <= j < |c| && Delivered(c[j]) ==>
            (|local| == 1 && Delivered(local[0])) || (|server| > 0 && Delivered(server[0])))
  {
    var c := local + server;
    assert forall i :: 0 <= i < |local| ==> c[i] == local[0];
    assert forall i :: |local| <= i < |c| ==> c[i] == server[i - |local|];
  }

  /** The facts of a record made of the cache tiers and the closing tier. */
  lemma CacheTraceFacts(local: seq<Step>, server: seq<Step>, tail: seq<Step>, w: World, codes: seq<string>,
                        round: nat, fallback: bool, corrective: Option<seq<string>>,
                        retrial: bool, forceRedownload: bool, defaultsMatch: bool)
    requires |local| <= 1 && (|local| == 1 ==> local[0].ReadLocal?)
    requires |server| <= 2 && (|server| > 0 ==> server[0].FetchServer?) && (|server| == 2 ==> server[1] == Reenter)
    requires |server| == 2 ==> !retrial
    requires |server| > 0 ==> forceRedownload || (defaultsMatch && !(|local| == 1 && Delivered(local[0])))
    requires tail == TailTrace(codes, round, fallback, corrective, false)
    requires fallback ==> !(|local| == 1 && Delivered(local[0])) && !(|server| > 0 && Delivered(server[0]))
    requires fallback ==> !HadRateLimitErrors(w.errorLog(round))
    requires corrective.Some? ==> !HadRateLimitErrors(w.errorLog(if fallback then round + 1 else round))
    ensures var t := local + server + tail;
      && NoSave(t) && DownloadsLast(t) && RateChecked(t, w) && FallbackAfterMisses(t, codes)
      && ServerTierGuarded(t, forceRedownload, defaultsMatch)
      && (retrial ==> NoReentry(t))
  {
    CacheStepFacts(local, server, retrial, forceRedownload, defaultsMatch);
    TailFacts(codes, w, round, fallback, corrective);
    AppendDownloads(local + server, tail, w, codes, forceRedownload, defaultsMatch);
  }

  // ---------------------------------------------------------------------------
  // The cache tiers
  // ---------------------------------------------------------------------------

  /**
   * `loadDataFromLocalPickle`. A missing file raises (`open` fails outside the
   * handled errors); an unreadable one is reported and, when the prompt answers
   * "Y", the cache files are deleted; an empty one loads nothing; otherwise the
   * snapshot is merged symbol by symbol, and a raising merge escapes.
   */
  method LoadDataFromLocalPickle(stockDict: StockDict, dir: DataDir, cacheFile: string,
                                 defaultAnswer: Option<string>, typed: string, suffix: string, isTrading: bool)
    returns (out: Outcome, loaded: bool)
    modifies dir
    ensures cacheFile !in old(dir.files) ==> out.Raised? && !loaded && dir.files == old(dir.files)
    ensures cacheFile in old(dir.files) && old(dir.files)[cacheFile].Corrupt? ==>
      out == Returned(stockDict) && !loaded &&
      dir.files == (if PromptFileExists(defaultAnswer, typed) == "Y" then DeleteCacheFiles(old(dir.files)) else old(dir.files))
    ensures cacheFile in old(dir.files) && old(dir.files)[cacheFile].Pickled? ==>
      var c := old(dir.files)[cacheFile];
      && dir.files == old(dir.files)
      && (|c.data| == 0 ==> out == Returned(stockDict) && !loaded)
      && (|c.data| > 0 ==>
            loaded == out.Returned?
            && out == match LocalMergeSpec(stockDict, c.data, LocalCodes(c.keys, suffix), isTrading)
                      case Crashed => Raised
                      case Merged(m) => Returned(m))
    ensures out.Returned? ==> stockDict.Keys <= out.dict.Keys
  {
    loaded := false;
    if cacheFile !in dir.files {
      return Raised, false;
    }
    var stockData := dir.files[cacheFile];
    match stockData
    case Corrupt =>
      if PromptFileExists(defaultAnswer, typed) == "Y" {
        dir.files := DeleteCacheFiles(dir.files);
      }
      out := Returned(stockDict);
    case Pickled(keys, data) =>
      if |data| == 0 {
        return Returned(stockDict), false;
      }
      var listStockCodes := LocalCodes(keys, suffix);
      MergesKeepKeys(stockDict, data, listStockCodes, isTrading);
      var merged := MergeLocalSnapshot(stockDict, data, listStockCodes, isTrading);
      match merged
      case Crashed =>
        out := Raised;
      case Merged(m) =>
        out := Returned(m);
        loaded := true;
  }

  /** The server reply's snapshot as the streaming path uses it, or `None`. */
  function ServerSnapshot(reply: ServerReply): Option<Content> {
    if reply.Reply? && reply.status == 200 && ServerBytes(reply.contentLength).Some?
       && StreamUsable(ServerBytes(reply.contentLength).value) then Some(reply.body)
    else None
  }

  /** The server snapshot holds a non-empty dictionary. */
  predicate ServerDelivers(reply: ServerReply) {
    ServerSnapshot(reply).Some? && ServerSnapshot(reply).value.Pickled? && |ServerSnapshot(reply).value.data| > 0
  }

  /** The pipeline never touches a file that is not a cache file, and adds at most the run's cache file. */
  predicate KeepsOtherFiles(before: map<string, Content>, after: map<string, Content>, added: set<string>) {
    && (forall f :: f in after ==> f in before || f in added)
    && (forall f :: f in before && f !in added && !IsCacheFileName(f) ==> f in after && after[f] == before[f])
  }

  lemma KeepsOtherFilesTrans(a: map<string, Content>, b: map<string, Content>, c: map<string, Content>, added: set<string>)
    requires KeepsOtherFiles(a, b, added) && KeepsOtherFiles(b, c, added)
    ensures KeepsOtherFiles(a, c, added)
  {
  }

  /**
   * `downloadSavedDataFromServer`. A reply other than status 200 does nothing; a
   * malformed length raises; a reply of at least 41 MB overwrites the cache file
   * and, when it holds a non-empty dictionary, is merged symbol by symbol. A call
   * that is not itself a retrial and loaded nothing re-enters `loadStockData`
   * once — without the user's download option.
   */
  method DownloadSavedDataFromServer(stockDict: StockDict, cfg: Config, w: World, downloadOnly: bool,
                                     defaultAnswer: Option<string>, retrial: bool, forceLoad: bool,
                                     codes: StockCodes, suffix: string, isIntraday: bool, forceRedownload: bool,
                                     cacheFile: string, isTrading: bool, dir: DataDir, round: nat)
    returns (out: Outcome, loaded: bool, rounds: nat, ghost trace: seq<Step>)
    modifies codes, dir
    decreases if retrial then 0 else 1, 0
    ensures trace == [FetchServer(loaded)] + (if Reenter in trace then [Reenter] else [])
    ensures loaded <==> ServerDelivers(w.server)
    ensures loaded ==> out == Returned(ServerMergeSpec(stockDict, w.server.body.data,
                                                       ServerCodes(w.server.body.keys, suffix), isTrading))
    ensures Reenter in trace <==>
      !retrial && !loaded && w.server.Reply? && w.server.status == 200 && !w.server.contentLength.Malformed?
    ensures !(w.server.Reply? && w.server.status == 200) ==>
      out == Returned(stockDict) && dir.files == old(dir.files) && rounds == round
    ensures w.server.Reply? && w.server.status == 200 && w.server.contentLength.Malformed? ==> out.Raised?
    ensures codes.items == (if Reenter in trace then WithBaseIndex(old(codes.items), cfg.baseIndex) else old(codes.items))
    ensures round <= rounds <= round + (if retrial then 0 else 2)
    ensures out.Returned? ==> stockDict.Keys <= out.dict.Keys
    ensures KeepsOtherFiles(old(dir.files), dir.files, {cacheFile, CacheNameFor(cfg, w, isIntraday)})
    ensures Reenter !in trace && w.server.Reply? && w.server.status == 200 && !w.server.contentLength.Malformed? ==>
      && dir.files == (if StreamUsable(ServerBytes(w.server.contentLength).value)
                       then old(dir.files)[cacheFile := w.server.body] else old(dir.files))
      && (!loaded ==> out == Returned(stockDict))
      && rounds == round
  {
    loaded := false;
    rounds := round;
    out := Returned(stockDict);
    var d := stockDict;
    ghost var reentered := false;
    CacheFileNamesAreCacheFiles(isIntraday || cfg.isIntradayConfig, CacheDay(w.calendar, w.clock));
    ghost var names := {cacheFile, CacheNameFor(cfg, w, isIntraday)};
    if w.server.Reply? && w.server.status == 200 {
      var serverBytes := ServerBytes(w.server.contentLength);
      if serverBytes.None? {
        return Raised, false, round, [FetchServer(false)];
      }
      if StreamUsable(serverBytes.value) {
        dir.files := dir.files[cacheFile := w.server.body];
        match w.server.body
        case Corrupt =>
        case Pickled(keys, data) =>
          if |data| > 0 {
            var listStockCodes := ServerCodes(keys, suffix);
            MergesKeepKeys(d, data, listStockCodes, isTrading);
            d := MergeServerSnapshot(d, data, listStockCodes, isTrading);
            loaded := true;
          }
      }
      out := Returned(d);
      if !retrial && !loaded {
        reentered := true;
        ghost var before := dir.files;
        ghost var inner;
        out, rounds, inner := LoadStockData(d, cfg, w, downloadOnly, defaultAnswer, true, forceLoad, codes,
                                            suffix, isIntraday, forceRedownload, None, dir, rounds);
        KeepsOtherFilesTrans(old(dir.files), before, dir.files, names);
      }
    }
    trace := [FetchServer(loaded)] + (if reentered then [Reenter] else []);
  }

  /** The trading or download-only test of `loadStockData`. */
  predicate FreshOnly(w: World, downloadOnly: bool, userDownloadOption: Option<string>) {
    IsTradingSession(w, userDownloadOption) || downloadOnly
  }

  /**
   * Lines 406-419 of `loadStockData`: the local pickle unless a re-download is
   * forced, then the server snapshot when forced or when the local tier loaded
   * nothing for the default period and interval. `loaded` is the flag the
   * closing tier sees: the last tier's answer.
   */
  method CacheTiers(stockDict: StockDict, cfg: Config, w: World, downloadOnly: bool,
                    defaultAnswer: Option<string>, retrial: bool, forceLoad: bool, codes: StockCodes,
                    suffix: string, intraday: bool, forceRedownload: bool, cacheFile: string,
                    isTrading: bool, dir: DataDir, round: nat)
    returns (out: Outcome, loaded: bool, rounds: nat, ghost local: seq<Step>, ghost server: seq<Step>)
    modifies codes, dir
    requires cfg.baseIndex in codes.items
    requires cacheFile == CacheNameFor(cfg, w, intraday)
    decreases if retrial then 0 else 1, 1
    ensures codes.items == old(codes.items)
    ensures round <= rounds <= round + (if retrial then 0 else 2)
    ensures out.Returned? ==> stockDict.Keys <= out.dict.Keys
    ensures |local| <= 1 && (|local| == 1 ==> local[0].ReadLocal?)
    ensures |local| == 1 <==> cacheFile in old(dir.files) && !forceRedownload
    ensures |server| <= 2 && (|server| > 0 ==> server[0].FetchServer?) && (|server| == 2 ==> server[1] == Reenter)
    ensures |server| == 2 ==> !retrial
    ensures |server| > 0 ==> forceRedownload || (DefaultsMatch(cfg, intraday) && !(|local| == 1 && Delivered(local[0])))
    ensures out.Returned? ==> (loaded <==> (|local| == 1 && Delivered(local[0])) || (|server| > 0 && Delivered(server[0])))
    ensures KeepsOtherFiles(old(dir.files), dir.files, {cacheFile})
  {
    var d := stockDict;
    rounds := round;
    loaded := false;
    local := [];
    server := [];
    out := Returned(d);
    if cacheFile in dir.files && !forceRedownload {
      var o;
      o, loaded := LoadDataFromLocalPickle(d, dir, cacheFile, defaultAnswer, w.typedAnswer, suffix, isTrading);
      local := [ReadLocal(loaded)];
      if o.Raised? {
        return Raised, loaded, rounds, local, server;
      }
      d := o.dict;
      out := o;
    }
    ghost var beforeServer := dir.files;
    if (!loaded && DefaultsMatch(cfg, intraday)) || forceRedownload {
      out, loaded, rounds, server := DownloadSavedDataFromServer(d, cfg, w, downloadOnly, defaultAnswer, retrial,
                                                                 forceLoad, codes, suffix, intraday,
                                                                 forceRedownload, cacheFile, isTrading, dir, rounds);
      KeepsOtherFilesTrans(old(dir.files), beforeServer, dir.files, {cacheFile});
    }
  }

  /** `afterMarketStockDataExists` over a listing of the data directory. */
  method CacheFileOfRun(w: World, intraday: bool, forceLoad: bool, dir: DataDir)
    returns (found: bool, cacheFile: string)
    ensures cacheFile == CacheFileName(intraday, CacheDay(w.calendar, w.clock)) && IsCacheFileName(cacheFile)
    ensures found <==> exists f :: f in dir.files && CacheHit(f, intraday, cacheFile)
  {
    CacheFileNamesAreCacheFiles(intraday, CacheDay(w.calendar, w.clock));
    var listing := ListOfSet(dir.files.Keys);
    found, cacheFile := AfterMarketStockDataExists(w.calendar, w.clock, intraday, forceLoad, listing);
    assert found ==> exists f :: f in dir.files && CacheHit(f, intraday, cacheFile);
    if !found {
      forall f | f in dir.files ensures !CacheHit(f, intraday, cacheFile) {
        assert f in Elements(listing);
      }
    }
  }

  /**
   * `loadStockData`. The base index joins the code list; a trading or
   * download-only call downloads and returns; otherwise the local pickle, the
   * server snapshot and the provider are tried in that order, and the codes
   * still missing past 5% are fetched once more.
   */
  method LoadStockData(stockDict: StockDict, cfg: Config, w: World, downloadOnly: bool,
                       defaultAnswer: Option<string>, retrial: bool, forceLoad: bool, codes: StockCodes,
                       suffix: string, isIntraday: bool, forceRedownload: bool,
                       userDownloadOption: Option<string>, dir: DataDir, round: nat)
    returns (out: Outcome, rounds: nat, ghost trace: seq<Step>)
    modifies codes, dir
    decreases if retrial then 0 else 1, 3
    ensures codes.items == WithBaseIndex(old(codes.items), cfg.baseIndex)
    ensures round <= rounds <= round + (if retrial then 2 else 4)
    ensures out.Returned? ==> stockDict.Keys <= out.dict.Keys
    ensures FreshOnly(w, downloadOnly, userDownloadOption) ==>
      && out == Returned(FreshPhase(stockDict, codes.items, suffix, w, round).dict)
      && rounds == FreshPhase(stockDict, codes.items, suffix, w, round).rounds
      && dir.files == old(dir.files)
      && |trace| > 0 && trace[0] == Download(Fresh, codes.items, round)
      && AllDownloads(trace)
    ensures NoSave(trace) && DownloadsLast(trace) && RateChecked(trace, w)
    ensures FallbackAfterMisses(trace, codes.items)
    ensures ServerTierGuarded(trace, forceRedownload, DefaultsMatch(cfg, isIntraday || cfg.isIntradayConfig))
    ensures retrial ==> NoReentry(trace)
    ensures !FreshOnly(w, downloadOnly, userDownloadOption) ==>
      ((|trace| > 0 && trace[0].ReadLocal?) <==> CacheNameFor(cfg, w, isIntraday) in old(dir.files) && !forceRedownload)
    ensures KeepsOtherFiles(old(dir.files), dir.files, {CacheNameFor(cfg, w, isIntraday)})
  {
    var intraday := isIntraday || cfg.isIntradayConfig;
    var exists_, cacheFile := CacheFileOfRun(w, intraday, forceLoad, dir);
    var initialLoadCount := |stockDict|;
    var recentDownloadFromOriginAttempted := false;
    var isTrading := IsTradingSession(w, userDownloadOption);
    if cfg.baseIndex !in codes.items {
      codes.items := [cfg.baseIndex] + codes.items;
    }
    var items := codes.items;
    assert items == WithBaseIndex(old(codes.items), cfg.baseIndex);
    var d := stockDict;
    rounds := round;
    trace := [];
    if |items| > 0 && (isTrading || downloadOnly) {
      recentDownloadFromOriginAttempted := true;
      d, rounds, trace := DownloadPhase(d, items, suffix, w, round);
    }
    if downloadOnly || isTrading {
      DownloadTraceFacts(trace, items, w, forceRedownload, DefaultsMatch(cfg, intraday));
      return Returned(d), rounds, trace;
    }
    out, rounds, trace := CachedLoad(d, cfg, w, downloadOnly, defaultAnswer, retrial, forceLoad, codes, suffix,
                                     intraday, forceRedownload, cacheFile, isTrading, dir, rounds, initialLoadCount);
  }

  /**
   * Lines 403-435 of `loadStockData` for a call that is neither trading nor
   * download-only: the cache tiers, then the closing tier.
   */
  method CachedLoad(stockDict: StockDict, cfg: Config, w: World, downloadOnly: bool,
                    defaultAnswer: Option<string>, retrial: bool, forceLoad: bool, codes: StockCodes,
                    suffix: string, intraday: bool, forceRedownload: bool, cacheFile: string,
                    isTrading: bool, dir: DataDir, round: nat, initialLoadCount: nat)
    returns (out: Outcome, rounds: nat, ghost trace: seq<Step>)
    modifies codes, dir
    requires cfg.baseIndex in codes.items
    requires cacheFile == CacheNameFor(cfg, w, intraday)
    requires !downloadOnly
    decreases if retrial then 0 else 1, 2
    ensures codes.items == old(codes.items)
    ensures round <= rounds <= round + (if retrial then 2 else 4)
    ensures out.Returned? ==> stockDict.Keys <= out.dict.Keys
    ensures NoSave(trace) && DownloadsLast(trace) && RateChecked(trace, w)
    ensures FallbackAfterMisses(trace, codes.items)
    ensures ServerTierGuarded(trace, forceRedownload, DefaultsMatch(cfg, intraday))
    ensures retrial ==> NoReentry(trace)
    ensures (|trace| > 0 && trace[0].ReadLocal?) <==> cacheFile in old(dir.files) && !forceRedownload
    ensures KeepsOtherFiles(old(dir.files), dir.files, {cacheFile})
  {
    var d := stockDict;
    rounds := round;
    var recentDownloadFromOriginAttempted := false;
    var o, stockDataLoaded;
    ghost var local, server;
    o, stockDataLoaded, rounds, local, server := CacheTiers(d, cfg, w, downloadOnly, defaultAnswer, retrial, forceLoad,
                                                            codes, suffix, intraday, forceRedownload, cacheFile,
                                                            isTrading, dir, rounds);
    if o.Raised? {
      ghost var noTail := TailTrace(codes.items, rounds, false, None, false);
      CacheTraceFacts(local, server, noTail, w, codes.items, rounds, false, None, retrial, forceRedownload,
                      DefaultsMatch(cfg, intraday));
      return Raised, rounds, local + server + noTail;
    }
    d := o.dict;
    ghost var start := rounds;
    ghost var fallback, mid, corrective, saved;
    d, rounds, fallback, mid, corrective, saved := FinishLoad(d, stockDataLoaded, recentDownloadFromOriginAttempted,
                                                              initialLoadCount, codes.items, suffix, w, rounds,
                                                              downloadOnly);
    ghost var tail := TailTrace(codes.items, start, fallback, corrective, saved);
    CacheTraceFacts(local, server, tail, w, codes.items, start, fallback, corrective, retrial, forceRedownload,
                    DefaultsMatch(cfg, intraday));
    trace := local + server + tail;
    out := Returned(d);
  }

  /**
   * What the `"w+"` text-mode write of `resp.text` leaves on disk: the content it
   * wrote (the text decoding of the body, in general not the pickle's bytes), an
   * `open` that failed before truncating, or a write that failed after it.
   */
  datatype TextWrite = Wrote(content: Content) | OpenFailed | WriteFailed

  /**
   * `downloadSavedDefaultsFromServer`: a status-200 reply whose size passes the
   * defaults threshold is written to the cache file as text. `None` is the
   * `ValueError` of a malformed length; a failed write is swallowed by the bare
   * `except` and leaves `fileDownloaded` false.
   */
  method DownloadSavedDefaultsFromServer(cacheFile: string, reply: ServerReply, write: TextWrite, dir: DataDir)
    returns (fileDownloaded: Option<bool>)
    modifies dir
    ensures fileDownloaded.None? <==> reply.Reply? && reply.status == 200 && reply.contentLength.Malformed?
    ensures fileDownloaded == Some(true) <==>
      reply.Reply? && reply.status == 200 && ServerBytes(reply.contentLength).Some?
      && DefaultsUsable(ServerBytes(reply.contentLength).value) && write.Wrote?
    ensures dir.files ==
      if reply.Reply? && reply.status == 200 && ServerBytes(reply.contentLength).Some?
         && DefaultsUsable(ServerBytes(reply.contentLength).value)
      then (match write
            case Wrote(c) => old(dir.files)[cacheFile := c]
            case OpenFailed => old(dir.files)
            case WriteFailed => old(dir.files)[cacheFile := Corrupt])
      else old(dir.files)
  {
    fileDownloaded := Some(false);
    if reply.Reply? && reply.status == 200 {
      var serverBytes := ServerBytes(reply.contentLength);
      if serverBytes.None? {
        return None;
      }
      if FileSize(serverBytes.value) > 40 {
        match write
        case Wrote(c) =>
          dir.files := dir.files[cacheFile := c];
          fileDownloaded := Some(true);
        case OpenFailed =>
        case WriteFailed =>
          dir.files := dir.files[cacheFile := Corrupt];
      }
    }
  }
}
