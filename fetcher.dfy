/**
 * Symbol and argument normalisation of `screenerStockDataFetcher`
 * (pkscreener/classes/Fetcher.py): the exchange suffix rule, the rule that drops
 * start/end dates, the empty-result exception, the ticker list of
 * `fetchAdditionalTickerInfo` and the task bookkeeping of `fetchStockDataWithArgs`.
 * The provider call itself (`yf.download`) is the parameter `download`.
 */
module Fetcher {
  import opened PyValues

  datatype FetchError =
    | IndexError        // `duration[-1]` on an empty interval string
    | StockDataEmpty    // `StockDataEmptyException`
    | TypeError         // "ticker_list must be a list"

  datatype Result<+T> = Ok(value: T) | Err(error: FetchError)

  // ---------------------------------------------------------------------------
  // Exchange suffix
  // ---------------------------------------------------------------------------

  /**
   * The suffix rule of `fetchStockData` for one code: append the exchange suffix
   * unless the code already ends with it or is an index (starts with "^").
   */
  function WithSuffix(code: string, suffix: string): (r: string)
    ensures r == code || r == code + suffix
    ensures EndsWith(r, suffix) || StartsWith(code, "^")
    ensures r == code <==> (|suffix| == 0 || EndsWith(code, suffix) || StartsWith(code, "^"))
  {
    if |suffix| > 0 && !EndsWith(code, suffix) && !StartsWith(code, "^") then
      assert (code + suffix)[|code + suffix| - |suffix|..] == suffix;
      code + suffix
    else
      code
  }

  /** Applying the suffix rule twice is applying it once. */
  lemma WithSuffixIdempotent(code: string, suffix: string)
    ensures WithSuffix(WithSuffix(code, suffix), suffix) == WithSuffix(code, suffix)
  {
  }

  /** What `fetchStockData` is asked for: one code (a `str`) or a list of codes. */
  datatype Symbols = Single(code: string) | Several(codes: seq<string>)

  /** Lines 75-80: the suffix rule on a single code, element-wise on a list. */
  function NormaliseSymbols(s: Symbols, suffix: string): (r: Symbols)
    ensures r.Single? <==> s.Single?
    ensures s.Single? ==> r.code == WithSuffix(s.code, suffix)
    ensures s.Several? ==> |r.codes| == |s.codes|
    ensures s.Several? ==> forall i :: 0 <= i < |s.codes| ==> r.codes[i] == WithSuffix(s.codes[i], suffix)
  {
    match s
    case Single(code) => Single(if |suffix| > 0 then WithSuffix(code, suffix) else code)
    case Several(codes) =>
      if |suffix| > 0 then Several(seq(|codes|, i requires 0 <= i < |codes| => WithSuffix(codes[i], suffix)))
      else Several(codes)
  }

  /** Normalising an already normalised request changes nothing. */
  lemma NormaliseIdempotent(s: Symbols, suffix: string)
    ensures NormaliseSymbols(NormaliseSymbols(s, suffix), suffix) == NormaliseSymbols(s, suffix)
  {
    var once := NormaliseSymbols(s, suffix);
    var twice := NormaliseSymbols(once, suffix);
    match s
    case Single(code) =>
      WithSuffixIdempotent(code, suffix);
    case Several(codes) =>
      forall i | 0 <= i < |codes| ensures twice.codes[i] == once.codes[i] {
        WithSuffixIdempotent(codes[i], suffix);
      }
  }

  /**
   * The suffix rule of `fetchAdditionalTickerInfo` (line 53): like `WithSuffix`
   * but without the exception for index codes.
   */
  function TickerSymbols(codes: seq<string>, suffix: string): (r: seq<string>)
    ensures |r| == |codes|
    ensures forall i :: 0 <= i < |codes| ==> EndsWith(r[i], suffix)
    ensures forall i :: 0 <= i < |codes| ==> r[i] == codes[i] || r[i] == codes[i] + suffix
    ensures forall i :: 0 <= i < |codes| && EndsWith(codes[i], suffix) ==> r[i] == codes[i]
  {
    if |suffix| > 0 then
      seq(|codes|, i requires 0 <= i < |codes| =>
        if !EndsWith(codes[i], suffix) then
          assert (codes[i] + suffix)[|codes[i] + suffix| - |suffix|..] == suffix;
          codes[i] + suffix
        else codes[i])
    else
      assert forall i :: 0 <= i < |codes| ==> codes[i][|codes[i]|..] == "";
      codes
  }

  /** The base index keeps its code for a price fetch but is suffixed for the info fetch. */
  lemma IndexSuffixOnlyForInfo()
    ensures WithSuffix("^NSEI", ".NS") == "^NSEI"
    ensures TickerSymbols(["^NSEI"], ".NS") == ["^NSEI.NS"]
  {
    assert StartsWith("^NSEI", "^");
    assert !EndsWith("^NSEI", ".NS") by {
      assert "^NSEI"[2..] == "SEI";
    }
    var r := TickerSymbols(["^NSEI"], ".NS");
    assert |r| == 1 && r[0] == "^NSEI" + ".NS";
    assert "^NSEI" + ".NS" == "^NSEI.NS";
    assert r == [r[0]];
  }

  // ---------------------------------------------------------------------------
  // Start and end dates
  // ---------------------------------------------------------------------------

  /** The named periods for which the provider takes no date range. */
  const ShortPeriods: seq<string> := ["1d", "5d", "1mo", "3mo", "5mo"]

  datatype Range = Range(start: Option<string>, end: Option<string>)

  /**
   * Lines 81-84: `start`/`end` are dropped for a short period or a minute/hour
   * interval. `duration[-1]` is only read when the period is not a short one, and
   * fails on an empty interval.
   */
  function RequestRange(period: string, duration: string, start: Option<string>, end: Option<string>): (r: Result<Range>)
    ensures r.Err? <==> period !in ShortPeriods && |duration| == 0
    ensures r.Err? ==> r.error == IndexError
    ensures r.Ok? && period in ShortPeriods ==> r.value == Range(None, None)
    ensures r.Ok? && period !in ShortPeriods ==>
      r.value == (if duration[|duration| - 1] in "mh" then Range(None, None) else Range(start, end))
  {
    if period in ShortPeriods then Ok(Range(None, None))
    else if |duration| == 0 then Err(IndexError)
    else if duration[|duration| - 1] == 'm' || duration[|duration| - 1] == 'h' then Ok(Range(None, None))
    else Ok(Range(start, end))
  }

  /** A request keeps its dates exactly when some date can matter to the provider. */
  lemma RangeExamples(start: Option<string>, end: Option<string>)
    ensures RequestRange("1y", "15m", start, end) == Ok(Range(None, None))
    ensures RequestRange("1y", "1h", start, end) == Ok(Range(None, None))
    ensures RequestRange("1y", "1d", start, end) == Ok(Range(start, end))
    ensures RequestRange("5d", "", start, end) == Ok(Range(None, None))
    ensures RequestRange("max", "", start, end) == Err(IndexError)
  {
    assert "1y" !in ShortPeriods;
    assert "max" !in ShortPeriods;
  }

  // ---------------------------------------------------------------------------
  // fetchStockData
  // ---------------------------------------------------------------------------

  /** A price table as returned by the provider (its rows are opaque). */
  datatype Table = Table(rows: seq<Record>)

  /** The arguments `yf.download` receives that this model keeps. */
  datatype Request = Request(symbols: Symbols, period: string, interval: string, range: Range)

  /**
   * Lines 162-170 and 177: with `printCounter` a missing or empty frame raises
   * `StockDataEmptyException`; otherwise the data, whatever it is, is returned.
   */
  function EmptyCheck(data: Option<Table>, printCounter: bool): (r: Result<Option<Table>>)
    ensures r.Err? <==> printCounter && (data.None? || |data.value.rows| == 0)
    ensures r.Err? ==> r.error == StockDataEmpty
    ensures r.Ok? ==> r.value == data
  {
    if printCounter && (data.None? || |data.value.rows| == 0) then Err(StockDataEmpty) else Ok(data)
  }

  /**
   * `fetchStockData` without the invalid-period re-fetch: normalise the symbols,
   * drop the dates where the rule says so, ask the provider (a failure it raises
   * leaves `data` as `None`), then apply the empty-result rule.
   */
  function FetchStockData(symbols: Symbols, period: string, duration: string, printCounter: bool,
                          start: Option<string>, end: Option<string>, suffix: string,
                          download: Request -> Option<Table>): (r: Result<Option<Table>>)
    ensures r.Err? && r.error == StockDataEmpty ==> printCounter
    ensures r.Err? && r.error == IndexError <==> period !in ShortPeriods && |duration| == 0
    ensures printCounter && r.Ok? ==> r.value.Some? && |r.value.value.rows| > 0
    ensures r.Ok? ==> exists rg :: RequestRange(period, duration, start, end) == Ok(rg) &&
                        r.value == download(Request(NormaliseSymbols(symbols, suffix), period, duration, rg))
  {
    match RequestRange(period, duration, start, end)
    case Err(e) => Err(e)
    case Ok(rg) =>
      EmptyCheck(download(Request(NormaliseSymbols(symbols, suffix), period, duration, rg)), printCounter)
  }

  // ---------------------------------------------------------------------------
  // fetchStockDataWithArgs
  // ---------------------------------------------------------------------------

  datatype Progress = Progress(progress: int, total: int)

  /** `stockCode, period, duration, exchangeSuffix` of a fetch. */
  datatype FetchArgs = FetchArgs(symbols: Symbols, period: string, duration: string, suffix: string)

  /** The fields of a `PKTask` that `fetchStockDataWithArgs` reads or writes. */
  class Task {
    var taskId: int
    var longRunningFnArgs: FetchArgs
    var progressStatusDict: map<int, Progress>
    var resultsDict: map<int, Option<Table>>
    var result: Option<Option<Table>>

    constructor (id: int, args: FetchArgs)
      ensures taskId == id && longRunningFnArgs == args
      ensures progressStatusDict == map[] && resultsDict == map[] && result == None
    {
      taskId := id;
      longRunningFnArgs := args;
      progressStatusDict := map[];
      resultsDict := map[];
      result := None;
    }
  }

  /**
   * `fetchStockDataWithArgs`: the arguments come from the task when there is one,
   * the fetch runs with `printCounter=False` and no dates, and the task records the
   * result. A failing fetch leaves the task untouched.
   */
  method FetchStockDataWithArgs(task: Task?, positional: FetchArgs, download: Request -> Option<Table>)
    returns (r: Result<Option<Table>>)
    modifies task
    ensures var a := if task != null then old(task.longRunningFnArgs) else positional;
      r == FetchStockData(a.symbols, a.period, a.duration, false, None, None, a.suffix, download)
    ensures r.Err? ==> r.error == IndexError
    ensures task != null && r.Err? ==> unchanged(task)
    ensures task != null && r.Ok? ==>
      && task.taskId == old(task.taskId) && task.longRunningFnArgs == old(task.longRunningFnArgs)
      && task.result == Some(r.value)
      && (old(task.taskId) >= 0 ==>
            && task.resultsDict == old(task.resultsDict)[old(task.taskId) := r.value]
            && task.progressStatusDict == old(task.progressStatusDict)[old(task.taskId) := Progress(1, 1)])
      && (old(task.taskId) < 0 ==>
            task.resultsDict == old(task.resultsDict) && task.progressStatusDict == old(task.progressStatusDict))
  {
    var args := positional;
    if task != null {
      args := task.longRunningFnArgs;
    }
    r := FetchStockData(args.symbols, args.period, args.duration, false, None, None, args.suffix, download);
    if r.Err? {
      return;
    }
    if task != null {
      if task.taskId >= 0 {
        task.progressStatusDict := task.progressStatusDict[task.taskId := Progress(0, 1)];
        task.resultsDict := task.resultsDict[task.taskId := r.value];
        task.progressStatusDict := task.progressStatusDict[task.taskId := Progress(1, 1)];
      }
      task.result := Some(r.value);
    }
  }

  // ---------------------------------------------------------------------------
  // fetchAdditionalTickerInfo
  // ---------------------------------------------------------------------------

  /** The argument of `fetchAdditionalTickerInfo`: a Python list or anything else. */
  datatype TickerArg = TickerList(items: seq<string>) | NotAList

  /** What `yf.Tickers(t).tickers[t].fast_info` gives for one ticker. */
  datatype FastInfo = InfoRaises | InfoMissing | InfoWith(marketCap: int)

  /** The market cap `get_stats` records: the provider's figure, or 0 without info. */
  function MarketCap(f: FastInfo): int
    requires !f.InfoRaises?
  {
    if f.InfoWith? then f.marketCap else 0
  }

  /**
   * The registry after `get_stats` ran for every ticker: a ticker whose lookup
   * raised has no entry (the executor drops the exception).
   */
  function InfoFor(tickers: seq<string>, fastInfo: string -> FastInfo): (m: map<string, int>)
    ensures forall t :: t in m <==> t in tickers && !fastInfo(t).InfoRaises?
    ensures forall t :: t in m ==> m[t] == MarketCap(fastInfo(t))
  {
    map t | t in tickers && !fastInfo(t).InfoRaises? :: MarketCap(fastInfo(t))
  }

  /** One more ticker adds its entry, or nothing when its lookup raised. */
  lemma InfoForStep(tickers: seq<string>, i: nat, fastInfo: string -> FastInfo)
    requires i < |tickers|
    ensures InfoFor(tickers[..i + 1], fastInfo) ==
      if fastInfo(tickers[i]).InfoRaises? then InfoFor(tickers[..i], fastInfo)
      else InfoFor(tickers[..i], fastInfo)[tickers[i] := MarketCap(fastInfo(tickers[i]))]
  {
    assert tickers[..i + 1] == tickers[..i] + [tickers[i]];
  }

  /** The class-level `_tickersInfoDict`: ticker to its `marketCap`. */
  class TickerInfoRegistry {
    var tickersInfo: map<string, int>

    constructor ()
      ensures tickersInfo == map[]
    {
      tickersInfo := map[];
    }
  }

  /**
   * `fetchAdditionalTickerInfo`: rejects a non-list, suffixes every code (index
   * codes included), resets the registry and fills it one ticker at a time.
   */
  method FetchAdditionalTickerInfo(registry: TickerInfoRegistry, arg: TickerArg, suffix: string,
                                   fastInfo: string -> FastInfo)
    returns (r: Result<map<string, int>>)
    modifies registry
    ensures arg.NotAList? ==> r == Err(TypeError) && registry.tickersInfo == old(registry.tickersInfo)
    ensures arg.TickerList? ==>
      && registry.tickersInfo == InfoFor(TickerSymbols(arg.items, suffix), fastInfo)
      && r == Ok(registry.tickersInfo)
  {
    if arg.NotAList? {
      return Err(TypeError);
    }
    var tickers := arg.items;
    if |suffix| > 0 {
      tickers := TickerSymbols(arg.items, suffix);
    }
    assert tickers == TickerSymbols(arg.items, suffix);
    registry.tickersInfo := map[];
    var i := 0;
    while i < |tickers|
      invariant 0 <= i <= |tickers|
      invariant registry.tickersInfo == InfoFor(tickers[..i], fastInfo)
    {
      var t := tickers[i];
      var info := fastInfo(t);
      InfoForStep(tickers, i, fastInfo);
      if !info.InfoRaises? {
        registry.tickersInfo := registry.tickersInfo[t := MarketCap(info)];
      }
      i := i + 1;
    }
    assert tickers[..i] == tickers;
    r := Ok(registry.tickersInfo);
  }
}
