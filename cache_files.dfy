/**
 * The local cache file of `PKAssetsManager`: which trading date it stands for
 * (`afterMarketStockDataExists`), its name `{intraday_}stock_data_DDMMYY.pkl`,
 * the lookup of that name in the user data directory, and the rule of
 * `saveStockData` that decides whether the file is (re)written.
 * The trading calendar of PKDateUtilities is left uninterpreted: its two date
 * functions are fields of `Calendar`.
 */
module CacheFiles {
  import opened PyValues

  type Year = y: int | 1 <= y <= 9999 witness 1
  type Month = m: int | 1 <= m <= 12 witness 1
  type DayOfMonth = d: int | 1 <= d <= 31 witness 1
  type Hour = h: int | 0 <= h < 24
  type Minute = m: int | 0 <= m < 60
  /** Python's `weekday()`: Monday is 0, Sunday is 6. */
  type Weekday = w: int | 0 <= w < 7

  datatype Date = Date(year: Year, month: Month, day: DayOfMonth)

  datatype DateTime = DateTime(date: Date, hour: Hour, minute: Minute, second: int, microsecond: int,
                               weekday: Weekday)

  /** `PKDateUtilities.previousTradingDate` and `nextTradingDate`. */
  datatype Calendar = Calendar(previousTradingDate: DateTime -> Date, nextTradingDate: DateTime -> DateTime)

  /**
   * The moment of the call (`currentDateTime()`), today's market opening time
   * (`MarketHours().openHour/openMinute`) and `isTradingTime()`.
   */
  datatype Clock = Clock(now: DateTime, openHour: Hour, openMinute: Minute, tradingTime: bool)

  /**
   * `curr < curr.replace(hour=openHour, minute=openMinute)`: both sides share the
   * date, seconds and microseconds, so only hour and minute decide.
   */
  predicate BeforeOpen(c: Clock) {
    c.now.hour < c.openHour || (c.now.hour == c.openHour && c.now.minute < c.openMinute)
  }

  /**
   * The trading date the cache file stands for: the previous trading date when the
   * market is trading, when it has not opened yet today, or on a Saturday or
   * Sunday; otherwise the last completed trading date at or before now.
   */
  function CacheDay(cal: Calendar, clock: Clock): Date {
    if clock.tradingTime || BeforeOpen(clock) || clock.now.weekday >= 5 then
      cal.previousTradingDate(clock.now)
    else
      cal.previousTradingDate(cal.nextTradingDate(clock.now))
  }

  // ---------------------------------------------------------------------------
  // File names
  // ---------------------------------------------------------------------------

  const Digits: string := "0123456789"

  /** `%02d` of a number below 100. */
  function TwoDigits(n: nat): (s: string)
    requires n < 100
    ensures |s| == 2 && s[0] in Digits && s[1] in Digits
  {
    [Digits[n / 10], Digits[n % 10]]
  }

  /** `strftime("%d%m%y")`. */
  function DateStamp(d: Date): (s: string)
    ensures |s| == 6
  {
    TwoDigits(d.day) + TwoDigits(d.month) + TwoDigits(d.year % 100)
  }

  /** The glob prefix `{'intraday_' if intraday else ''}stock_data_`. */
  function FilePrefix(intraday: bool): string {
    (if intraday then "intraday_" else "") + "stock_data_"
  }

  /** The cache file name for a trading date. */
  function CacheFileName(intraday: bool, d: Date): (name: string)
    ensures StartsWith(name, FilePrefix(intraday)) && EndsWith(name, ".pkl")
    ensures |name| == |FilePrefix(intraday)| + 10
  {
    var name := FilePrefix(intraday) + DateStamp(d) + ".pkl";
    assert name[..|FilePrefix(intraday)|] == FilePrefix(intraday);
    assert name[|name| - 4..] == ".pkl";
    name
  }

  /** What a cache file name says: the intraday flag, day, month and two-digit year. */
  datatype CacheKey = CacheKey(intraday: bool, day: nat, month: nat, yy: nat)

  /** The value of a decimal digit character. */
  function DigitValue(c: char): (v: nat)
    requires c in Digits
    ensures v < 10 && Digits[v] == c
  {
    if c == '0' then 0 else if c == '1' then 1 else if c == '2' then 2 else if c == '3' then 3
    else if c == '4' then 4 else if c == '5' then 5 else if c == '6' then 6 else if c == '7' then 7
    else if c == '8' then 8 else 9
  }

  /** Two decimal digits. */
  predicate IsPair(s: string) {
    |s| == 2 && s[0] in Digits && s[1] in Digits
  }

  /** The number two decimal digits spell. */
  function PairValue(s: string): nat
    requires IsPair(s)
  {
    DigitValue(s[0]) * 10 + DigitValue(s[1])
  }

  /** Reads `DDMMYY.pkl`. */
  function ParseStamp(intraday: bool, rest: string): Option<CacheKey> {
    if |rest| == 10 && rest[6..] == ".pkl" && IsPair(rest[0..2]) && IsPair(rest[2..4]) && IsPair(rest[4..6]) then
      Some(CacheKey(intraday, PairValue(rest[0..2]), PairValue(rest[2..4]), PairValue(rest[4..6])))
    else None
  }

  /** Reads a cache file name back; the partner of `CacheFileName`. */
  function ParseCacheFileName(name: string): Option<CacheKey> {
    if StartsWith(name, "intraday_stock_data_") then ParseStamp(true, name[20..])
    else if StartsWith(name, "stock_data_") then ParseStamp(false, name[11..])
    else None
  }

  lemma TwoDigitsValue(n: nat)
    requires n < 100
    ensures IsPair(TwoDigits(n)) && PairValue(TwoDigits(n)) == n
  {
    var s := TwoDigits(n);
    DigitsDistinct(DigitValue(s[0]), n / 10);
    DigitsDistinct(DigitValue(s[1]), n % 10);
  }

  lemma DigitsDistinct(a: nat, b: nat)
    requires a < 10 && b < 10 && Digits[a] == Digits[b]
    ensures a == b
  {
  }

  /** The stamp part of a cache file name reads back as the date's DDMMYY fields. */
  lemma ParseStampRoundTrip(intraday: bool, d: Date)
    ensures ParseStamp(intraday, DateStamp(d) + ".pkl") ==
            Some(CacheKey(intraday, d.day, d.month, d.year % 100))
  {
    var dd, mm, yy := TwoDigits(d.day), TwoDigits(d.month), TwoDigits(d.year % 100);
    assert DateStamp(d) + ".pkl" == dd + mm + yy + ".pkl";
    TwoDigitsValue(d.day);
    TwoDigitsValue(d.month);
    TwoDigitsValue(d.year % 100);
    StampSlices(dd, mm, yy, ".pkl");
  }

  lemma StampSlices(a: string, b: string, c: string, e: string)
    requires |a| == 2 && |b| == 2 && |c| == 2
    ensures var s := a + b + c + e;
      |s| == 6 + |e| && s[0..2] == a && s[2..4] == b && s[4..6] == c && s[6..] == e
  {
    var s := a + b + c + e;
    assert s[0..2] == a;
    assert s[2..4] == b;
    assert s[4..6] == c;
    assert s[6..] == e;
  }

  /** Parsing a cache file name recovers the flag and the date's DDMMYY fields. */
  lemma ParseCacheFileNameRoundTrip(intraday: bool, d: Date)
    ensures ParseCacheFileName(CacheFileName(intraday, d)) ==
            Some(CacheKey(intraday, d.day, d.month, d.year % 100))
  {
    if intraday {
      IntradayNameRoundTrip(d);
    } else {
      DailyNameRoundTrip(d);
    }
  }

  /** The two glob prefixes written out. */
  lemma FilePrefixes()
    ensures FilePrefix(true) == "intraday_stock_data_" && FilePrefix(false) == "stock_data_"
  {
  }

  lemma IntradayNameRoundTrip(d: Date)
    ensures ParseCacheFileName(CacheFileName(true, d)) == Some(CacheKey(true, d.day, d.month, d.year % 100))
  {
    var rest := DateStamp(d) + ".pkl";
    ParseStampRoundTrip(true, d);
    FilePrefixes();
    PrefixSplit(FilePrefix(true), rest);
    var name := FilePrefix(true) + rest;
    assert CacheFileName(true, d) == name;
    assert ParseCacheFileName(name) == ParseStamp(true, name[20..]);
  }

  lemma DailyNameRoundTrip(d: Date)
    ensures ParseCacheFileName(CacheFileName(false, d)) == Some(CacheKey(false, d.day, d.month, d.year % 100))
  {
    var rest := DateStamp(d) + ".pkl";
    ParseStampRoundTrip(false, d);
    FilePrefixes();
    PrefixSplit(FilePrefix(false), rest);
    var name := FilePrefix(false) + rest;
    assert CacheFileName(false, d) == name;
    FirstCharDiffers(name, "intraday_stock_data_");
    assert ParseCacheFileName(name) == ParseStamp(false, name[11..]);
  }

  lemma FirstCharDiffers(s: string, p: string)
    requires |s| > 0 && |p| > 0 && s[0] != p[0]
    ensures !StartsWith(s, p)
  {
    if |p| <= |s| {
      assert s[..|p|][0] == s[0];
    }
  }

  lemma PrefixSplit(p: string, rest: string)
    ensures StartsWith(p + rest, p) && (p + rest)[|p|..] == rest
  {
    assert (p + rest)[..|p|] == p;
  }

  /** Two cache dates share a file exactly when they agree on the flag and on DDMMYY. */
  lemma CacheFileNameInjective(i1: bool, d1: Date, i2: bool, d2: Date)
    ensures CacheFileName(i1, d1) == CacheFileName(i2, d2) <==>
            i1 == i2 && d1.day == d2.day && d1.month == d2.month && d1.year % 100 == d2.year % 100
  {
    ParseCacheFileNameRoundTrip(i1, d1);
    ParseCacheFileNameRoundTrip(i2, d2);
    if i1 == i2 && d1.day == d2.day && d1.month == d2.month && d1.year % 100 == d2.year % 100 {
      assert DateStamp(d1) == DateStamp(d2);
    }
  }

  /**
   * A file the glob `{prefix}*.pkl` lists whose name ends with the cache file name.
   * `*` may match the empty string, so a listed name is at least the prefix plus ".pkl".
   */
  predicate CacheHit(f: string, intraday: bool, cacheFile: string) {
    && |f| >= |FilePrefix(intraday)| + 4
    && StartsWith(f, FilePrefix(intraday)) && EndsWith(f, ".pkl")
    && EndsWith(f, cacheFile)
  }

  /** The cache file itself is always a hit, and a daily lookup never takes an intraday file. */
  lemma CacheHitExamples(intraday: bool, d: Date)
    ensures CacheHit(CacheFileName(intraday, d), intraday, CacheFileName(intraday, d))
    ensures !CacheHit(CacheFileName(true, d), false, CacheFileName(false, d))
  {
    var daily := CacheFileName(false, d);
    var intra := CacheFileName(true, d);
    assert daily[..11] == "stock_data_";
    assert intra[..11] == "intraday_st";
    var f := CacheFileName(intraday, d);
    assert f[|f|..] == "";
  }

  /**
   * `afterMarketStockDataExists`: a default cache date overridden in turn by the
   * trading, before-open, Monday-before-open and weekend rules, then a scan of the
   * glob results for a name ending with the cache file name. `listing` is the
   * user data directory in the order the file system gives it.
   */
  method AfterMarketStockDataExists(cal: Calendar, clock: Clock, intraday: bool, forceLoad: bool,
                                    listing: seq<string>)
    returns (found: bool, cacheFile: string)
    ensures cacheFile == CacheFileName(intraday, CacheDay(cal, clock))
    ensures found <==> exists i :: 0 <= i < |listing| && CacheHit(listing[i], intraday, cacheFile)
  {
    var curr := clock.now;
    var cacheDate := cal.previousTradingDate(cal.nextTradingDate(curr));
    var weekday := curr.weekday;
    var isTrading := clock.tradingTime;
    if (forceLoad && isTrading) || isTrading {
      cacheDate := cal.previousTradingDate(curr);
    }
    if BeforeOpen(clock) {
      cacheDate := cal.previousTradingDate(curr);
    }
    if weekday == 0 && BeforeOpen(clock) {
      cacheDate := cal.previousTradingDate(curr);
    }
    if weekday == 5 || weekday == 6 {
      cacheDate := cal.previousTradingDate(curr);
    }
    cacheFile := CacheFileName(intraday, cacheDate);
    found := FindCacheFile(listing, intraday, cacheFile);
  }

  /** The glob over the listing and the `endswith` test, stopping at the first hit. */
  method FindCacheFile(listing: seq<string>, intraday: bool, cacheFile: string) returns (found: bool)
    ensures found <==> exists i :: 0 <= i < |listing| && CacheHit(listing[i], intraday, cacheFile)
  {
    var pattern := FilePrefix(intraday);
    found := false;
    var i := 0;
    while i < |listing|
      invariant 0 <= i <= |listing|
      invariant !found
      invariant forall j :: 0 <= j < i ==> !CacheHit(listing[j], intraday, cacheFile)
    {
      var f := listing[i];
      var globbed := |f| >= |pattern| + 4 && StartsWith(f, pattern) && EndsWith(f, ".pkl");
      if globbed && EndsWith(f, cacheFile) {
        found := true;
        break;
      }
      i := i + 1;
    }
  }

  // ---------------------------------------------------------------------------
  // saveStockData
  // ---------------------------------------------------------------------------

  /** Line 223: the cache is written when absent, when forced, or when it grew by more than one. */
  predicate ShouldWriteCache(fileExists: bool, forceSave: bool, loadCount: int, size: nat) {
    !fileExists || forceSave || (loadCount >= 0 && size > loadCount + 1)
  }

  /** `os.path.join` of a directory and a plain file name. */
  function PathJoin(dir: string, name: string): string {
    if |dir| == 0 then name
    else if dir[|dir| - 1] == '/' then dir + name
    else dir + "/" + name
  }

  /** Download-only runs write to the `actions-data-download` mirror of the data directory. */
  function OutputFolder(userDataDir: string, downloadOnly: bool): string {
    if downloadOnly then Replace(userDataDir, "results/Data", "actions-data-download") else userDataDir
  }

  /** The path `saveStockData` returns, and the dictionary it writes there if it writes. */
  datatype SaveOutcome = SaveOutcome(path: string, written: Option<StockDict>)

  /**
   * `saveStockData`. `fileExists` is whether the target file is present when the
   * rule is checked (in download-only mode, after the mirror folder was cleaned).
   */
  function SaveStockData(stockDict: StockDict, fileExists: bool, loadCount: int, cal: Calendar, clock: Clock,
                         intraday: bool, userDataDir: string, downloadOnly: bool, forceSave: bool): (r: SaveOutcome)
    ensures r.path == PathJoin(OutputFolder(userDataDir, downloadOnly), CacheFileName(intraday, CacheDay(cal, clock)))
    ensures r.written.Some? <==> ShouldWriteCache(fileExists, forceSave, loadCount, |stockDict|)
    ensures r.written.Some? ==> r.written.value == stockDict
  {
    var path := PathJoin(OutputFolder(userDataDir, downloadOnly), CacheFileName(intraday, CacheDay(cal, clock)));
    if ShouldWriteCache(fileExists, forceSave, loadCount, |stockDict|) then SaveOutcome(path, Some(stockDict))
    else SaveOutcome(path, None)
  }

  /**
   * An existing file is left alone unless forced or the dictionary grew by at
   * least two records since it was loaded; a negative load count disables growth.
   */
  lemma SaveSkipped(stockDict: StockDict, loadCount: int, cal: Calendar, clock: Clock, intraday: bool,
                    userDataDir: string, downloadOnly: bool)
    ensures var r := SaveStockData(stockDict, true, loadCount, cal, clock, intraday, userDataDir, downloadOnly, false);
      r.written.None? <==> (loadCount < 0 || |stockDict| <= loadCount + 1)
  {
  }
}
