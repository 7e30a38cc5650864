# pkscreener stock-data cache pipeline, in Dafny

This project models the decision and bookkeeping layer of pkscreener's
stock-data pipeline. That layer is the part of `PKAssetsManager`
(`pkscreener/classes/AssetsManager.py`) and of `screenerStockDataFetcher`
(`pkscreener/classes/Fetcher.py`) that decides where a run's price data comes
from and how the pieces are merged. It covers:

- the cache date and the `{intraday_}stock_data_DDMMYY.pkl` file name;
- the rule that decides whether the cache file is rewritten;
- the rate-limit test over the provider's error registry;
- the batch-and-retry download of `downloadLatestData`;
- the tier sequence of `loadStockData`: a fresh download for a trading or
  download-only run; otherwise the local pickle, then the pkscreener server
  snapshot, then the provider, and a closing 5% corrective pass;
- the two per-symbol merge loops, which deliberately differ;
- the size threshold for a server reply, and the Y/N prompt;
- the symbol, date-range, empty-result and task rules of the fetcher.

Files, one module each:

| file | module | contents |
|---|---|---|
| `py_values.dfy` | `PyValues` | Python values the code relies on: `None`, records and stock dictionaries, `dict.get`, truthiness, `startswith`/`endswith`, `in` on strings, `str.replace`, `",".join`. `Join` carries no row of its own: what the rate-limit test needs of it is `RateLimit.ContainsJoin` |
| `fetcher.dfy` | `Fetcher` | suffix rule, start/end rule, empty-result exception, `fetchStockDataWithArgs` (a `Task` class), `fetchAdditionalTickerInfo` (a registry class) |
| `cache_files.dfy` | `CacheFiles` | cache date, file name and its parser, the directory scan of `afterMarketStockDataExists`, the save rule of `saveStockData` |
| `rate_limit.dfy` | `RateLimit` | `had_rate_limit_errors` |
| `server_size.dfy` | `ServerSize` | the `content-length` unit and the threshold of 40 units |
| `batch_download.dfy` | `BatchDownload` | `downloadLatestData` as nested loops, against recursive definitions of one attempt and of the whole call |
| `merge.dfy` | `Merge` | the local and the server merge, per symbol and as loops, and the stripping of suffixed snapshot keys |
| `assets_manager.dfy` | `AssetsManager` | `loadStockData`, `loadDataFromLocalPickle`, `downloadSavedDataFromServer`, `downloadSavedDefaultsFromServer`, `promptFileExists` |

How the model is built:

- **The outside world is a value.** A `World` holds:
  - the trading calendar and the clock;
  - whether today was traded and whether it is a holiday;
  - the provider, as an oracle from (call number, ticker, attempt) to a record or `None`;
  - the provider's error registry after a given number of download calls;
  - the server's reply;
  - what the user would type at the replace prompt.
- **Objects the code changes in place are classes.** The caller's code list
  (`StockCodes`) and the user data directory (`DataDir`) are classes.
- **Methods are proved against functions.** Loops over codes, batches and
  attempts are methods. Each is proved equal to a recursive function of its
  inputs: `MergeLocalSnapshot` to `LocalMergeSpec`, `MergeServerSnapshot` to
  `ServerMergeSpec`, and `DownloadLatestData` to `Downloaded` and
  `SubmittedBatches`. The lemmas state the properties of those functions.
- **`loadStockData` returns a ghost trace.** The trace records the tiers in the
  order they ran (`Download` with its reason, `ReadLocal`, `FetchServer`,
  `Reenter`, `Save`). The tier-order properties are stated over it.

Behaviours of the code that the model follows:

- The local merge is `{**existing, **disk}`, so the disk record wins on a
  shared key. The server merge is `disk | existing`, so the existing record wins.
- `StockDataEmptyException` is raised only when `printCounter` is set.
- The batch-level `as_completed` timeout is not caught.
- A re-entered `loadStockData` may ask the server a second time; only a
  further re-entry is ruled out.
- An unreadable local cache is reported and, on "Y", deleted. The call
  then continues as if the tier had loaded nothing.

Behaviours of the code as written that the model exhibits:

- The save at `AssetsManager.py:434-435` can never run. A download-only call
  has already returned at :399-401 (`FinishLoad` records the save and
  `CachedLoad` requires `!downloadOnly`).
- The trading branches of both merges cannot be reached from `loadStockData`.
  For the same reason `recentDownloadFromOriginAttempted` is always false at
  :426.
- `stockCodes` is never empty after the base index is inserted.
- A backtest download option is dropped when `downloadSavedDataFromServer`
  re-enters `loadStockData`, so the inner call may trade although the outer one
  did not (`BacktestOptionDroppedOnReentry`).
- A snapshot whose keys carry the exchange suffix is looked up under the
  stripped codes. The lookup misses, and `None` is stored for every new
  symbol (`StrippedLookupMisses`).
- The defaults threshold is not monotone in the byte count
  (`DefaultsNotMonotone`).

## Model

| member | source | states |
|---|---|---|
| PyValues.WithAux | pkscreener/classes/AssetsManager.py:471-474 | the existing record with exactly the five auxiliary columns set from the disk record (`None` where the disk record lacks one); every other key keeps its value |
| PyValues.CopyColumnsTwice | pkscreener/classes/AssetsManager.py:472-473 | copying the same columns from the same disk record a second time changes nothing |
| PyValues.Get | pkscreener/classes/AssetsManager.py:467 | `dict.get` gives `None` both for a missing key and for a stored `None`, and the stored record otherwise |
| PyValues.Replace | pkscreener/classes/AssetsManager.py:465 | `str.replace` with a non-empty pattern leaves a string without an occurrence unchanged; its effect on suffixes is `Merge.StripAll`, `Merge.ReplaceAtEnd` and the examples |
| RateLimit.HadRateLimitErrors | pkscreener/classes/AssetsManager.py:266-276 | the signal is raised iff some single message of the registry contains "YFRateLimitError", "Too Many Requests" or "429"; joining the messages with "," creates no extra match |
| RateLimit.ContainsJoin | pkscreener/classes/AssetsManager.py:268-269 | a needle without a comma occurs in the comma-joined registry iff it occurs in one of its messages |
| RateLimit.HttpTooManyRequests | pkscreener/classes/AssetsManager.py:269 | one message containing "429" anywhere in the registry is a rate-limit signal |
| RateLimit.NoMarkerNoSignal | pkscreener/classes/AssetsManager.py:269 | a registry with no marker in any message, the empty one included, gives no signal |
| Fetcher.WithSuffix | pkscreener/classes/Fetcher.py:78-80 | the code is returned unchanged iff the suffix is empty, the code already ends with it, or the code starts with "^"; otherwise the result is code + suffix |
| Fetcher.WithSuffixIdempotent | pkscreener/classes/Fetcher.py:78-80 | applying the suffix rule twice is applying it once |
| Fetcher.NormaliseSymbols | pkscreener/classes/Fetcher.py:75-80 | a single code gets the suffix rule; a list keeps its length and order and gets the rule element by element |
| Fetcher.NormaliseIdempotent | pkscreener/classes/Fetcher.py:75-80 | normalising an already normalised request changes nothing |
| Fetcher.TickerSymbols | pkscreener/classes/Fetcher.py:52-53 | every ticker ends with the suffix; a code that already ends with it is kept; each other code gets the suffix appended, index codes included |
| Fetcher.IndexSuffixOnlyForInfo | pkscreener/classes/Fetcher.py:52-53 | "^NSEI" is left alone by the price fetch but becomes "^NSEI.NS" for the info fetch |
| Fetcher.RequestRange | pkscreener/classes/Fetcher.py:81-84 | start and end become `None` for the periods 1d, 5d, 1mo, 3mo and 5mo or an interval ending in "m" or "h", and pass through otherwise; an empty interval with any other period is the `IndexError` of `duration[-1]` |
| Fetcher.RangeExamples | pkscreener/classes/Fetcher.py:81-84 | the rule on "15m", "1h", "1d" intervals, on a short period with an empty interval, and the `IndexError` case |
| Fetcher.EmptyCheck | pkscreener/classes/Fetcher.py:162-177 | `StockDataEmptyException` iff `printCounter` is set and the data is `None` or empty; otherwise the data is returned as it is, empty or not |
| Fetcher.FetchStockData | pkscreener/classes/Fetcher.py:75-177 | a successful fetch returns what the provider gives for the normalised symbols and the filtered range; the empty-data error only occurs with `printCounter`; with `printCounter` a success is never empty |
| Fetcher.FetchStockDataWithArgs | pkscreener/classes/Fetcher.py:29-43 | the arguments come from the task when one is given; the fetch runs without dates and with `printCounter` off; for `taskId >= 0` the result is stored under the task id and progress ends as 1 of 1; `task.result` is set whenever a task is given; a failing fetch leaves the task unchanged |
| Fetcher.InfoFor | pkscreener/classes/Fetcher.py:45-47 | the registry has an entry exactly for each ticker whose lookup did not raise, holding its market cap, or 0 without info |
| Fetcher.FetchAdditionalTickerInfo | pkscreener/classes/Fetcher.py:49-57 | a non-list argument raises `TypeError` and leaves the registry alone; otherwise the registry is reset and then holds exactly the info for the suffixed tickers, which is also returned |
| CacheFiles.AfterMarketStockDataExists | pkscreener/classes/AssetsManager.py:180-203 | the reassignment chain yields `previousTradingDate(curr)` when trading, before today's open or on a weekend, and `previousTradingDate(nextTradingDate(curr))` otherwise, so the Monday rule adds nothing; the returned name is that date's cache file name; `exists` holds iff some listed file matches the glob and ends with the name |
| CacheFiles.FindCacheFile | pkscreener/classes/AssetsManager.py:198-202 | the scan finds a hit iff some listed file matches `{prefix}*.pkl` and ends with the cache file name |
| CacheFiles.CacheFileName | pkscreener/classes/AssetsManager.py:195-197 | the name starts with `{intraday_}stock_data_`, ends with ".pkl" and has ten characters after the prefix |
| CacheFiles.ParseCacheFileNameRoundTrip | pkscreener/classes/AssetsManager.py:195-197 | reading a cache file name back recovers the intraday flag and the date's day, month and two-digit year |
| CacheFiles.CacheFileNameInjective | pkscreener/classes/AssetsManager.py:195-197 | two cache dates share a file name iff they agree on the flag, the day, the month and the year modulo 100 |
| CacheFiles.ParseStampRoundTrip | pkscreener/classes/AssetsManager.py:195 | the `%d%m%y` stamp followed by ".pkl" reads back as the day, month and two-digit year |
| CacheFiles.TwoDigitsValue | pkscreener/classes/AssetsManager.py:195 | the two-digit field of a number below 100 reads back as that number |
| CacheFiles.CacheHitExamples | pkscreener/classes/AssetsManager.py:196-201 | the cache file itself is always a hit; a daily lookup never takes the intraday file of the same date |
| CacheFiles.SaveStockData | pkscreener/classes/AssetsManager.py:209-261 | the returned path is the cache file name joined to the data directory, or to its download mirror; the dictionary is written iff the file is absent, the save is forced, or the load count is non-negative and the dictionary has more than load count + 1 entries |
| CacheFiles.SaveSkipped | pkscreener/classes/AssetsManager.py:223 | an existing file without a forced save is left alone iff the load count is negative or the dictionary grew by at most one |
| ServerSize.ServerBytes | pkscreener/classes/AssetsManager.py:503-504 | a missing header counts as 0 bytes and a number as itself; a malformed header is the `ValueError` of `int()` |
| ServerSize.ChunkSize | pkscreener/classes/AssetsManager.py:507 | the unit is MB from one MB on, KB from one KB up to one MB, and single bytes below one KB |
| ServerSize.StreamUsableIff | pkscreener/classes/AssetsManager.py:533-535 | the streaming path takes a reply iff it has at least 41 MB |
| ServerSize.DefaultsUsableIff | pkscreener/classes/AssetsManager.py:507-509 | the defaults path takes a reply iff it has 41 bytes up to 1 KB, or 41 KB up to 1 MB, or at least 41 MB |
| ServerSize.DivisionThreshold | pkscreener/classes/AssetsManager.py:508-509 | `b // u > 40` iff `b >= 41 * u`, for a non-negative byte count |
| ServerSize.DefaultsNotMonotone | pkscreener/classes/AssetsManager.py:507-509 | 100 bytes pass, 2048 bytes fail and 41 KB pass |
| ServerSize.StreamImpliesDefaults | pkscreener/classes/AssetsManager.py:529-535 | every reply the streaming path takes passes the defaults test; a negative length never passes, since truncation keeps it negative |
| BatchDownload.BatchesPartition | pkscreener/classes/AssetsManager.py:326-327 | the batches are non-empty; all but the last hold exactly the batch size; concatenated in order they are the pending list |
| BatchDownload.TwoHundredFifty | pkscreener/classes/AssetsManager.py:312-327 | 250 pending codes are sent as the slices 0-100, 100-200 and 200-250 |
| BatchDownload.PassSlots | pkscreener/classes/AssetsManager.py:336-345 | after one attempt each pending code the provider answered holds its record under the suffix-less code; every other key keeps its slot |
| BatchDownload.PassFailed | pkscreener/classes/AssetsManager.py:336-349 | an attempt's failures are exactly the pending codes the provider did not answer, and there are no more of them than pending codes |
| BatchDownload.DownloadedSlots | pkscreener/classes/AssetsManager.py:315-360 | a requested code holds the record of the first attempt that answered it; a code no attempt answered, and every key outside the request, keeps what it had, so a failure never removes or overwrites an entry |
| BatchDownload.DownloadedFailed | pkscreener/classes/AssetsManager.py:355-360 | the returned failures are exactly the requested codes neither attempt answered |
| BatchDownload.DownloadedKeys | pkscreener/classes/AssetsManager.py:315-341 | the result keeps every key of the input dictionary and adds only requested codes |
| BatchDownload.NoRetryWhenAllAnswered | pkscreener/classes/AssetsManager.py:320-322 | when the first attempt answers every code, the call is that attempt alone and submits only its batches |
| BatchDownload.AtMostTwoAttempts | pkscreener/classes/AssetsManager.py:314-358 | a call submits the batches of the requested codes, then those of the first attempt's failures; it returns the first attempt when that left no failure, and the second attempt otherwise |
| BatchDownload.AttemptStep | pkscreener/classes/AssetsManager.py:320-355 | an attempt with codes pending is one pass followed by the later attempts over that pass's failures |
| BatchDownload.RunBatch | pkscreener/classes/AssetsManager.py:326-349 | processing one batch extends the attempt from the codes before it to the codes up to its end |
| BatchDownload.RunAttempt | pkscreener/classes/AssetsManager.py:323-355 | the batch loop computes one full attempt over the pending codes and submits exactly their batches |
| BatchDownload.DownloadLatestData | pkscreener/classes/AssetsManager.py:282-360 | the returned dictionary and failures are `Downloaded` of the inputs; the batches handed to the workers are `SubmittedBatches` |
| Merge.LocalSlot | pkscreener/classes/AssetsManager.py:467-478 | the local step for one symbol raises iff the existing entry is truthy and the snapshot has no record for it |
| Merge.ServerSlot | pkscreener/classes/AssetsManager.py:574-590 | the existing entry wins over the disk record on a shared column, and the disk record fills the others; with the trading flag only the five auxiliary columns are copied; a missing record under an existing entry, a failing step, is caught and leaves the slot unchanged; a symbol with no entry takes the disk entry, or is left alone when trading |
| Merge.WithAuxIdempotent | pkscreener/classes/AssetsManager.py:471-474 | the auxiliary copy applied twice with the same disk record is applied once |
| Merge.LocalSlotIdempotent | pkscreener/classes/AssetsManager.py:466-478 | repeating a local step that did not raise leaves the slot as the first step left it |
| Merge.ServerSlotIdempotent | pkscreener/classes/AssetsManager.py:574-590 | repeating a server step leaves the slot as the first step left it |
| Merge.LocalDiskWins | pkscreener/classes/AssetsManager.py:475-476 | outside trading a truthy existing record merged locally has the keys of both records and the disk value on every shared key |
| Merge.ServerExistingWins | pkscreener/classes/AssetsManager.py:583-584 | outside trading a present existing record, even an empty one, merged from the server has the keys of both records and the existing value on every shared key |
| Merge.TradingCopiesAuxOnly | pkscreener/classes/AssetsManager.py:470-474 | during trading a counted existing record gets exactly the auxiliary columns from disk; an uncounted symbol stays as it was, absent ones stay absent; the server loop (lines 576-582) does the same and skips a missing disk record |
| Merge.AdoptedFromDisk | pkscreener/classes/AssetsManager.py:477-478 | outside trading a symbol without a truthy entry (local) or with a `None` entry (server) takes the disk entry, `None` included |
| Merge.TruthinessVersusNone | pkscreener/classes/AssetsManager.py:470 | an empty stored record is replaced locally but kept by the server loop; a non-empty record without a disk record raises locally and is kept by the server loop |
| Merge.LocalMergeCharacterised | pkscreener/classes/AssetsManager.py:466-479 | the local loop raises iff some listed symbol has a truthy entry and no disk record; otherwise each listed symbol ends as one step on its original slot makes it, duplicates included, and every other key is untouched |
| Merge.LocalMergeNoRaise | pkscreener/classes/AssetsManager.py:466-479 | a local loop that did not raise met no symbol whose step raises |
| Merge.LocalMergeSlots | pkscreener/classes/AssetsManager.py:466-479 | a local loop that did not raise leaves each listed symbol as one step on its original slot, and every other key untouched |
| Merge.ServerMergeCharacterised | pkscreener/classes/AssetsManager.py:570-590 | after the server loop each listed symbol is as one step on its original slot makes it, and every other key is untouched |
| Merge.MergesKeepKeys | pkscreener/classes/AssetsManager.py:466-478 | neither loop removes a key of the stock dictionary |
| Merge.TradingAddsNoKey | pkscreener/classes/AssetsManager.py:477-478 | during trading neither loop changes the key set |
| Merge.CrashPersists | pkscreener/classes/AssetsManager.py:466-479 | once the local loop has raised on a prefix of the codes, it raises on the whole list |
| Merge.StripAll | pkscreener/classes/AssetsManager.py:465 | each code loses every non-overlapping occurrence of the suffix, with length and order kept |
| Merge.LocalCodes | pkscreener/classes/AssetsManager.py:464-465 | the local loop strips all codes iff the suffix is non-empty and occurs in some code |
| Merge.ServerCodes | pkscreener/classes/AssetsManager.py:564-569 | the server loop strips all codes iff the suffix is non-empty and occurs in the first code |
| Merge.NoSuffixNoStrip | pkscreener/classes/AssetsManager.py:464-465 | when no code holds the suffix both loops use the snapshot's codes as they are |
| Merge.ReplaceAtEnd | pkscreener/classes/AssetsManager.py:465 | a code whose base never contains the suffix's first character loses exactly the trailing suffix |
| Merge.ReplaceSuffixExample | pkscreener/classes/AssetsManager.py:465 | "SBIN.NS" with ".NS" removed is "SBIN" |
| Merge.StrippedCodesExample | pkscreener/classes/AssetsManager.py:464-465 | both loops turn the snapshot key "SBIN.NS" into the code "SBIN" |
| Merge.StrippedLookupMisses | pkscreener/classes/AssetsManager.py:464-478 | a snapshot stored under "SBIN.NS" is looked up under "SBIN", misses, and both loops store `None` for the new symbol |
| Merge.MergeLocalSnapshot | pkscreener/classes/AssetsManager.py:466-478 | the loop as written computes `LocalMergeSpec`, the exception included |
| Merge.MergeServerSnapshot | pkscreener/classes/AssetsManager.py:570-590 | the loop as written computes `ServerMergeSpec` |
| AssetsManager.IsTradingSession | pkscreener/classes/AssetsManager.py:385-387 | no trading outside trading time, nor on a holiday without trades, nor with an option containing "B"; trading in trading time on a traded or non-holiday day when no option is given |
| AssetsManager.BacktestOptionDroppedOnReentry | pkscreener/classes/AssetsManager.py:385-387 | an option containing "B" never trades; the same moment without the option trades when the market is open and it is no holiday |
| AssetsManager.NeedsCorrection | pkscreener/classes/AssetsManager.py:395 | a repeat needs at least one missing code and no rate-limit signal; below 20 requested codes any missing code is enough, and so is missing more codes than were requested |
| AssetsManager.CorrectionThreshold | pkscreener/classes/AssetsManager.py:431 | the 5% rule holds iff 20 times the missing count exceeds the requested count and there is no rate-limit signal |
| AssetsManager.WithBaseIndex | pkscreener/classes/AssetsManager.py:389-390 | the base index is in the result; the element set gains only it; a list already holding it is unchanged; otherwise it is put in front |
| AssetsManager.WithBaseIndexIdempotent | pkscreener/classes/AssetsManager.py:389-390 | inserting the base index twice is inserting it once |
| AssetsManager.Upper | pkscreener/classes/AssetsManager.py:633 | `str.upper` of ASCII text, character by character, same length |
| AssetsManager.PromptFileExists | pkscreener/classes/AssetsManager.py:624-639 | the answer is always "Y" or "N"; which inputs give "N" is `AssetsManager.PromptAnswers` |
| AssetsManager.PromptAnswers | pkscreener/classes/AssetsManager.py:626-639 | the answer is "N" iff the default is "N" or, without a default, the typed text is "n" or "N"; a default "n" is not upper-cased and gives "Y" |
| AssetsManager.DeleteCacheFiles | pkscreener/classes/AssetsManager.py:486 | exactly the cache files are removed; every other file is kept with its content |
| AssetsManager.CacheFileNamesAreCacheFiles | pkscreener/classes/AssetsManager.py:485-486 | every cache file name is removed by the cleanup |
| AssetsManager.FreshPhase | pkscreener/classes/AssetsManager.py:392-397 | the fresh tier makes one or two download calls |
| AssetsManager.RepeatSlots | pkscreener/classes/AssetsManager.py:394-397 | a second download over the first call's failures keeps every key and every code outside the list; a requested code holds the first call's answer, else the second call's, else its old slot |
| AssetsManager.FreshPhaseSlots | pkscreener/classes/AssetsManager.py:392-397 | the fresh tier keeps every key and leaves keys outside the code list untouched; a requested code holds the first call's answer (first attempt, else its retry), failing that the repeat call's answer when the 5% repeat runs, failing both its old slot |
| AssetsManager.ListOfSet | pkscreener/classes/AssetsManager.py:430 | `list(set(...))`: the list holds each element of the set exactly once |
| AssetsManager.DownloadPhase | pkscreener/classes/AssetsManager.py:392-397 | the fresh tier computes `FreshPhase` and records one fresh download, followed by at most one repeat that ran only without a rate-limit signal |
| AssetsManager.ProviderRound | pkscreener/classes/AssetsManager.py:427 | one download call computes `Downloaded` for that call's provider, keeps every key and adds only requested codes |
| AssetsManager.FinishLoad | pkscreener/classes/AssetsManager.py:426-435 | the fallback runs iff nothing loaded, no origin download ran and there is no rate-limit signal; the corrective pass runs iff more than 5% of the codes are missing after it and there is no signal, over exactly the missing codes, each once; the save happens iff the call is download-only and data loaded or the dictionary size changed |
| AssetsManager.DownloadTraceFacts | pkscreener/classes/AssetsManager.py:392-401 | a record of downloads only has no save, no cache tier, no re-entry, and every download after the first was rate-checked |
| AssetsManager.TailFacts | pkscreener/classes/AssetsManager.py:426-433 | the closing tier records only downloads; each is rate-checked; a fallback asks for the whole code list |
| AssetsManager.AppendDownloads | pkscreener/classes/AssetsManager.py:410-433 | appending the closing tier to the cache tiers keeps every property of the record |
| AssetsManager.CacheStepFacts | pkscreener/classes/AssetsManager.py:410-419 | the cache tiers run local pickle, then server, then at most one re-entry; the server is asked only when forced, or for the default period and interval after a local miss; a retrial does not re-enter |
| AssetsManager.CacheTraceFacts | pkscreener/classes/AssetsManager.py:406-435 | a record of cache tiers and closing tier has no save; no cache tier follows a download; downloads are rate-checked; the fallback follows only tiers that delivered nothing; server reads are guarded |
| AssetsManager.LoadDataFromLocalPickle | pkscreener/classes/AssetsManager.py:442-489 | a missing file raises; an unreadable one loads nothing and, on a "Y" answer, deletes the cache files; an empty snapshot loads nothing; otherwise the result is the local merge of the snapshot under its (possibly stripped) codes, and the call loads iff the merge did not raise |
| AssetsManager.DownloadSavedDataFromServer | pkscreener/classes/AssetsManager.py:521-619 | a reply other than status 200 changes nothing; a malformed length raises; data loads iff the reply is at least 41 MB and holds a non-empty dictionary, and it is then the server merge of the snapshot; the call re-enters `loadStockData` iff it is no retrial and loaded nothing after a usable header; only cache files change; without a re-entry, a reply of at least 41 MB overwrites the cache file with its body, a call that loaded nothing returns the dictionary unchanged, and no download call is made |
| AssetsManager.DefaultsMatch | pkscreener/classes/AssetsManager.py:412-417 | an intraday run matches iff the period is "1d" and the duration "1m"; any other run matches iff both equal the configured defaults |
| AssetsManager.CacheTiers | pkscreener/classes/AssetsManager.py:406-419 | the local pickle is read iff the cache file exists and no re-download is forced; the server is asked only when forced or for the default period and interval after a local miss; the flag handed on holds iff the local or the server tier delivered |
| AssetsManager.CacheFileOfRun | pkscreener/classes/AssetsManager.py:379-381 | the run's cache file is the name for the clock's cache date, and `exists` holds iff some file of the data directory is a hit for it |
| AssetsManager.LoadStockData | pkscreener/classes/AssetsManager.py:365-436 | the base index joins the codes; a trading or download-only call returns `FreshPhase` of the input without touching the directory; no call saves; downloads come after all cache tiers and, apart from the first fresh one, only without a rate-limit signal; the fallback asks for all codes and only after no tier delivered; a retrial does not re-enter; no key is lost; only cache files change |
| AssetsManager.CachedLoad | pkscreener/classes/AssetsManager.py:403-435 | a call that reads the caches runs its tiers in the order and under the guards above, and the local read happens iff the cache file exists and no re-download is forced |
| AssetsManager.DownloadSavedDefaultsFromServer | pkscreener/classes/AssetsManager.py:495-516 | a write is attempted iff the reply has status 200 and its length passes the defaults threshold; the file then holds what the text-mode write of `resp.text` left, is untouched when `open` failed, or is truncated when the write failed; `fileDownloaded` is true iff the write succeeded; a malformed length is the `ValueError` |

## Left out

- AssetsManager.LoadStockData: for a call that reads the caches, the contract states the order and guards of the tiers and that no key is lost. It does not state the final dictionary as one function of the world. That function is spread over `LoadDataFromLocalPickle`, `DownloadSavedDataFromServer` and `FinishLoad`, whose contracts give each tier's result.
- AssetsManager.CachedLoad: the same as for `LoadStockData`; the caller's dictionary is stated only through the tier contracts it calls.
- AssetsManager.CacheTiers: the dictionary it returns is stated only as keeping every key; the per-tier results are in the contracts of the two readers it calls.
- AssetsManager.DownloadSavedDataFromServer: after a re-entry the result is the inner call's result. Only its kept keys, its record and the files it may touch are stated; the cache-file write and the unchanged dictionary are stated for a call that does not re-enter.
- `int(len(codes) * 0.05)` is modelled as `len(codes) // 20`. The double nearest 0.05 lies just above 1/20, so the two agree for every list length far below 2^50.
- Pickle, pandas and the file system are not modelled.
  - A file is present or absent with decoded content: `Corrupt`, or the keys in order plus the dictionary.
  - `MultiIndex` keys, their sorting and their `None` filter are folded into that key list.
  - `to_dict("split")` is taken as already done.
- A stock dictionary is passed by value.
  - The local loop updates the caller's dictionary and the existing records in place. After an exception in the middle of that loop, the caller would see the partial updates. The model returns only `Raised`.
  - Aliasing between the dictionary and its records is not captured.
- Concurrency and timing are not modelled: the thread pools, `as_completed` and its 120-second timeout (an uncaught `TimeoutError`), the per-request timeout, and `time.sleep`.
  - Each batch is a pass over its codes in list order. The code appends to `failed` in completion order, and the model appends in list order instead. So the order of the returned left-out list, and which failed codes share a retry batch once more than 100 failed, are the model's list order, not the order as completed (`BatchDownload.SubmittedBatches`, `BatchDownload.AtMostTwoAttempts`, `BatchDownload.DownloadLatestData`). The set of failed codes and the stored records do not depend on that order.
  - In `fetchAdditionalTickerInfo` the executor's order and concurrent writes to the registry are not modelled.
- The provider and its error registry are oracles fixed per download call.
  - yfinance itself is not modelled: `Ticker.history`, `yf.download` and `fast_info`.
  - The registry's clean-up of a ticker before it is fetched is not modelled.
  - The invalid-period re-fetch and the rate-limit log of `fetchStockData` depend on opaque error objects.
- The server reply and the clock are fixed for the whole run, so the re-entered call sees the same reply. The HTTP fetch of `tryFetchFromServer` is not part of this model. A streamed download is written in one step.
- `PKDateUtilities` and `MarketHours` are not visible. `previousTradingDate` and `nextTradingDate` are uninterpreted functions of the `Calendar`, and the weekday comes with the clock's date and time.
- `ConfigManager.deleteFileWithPattern` is not part of this model. Its default pattern is taken as every `*stock_data_*.pkl` file of the user data directory.
- Parts of `saveStockData` are not modelled: creating the mirror folder, cleaning it, the pickle dump, the listing of written files, and the `RUNNER`/`git add` side channel. Whether the target file exists is a parameter, `os.sep` is "/", and the folder rename uses `str.replace`.
- The save call at `AssetsManager.py:434-435` is dead code. The model records it as a `Save` step only and does not call `SaveStockData` from `LoadStockData`.
- The `ValueError` branch of `promptFileExists` is not modelled. It would leave `response` unbound. `input()` itself is the `typedAnswer` of the world.
- Console output, spinners, progress bars, colours and logging are not modelled.
- `loadStockData`'s default `stockCodes=[]` is one list shared by every call that omits it, so a base index inserted into it stays there for later calls. The model's `StockCodes` object is always passed in, so that sharing is not captured.
- AssetsManager.Upper: upper-cases ASCII letters only. This decides the "N" test exactly, since only "n" and "N" upper-case to "N".
- CacheFiles.SaveStockData: its `intraday` argument stands for `configManager.isIntradayConfig() or intraday`, the flag the source passes to `afterMarketStockDataExists` at lines 210-212; the caller combines the two.
- AssetsManager.DownloadSavedDefaultsFromServer: what the text-mode write of `resp.text` leaves on disk is a parameter (`TextWrite`), since decoding the body as text and writing it back is not modelled.
- The unused parameters of `downloadLatestData` (`downloadOnly`, `numStocksPerIteration`) are not modelled.
- The fetcher's arguments `proxyServer` and the counters are dropped.
- `promptSaveResults`, `fetchWatchlist`, `fetchLatestNiftyDaily` and `fetchFiveEmaData` are spreadsheet I/O and thin provider wrappers, outside this model.
