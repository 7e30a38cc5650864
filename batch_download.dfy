/**
 * `PKAssetsManager.downloadLatestData`: the pending codes are fetched in
 * consecutive batches of 100, with one retry of the codes that failed. Each
 * success is written into a copy of the stock dictionary under the code
 * without its exchange suffix.
 * The provider (yfinance's `Ticker.history`, its errors, an empty frame) is the
 * oracle `fetch`, which maps a ticker symbol and an attempt number to a record
 * or to `None`.
 */
module BatchDownload {
  import opened PyValues

  const BatchSize: nat := 100
  const MaxRetries: nat := 1

  /** The provider seen by one call: ticker symbol and attempt number to a record, or `None`. */
  type Fetch = (string, nat) -> Option<Record>

  // ---------------------------------------------------------------------------
  // Batches
  // ---------------------------------------------------------------------------

  /** `[xs[i:i+size] for i in range(0, len(xs), size)]`. */
  function Batches(xs: seq<string>, size: nat): seq<seq<string>>
    requires size > 0
    decreases |xs|
  {
    if |xs| == 0 then []
    else if |xs| <= size then [xs]
    else [xs[..size]] + Batches(xs[size..], size)
  }

  /** The concatenation of a list of lists. */
  function Flatten(bs: seq<seq<string>>): seq<string> {
    if |bs| == 0 then [] else bs[0] + Flatten(bs[1..])
  }

  /**
   * The batches are non-empty, all but the last hold exactly `size` codes, and
   * together, in order, they are the pending list.
   */
  lemma {:induction false} BatchesPartition(xs: seq<string>, size: nat)
    requires size > 0
    ensures Flatten(Batches(xs, size)) == xs
    ensures forall i :: 0 <= i < |Batches(xs, size)| ==> 0 < |Batches(xs, size)[i]| <= size
    ensures forall i :: 0 <= i < |Batches(xs, size)| - 1 ==> |Batches(xs, size)[i]| == size
    decreases |xs|
  {
    if |xs| > size {
      var rest := Batches(xs[size..], size);
      BatchesPartition(xs[size..], size);
      assert Batches(xs, size) == [xs[..size]] + rest;
      assert Batches(xs, size)[1..] == rest;
      assert xs[..size] + xs[size..] == xs;
      forall i | 1 <= i < |Batches(xs, size)|
        ensures Batches(xs, size)[i] == rest[i - 1]
      {
      }
    }
  }

  /** 250 pending codes are sent as 100, 100 and 50. */
  lemma TwoHundredFifty(xs: seq<string>)
    requires |xs| == 250
    ensures var bs := Batches(xs, BatchSize);
      |bs| == 3 && bs[0] == xs[..100] && bs[1] == xs[100..200] && bs[2] == xs[200..]
  {
    var ys := xs[100..];
    var zs := ys[100..];
    assert Batches(zs, 100) == [zs];
    assert Batches(ys, 100) == [ys[..100]] + [zs];
    assert ys[..100] == xs[100..200] && zs == xs[200..];
  }

  // ---------------------------------------------------------------------------
  // Attempts
  // ---------------------------------------------------------------------------

  /** A dictionary and the codes left over. */
  datatype Attempted = Attempted(dict: StockDict, failed: seq<string>)

  /**
   * One attempt over the pending codes, in their order: a fetched record is
   * stored under the code, a miss appends the code to the attempt's failures.
   */
  function Pass(d: StockDict, pending: seq<string>, suffix: string, fetch: Fetch, attempt: nat): Attempted
    decreases |pending|
  {
    if |pending| == 0 then Attempted(d, [])
    else
      var prev := Pass(d, pending[..|pending| - 1], suffix, fetch, attempt);
      var code := pending[|pending| - 1];
      match fetch(code + suffix, attempt)
      case Some(rec) => Attempted(prev.dict[code := Some(rec)], prev.failed)
      case None => Attempted(prev.dict, prev.failed + [code])
  }

  /** Attempts `attempt` to `MaxRetries`, stopping as soon as nothing is pending. */
  function Attempts(d: StockDict, pending: seq<string>, suffix: string, fetch: Fetch, attempt: nat): Attempted
    decreases MaxRetries + 1 - attempt
  {
    if attempt > MaxRetries || |pending| == 0 then Attempted(d, pending)
    else
      var p := Pass(d, pending, suffix, fetch, attempt);
      Attempts(p.dict, p.failed, suffix, fetch, attempt + 1)
  }

  /** What `downloadLatestData` returns. */
  function Downloaded(d: StockDict, codes: seq<string>, suffix: string, fetch: Fetch): Attempted {
    Attempts(d, codes, suffix, fetch, 0)
  }

  /** The batches the attempts submit, attempt after attempt. */
  ghost function SubmittedBatches(d: StockDict, pending: seq<string>, suffix: string, fetch: Fetch,
                                  attempt: nat): seq<seq<string>>
    decreases MaxRetries + 1 - attempt
  {
    if attempt > MaxRetries || |pending| == 0 then []
    else
      var p := Pass(d, pending, suffix, fetch, attempt);
      Batches(pending, BatchSize) + SubmittedBatches(p.dict, p.failed, suffix, fetch, attempt + 1)
  }

  /** One attempt stores each code the provider answers and leaves every other key as it was. */
  lemma {:induction false} PassSlots(d: StockDict, pending: seq<string>, suffix: string, fetch: Fetch, attempt: nat)
    ensures forall k :: (SlotOf(Pass(d, pending, suffix, fetch, attempt).dict, k) ==
      (if k in pending && fetch(k + suffix, attempt).Some? then Holds(Some(fetch(k + suffix, attempt).value))
       else SlotOf(d, k)))
    decreases |pending|
  {
    if |pending| > 0 {
      var init := pending[..|pending| - 1];
      PassSlots(d, init, suffix, fetch, attempt);
      assert forall k :: k in pending <==> k in init || k == pending[|pending| - 1];
    }
  }

  /** One attempt's failures are exactly the pending codes the provider did not answer. */
  lemma {:induction false} PassFailed(d: StockDict, pending: seq<string>, suffix: string, fetch: Fetch, attempt: nat)
    ensures forall x :: x in Pass(d, pending, suffix, fetch, attempt).failed <==>
      x in pending && fetch(x + suffix, attempt).None?
    ensures |Pass(d, pending, suffix, fetch, attempt).failed| <= |pending|
    decreases |pending|
  {
    if |pending| > 0 {
      var init := pending[..|pending| - 1];
      PassFailed(d, init, suffix, fetch, attempt);
      assert forall k :: k in pending <==> k in init || k == pending[|pending| - 1];
    }
  }

  /**
   * After `downloadLatestData` each requested code holds its record from the
   * first attempt that answered it; a code no attempt answered keeps whatever it
   * had (a failure never removes or overwrites an entry), and so does every key
   * outside the request.
   */
  lemma DownloadedSlots(d: StockDict, codes: seq<string>, suffix: string, fetch: Fetch)
    ensures forall k :: (SlotOf(Downloaded(d, codes, suffix, fetch).dict, k) ==
      (if k in codes && fetch(k + suffix, 0).Some? then Holds(Some(fetch(k + suffix, 0).value))
       else if k in codes && fetch(k + suffix, 1).Some? then Holds(Some(fetch(k + suffix, 1).value))
       else SlotOf(d, k)))
  {
    if |codes| > 0 {
      var p := Pass(d, codes, suffix, fetch, 0);
      PassSlots(d, codes, suffix, fetch, 0);
      PassFailed(d, codes, suffix, fetch, 0);
      if |p.failed| > 0 {
        PassSlots(p.dict, p.failed, suffix, fetch, 1);
      }
    }
  }

  /** The returned failures are the requested codes neither attempt answered. */
  lemma DownloadedFailed(d: StockDict, codes: seq<string>, suffix: string, fetch: Fetch)
    ensures forall x :: x in Downloaded(d, codes, suffix, fetch).failed <==>
      x in codes && fetch(x + suffix, 0).None? && fetch(x + suffix, 1).None?
  {
    if |codes| > 0 {
      var p := Pass(d, codes, suffix, fetch, 0);
      PassFailed(d, codes, suffix, fetch, 0);
      if |p.failed| > 0 {
        PassFailed(p.dict, p.failed, suffix, fetch, 1);
      }
    }
  }

  /** No key of the input dictionary is lost, and no key outside it or the request appears. */
  lemma DownloadedKeys(d: StockDict, codes: seq<string>, suffix: string, fetch: Fetch)
    ensures d.Keys <= Downloaded(d, codes, suffix, fetch).dict.Keys
    ensures Downloaded(d, codes, suffix, fetch).dict.Keys <= d.Keys + Elements(codes)
  {
    var r := Downloaded(d, codes, suffix, fetch).dict;
    DownloadedSlots(d, codes, suffix, fetch);
    forall k | k in d ensures k in r {
      assert SlotOf(r, k).Holds?;
    }
    forall k | k in r ensures k in d || k in codes {
      assert SlotOf(r, k).Holds?;
    }
  }

  /** When the first attempt answers every code there is no retry. */
  lemma NoRetryWhenAllAnswered(d: StockDict, codes: seq<string>, suffix: string, fetch: Fetch)
    requires forall x :: x in codes ==> fetch(x + suffix, 0).Some?
    ensures Downloaded(d, codes, suffix, fetch) == Pass(d, codes, suffix, fetch, 0)
    ensures SubmittedBatches(d, codes, suffix, fetch, 0) == Batches(codes, BatchSize)
  {
    if |codes| > 0 {
      PassFailed(d, codes, suffix, fetch, 0);
      var p := Pass(d, codes, suffix, fetch, 0);
      if |p.failed| > 0 {
        assert false;
      }
    }
  }

  /** The first batch of `xs[i..]` is `xs[i..end]`, and the rest are the batches of `xs[end..]`. */
  lemma BatchesStep(xs: seq<string>, i: nat, end: nat)
    requires i < end <= |xs|
    requires end == (if i + BatchSize <= |xs| then i + BatchSize else |xs|)
    ensures Batches(xs[i..], BatchSize) == [xs[i..end]] + Batches(xs[end..], BatchSize)
  {
    if end == |xs| {
      assert xs[end..] == [];
      assert xs[i..end] == xs[i..];
    } else {
      assert xs[i..][..BatchSize] == xs[i..end];
      assert xs[i..][BatchSize..] == xs[end..];
    }
  }

  /** One more code of the pending list: its record is stored, or it joins the failures. */
  lemma PassStep(d: StockDict, pending: seq<string>, n: nat, suffix: string, fetch: Fetch, attempt: nat)
    requires n < |pending|
    ensures var prev := Pass(d, pending[..n], suffix, fetch, attempt);
      Pass(d, pending[..n + 1], suffix, fetch, attempt) ==
        match fetch(pending[n] + suffix, attempt)
        case Some(rec) => Attempted(prev.dict[pending[n] := Some(rec)], prev.failed)
        case None => Attempted(prev.dict, prev.failed + [pending[n]])
  {
    PrefixStep(pending, n);
  }

  lemma PrefixStep(xs: seq<string>, n: nat)
    requires n < |xs|
    ensures xs[..n + 1][..n] == xs[..n] && xs[..n + 1][n] == xs[n]
  {
  }

  /**
   * One thread-pool batch, `pending[start..end]`: each answered code's record is
   * stored and each unanswered code joins the failures, in the batch's order.
   */
  method RunBatch(d: StockDict, pending: seq<string>, start: nat, end: nat, suffix: string, fetch: Fetch,
                  attempt: nat, dictIn: StockDict, failedIn: seq<string>)
    returns (allStockDict: StockDict, failed: seq<string>)
    requires start <= end <= |pending|
    requires Attempted(dictIn, failedIn) == Pass(d, pending[..start], suffix, fetch, attempt)
    ensures Attempted(allStockDict, failed) == Pass(d, pending[..end], suffix, fetch, attempt)
  {
    allStockDict, failed := dictIn, failedIn;
    var batch := pending[start..end];
    var j := 0;
    while j < |batch|
      invariant 0 <= j <= |batch|
      invariant Attempted(allStockDict, failed) == Pass(d, pending[..start + j], suffix, fetch, attempt)
    {
      var code := batch[j];
      assert code == pending[start + j];
      PassStep(d, pending, start + j, suffix, fetch, attempt);
      var data := fetch(code + suffix, attempt);
      if data.Some? {
        allStockDict := allStockDict[code := Some(data.value)];
      } else {
        failed := failed + [code];
      }
      j := j + 1;
    }
  }

  /**
   * One attempt of `downloadLatestData`: the pending codes in batches of
   * `BatchSize`, each batch's codes in order. `done` is the batches submitted.
   */
  method RunAttempt(d: StockDict, pending: seq<string>, suffix: string, fetch: Fetch, attempt: nat)
    returns (allStockDict: StockDict, failed: seq<string>, ghost done: seq<seq<string>>)
    ensures Attempted(allStockDict, failed) == Pass(d, pending, suffix, fetch, attempt)
    ensures done == Batches(pending, BatchSize)
  {
    allStockDict := d;
    failed := [];
    done := [];
    var i := 0;
    while i < |pending|
      invariant 0 <= i <= |pending|
      invariant Attempted(allStockDict, failed) == Pass(d, pending[..i], suffix, fetch, attempt)
      invariant done + Batches(pending[i..], BatchSize) == Batches(pending, BatchSize)
    {
      var end := if i + BatchSize <= |pending| then i + BatchSize else |pending|;
      var batch := pending[i..end];
      allStockDict, failed := RunBatch(d, pending, i, end, suffix, fetch, attempt, allStockDict, failed);
      BatchesStep(pending, i, end);
      done := done + [batch];
      i := end;
    }
    assert pending[..i] == pending;
    assert pending[i..] == [];
  }

  /**
   * `downloadLatestData`: the attempt loop, the loop over the batches of the
   * pending codes, and the codes of a batch taken in order. `submitted` is the
   * sequence of batches handed to the worker pool.
   */
  method DownloadLatestData(stockDict: StockDict, stockCodes: seq<string>, suffix: string, fetch: Fetch)
    returns (allStockDict: StockDict, leftOutStocks: seq<string>, ghost submitted: seq<seq<string>>)
    ensures Attempted(allStockDict, leftOutStocks) == Downloaded(stockDict, stockCodes, suffix, fetch)
    ensures submitted == SubmittedBatches(stockDict, stockCodes, suffix, fetch, 0)
  {
    allStockDict := stockDict;
    leftOutStocks := stockCodes;
    submitted := [];
    var attempt := 0;
    while attempt <= MaxRetries
      invariant 0 <= attempt <= MaxRetries + 1
      invariant Attempts(allStockDict, leftOutStocks, suffix, fetch, attempt) ==
                Downloaded(stockDict, stockCodes, suffix, fetch)
      invariant submitted + SubmittedBatches(allStockDict, leftOutStocks, suffix, fetch, attempt) ==
                SubmittedBatches(stockDict, stockCodes, suffix, fetch, 0)
    {
      if |leftOutStocks| == 0 {
        break;
      }
      AttemptStep(allStockDict, leftOutStocks, suffix, fetch, attempt);
      var failed;
      ghost var done;
      allStockDict, failed, done := RunAttempt(allStockDict, leftOutStocks, suffix, fetch, attempt);
      assert submitted + done + SubmittedBatches(allStockDict, failed, suffix, fetch, attempt + 1) ==
             submitted + (done + SubmittedBatches(allStockDict, failed, suffix, fetch, attempt + 1));
      leftOutStocks := failed;
      submitted := submitted + done;
      attempt := attempt + 1;
    }
  }

  /** An attempt with codes pending is one pass followed by the later attempts. */
  lemma AttemptStep(d: StockDict, pending: seq<string>, suffix: string, fetch: Fetch, attempt: nat)
    requires attempt <= MaxRetries && |pending| > 0
    ensures var p := Pass(d, pending, suffix, fetch, attempt);
      && Attempts(d, pending, suffix, fetch, attempt) == Attempts(p.dict, p.failed, suffix, fetch, attempt + 1)
      && SubmittedBatches(d, pending, suffix, fetch, attempt) ==
         Batches(pending, BatchSize) + SubmittedBatches(p.dict, p.failed, suffix, fetch, attempt + 1)
  {
  }

  /**
   * A call makes at most two attempts: it submits the batches of the requested
   * codes, then the batches of the first attempt's failures (none when there are
   * none), and the second attempt's failures are what it returns.
   */
  lemma AtMostTwoAttempts(d: StockDict, codes: seq<string>, suffix: string, fetch: Fetch)
    ensures var p := Pass(d, codes, suffix, fetch, 0);
      && SubmittedBatches(d, codes, suffix, fetch, 0) == Batches(codes, BatchSize) + Batches(p.failed, BatchSize)
      && Downloaded(d, codes, suffix, fetch) ==
           (if |p.failed| == 0 then p else Pass(p.dict, p.failed, suffix, fetch, 1))
  {
    var p := Pass(d, codes, suffix, fetch, 0);
    if |codes| == 0 {
      assert p == Attempted(d, []);
    } else {
      AttemptStep(d, codes, suffix, fetch, 0);
      if |p.failed| > 0 {
        AttemptStep(p.dict, p.failed, suffix, fetch, 1);
      }
    }
  }
}
