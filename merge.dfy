/**
 * The two per-symbol merge loops that fold a cache snapshot into the stock
 * dictionary: the local pickle (`loadDataFromLocalPickle`) and the server
 * snapshot (`downloadSavedDataFromServer`). They differ on purpose:
 *
 *  - local:  an existing entry counts only when it is truthy, the disk record
 *            wins on key collisions (`{**existing, **disk}`), and a missing disk
 *            record under a truthy entry raises out of the loop;
 *  - server: an existing entry counts when it is `is not None`, the existing
 *            record wins (`disk | existing`), and a failing symbol is skipped
 *            (`except: continue`).
 *
 * During trading both only copy the five auxiliary columns onto an existing
 * record and adopt no new symbol.
 */
module Merge {
  import opened PyValues

  /** What `stockDict.get(stock)` returns for a slot. */
  function Existing(s: Slot): (e: Entry)
    ensures s.Missing? ==> e.None?
    ensures s.Holds? ==> e == s.entry
  {
    if s.Holds? then s.entry else None
  }

  // ---------------------------------------------------------------------------
  // One symbol
  // ---------------------------------------------------------------------------

  /**
   * One symbol of the local loop; `None` when the step raises (`None.get(col)`
   * or `{**existing, **None}` under a truthy existing entry).
   */
  function LocalSlot(s: Slot, payload: Entry, trading: bool): (r: Option<Slot>)
    ensures r.None? <==> Truthy(Existing(s)) && payload.None?
  {
    var existing := Existing(s);
    if Truthy(existing) then
      if payload.None? then None
      else if trading then Some(Holds(Some(WithAux(existing.value, payload.value))))
      else Some(Holds(Some(existing.value + payload.value)))
    else if !trading then Some(Holds(payload))
    else Some(s)
  }

  /** The local step raises for this slot and disk record. */
  predicate LocalRaises(s: Slot, payload: Entry) {
    Truthy(Existing(s)) && payload.None?
  }

  /** The slot after the local step, where it does not raise. */
  function LocalFinal(s: Slot, payload: Entry, trading: bool): Slot {
    match LocalSlot(s, payload, trading)
    case Some(t) => t
    case None => s
  }

  /**
   * One symbol of the server loop. A failing step (`None.get(col)` or
   * `None | existing`) is caught and leaves the slot as it was.
   */
  function ServerSlot(s: Slot, payload: Entry, trading: bool): (r: Slot)
    ensures Existing(s).Some? && payload.None? ==> r == s
    ensures Existing(s).Some? && payload.Some? && !trading ==>
      && r.Holds? && r.entry.Some?
      && r.entry.value.Keys == Existing(s).value.Keys + payload.value.Keys
      && (forall c :: c in Existing(s).value ==> r.entry.value[c] == Existing(s).value[c])
      && (forall c :: c in payload.value && c !in Existing(s).value ==> r.entry.value[c] == payload.value[c])
    ensures Existing(s).Some? && payload.Some? && trading ==>
      && r.Holds? && r.entry.Some?
      && r.entry.value.Keys == Existing(s).value.Keys + (set c | c in AuxColumns)
      && (forall c :: c in AuxColumns ==> r.entry.value[c] == Field(payload.value, c))
      && (forall c :: c in Existing(s).value && c !in AuxColumns ==> r.entry.value[c] == Existing(s).value[c])
    ensures Existing(s).None? ==> r == if trading then s else Holds(payload)
  {
    var existing := Existing(s);
    if existing.Some? then
      if payload.None? then s
      else if trading then Holds(Some(WithAux(existing.value, payload.value)))
      else Holds(Some(payload.value + existing.value))
    else if !trading then Holds(payload)
    else s
  }

  lemma WithAuxIdempotent(e: Record, p: Record)
    ensures WithAux(WithAux(e, p), p) == WithAux(e, p)
  {
    CopyColumnsTwice(e, p, AuxColumns);
  }

  /** A record after the auxiliary copy is never empty: it holds the five columns. */
  lemma WithAuxNonEmpty(e: Record, p: Record)
    ensures |WithAux(e, p)| > 0
  {
    assert AuxColumns[0] in WithAux(e, p);
  }

  /** Repeating a local step that did not raise changes nothing. */
  lemma LocalSlotIdempotent(s: Slot, payload: Entry, trading: bool)
    requires LocalSlot(s, payload, trading).Some?
    ensures LocalSlot(LocalFinal(s, payload, trading), payload, trading) == Some(LocalFinal(s, payload, trading))
  {
    var e := Existing(s);
    if Truthy(e) {
      if trading {
        WithAuxIdempotent(e.value, payload.value);
        WithAuxNonEmpty(e.value, payload.value);
      } else {
        var m := e.value + payload.value;
        assert m + payload.value == m;
        assert |m| > 0 by {
          var k :| k in e.value;
          assert k in m;
        }
      }
    } else if !trading && Truthy(payload) {
      assert payload.value + payload.value == payload.value;
    }
  }

  /** Repeating a server step changes nothing. */
  lemma ServerSlotIdempotent(s: Slot, payload: Entry, trading: bool)
    ensures ServerSlot(ServerSlot(s, payload, trading), payload, trading) == ServerSlot(s, payload, trading)
  {
    var e := Existing(s);
    if e.Some? && payload.Some? {
      if trading {
        WithAuxIdempotent(e.value, payload.value);
      } else {
        assert payload.value + (payload.value + e.value) == payload.value + e.value;
      }
    } else if e.None? && !trading && payload.Some? {
      assert payload.value + payload.value == payload.value;
    }
  }

  /**
   * Outside trading the local merge of a truthy record is the union of both
   * records with the disk values on shared keys.
   */
  lemma LocalDiskWins(e: Record, p: Record)
    requires |e| > 0
    ensures LocalSlot(Holds(Some(e)), Some(p), false).Some?
    ensures var r := Existing(LocalSlot(Holds(Some(e)), Some(p), false).value).value;
      && r.Keys == e.Keys + p.Keys
      && (forall c :: c in p ==> r[c] == p[c])
      && (forall c :: c in e && c !in p ==> r[c] == e[c])
  {
  }

  /**
   * Outside trading the server merge of a present record is the union of both
   * records with the existing values on shared keys, even for an empty record.
   */
  lemma ServerExistingWins(e: Record, p: Record)
    ensures var r := Existing(ServerSlot(Holds(Some(e)), Some(p), false)).value;
      && r.Keys == e.Keys + p.Keys
      && (forall c :: c in e ==> r[c] == e[c])
      && (forall c :: c in p && c !in e ==> r[c] == p[c])
  {
  }

  /**
   * During trading a counted existing record gets exactly the five auxiliary
   * columns from the disk record; no other symbol changes and none is adopted.
   */
  lemma TradingCopiesAuxOnly(s: Slot, p: Record)
    ensures LocalSlot(s, Some(p), true) ==
            Some(if Truthy(Existing(s)) then Holds(Some(WithAux(Existing(s).value, p))) else s)
    ensures ServerSlot(s, Some(p), true) ==
            (if Existing(s).Some? then Holds(Some(WithAux(Existing(s).value, p))) else s)
    ensures LocalFinal(s, None, true).Holds? <==> s.Holds?
    ensures ServerSlot(s, None, true) == s
  {
  }

  /** Outside trading a symbol that is not counted as present is adopted from disk, `None` included. */
  lemma AdoptedFromDisk(s: Slot, payload: Entry)
    ensures !Truthy(Existing(s)) ==> LocalSlot(s, payload, false) == Some(Holds(payload))
    ensures Existing(s).None? ==> ServerSlot(s, payload, false) == Holds(payload)
  {
  }

  /**
   * Where truthiness and `is not None` part ways: an empty stored record is
   * replaced by a missing disk record locally but kept by the server path, and a
   * non-empty record with a missing disk record raises locally but is kept by
   * the server path.
   */
  lemma TruthinessVersusNone(e: Record)
    ensures LocalSlot(Holds(Some(map[])), None, false) == Some(Holds(None))
    ensures ServerSlot(Holds(Some(map[])), None, false) == Holds(Some(map[]))
    ensures |e| > 0 ==> LocalSlot(Holds(Some(e)), None, false).None?
    ensures ServerSlot(Holds(Some(e)), None, false) == Holds(Some(e))
  {
  }

  // ---------------------------------------------------------------------------
  // The loops over a snapshot's codes
  // ---------------------------------------------------------------------------

  /** The dictionary after a merge loop, or the exception that left it. */
  datatype MergeResult = Merged(dict: StockDict) | Crashed

  /** The local loop over `codes`, in order. */
  function LocalMergeSpec(d: StockDict, disk: StockDict, codes: seq<string>, trading: bool): MergeResult
    decreases |codes|
  {
    if |codes| == 0 then Merged(d)
    else
      match LocalMergeSpec(d, disk, codes[..|codes| - 1], trading)
      case Crashed => Crashed
      case Merged(m) =>
        var c := codes[|codes| - 1];
        match LocalSlot(SlotOf(m, c), Get(disk, c), trading)
        case None => Crashed
        case Some(s) => Merged(Put(m, c, s))
  }

  /** The server loop over `codes`, in order. */
  function ServerMergeSpec(d: StockDict, disk: StockDict, codes: seq<string>, trading: bool): StockDict
    decreases |codes|
  {
    if |codes| == 0 then d
    else
      var m := ServerMergeSpec(d, disk, codes[..|codes| - 1], trading);
      var c := codes[|codes| - 1];
      Put(m, c, ServerSlot(SlotOf(m, c), Get(disk, c), trading))
  }

  lemma SplitLast(codes: seq<string>)
    requires |codes| > 0
    ensures forall k :: k in codes <==> k in codes[..|codes| - 1] || k == codes[|codes| - 1]
  {
    assert codes == codes[..|codes| - 1] + [codes[|codes| - 1]];
  }

  /**
   * The local loop raises exactly when some listed symbol has a truthy entry and
   * no disk record; otherwise every listed symbol ends as one step on its
   * original slot made it, duplicates included, and every other key is untouched.
   */
  lemma {:induction false} LocalMergeCharacterised(d: StockDict, disk: StockDict, codes: seq<string>, trading: bool)
    ensures LocalMergeSpec(d, disk, codes, trading).Crashed? <==>
            exists i :: 0 <= i < |codes| && LocalRaises(SlotOf(d, codes[i]), Get(disk, codes[i]))
    ensures LocalMergeSpec(d, disk, codes, trading).Merged? ==>
            forall k :: (SlotOf(LocalMergeSpec(d, disk, codes, trading).dict, k) ==
              if k in codes then LocalFinal(SlotOf(d, k), Get(disk, k), trading) else SlotOf(d, k))
    decreases |codes|
  {
    LocalMergeSlots(d, disk, codes, trading);
    LocalMergeNoRaise(d, disk, codes, trading);
    if |codes| > 0 && LocalMergeSpec(d, disk, codes, trading).Crashed? {
      var init := codes[..|codes| - 1];
      var c := codes[|codes| - 1];
      LocalMergeCharacterised(d, disk, init, trading);
      var pre := LocalMergeSpec(d, disk, init, trading);
      if pre.Crashed? {
        var i :| 0 <= i < |init| && LocalRaises(SlotOf(d, init[i]), Get(disk, init[i]));
        assert codes[i] == init[i];
      } else {
        LocalMergeSlots(d, disk, init, trading);
        LocalMergeNoRaise(d, disk, init, trading);
        var s0 := SlotOf(d, c);
        if c in init {
          LocalSlotIdempotent(s0, Get(disk, c), trading);
          assert false;
        }
        assert SlotOf(pre.dict, c) == s0;
      }
    }
  }

  /** A merge that did not raise met no symbol whose step raises. */
  lemma {:induction false} LocalMergeNoRaise(d: StockDict, disk: StockDict, codes: seq<string>, trading: bool)
    ensures LocalMergeSpec(d, disk, codes, trading).Merged? ==>
            forall i :: 0 <= i < |codes| ==> !LocalRaises(SlotOf(d, codes[i]), Get(disk, codes[i]))
    decreases |codes|
  {
    if |codes| > 0 && LocalMergeSpec(d, disk, codes, trading).Merged? {
      var init := codes[..|codes| - 1];
      var c := codes[|codes| - 1];
      LocalMergeNoRaise(d, disk, init, trading);
      LocalMergeSlots(d, disk, init, trading);
      var s0 := SlotOf(d, c);
      if c !in init {
        assert SlotOf(LocalMergeSpec(d, disk, init, trading).dict, c) == s0;
      }
      forall i | 0 <= i < |codes|
        ensures !LocalRaises(SlotOf(d, codes[i]), Get(disk, codes[i]))
      {
        if i < |init| {
          assert codes[i] == init[i];
        }
      }
    }
  }

  /** A merge that did not raise: the slot it leaves for every key. */
  lemma {:induction false} LocalMergeSlots(d: StockDict, disk: StockDict, codes: seq<string>, trading: bool)
    ensures LocalMergeSpec(d, disk, codes, trading).Merged? ==>
            forall k :: (SlotOf(LocalMergeSpec(d, disk, codes, trading).dict, k) ==
              if k in codes then LocalFinal(SlotOf(d, k), Get(disk, k), trading) else SlotOf(d, k))
    decreases |codes|
  {
    if |codes| > 0 && LocalMergeSpec(d, disk, codes, trading).Merged? {
      var init := codes[..|codes| - 1];
      var c := codes[|codes| - 1];
      LocalMergeSlots(d, disk, init, trading);
      LocalMergeNoRaise(d, disk, init, trading);
      SplitLast(codes);
      var m := LocalMergeSpec(d, disk, init, trading).dict;
      var s0 := SlotOf(d, c);
      if c in init {
        var j :| 0 <= j < |init| && init[j] == c;
        assert !LocalRaises(SlotOf(d, init[j]), Get(disk, init[j]));
        LocalSlotIdempotent(s0, Get(disk, c), trading);
        assert SlotOf(m, c) == LocalFinal(s0, Get(disk, c), trading);
      } else {
        assert SlotOf(m, c) == s0;
      }
    }
  }

  lemma {:induction false} ServerMergeCharacterised(d: StockDict, disk: StockDict, codes: seq<string>, trading: bool)
    ensures forall k :: (SlotOf(ServerMergeSpec(d, disk, codes, trading), k) ==
              if k in codes then ServerSlot(SlotOf(d, k), Get(disk, k), trading) else SlotOf(d, k))
    decreases |codes|
  {
    if |codes| > 0 {
      var init := codes[..|codes| - 1];
      var c := codes[|codes| - 1];
      ServerMergeCharacterised(d, disk, init, trading);
      SplitLast(codes);
      ServerSlotIdempotent(SlotOf(d, c), Get(disk, c), trading);
    }
  }

  /** Neither loop ever removes a key. */
  lemma MergesKeepKeys(d: StockDict, disk: StockDict, codes: seq<string>, trading: bool)
    ensures LocalMergeSpec(d, disk, codes, trading).Merged? ==> d.Keys <= LocalMergeSpec(d, disk, codes, trading).dict.Keys
    ensures d.Keys <= ServerMergeSpec(d, disk, codes, trading).Keys
  {
    LocalMergeCharacterised(d, disk, codes, trading);
    ServerMergeCharacterised(d, disk, codes, trading);
    var s := ServerMergeSpec(d, disk, codes, trading);
    forall k | k in d ensures k in s {
      assert SlotOf(s, k).Holds?;
    }
    var r := LocalMergeSpec(d, disk, codes, trading);
    if r.Merged? {
      forall k | k in d ensures k in r.dict {
        assert SlotOf(r.dict, k).Holds?;
      }
    }
  }

  /** During trading neither loop adds a key. */
  lemma TradingAddsNoKey(d: StockDict, disk: StockDict, codes: seq<string>)
    ensures LocalMergeSpec(d, disk, codes, true).Merged? ==> LocalMergeSpec(d, disk, codes, true).dict.Keys == d.Keys
    ensures ServerMergeSpec(d, disk, codes, true).Keys == d.Keys
  {
    LocalMergeCharacterised(d, disk, codes, true);
    ServerMergeCharacterised(d, disk, codes, true);
    var s := ServerMergeSpec(d, disk, codes, true);
    forall k ensures k in s <==> k in d {
      assert SlotOf(s, k).Holds? <==> SlotOf(d, k).Holds?;
    }
    var r := LocalMergeSpec(d, disk, codes, true);
    if r.Merged? {
      forall k ensures k in r.dict <==> k in d {
        assert SlotOf(r.dict, k).Holds? <==> SlotOf(d, k).Holds?;
      }
    }
  }

  /** Once the local loop has raised, the remaining symbols do not matter. */
  lemma {:induction false} CrashPersists(d: StockDict, disk: StockDict, codes: seq<string>, n: nat, trading: bool)
    requires n <= |codes|
    requires LocalMergeSpec(d, disk, codes[..n], trading).Crashed?
    ensures LocalMergeSpec(d, disk, codes, trading).Crashed?
    decreases |codes| - n
  {
    if n < |codes| {
      assert codes[..n + 1][..n] == codes[..n];
      CrashPersists(d, disk, codes, n + 1, trading);
    } else {
      assert codes[..n] == codes;
    }
  }

  // ---------------------------------------------------------------------------
  // Suffix stripping of a snapshot's codes
  // ---------------------------------------------------------------------------

  /** `[x.replace(suffix, "") for x in codes]`. */
  function StripAll(codes: seq<string>, suffix: string): (r: seq<string>)
    requires |suffix| > 0
    ensures |r| == |codes|
    ensures forall i :: 0 <= i < |codes| ==> r[i] == Replace(codes[i], suffix, "")
  {
    seq(|codes|, i requires 0 <= i < |codes| => Replace(codes[i], suffix, ""))
  }

  /** The local loop strips every code when any code contains the (non-empty) suffix. */
  function LocalCodes(keys: seq<string>, suffix: string): (r: seq<string>)
    ensures |suffix| > 0 && (exists i :: 0 <= i < |keys| && Contains(keys[i], suffix)) ==> r == StripAll(keys, suffix)
    ensures !(|suffix| > 0 && exists i :: 0 <= i < |keys| && Contains(keys[i], suffix)) ==> r == keys
  {
    if |suffix| > 0 && exists i :: 0 <= i < |keys| && Contains(keys[i], suffix) then StripAll(keys, suffix) else keys
  }

  /** The server loop strips every code when the first code contains the (non-empty) suffix. */
  function ServerCodes(keys: seq<string>, suffix: string): (r: seq<string>)
    ensures |keys| > 0 && |suffix| > 0 && Contains(keys[0], suffix) ==> r == StripAll(keys, suffix)
    ensures !(|keys| > 0 && |suffix| > 0 && Contains(keys[0], suffix)) ==> r == keys
  {
    if |keys| > 0 && |suffix| > 0 && Contains(keys[0], suffix) then StripAll(keys, suffix) else keys
  }

  /** Without the suffix in any code both loops use the snapshot's codes as they are. */
  lemma NoSuffixNoStrip(keys: seq<string>, suffix: string)
    requires forall i :: 0 <= i < |keys| ==> !Contains(keys[i], suffix)
    ensures LocalCodes(keys, suffix) == keys && ServerCodes(keys, suffix) == keys
  {
  }

  lemma ReplaceSuffixExample()
    ensures Replace("SBIN.NS", ".NS", "") == "SBIN"
  {
    ReplaceAtEnd("SBIN", ".NS");
    assert "SBIN" + ".NS" == "SBIN.NS";
  }

  /** A code whose base never holds the suffix's first character loses exactly the suffix. */
  lemma {:induction false} ReplaceAtEnd(base: string, pat: string)
    requires |pat| > 0 && forall i :: 0 <= i < |base| ==> base[i] != pat[0]
    ensures Replace(base + pat, pat, "") == base
    decreases |base|
  {
    if |base| == 0 {
      assert base + pat == pat;
      ReplaceWhole(pat);
    } else {
      var rest := base[1..] + pat;
      assert base + pat == [base[0]] + rest;
      ReplaceMiss(base + pat, pat, base[0], rest);
      ReplaceAtEnd(base[1..], pat);
      assert base == [base[0]] + base[1..];
    }
  }

  /** The pattern itself is replaced by nothing. */
  lemma ReplaceWhole(pat: string)
    requires |pat| > 0
    ensures Replace(pat, pat, "") == ""
  {
    assert pat[..|pat|] == pat && pat[|pat|..] == "";
  }

  /** A string whose first character does not start the pattern keeps that character. */
  lemma ReplaceMiss(s: string, pat: string, c: char, rest: string)
    requires |pat| > 0 && s == [c] + rest && c != pat[0]
    ensures Replace(s, pat, "") == [c] + Replace(rest, pat, "")
  {
    assert s[1..] == rest;
    if |s| >= |pat| {
      assert s[..|pat|][0] == c;
    }
    if |s| < |pat| {
      NoOccurrenceInShort(rest, pat);
    }
  }

  /** Both loops strip a snapshot key "SBIN.NS" to "SBIN". */
  lemma StrippedCodesExample()
    ensures LocalCodes(["SBIN.NS"], ".NS") == ["SBIN"]
    ensures ServerCodes(["SBIN.NS"], ".NS") == ["SBIN"]
  {
    ReplaceSuffixExample();
    assert OccursAt("SBIN.NS", ".NS", 4);
    assert Contains(["SBIN.NS"][0], ".NS");
    var codes := StripAll(["SBIN.NS"], ".NS");
    assert codes[0] == "SBIN";
    assert codes == ["SBIN"];
  }

  /**
   * A snapshot saved with suffixed keys is looked up under the stripped codes,
   * which it does not hold: outside trading both loops store `None` for a new
   * symbol, and the record under the suffixed key is never read.
   */
  lemma StrippedLookupMisses(rec: Record)
    ensures var disk: StockDict := map["SBIN.NS" := Some(rec)];
      && Get(disk, "SBIN").None?
      && LocalMergeSpec(map[], disk, LocalCodes(["SBIN.NS"], ".NS"), false) == Merged(map["SBIN" := None])
      && ServerMergeSpec(map[], disk, ServerCodes(["SBIN.NS"], ".NS"), false) == map["SBIN" := None]
  {
    StrippedCodesExample();
    var disk: StockDict := map["SBIN.NS" := Some(rec)];
    assert "SBIN" != "SBIN.NS";
    assert Get(disk, "SBIN").None?;
    var codes := ["SBIN"];
    assert codes[..0] == [];
    assert LocalMergeSpec(map[], disk, codes, false) == Merged(Put(map[], "SBIN", Holds(None)));
    assert ServerMergeSpec(map[], disk, codes, false) == Put(map[], "SBIN", Holds(None));
  }

  // ---------------------------------------------------------------------------
  // The loops as written
  // ---------------------------------------------------------------------------

  lemma LocalStepAt(d0: StockDict, disk: StockDict, codes: seq<string>, i: nat, trading: bool, d: StockDict)
    requires i < |codes|
    requires LocalMergeSpec(d0, disk, codes[..i], trading) == Merged(d)
    ensures LocalMergeSpec(d0, disk, codes[..i + 1], trading) ==
      match LocalSlot(SlotOf(d, codes[i]), Get(disk, codes[i]), trading)
      case None => Crashed
      case Some(s) => Merged(Put(d, codes[i], s))
  {
    assert codes[..i + 1][..i] == codes[..i];
  }

  /** Writing a key's own slot back changes nothing. */
  lemma PutSame(d: StockDict, k: string)
    ensures Put(d, k, SlotOf(d, k)) == d
  {
  }

  lemma ServerStepAt(d0: StockDict, disk: StockDict, codes: seq<string>, i: nat, trading: bool, d: StockDict)
    requires i < |codes|
    requires ServerMergeSpec(d0, disk, codes[..i], trading) == d
    ensures ServerMergeSpec(d0, disk, codes[..i + 1], trading) ==
      Put(d, codes[i], ServerSlot(SlotOf(d, codes[i]), Get(disk, codes[i]), trading))
  {
    assert codes[..i + 1][..i] == codes[..i];
  }

  /** The `for stock in listStockCodes` loop of `loadDataFromLocalPickle`. */
  method MergeLocalSnapshot(stockDict: StockDict, disk: StockDict, codes: seq<string>, trading: bool)
    returns (r: MergeResult)
    ensures r == LocalMergeSpec(stockDict, disk, codes, trading)
  {
    var d := stockDict;
    var i := 0;
    while i < |codes|
      invariant 0 <= i <= |codes|
      invariant LocalMergeSpec(stockDict, disk, codes[..i], trading) == Merged(d)
    {
      var stock := codes[i];
      LocalStepAt(stockDict, disk, codes, i, trading, d);
      var dfOrDict := Get(disk, stock);
      var existing := Get(d, stock);
      assert existing == Existing(SlotOf(d, stock));
      ghost var step := LocalSlot(SlotOf(d, stock), dfOrDict, trading);
      if Truthy(existing) {
        if dfOrDict.None? {
          assert step.None?;
          CrashPersists(stockDict, disk, codes, i + 1, trading);
          return Crashed;
        }
        if trading {
          assert step == Some(Holds(Some(WithAux(existing.value, dfOrDict.value))));
          d := d[stock := Some(WithAux(existing.value, dfOrDict.value))];
        } else {
          assert step == Some(Holds(Some(existing.value + dfOrDict.value)));
          d := d[stock := Some(existing.value + dfOrDict.value)];
        }
      } else if !trading {
        assert step == Some(Holds(dfOrDict));
        d := d[stock := dfOrDict];
      } else {
        assert step == Some(SlotOf(d, stock));
        PutSame(d, stock);
      }
      i := i + 1;
    }
    assert codes[..i] == codes;
    r := Merged(d);
  }

  /** The `for stock in listStockCodes` loop of `downloadSavedDataFromServer`. */
  method MergeServerSnapshot(stockDict: StockDict, disk: StockDict, codes: seq<string>, trading: bool)
    returns (r: StockDict)
    ensures r == ServerMergeSpec(stockDict, disk, codes, trading)
  {
    r := stockDict;
    var i := 0;
    while i < |codes|
      invariant 0 <= i <= |codes|
      invariant ServerMergeSpec(stockDict, disk, codes[..i], trading) == r
    {
      var stock := codes[i];
      ServerStepAt(stockDict, disk, codes, i, trading, r);
      var dfOrDict := Get(disk, stock);
      var existing := Get(r, stock);
      assert existing == Existing(SlotOf(r, stock));
      if existing.Some? {
        if dfOrDict.None? {
          // the failing step is caught: `continue`
          PutSame(r, stock);
        } else if trading {
          r := r[stock := Some(WithAux(existing.value, dfOrDict.value))];
        } else {
          r := r[stock := Some(dfOrDict.value + existing.value)];
        }
      } else if !trading {
        r := r[stock := dfOrDict];
      } else {
        PutSame(r, stock);
      }
      i := i + 1;
    }
    assert codes[..i] == codes;
  }
}
