/**
 * Python-level values and string operations that the cache pipeline relies on:
 * `None`, dictionaries of records, `str.startswith`/`endswith`, the substring
 * test `p in s`, `str.replace` and `",".join`.
 */
module PyValues {

  /** Python's `x or None`: `None` is the absent value. */
  datatype Option<+T> = None | Some(value: T)

  /**
   * One cell of a stored record: Python `None`, or some other (opaque) object,
   * e.g. the `index`/`columns`/`data` lists of a split frame or an MF/FII figure.
   */
  datatype Value = NoneValue | Opaque(token: int)

  /** A symbol's data in `to_dict("split")` form plus its auxiliary columns. */
  type Record = map<string, Value>

  /** What a symbol maps to in a stock dictionary: a record, or Python `None`. */
  type Entry = Option<Record>

  /** A StockDict: canonical symbol code to its entry. */
  type StockDict = map<string, Entry>

  /** The state of one key of a StockDict. */
  datatype Slot = Missing | Holds(entry: Entry)

  function SlotOf(d: StockDict, k: string): (s: Slot)
    ensures s.Holds? <==> k in d
    ensures k in d ==> s.entry == d[k]
  {
    if k in d then Holds(d[k]) else Missing
  }

  /** The dictionary with key `k` set to the given slot. */
  function Put(d: StockDict, k: string, s: Slot): (r: StockDict)
    ensures SlotOf(r, k) == s
    ensures forall j :: j != k ==> SlotOf(r, j) == SlotOf(d, j)
  {
    match s
    case Missing => d - {k}
    case Holds(e) => d[k := e]
  }

  /** `d.get(k)`: `None` both for a missing key and for a stored `None`. */
  function Get(d: StockDict, k: string): (r: Entry)
    ensures r.Some? <==> k in d && d[k].Some?
    ensures r.Some? ==> r == d[k]
  {
    if k in d then d[k] else None
  }

  /** Python truthiness of an entry: not `None` and a non-empty dictionary. */
  predicate Truthy(e: Entry) {
    e.Some? && |e.value| > 0
  }

  /** `rec.get(col)` on a record. */
  function Field(rec: Record, col: string): Value {
    if col in rec then rec[col] else NoneValue
  }

  /** The auxiliary columns a merge during trading copies over. */
  const AuxColumns: seq<string> := ["MF", "FII", "MF_Date", "FII_Date", "FairValue"]

  /**
   * `for col in AuxColumns: existing[col] = disk.get(col)`: the existing record with
   * exactly the five auxiliary columns taken from the disk record.
   */
  function WithAux(existing: Record, disk: Record): (r: Record)
    ensures r.Keys == existing.Keys + set c | c in AuxColumns
    ensures forall c :: c in AuxColumns ==> r[c] == Field(disk, c)
    ensures forall c :: c in existing && c !in AuxColumns ==> r[c] == existing[c]
  {
    CopyColumns(existing, disk, AuxColumns)
  }

  /** The columns `cols` assigned one after the other from the disk record. */
  function CopyColumns(existing: Record, disk: Record, cols: seq<string>): (r: Record)
    ensures r.Keys == existing.Keys + set c | c in cols
    ensures forall c :: c in cols ==> r[c] == Field(disk, c)
    ensures forall c :: c in existing && c !in cols ==> r[c] == existing[c]
    decreases |cols|
  {
    if |cols| == 0 then existing
    else CopyColumns(existing[cols[0] := Field(disk, cols[0])], disk, cols[1..])
  }

  /** Copying the same columns a second time changes nothing. */
  lemma CopyColumnsTwice(existing: Record, disk: Record, cols: seq<string>)
    ensures CopyColumns(CopyColumns(existing, disk, cols), disk, cols) == CopyColumns(existing, disk, cols)
  {
    var once := CopyColumns(existing, disk, cols);
    var twice := CopyColumns(once, disk, cols);
    assert twice.Keys == once.Keys;
    forall c | c in twice ensures twice[c] == once[c] {
      if c !in cols {
        assert c in existing;
      }
    }
  }

  /** Python's `s.startswith(p)`. */
  predicate StartsWith(s: string, p: string) {
    |p| <= |s| && s[..|p|] == p
  }

  /** Python's `s.endswith(p)`. */
  predicate EndsWith(s: string, p: string) {
    |p| <= |s| && s[|s| - |p|..] == p
  }

  /** `p` occurs in `s` starting at index `i`. */
  predicate OccursAt(s: string, p: string, i: nat) {
    i + |p| <= |s| && s[i..i + |p|] == p
  }

  /** Python's substring test `p in s`. */
  predicate Contains(s: string, p: string) {
    exists i: nat :: i <= |s| && OccursAt(s, p, i)
  }

  /**
   * Python's `s.replace(pat, repl)` for a non-empty `pat`: occurrences are found
   * left to right and do not overlap.
   */
  function Replace(s: string, pat: string, repl: string): (r: string)
    requires |pat| > 0
    ensures !Contains(s, pat) ==> r == s
    decreases |s|
  {
    if |s| < |pat| then
      NoOccurrenceInShort(s, pat);
      s
    else if s[..|pat|] == pat then
      assert OccursAt(s, pat, 0);
      repl + Replace(s[|pat|..], pat, repl)
    else
      ContainsInTail(s, pat);
      [s[0]] + Replace(s[1..], pat, repl)
  }

  lemma NoOccurrenceInShort(s: string, p: string)
    requires |s| < |p|
    ensures !Contains(s, p)
  {
  }

  /** An occurrence in `s[1..]` is an occurrence in `s`, one place further on. */
  lemma ContainsInTail(s: string, p: string)
    requires |s| > 0
    requires !OccursAt(s, p, 0)
    ensures Contains(s[1..], p) <==> Contains(s, p)
  {
    if Contains(s[1..], p) {
      var i: nat :| i <= |s[1..]| && OccursAt(s[1..], p, i);
      assert i + |p| <= |s| - 1 && s[1..][i..i + |p|] == p;
      assert s[i + 1..i + 1 + |p|] == s[1..][i..i + |p|];
      assert OccursAt(s, p, i + 1);
    }
    if Contains(s, p) {
      var i: nat :| i <= |s| && OccursAt(s, p, i);
      assert i + |p| <= |s| && s[i..i + |p|] == p;
      assert i > 0;
      assert s[1..][i - 1..i - 1 + |p|] == s[i..i + |p|];
      assert OccursAt(s[1..], p, i - 1);
    }
  }

  /** Python's `sep.join(xs)`. */
  function Join(sep: string, xs: seq<string>): string
    decreases |xs|
  {
    if |xs| == 0 then ""
    else if |xs| == 1 then xs[0]
    else xs[0] + sep + Join(sep, xs[1..])
  }

  /** The elements of a sequence are pairwise distinct. */
  predicate Distinct(xs: seq<string>) {
    forall i, j :: 0 <= i < j < |xs| ==> xs[i] != xs[j]
  }

  /** The set of elements of a sequence. */
  function Elements(xs: seq<string>): (s: set<string>)
    ensures forall x :: x in s <==> x in xs
  {
    set x | x in xs
  }
}
