/**
 * The size test both server downloads apply to a reply's `content-length`:
 * the byte count is read in the largest unit it reaches (MB, KB or bytes), and
 * the snapshot is used only when more than 40 of those units arrive.
 */
module ServerSize {
  import opened PyValues

  const KB: int := 1024
  const MB: int := 1024 * 1024

  /** The `content-length` header of a reply: absent, an integer, or text `int()` rejects. */
  datatype ContentLength = NoHeader | Header(n: int) | Malformed

  /**
   * `int(contentLength) if contentLength is not None else 0`; `None` stands for
   * the `ValueError` a malformed header raises.
   */
  function ServerBytes(h: ContentLength): (r: Option<int>)
    ensures r.None? <==> h.Malformed?
    ensures h.NoHeader? ==> r == Some(0)
    ensures h.Header? ==> r == Some(h.n)
  {
    match h
    case NoHeader => Some(0)
    case Header(n) => Some(n)
    case Malformed => None
  }

  /** The chunk size: MB from one MB on, KB from one KB on, otherwise single bytes. */
  function ChunkSize(serverBytes: int): (u: int)
    ensures u == MB <==> serverBytes >= MB
    ensures u == KB <==> KB <= serverBytes < MB
    ensures u == 1 <==> serverBytes < KB
  {
    if serverBytes >= MB then MB else if serverBytes >= KB then KB else 1
  }

  /** `int(serverBytes / chunksize)`: true division, then truncation toward zero. */
  function FileSize(serverBytes: int): int {
    var u := ChunkSize(serverBytes);
    if serverBytes >= 0 then serverBytes / u else -((-serverBytes) / u)
  }

  /** The test of `downloadSavedDefaultsFromServer`. */
  predicate DefaultsUsable(serverBytes: int) {
    FileSize(serverBytes) > 40
  }

  /** The test of `downloadSavedDataFromServer`, which also streams in MB chunks. */
  predicate StreamUsable(serverBytes: int) {
    FileSize(serverBytes) > 40 && ChunkSize(serverBytes) == MB
  }

  /** The streaming path takes exactly the replies of at least 41 MB. */
  lemma StreamUsableIff(b: int)
    ensures StreamUsable(b) <==> b >= 41 * MB
  {
    if b >= MB {
      DivisionThreshold(b, MB);
    }
  }

  /**
   * The defaults path accepts 41 bytes up to 1 KB, 41 KB up to 1 MB, and 41 MB on;
   * it rejects everything from 1 KB to 41 KB and from 1 MB to 41 MB.
   */
  lemma DefaultsUsableIff(b: int)
    ensures DefaultsUsable(b) <==> (41 <= b < KB) || (41 * KB <= b < MB) || b >= 41 * MB
  {
    if b >= MB {
      DivisionThreshold(b, MB);
    } else if b >= KB {
      DivisionThreshold(b, KB);
    }
  }

  /** `b / u > 40` exactly when `b` reaches 41 units. */
  lemma DivisionThreshold(b: int, u: int)
    requires b >= 0 && u > 0
    ensures b / u > 40 <==> b >= 41 * u
  {
    var q, r := b / u, b % u;
    assert b == q * u + r && 0 <= r < u;
    if q > 40 {
      MulAtLeast(q - 41, u);
      assert q * u == (q - 41) * u + 41 * u;
    } else {
      MulAtLeast(40 - q, u);
      assert 40 * u == (40 - q) * u + q * u;
    }
  }

  lemma MulAtLeast(k: int, u: int)
    requires k >= 0 && u > 0
    ensures k * u >= 0
  {
  }

  /** The defaults threshold is not monotone in the byte count. */
  lemma DefaultsNotMonotone()
    ensures DefaultsUsable(100) && !DefaultsUsable(2048) && DefaultsUsable(41 * KB)
  {
    DefaultsUsableIff(100);
    DefaultsUsableIff(2048);
    DefaultsUsableIff(41 * KB);
  }

  /** A reply the streaming path takes is one the defaults path takes; a negative length is never taken. */
  lemma StreamImpliesDefaults(b: int)
    ensures StreamUsable(b) ==> DefaultsUsable(b)
    ensures b < 0 ==> !DefaultsUsable(b) && FileSize(b) == b
  {
  }
}
