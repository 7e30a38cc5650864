/**
 * The rate-limit test of `PKAssetsManager.had_rate_limit_errors`: the provider's
 * error registry is joined with "," and searched for three markers.
 */
module RateLimit {
  import opened PyValues

  /** The text of one of the three rate-limit markers occurs in `s`. */
  predicate HasMarker(s: string) {
    Contains(s, "YFRateLimitError") || Contains(s, "Too Many Requests") || Contains(s, "429")
  }

  /**
   * `had_rate_limit_errors` over the registry's messages (in the registry's order).
   * Because no marker contains the joining comma, searching the joined text is
   * the same as searching each message on its own.
   */
  function HadRateLimitErrors(errors: seq<string>): (hit: bool)
    ensures hit <==> exists i :: 0 <= i < |errors| && HasMarker(errors[i])
  {
    assert ',' !in "YFRateLimitError" && ',' !in "Too Many Requests" && ',' !in "429";
    ContainsJoin(errors, "YFRateLimitError");
    ContainsJoin(errors, "Too Many Requests");
    ContainsJoin(errors, "429");
    HasMarker(Join(",", errors))
  }

  /** A needle without a comma occurs in `a + "," + b` iff it occurs in `a` or in `b`. */
  lemma ContainsAroundComma(a: string, b: string, p: string)
    requires |p| > 0 && ',' !in p
    ensures Contains(a + "," + b, p) <==> Contains(a, p) || Contains(b, p)
  {
    var c := a + "," + b;
    if Contains(a, p) {
      var i: nat :| i <= |a| && OccursAt(a, p, i);
      assert c[i..i + |p|] == a[i..i + |p|];
      assert OccursAt(c, p, i);
    }
    if Contains(b, p) {
      var j: nat :| j <= |b| && OccursAt(b, p, j);
      var i := |a| + 1 + j;
      assert c[i..i + |p|] == b[j..j + |p|];
      assert OccursAt(c, p, i);
    }
    if Contains(c, p) {
      var i: nat :| i <= |c| && OccursAt(c, p, i);
      OccurrenceCells(c, p, i);
      assert c[|a|] == ',';
      if i + |p| <= |a| {
        assert a[i..i + |p|] == c[i..i + |p|];
        assert OccursAt(a, p, i);
      } else if i >= |a| + 1 {
        var j := i - |a| - 1;
        assert b[j..j + |p|] == c[i..i + |p|];
        assert OccursAt(b, p, j);
      }
    }
  }

  /** The cells an occurrence covers are the needle's cells. */
  lemma OccurrenceCells(s: string, p: string, i: nat)
    requires OccursAt(s, p, i)
    ensures forall k :: i <= k < i + |p| ==> s[k] == p[k - i]
  {
    forall k | i <= k < i + |p| ensures s[k] == p[k - i] {
      assert s[i..i + |p|][k - i] == s[k];
    }
  }

  /** Searching a comma-joined list is searching its elements. */
  lemma {:induction false} ContainsJoin(xs: seq<string>, p: string)
    requires |p| > 0 && ',' !in p
    ensures Contains(Join(",", xs), p) <==> exists i :: 0 <= i < |xs| && Contains(xs[i], p)
    decreases |xs|
  {
    if |xs| == 0 {
      NoOccurrenceInShort("", p);
    } else if |xs| == 1 {
    } else {
      ContainsJoin(xs[1..], p);
      ContainsAroundComma(xs[0], Join(",", xs[1..]), p);
      assert Join(",", xs) == xs[0] + "," + Join(",", xs[1..]);
      if exists i :: 0 <= i < |xs| && Contains(xs[i], p) {
        var i :| 0 <= i < |xs| && Contains(xs[i], p);
        if i > 0 {
          assert xs[1..][i - 1] == xs[i];
        }
      }
      if exists i :: 0 <= i < |xs[1..]| && Contains(xs[1..][i], p) {
        var i :| 0 <= i < |xs[1..]| && Contains(xs[1..][i], p);
        assert xs[i + 1] == xs[1..][i];
      }
    }
  }

  /** A single 429 response anywhere in the registry is a rate-limit signal. */
  lemma HttpTooManyRequests(errors: seq<string>, i: nat)
    requires i < |errors| && Contains(errors[i], "429")
    ensures HadRateLimitErrors(errors)
  {
  }

  /** A registry without markers in any message gives no signal; the empty registry is one. */
  lemma NoMarkerNoSignal(errors: seq<string>)
    requires forall i :: 0 <= i < |errors| ==> !HasMarker(errors[i])
    ensures !HadRateLimitErrors(errors)
  {
  }
}
