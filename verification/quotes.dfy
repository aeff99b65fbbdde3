/** Funding-rate quotes and the ordering facts the ranker relies on. */
module Quotes {
  import opened Sequences

  type Symbol = string

  /**
   * One entry of an exchange's funding-rate snapshot: the market symbol, the current
   * funding rate as a fraction (-0.012 is -1.2%) and the mark price.
   */
  datatype Quote = Quote(symbol: Symbol, rate: real, markPrice: real)

  /** Ascending by funding rate, most negative first. */
  predicate SortedByRate(s: seq<Quote>) {
    forall i, j :: 0 <= i < j < |s| ==> s[i].rate <= s[j].rate
  }

  /** The quotes of `s` whose rate is exactly `k`, in the order they occur in `s`. */
  function WithRate(s: seq<Quote>, k: real): seq<Quote>
    decreases |s|
  {
    if s == [] then [] else (if s[0].rate == k then [s[0]] else []) + WithRate(s[1..], k)
  }

  lemma {:induction false} WithRateMembers(s: seq<Quote>, k: real)
    ensures forall q :: q in WithRate(s, k) <==> q in s && q.rate == k
    decreases |s|
  {
    if s != [] {
      WithRateMembers(s[1..], k);
      assert forall q :: q in s <==> q == s[0] || q in s[1..];
    }
  }

  /** Taking the equal-rate quotes of a subsequence gives a subsequence of the equal-rate quotes. */
  lemma {:induction false} WithRateOfSubsequence(a: seq<Quote>, b: seq<Quote>, k: real)
    requires IsSubsequence(a, b)
    ensures IsSubsequence(WithRate(a, k), WithRate(b, k))
    decreases |b|
  {
    if a == [] {
    } else if a[0] == b[0] && IsSubsequence(a[1..], b[1..]) {
      WithRateOfSubsequence(a[1..], b[1..], k);
      if a[0].rate == k {
        assert WithRate(a, k) == [a[0]] + WithRate(a[1..], k);
        assert WithRate(b, k) == [b[0]] + WithRate(b[1..], k);
        assert (WithRate(a, k))[1..] == WithRate(a[1..], k);
        assert (WithRate(b, k))[1..] == WithRate(b[1..], k);
      } else {
        assert WithRate(a, k) == WithRate(a[1..], k);
        assert WithRate(b, k) == WithRate(b[1..], k);
      }
    } else {
      WithRateOfSubsequence(a, b[1..], k);
      if b[0].rate == k {
        var wb := WithRate(b, k);
        assert wb == [b[0]] + WithRate(b[1..], k);
        assert wb[1..] == WithRate(b[1..], k);
        if WithRate(a, k) != [] {
          assert IsSubsequence(WithRate(a, k), wb[1..]);
          assert wb != [];
          assert IsSubsequence(WithRate(a, k), wb);
        }
      } else {
        assert WithRate(b, k) == WithRate(b[1..], k);
      }
    }
  }

  /** A subsequence of a rate-sorted sequence is rate-sorted. */
  lemma {:induction false} SubsequenceKeepsSorted(a: seq<Quote>, b: seq<Quote>)
    requires IsSubsequence(a, b) && SortedByRate(b)
    ensures SortedByRate(a)
    decreases |b|
  {
    if a != [] {
      assert SortedByRate(b[1..]);
      if a[0] == b[0] && IsSubsequence(a[1..], b[1..]) {
        SubsequenceKeepsSorted(a[1..], b[1..]);
        SubsequenceMembers(a[1..], b[1..]);
        forall i, j | 0 <= i < j < |a| ensures a[i].rate <= a[j].rate {
          assert a[j] in a[1..] by { assert a[j] == a[1..][j - 1]; }
          if i > 0 {
            assert a[i] == a[1..][i - 1] && a[j] == a[1..][j - 1];
          }
        }
      } else {
        SubsequenceKeepsSorted(a, b[1..]);
      }
    }
  }
}
