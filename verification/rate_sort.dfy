/**
 * Python's `sorted(..., key=rate)`: a stable ascending sort by funding rate.
 * A stable sort is pinned down by two facts: the output is ascending, and for every rate
 * value the quotes carrying it appear in the same order as in the input. `SortSpecIsUnique`
 * shows these two facts leave exactly one possible output.
 */
module RateSort {
  import opened Quotes

  /** Places `x` in front of every quote whose rate is not smaller, keeping `s` otherwise intact. */
  function Insert(x: Quote, s: seq<Quote>): (r: seq<Quote>)
    requires SortedByRate(s)
    ensures SortedByRate(r)
    ensures forall q :: q in r <==> q == x || q in s
    decreases |s|
  {
    if s == [] || x.rate <= s[0].rate then
      var r := [x] + s;
      assert r[1..] == s;
      ConsKeepsSorted(x, s);
      r
    else
      var rest := Insert(x, s[1..]);
      var r := [s[0]] + rest;
      assert r[1..] == rest;
      assert forall q :: q in s <==> q == s[0] || q in s[1..];
      assert x in rest;
      assert s[0].rate <= rest[0].rate by {
        if rest[0] != x {
          var m :| 0 <= m < |s[1..]| && s[1..][m] == rest[0];
          assert s[m + 1] == rest[0];
        }
      }
      ConsKeepsSorted(s[0], rest);
      r
  }

  /** Putting a quote no later in rate than the head in front of an ascending sequence keeps it ascending. */
  lemma ConsKeepsSorted(x: Quote, s: seq<Quote>)
    requires SortedByRate(s)
    requires s == [] || x.rate <= s[0].rate
    ensures SortedByRate([x] + s)
  {
    var r := [x] + s;
    forall i, j | 0 <= i < j < |r| ensures r[i].rate <= r[j].rate {
      assert r[j] == s[j - 1];
      if i > 0 {
        assert r[i] == s[i - 1];
      } else {
        assert s[0].rate <= s[j - 1].rate;
      }
    }
  }

  /** Insertion sort; each earlier quote is inserted ahead of later quotes with an equal rate. */
  function Sort(s: seq<Quote>): (r: seq<Quote>)
    ensures |r| == |s|
    ensures SortedByRate(r)
    ensures forall k :: WithRate(r, k) == WithRate(s, k)
    decreases |s|
  {
    if s == [] then []
    else
      var r := Insert(s[0], Sort(s[1..]));
      assert |r| == |s| by { InsertLength(s[0], Sort(s[1..])); }
      assert forall k :: WithRate(r, k) == WithRate(s, k) by {
        forall k ensures WithRate(r, k) == WithRate(s, k) {
          InsertKeepsRuns(s[0], Sort(s[1..]), k);
        }
      }
      r
  }

  /**
   * Inserting `x` puts it ahead of every quote of its own rate already present, and leaves the
   * other rates' runs untouched: the step that makes the insertion sort stable.
   */
  lemma {:induction false} InsertKeepsRuns(x: Quote, s: seq<Quote>, k: real)
    requires SortedByRate(s)
    ensures WithRate(Insert(x, s), k) == (if x.rate == k then [x] else []) + WithRate(s, k)
    decreases |s|
  {
    var r := Insert(x, s);
    if s == [] || x.rate <= s[0].rate {
      assert r == [x] + s;
      assert r[1..] == s;
    } else {
      InsertKeepsRuns(x, s[1..], k);
      assert r == [s[0]] + Insert(x, s[1..]);
      assert r[1..] == Insert(x, s[1..]);
      assert s == [s[0]] + s[1..];
    }
  }

  lemma {:induction false} InsertLength(x: Quote, s: seq<Quote>)
    requires SortedByRate(s)
    ensures |Insert(x, s)| == |s| + 1
    decreases |s|
  {
    if !(s == [] || x.rate <= s[0].rate) {
      InsertLength(x, s[1..]);
    }
  }

  /** Sorting rearranges the quotes and neither adds nor loses any (counted with multiplicity). */
  lemma {:induction false} SortIsPermutation(s: seq<Quote>)
    ensures multiset(Sort(s)) == multiset(s)
    decreases |s|
  {
    if s != [] {
      var tail := Sort(s[1..]);
      calc {
        multiset(Sort(s));
        multiset(Insert(s[0], tail));
        { InsertIsPermutation(s[0], tail); }
        multiset(tail) + multiset{s[0]};
        { SortIsPermutation(s[1..]); }
        multiset(s[1..]) + multiset{s[0]};
        { assert s == [s[0]] + s[1..]; }
        multiset(s);
      }
    }
  }

  lemma {:induction false} InsertIsPermutation(x: Quote, s: seq<Quote>)
    requires SortedByRate(s)
    ensures multiset(Insert(x, s)) == multiset(s) + multiset{x}
    decreases |s|
  {
    if !(s == [] || x.rate <= s[0].rate) {
      InsertIsPermutation(x, s[1..]);
      assert s == [s[0]] + s[1..];
    }
  }

  /** Any two ascending sequences that agree on every equal-rate subsequence are equal. */
  lemma {:induction false} SortSpecIsUnique(a: seq<Quote>, b: seq<Quote>)
    requires SortedByRate(a) && SortedByRate(b)
    requires forall k :: WithRate(a, k) == WithRate(b, k)
    ensures a == b
    decreases |a|
  {
    if a == [] || b == [] {
      if a != [] { NonEmptyHasOwnRate(a); }
      if b != [] { NonEmptyHasOwnRate(b); }
    } else {
      HeadsAgree(a, b);
      TailsAgree(a, b);
      SortSpecIsUnique(a[1..], b[1..]);
      assert a == [a[0]] + a[1..] && b == [b[0]] + b[1..];
    }
  }

  /** The first quote of an ascending sequence has the least rate, so both sequences start alike. */
  lemma HeadsAgree(a: seq<Quote>, b: seq<Quote>)
    requires a != [] && b != []
    requires SortedByRate(a) && SortedByRate(b)
    requires WithRate(a, a[0].rate) == WithRate(b, a[0].rate)
    requires WithRate(a, b[0].rate) == WithRate(b, b[0].rate)
    ensures a[0] == b[0]
  {
    var ka, kb := a[0].rate, b[0].rate;
    WithRateMembers(a, kb);
    WithRateMembers(b, ka);
    assert a[0] in WithRate(b, ka) by { assert WithRate(a, ka)[0] == a[0]; }
    assert b[0] in WithRate(a, kb) by { assert WithRate(b, kb)[0] == b[0]; }
    assert kb <= ka by {
      var i :| 0 <= i < |b| && b[i] == a[0];
    }
    assert ka <= kb by {
      var i :| 0 <= i < |a| && a[i] == b[0];
    }
    assert WithRate(a, ka)[0] == a[0];
    assert WithRate(b, ka)[0] == b[0];
  }

  /** Dropping an equal first quote keeps the equal-rate subsequences equal. */
  lemma TailsAgree(a: seq<Quote>, b: seq<Quote>)
    requires a != [] && b != [] && a[0] == b[0]
    requires forall k :: WithRate(a, k) == WithRate(b, k)
    ensures forall k :: WithRate(a[1..], k) == WithRate(b[1..], k)
  {
    forall k ensures WithRate(a[1..], k) == WithRate(b[1..], k) {
      assert WithRate(a, k) == WithRate(b, k);
      if k == a[0].rate {
        assert WithRate(a, k) == [a[0]] + WithRate(a[1..], k);
        assert WithRate(b, k) == [b[0]] + WithRate(b[1..], k);
        assert WithRate(a[1..], k) == WithRate(a, k)[1..];
        assert WithRate(b[1..], k) == WithRate(b, k)[1..];
      } else {
        assert WithRate(a, k) == WithRate(a[1..], k);
        assert WithRate(b, k) == WithRate(b[1..], k);
      }
    }
  }

  lemma NonEmptyHasOwnRate(s: seq<Quote>)
    requires s != []
    ensures WithRate(s, s[0].rate) != []
  {
  }
}
