/**
 * The ticker scan `find_tickers`: pre-filter the Binance snapshot, sort it ascending by rate,
 * keep the first `cap` quotes, then keep those whose mean rate across Binance and Bybit is
 * strictly below the threshold. Any exception inside the scan turns the whole result into
 * the empty list.
 */
module Ranker {
  import opened Outcomes
  import opened Sequences
  import opened Quotes
  import RateSort
  import Config

  /** Why a scan raised; the bot catches every one of them and returns `[]`. */
  datatype Abort =
    | BinanceUnavailable
    | BybitUnavailable
    | MissingBybitQuote(symbol: Symbol)   // `next(..., None)` gave None and `None[1]` raised

  /** The looser bound of the pre-filter: `min / 100 * 0.8`, `min` being in percent. */
  function PreFilterBound(min: real): real { min / 100.0 * 0.8 }

  /** The trading threshold the mean rate must be strictly below: `min / 100`. */
  function SignalBound(min: real): real { min / 100.0 }

  function MeanRate(binanceRate: real, bybitRate: real): real { (binanceRate + bybitRate) / 2.0 }

  /** Step 1: the Binance quotes whose rate is below the pre-filter bound, in fetch order. */
  function PreFilter(quotes: seq<Quote>, min: real): (r: seq<Quote>)
    ensures forall q :: q in r <==> q in quotes && q.rate < PreFilterBound(min)
    ensures IsSubsequence(r, quotes)
    decreases |quotes|
  {
    if quotes == [] then []
    else
      var rest := PreFilter(quotes[1..], min);
      assert forall q :: q in quotes <==> q == quotes[0] || q in quotes[1..];
      if quotes[0].rate < PreFilterBound(min) then
        assert ([quotes[0]] + rest)[1..] == rest;
        [quotes[0]] + rest
      else
        assert rest != [] ==> IsSubsequence(rest, quotes[1..]);
        rest
  }

  /** Steps 1 to 3: the candidates the cross-exchange join looks at, most negative first. */
  function Prefix(quotes: seq<Quote>, min: real, cap: nat): seq<Quote> {
    var sorted := RateSort.Sort(PreFilter(quotes, min));
    if |sorted| <= cap then sorted else sorted[..cap]
  }

  /** `next(entry for entry in bybit.items() if entry[0] == symbol, None)`: the first quote for `symbol`. */
  function LookupBybit(bybit: seq<Quote>, symbol: Symbol): (r: Option<Quote>)
    ensures r.None? <==> forall q :: q in bybit ==> q.symbol != symbol
    ensures r.Some? ==> exists i :: 0 <= i < |bybit| && bybit[i] == r.value && r.value.symbol == symbol &&
                                   forall j :: 0 <= j < i ==> bybit[j].symbol != symbol
    decreases |bybit|
  {
    if bybit == [] then None
    else if bybit[0].symbol == symbol then Some(bybit[0])
    else
      var r := LookupBybit(bybit[1..], symbol);
      assert forall q :: q in bybit <==> q == bybit[0] || q in bybit[1..];
      assert r.Some? ==> exists i :: 0 <= i < |bybit| && bybit[i] == r.value && r.value.symbol == symbol &&
                                   forall j :: 0 <= j < i ==> bybit[j].symbol != symbol by {
        if r.Some? {
          var i :| 0 <= i < |bybit[1..]| && bybit[1..][i] == r.value && r.value.symbol == symbol &&
                   forall j :: 0 <= j < i ==> bybit[1..][j].symbol != symbol;
          assert bybit[i + 1] == r.value;
          assert forall j :: 0 < j < i + 1 ==> bybit[j] == bybit[1..][j - 1];
        }
      }
      r
  }

  predicate HasBybitQuote(bybit: seq<Quote>, symbol: Symbol) {
    exists q :: q in bybit && q.symbol == symbol
  }

  /** The Bybit rate the join reads for `symbol`: that of the first Bybit quote with this symbol. */
  function BybitRate(bybit: seq<Quote>, symbol: Symbol): real
    requires HasBybitQuote(bybit, symbol)
  {
    LookupBybit(bybit, symbol).value.rate
  }

  /** The trading signal: the candidate is kept when the two-exchange mean is strictly below `min / 100`. */
  predicate Signals(q: Quote, bybit: seq<Quote>, min: real) {
    HasBybitQuote(bybit, q.symbol) && MeanRate(q.rate, BybitRate(bybit, q.symbol)) < SignalBound(min)
  }

  /**
   * Steps 4 and 5, the loop over the candidates: it raises at the first candidate without a
   * Bybit quote; otherwise it keeps, in order, the candidates whose mean rate signals.
   */
  function Join(candidates: seq<Quote>, bybit: seq<Quote>, min: real): (r: Result<seq<Quote>, Abort>)
    ensures r.Ok? <==> forall t :: t in candidates ==> HasBybitQuote(bybit, t.symbol)
    ensures r.Ok? ==> IsSubsequence(r.value, candidates)
    ensures r.Ok? ==> forall q :: q in r.value <==> q in candidates && Signals(q, bybit, min)
    ensures r.Err? ==> r.error.MissingBybitQuote? && !HasBybitQuote(bybit, r.error.symbol) &&
                       exists t :: t in candidates && t.symbol == r.error.symbol
    decreases |candidates|
  {
    if candidates == [] then Ok([])
    else
      var t := candidates[0];
      assert forall q :: q in candidates <==> q == t || q in candidates[1..];
      match LookupBybit(bybit, t.symbol)
      case None => Err(MissingBybitQuote(t.symbol))
      case Some(b) =>
        match Join(candidates[1..], bybit, min)
        case Err(e) => Err(e)
        case Ok(kept) =>
          if MeanRate(t.rate, b.rate) < SignalBound(min) then
            assert ([t] + kept)[1..] == kept;
            Ok([t] + kept)
          else
            assert kept != [] ==> IsSubsequence(kept, candidates[1..]);
            Ok(kept)
  }

  /** The scan with its exception path explicit: Binance is fetched first, then Bybit. */
  function Scan(binance: Fetch<seq<Quote>>, bybit: Fetch<seq<Quote>>, min: real, cap: nat)
    : (r: Result<seq<Quote>, Abort>)
    ensures binance.FetchFailed? ==> r == Err(BinanceUnavailable)
    ensures binance.Fetched? && bybit.FetchFailed? ==> r == Err(BybitUnavailable)
  {
    match binance
    case FetchFailed => Err(BinanceUnavailable)
    case Fetched(quotes) =>
      var candidates := Prefix(quotes, min, cap);
      match bybit
      case FetchFailed => Err(BybitUnavailable)
      case Fetched(bybitQuotes) => Join(candidates, bybitQuotes, min)
  }

  /**
   * `find_tickers()`: the ranked Binance quotes to short, or `[]` when the scan raised.
   * It never returns more than `cap` quotes and always returns them ascending by rate.
   */
  function FindTickers(binance: Fetch<seq<Quote>>, bybit: Fetch<seq<Quote>>, min: real, cap: nat)
    : (r: seq<Quote>)
    ensures |r| <= cap
    ensures SortedByRate(r)
    ensures forall q :: q in r ==> q.rate < PreFilterBound(min)
  {
    var scan := Scan(binance, bybit, min, cap);
    if scan.Ok? then ScanWithinPrefix(binance, bybit, min, cap); scan.value else []
  }

  /** The run with the bot's own configuration. */
  function FindTickersConfigured(binance: Fetch<seq<Quote>>, bybit: Fetch<seq<Quote>>): (r: seq<Quote>)
    ensures |r| <= 3
    ensures forall q :: q in r ==> q.rate < -0.008
  {
    FindTickers(binance, bybit, Config.MinFundingRateToShort, Config.MaxTickersToTrade)
  }

  /**
   * The candidates are the `cap` lowest-rate survivors of the pre-filter (all of them when
   * fewer survive), ascending: a leading slice of the sorted survivors, none of which left
   * out has a lower rate than one kept.
   */
  lemma PrefixShape(quotes: seq<Quote>, min: real, cap: nat)
    ensures |Prefix(quotes, min, cap)| <= cap
    ensures SortedByRate(Prefix(quotes, min, cap))
    ensures forall q :: q in Prefix(quotes, min, cap) ==> q in quotes && q.rate < PreFilterBound(min)
    ensures var survivors := PreFilter(quotes, min);
            |Prefix(quotes, min, cap)| == if |survivors| <= cap then |survivors| else cap
    ensures var sorted := RateSort.Sort(PreFilter(quotes, min));
            var p := Prefix(quotes, min, cap);
            && p == sorted[..|p|]
            && forall i, j :: 0 <= i < |p| <= j < |sorted| ==> p[i].rate <= sorted[j].rate
  {
    var sorted := RateSort.Sort(PreFilter(quotes, min));
    var p := Prefix(quotes, min, cap);
    TakeOfSorted(sorted, cap);
    assert p == if |sorted| <= cap then sorted else sorted[..cap];
    assert |sorted| == |PreFilter(quotes, min)|;
    RateSort.SortIsPermutation(PreFilter(quotes, min));
    forall q | q in p ensures q in quotes && q.rate < PreFilterBound(min) {
      assert q in sorted;
      assert q in multiset(sorted);
    }
  }

  lemma TakeOfSorted(s: seq<Quote>, cap: nat)
    requires SortedByRate(s)
    ensures var p := if |s| <= cap then s else s[..cap];
            && SortedByRate(p) && IsSubsequence(p, s) && (forall q :: q in p ==> q in s)
            && |p| == (if |s| <= cap then |s| else cap) && p == s[..|p|]
            && forall i, j :: 0 <= i < |p| <= j < |s| ==> p[i].rate <= s[j].rate
  {
    if |s| <= cap {
      SubsequenceReflexive(s);
      assert s[..|s|] == s;
    } else {
      TakeIsSubsequence(s, cap);
    }
  }

  /** A successful scan returns a sorted subsequence of the candidates, at most `cap` long. */
  lemma ScanWithinPrefix(binance: Fetch<seq<Quote>>, bybit: Fetch<seq<Quote>>, min: real, cap: nat)
    requires Scan(binance, bybit, min, cap).Ok?
    ensures var r := Scan(binance, bybit, min, cap).value;
            binance.Fetched? && bybit.Fetched? &&
            IsSubsequence(r, Prefix(binance.value, min, cap)) &&
            |r| <= cap && SortedByRate(r) && forall q :: q in r ==> q.rate < PreFilterBound(min)
  {
    var p := Prefix(binance.value, min, cap);
    var r := Scan(binance, bybit, min, cap).value;
    PrefixShape(binance.value, min, cap);
    SubsequenceShorter(r, p);
    SubsequenceKeepsSorted(r, p);
    SubsequenceMembers(r, p);
  }

  /**
   * A quote is ranked exactly when both fetches succeeded, every candidate has a Bybit quote,
   * the quote is one of the candidates, and its two-exchange mean rate signals.
   */
  lemma RankedMembership(binance: Fetch<seq<Quote>>, bybit: Fetch<seq<Quote>>, min: real, cap: nat, q: Quote)
    ensures q in FindTickers(binance, bybit, min, cap) <==>
              && binance.Fetched? && bybit.Fetched?
              && (forall t :: t in Prefix(binance.value, min, cap) ==> HasBybitQuote(bybit.value, t.symbol))
              && q in Prefix(binance.value, min, cap)
              && Signals(q, bybit.value, min)
  {
  }

  /**
   * The scan never yields a partial list: a failed fetch, or one candidate without a Bybit
   * quote, empties the whole result, even when other candidates would have signalled.
   */
  lemma AbortEmptiesScan(binance: Fetch<seq<Quote>>, bybit: Fetch<seq<Quote>>, min: real, cap: nat)
    ensures binance.FetchFailed? || bybit.FetchFailed? ==> FindTickers(binance, bybit, min, cap) == []
    ensures binance.Fetched? && bybit.Fetched? &&
            (exists t :: t in Prefix(binance.value, min, cap) && !HasBybitQuote(bybit.value, t.symbol))
            ==> FindTickers(binance, bybit, min, cap) == []
    ensures FindTickers(binance, bybit, min, cap) != [] ==>
              binance.Fetched? && bybit.Fetched? &&
              forall t :: t in Prefix(binance.value, min, cap) ==> HasBybitQuote(bybit.value, t.symbol)
  {
  }

  /**
   * Ties keep fetch order: for every rate value, the ranked quotes carrying it appear in the
   * order Binance returned them (Python's `sorted` is stable).
   */
  lemma {:induction false} RankedTiesKeepFetchOrder(binance: seq<Quote>, bybit: Fetch<seq<Quote>>, min: real, cap: nat, k: real)
    ensures IsSubsequence(WithRate(FindTickers(Fetched(binance), bybit, min, cap), k), WithRate(binance, k))
  {
    var filtered := PreFilter(binance, min);
    var sorted := RateSort.Sort(filtered);
    var p := Prefix(binance, min, cap);
    var r := FindTickers(Fetched(binance), bybit, min, cap);
    WithRateOfSubsequence(filtered, binance, k);
    assert WithRate(sorted, k) == WithRate(filtered, k);
    TakeOfSorted(sorted, cap);
    WithRateOfSubsequence(p, sorted, k);
    SubsequenceTransitive(WithRate(p, k), WithRate(filtered, k), WithRate(binance, k));
    if r != [] {
      ScanWithinPrefix(Fetched(binance), bybit, min, cap);
      WithRateOfSubsequence(r, p, k);
      SubsequenceTransitive(WithRate(r, k), WithRate(p, k), WithRate(binance, k));
    }
  }

  /**
   * Example: with a -1% threshold, A at -2% passes the -0.8%
   * pre-filter, B at -0.5% does not, and A's mean with Bybit's -1.8% is -1.9%, below -1%.
   */
  lemma WorkedExample()
    ensures var a := Quote("A", -0.02, 1.0);
            var b := Quote("B", -0.005, 1.0);
            FindTickers(Fetched([a, b]), Fetched([Quote("A", -0.018, 1.0)]), -1.0, 3) == [a]
  {
    var a := Quote("A", -0.02, 1.0);
    var b := Quote("B", -0.005, 1.0);
    assert PreFilter([a, b], -1.0) == [a] by {
      assert [a, b][1..] == [b];
      assert PreFilter([b], -1.0) == [];
    }
    assert RateSort.Sort([a]) == [a];
    assert Prefix([a, b], -1.0, 3) == [a];
  }
}
