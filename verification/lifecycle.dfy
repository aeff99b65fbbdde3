/**
 * One trading cycle, `run()` → `place_market_short_orders` → `close_possitions`: the batches the
 * bot submits, in order, and the stop-loss cancellations at the end. The exchange's answers
 * are given up front as a `Gateway` script; the hour-long hold is not modelled.
 */
module Lifecycle {
  import opened Outcomes
  import opened Quotes
  import opened Orders
  import Ranker

  datatype Batch = Entries | StopLosses | Closes

  /** One pass of the cancel loop: the stop-loss it targeted and whether `cancel_order` returned. */
  datatype CancelAttempt = CancelAttempt(symbol: Symbol, orderId: nat, succeeded: bool)

  /** What the bot sent to the exchange, in the order it sent it. */
  datatype Event =
    | Submitted(batch: Batch, orders: seq<Order>)
    | Cancel(attempt: CancelAttempt)

  /** The step during which an exception escaped and ended the cycle. */
  datatype Step = Building | Entering | Protecting | Closing

  datatype Stage = NoTickers | Failed(at: Step) | Closed

  /**
   * The exchange's side of one cycle: whether each batch call returned or raised, the fills
   * `fetch_order` reports for the entry acknowledgments, the stop-loss acknowledgments, and the
   * symbols whose stop-loss cancellation raises (typically because the stop already fired).
   */
  datatype Gateway = Gateway(
    entriesAccepted: bool,
    fills: seq<Fill>,
    stopLossesAccepted: bool,
    stopLossAcks: seq<Ack>,
    closesAccepted: bool,
    cancelFails: set<Symbol>)

  /**
   * `close_possitions` after its sleep: submit the closing batch (`ok` says whether the call
   * returned), then try to cancel each recorded stop-loss, visiting the id table's symbols in
   * `order`. A raising cancellation is caught and the loop goes on; a raising close
   * submission ends the step before any cancellation.
   */
  method ClosePositions(order: seq<Symbol>, stopLossIds: map<Symbol, nat>, closesAccepted: bool, cancelFails: set<Symbol>)
    returns (ok: bool, attempts: seq<CancelAttempt>, cancelled: set<Symbol>)
    requires forall s :: s in order ==> s in stopLossIds
    ensures ok == closesAccepted
    ensures !ok ==> attempts == [] && cancelled == {}
    ensures ok ==> |attempts| == |order|
    ensures forall i :: 0 <= i < |attempts| ==>
              && attempts[i].symbol == order[i]
              && attempts[i].orderId == stopLossIds[order[i]]
              && attempts[i].succeeded == (order[i] !in cancelFails)
    ensures ok ==> cancelled == (set s | s in order && s !in cancelFails)
  {
    attempts := [];
    cancelled := {};
    ok := closesAccepted;
    if !ok {
      return;
    }
    var i := 0;
    while i < |order|
      invariant 0 <= i <= |order|
      invariant |attempts| == i
      invariant forall j :: 0 <= j < i ==>
                  attempts[j] == CancelAttempt(order[j], stopLossIds[order[j]], order[j] !in cancelFails)
      invariant cancelled == (set s | s in order[..i] && s !in cancelFails)
    {
      var s := order[i];
      var succeeded := s !in cancelFails;
      attempts := attempts + [CancelAttempt(s, stopLossIds[s], succeeded)];
      if succeeded {
        cancelled := cancelled + {s};
      }
      assert order[..i + 1] == order[..i] + [s];
      i := i + 1;
    }
    assert order[..i] == order;
  }

  /** `e` is the cancellation of the stop-loss recorded for `symbol`, with the gateway's answer. */
  predicate IsCancelOf(e: Event, symbol: Symbol, gateway: Gateway) {
    var ids := StopLossIds(gateway.stopLossAcks);
    symbol in ids && e == Cancel(CancelAttempt(symbol, ids[symbol], symbol !in gateway.cancelFails))
  }

  /** The stop-loss batch and the closing batch of a cycle, built from the fills and the entered rates. */
  function Protect(tickers: seq<Quote>, gateway: Gateway, amountToPrecision: Precision, priceToPrecision: Precision)
    : Result<Protection, BuildError>
  {
    ProtectionOrders(gateway.fills, RateTable(tickers), amountToPrecision, priceToPrecision)
  }

  /** The cancel attempts as log entries. */
  function CancelEvents(attempts: seq<CancelAttempt>): (r: seq<Event>)
    ensures |r| == |attempts| && forall i :: 0 <= i < |r| ==> r[i] == Cancel(attempts[i])
  {
    seq(|attempts|, i requires 0 <= i < |attempts| => Cancel(attempts[i]))
  }

  /** How far the opening half of a cycle got: the batches submitted so far, and the protection built. */
  datatype Opening =
    | Opened(log: seq<Event>, protection: Protection)
    | OpenFailed(at: Step, log: seq<Event>)

  /**
   * The first half of `place_market_short_orders`: build and submit the entries, build the
   * stop-losses and closing orders from the fills, and submit the stop-losses. Stop-losses are
   * only ever submitted after the entry batch was accepted; when the protection step fails,
   * the entries already submitted stay open and unprotected.
   */
  function OpenPositions(tickers: seq<Quote>, gateway: Gateway, amountToPrecision: Precision, priceToPrecision: Precision)
    : (r: Opening)
    ensures var entries := EntryOrders(tickers, amountToPrecision);
            && (r == OpenFailed(Building, []) <==> entries.Err?)
            && (entries.Ok? ==> |r.log| >= 1 && r.log[0] == Submitted(Entries, entries.value))
            && (r == OpenFailed(Entering, r.log) <==> entries.Ok? && !gateway.entriesAccepted)
            && (r.OpenFailed? && r.at == Entering ==> |r.log| == 1)
    ensures var p := Protect(tickers, gateway, amountToPrecision, priceToPrecision);
            && (r.OpenFailed? && r.at == Protecting ==>
                  && EntryOrders(tickers, amountToPrecision).Ok? && gateway.entriesAccepted
                  && |r.log| == (if p.Err? then 1 else 2)
                  && (p.Ok? ==> !gateway.stopLossesAccepted))
            && (r.Opened? <==>
                  && EntryOrders(tickers, amountToPrecision).Ok? && gateway.entriesAccepted
                  && p.Ok? && gateway.stopLossesAccepted)
            && (r.Opened? ==> r.protection == p.value)
            && (|r.log| == 2 ==> p.Ok? && r.log[1] == Submitted(StopLosses, p.value.stopLosses))
    ensures |r.log| <= 2
  {
    var entries := EntryOrders(tickers, amountToPrecision);
    if entries.Err? then OpenFailed(Building, [])
    else
      var log := [Submitted(Entries, entries.value)];
      if !gateway.entriesAccepted then OpenFailed(Entering, log)
      else
        var protection := Protect(tickers, gateway, amountToPrecision, priceToPrecision);
        if protection.Err? then OpenFailed(Protecting, log)
        else
          var log' := log + [Submitted(StopLosses, protection.value.stopLosses)];
          if !gateway.stopLossesAccepted then OpenFailed(Protecting, log')
          else Opened(log', protection.value)
  }

  /**
   * `place_market_short_orders(tickers)`: open and protect the positions, then run
   * `close_possitions` on the closing batch and the stop-loss id table.
   */
  method PlaceMarketShortOrders(tickers: seq<Quote>, gateway: Gateway,
                                amountToPrecision: Precision, priceToPrecision: Precision)
    returns (stage: Stage, log: seq<Event>)
    ensures stage != NoTickers
    ensures var opening := OpenPositions(tickers, gateway, amountToPrecision, priceToPrecision);
            opening.OpenFailed? ==> stage == Failed(opening.at) && log == opening.log
    ensures var opening := OpenPositions(tickers, gateway, amountToPrecision, priceToPrecision);
            opening.Opened? ==>
              && |log| >= 3
              && log[..2] == opening.log
              && log[2] == Submitted(Closes, opening.protection.closes)
              && (stage == Closed <==> gateway.closesAccepted)
              && (stage == Failed(Closing) <==> !gateway.closesAccepted)
    ensures stage == Failed(Closing) ==> |log| == 3
    ensures var order := StopLossOrder(gateway.stopLossAcks);
            stage == Closed ==>
              && |log| == 3 + |order|
              && forall j :: 0 <= j < |order| ==> IsCancelOf(log[3 + j], order[j], gateway)
  {
    var opening := OpenPositions(tickers, gateway, amountToPrecision, priceToPrecision);
    if opening.OpenFailed? {
      return Failed(opening.at), opening.log;
    }
    var order := StopLossOrder(gateway.stopLossAcks);
    StopLossOrderHasIds(gateway.stopLossAcks);
    var ids := StopLossIds(gateway.stopLossAcks);
    var submitted := opening.log + [Submitted(Closes, opening.protection.closes)];
    var ok, attempts, _ := ClosePositions(order, ids, gateway.closesAccepted, gateway.cancelFails);
    var cancels := CancelEvents(attempts);
    log := submitted + cancels;
    stage := if ok then Closed else Failed(Closing);
    assert |submitted| == 3;
    forall j | ok && 0 <= j < |order| ensures IsCancelOf(log[3 + j], order[j], gateway) {
      assert log[3 + j] == cancels[j] == Cancel(attempts[j]);
    }
  }

  /**
   * `run()`: scan, and trade only when the scan found tickers. The tickers traded are exactly
   * the scan's result: the first batch is their entries, in ranking order, and the rest of the
   * cycle is `PlaceMarketShortOrders` on them.
   */
  method Run(binance: Fetch<seq<Quote>>, bybit: Fetch<seq<Quote>>, min: real, cap: nat, gateway: Gateway,
             amountToPrecision: Precision, priceToPrecision: Precision)
    returns (stage: Stage, log: seq<Event>)
    ensures stage == NoTickers <==> Ranker.FindTickers(binance, bybit, min, cap) == []
    ensures stage == NoTickers ==> log == []
    ensures binance.FetchFailed? || bybit.FetchFailed? ==> stage == NoTickers
    ensures var tickers := Ranker.FindTickers(binance, bybit, min, cap);
            var entries := EntryOrders(tickers, amountToPrecision);
            && (tickers != [] && entries.Ok? ==> |log| >= 1 && log[0] == Submitted(Entries, entries.value))
            && (tickers != [] && entries.Err? ==> stage == Failed(Building) && log == [])
    ensures var tickers := Ranker.FindTickers(binance, bybit, min, cap);
            var opening := OpenPositions(tickers, gateway, amountToPrecision, priceToPrecision);
            tickers != [] ==>
              && (opening.OpenFailed? ==> stage == Failed(opening.at) && log == opening.log)
              && (opening.Opened? ==>
                    && |log| >= 3
                    && log[..2] == opening.log
                    && log[2] == Submitted(Closes, opening.protection.closes)
                    && (stage == Closed <==> gateway.closesAccepted))
  {
    var tickers := Ranker.FindTickers(binance, bybit, min, cap);
    if |tickers| > 0 {
      stage, log := PlaceMarketShortOrders(tickers, gateway, amountToPrecision, priceToPrecision);
    } else {
      stage, log := NoTickers, [];
    }
  }

  /**
   * With a non-positive threshold every ranked rate is negative, so when the fills are for
   * ranked symbols at positive prices, protection is built for all of them and every stop
   * lies strictly above its fill price: the adverse side of a short.
   */
  lemma RankedStopsAboveFills(binance: Fetch<seq<Quote>>, bybit: Fetch<seq<Quote>>, min: real, cap: nat,
                              gateway: Gateway, amountToPrecision: Precision, priceToPrecision: Precision)
    requires min <= 0.0
    requires var tickers := Ranker.FindTickers(binance, bybit, min, cap);
             forall f :: f in gateway.fills ==> f.avgPrice > 0.0 && exists t :: t in tickers && t.symbol == f.symbol
    ensures var tickers := Ranker.FindTickers(binance, bybit, min, cap);
            && Protect(tickers, gateway, amountToPrecision, priceToPrecision).Ok?
            && forall i :: 0 <= i < |gateway.fills| ==>
                 RawStopPrice(gateway.fills[i].avgPrice, RateTable(tickers)[gateway.fills[i].symbol]) > gateway.fills[i].avgPrice
  {
    var tickers := Ranker.FindTickers(binance, bybit, min, cap);
    assert forall t :: t in tickers ==> t.rate < 0.0 by {
      assert Ranker.PreFilterBound(min) <= 0.0;
    }
    ProtectionForEnteredFills(tickers, gateway.fills, amountToPrecision, priceToPrecision);
  }
}
