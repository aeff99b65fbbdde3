/**
 * Order construction inside `place_market_short_orders`: one market short entry per ranked
 * ticker; then, per fill, a stop-loss and a closing market order sized by the executed
 * quantity; and the symbol-to-order-id table of the submitted stop-losses.
 */
module Orders {
  import opened Outcomes
  import opened Sequences
  import opened Quotes
  import Config

  datatype Side = Buy | Sell
  datatype OrderType = Market | StopMarket
  datatype PositionSide = Long | Short
  datatype TimeInForce = GoodTillCancel

  /** One element of a Binance batch-order request. */
  datatype Order = Order(
    symbol: Symbol,
    side: Side,
    kind: OrderType,
    positionSide: PositionSide,
    quantity: real,
    stopPrice: Option<real>,
    timeInForce: Option<TimeInForce>,
    leverage: nat,
    marginType: Config.MarginType)

  /**
   * The exchange's rounding helpers (`amount_to_precision`, `price_to_precision`): a symbol and
   * a raw value give the value rounded to that market's precision. Their rules are the
   * exchange's and are left uninterpreted.
   */
  type Precision = (Symbol, real) -> real

  /** What `fetch_order` reports about an executed entry: the symbol, average price and filled size. */
  datatype Fill = Fill(symbol: Symbol, avgPrice: real, executedQty: real)

  /** One acknowledgment of a batch request: the symbol and the id the exchange gave the order. */
  datatype Ack = Ack(symbol: Symbol, orderId: nat)

  /**
   * The exceptions order construction can raise from the data it is given; none of them is
   * caught by the bot. Exchange calls that raise meanwhile are the `Gateway`'s business.
   */
  datatype BuildError =
    | ZeroMarkPrice(symbol: Symbol)       // `TARGET_USD_SIZE / price` with price 0.0
    | NoRateForFill(symbol: Symbol)       // `fundingRates[symbol]` on a symbol never entered

  /** An entry for `t`: a market sell opening a short of `TargetUsdSize / markPrice`, rounded. */
  predicate IsEntryFor(o: Order, t: Quote, amountToPrecision: Precision) {
    && o.symbol == t.symbol && o.side == Sell && o.kind == Market && o.positionSide == Short
    && t.markPrice != 0.0 && o.quantity == amountToPrecision(t.symbol, Config.TargetUsdSize / t.markPrice)
    && o.stopPrice == None && o.timeInForce == None
    && o.leverage == Config.Leverage && o.marginType == Config.MarginMode
  }

  /** The entry batch: one order per ranked ticker, in ranking order. */
  function EntryOrders(tickers: seq<Quote>, amountToPrecision: Precision): (r: Result<seq<Order>, BuildError>)
    ensures r.Ok? <==> forall t :: t in tickers ==> t.markPrice != 0.0
    ensures r.Ok? ==> |r.value| == |tickers| &&
                      forall i :: 0 <= i < |tickers| ==> IsEntryFor(r.value[i], tickers[i], amountToPrecision)
    ensures r.Err? ==> r.error.ZeroMarkPrice? &&
                       exists t :: t in tickers && t.symbol == r.error.symbol && t.markPrice == 0.0
    decreases |tickers|
  {
    if tickers == [] then Ok([])
    else
      var t := tickers[0];
      assert forall q :: q in tickers <==> q == t || q in tickers[1..];
      if t.markPrice == 0.0 then Err(ZeroMarkPrice(t.symbol))
      else
        var entry := Order(t.symbol, Sell, Market, Short,
                           amountToPrecision(t.symbol, Config.TargetUsdSize / t.markPrice),
                           None, None, Config.Leverage, Config.MarginMode);
        match EntryOrders(tickers[1..], amountToPrecision)
        case Err(e) => Err(e)
        case Ok(rest) => Ok([entry] + rest)
  }

  /** The assignments `fundingRates[symbol] = rate`, in ticker order. */
  function RateAssignments(tickers: seq<Quote>): (pairs: seq<(Symbol, real)>)
    ensures |pairs| == |tickers| && forall i :: 0 <= i < |tickers| ==> pairs[i] == (tickers[i].symbol, tickers[i].rate)
  {
    seq(|tickers|, i requires 0 <= i < |tickers| => (tickers[i].symbol, tickers[i].rate))
  }

  /** `fundingRates`: each ticker's symbol mapped to its rate; a repeated symbol keeps the last rate. */
  function RateTable(tickers: seq<Quote>): map<Symbol, real> {
    LastWins(RateAssignments(tickers))
  }

  /** The table covers exactly the entered symbols, each with the rate of its last ticker. */
  lemma RateTableContents(tickers: seq<Quote>)
    ensures forall s :: s in RateTable(tickers) <==> exists t :: t in tickers && t.symbol == s
    ensures forall s :: s in RateTable(tickers) ==>
              exists i :: 0 <= i < |tickers| && tickers[i].symbol == s && RateTable(tickers)[s] == tickers[i].rate &&
                          forall j :: i < j < |tickers| ==> tickers[j].symbol != s
  {
    var pairs := RateAssignments(tickers);
    var m := LastWins(pairs);
    LastWinsContents(pairs);
    forall s | exists t :: t in tickers && t.symbol == s ensures s in m {
      var t :| t in tickers && t.symbol == s;
      var i :| 0 <= i < |tickers| && tickers[i] == t;
      assert pairs[i].0 == s;
    }
    forall s | s in m
      ensures exists i :: 0 <= i < |tickers| && tickers[i].symbol == s && m[s] == tickers[i].rate &&
                          forall j :: i < j < |tickers| ==> tickers[j].symbol != s
    {
      assert IsLastAssignment(pairs, s, m[s]);
      var i :| 0 <= i < |pairs| && pairs[i] == (s, m[s]) && forall j :: i < j < |pairs| ==> pairs[j].0 != s;
      assert tickers[i] in tickers;
    }
  }

  /**
   * The stop price before rounding: `avgPrice * (1 + rate * -1 * 2)`, the entry price moved
   * by twice the funding rate against the short.
   */
  function RawStopPrice(avgPrice: real, rate: real): (r: real)
    ensures rate < 0.0 && avgPrice > 0.0 ==> r > avgPrice
    ensures r - avgPrice == avgPrice * 2.0 * -rate
    ensures rate == 0.0 ==> r == avgPrice
  {
    avgPrice * (1.0 + (rate * -1.0 * 2.0))
  }

  /** The stop-loss and closing orders built from the fills, kept as two parallel batches. */
  datatype Protection = Protection(stopLosses: seq<Order>, closes: seq<Order>)

  /** A stop-loss for `f`: buy back the filled size, short side, triggered at the rounded stop price. */
  predicate IsStopLossFor(o: Order, f: Fill, rate: real, amountToPrecision: Precision, priceToPrecision: Precision) {
    && o.symbol == f.symbol && o.side == Buy && o.kind == StopMarket && o.positionSide == Short
    && o.quantity == amountToPrecision(f.symbol, f.executedQty)
    && o.stopPrice == Some(priceToPrecision(f.symbol, RawStopPrice(f.avgPrice, rate)))
    && o.timeInForce == Some(GoodTillCancel)
    && o.leverage == Config.Leverage && o.marginType == Config.MarginMode
  }

  /** A closing order for `f`: a market buy of the filled size on the short side. */
  predicate IsCloseFor(o: Order, f: Fill, amountToPrecision: Precision) {
    && o.symbol == f.symbol && o.side == Buy && o.kind == Market && o.positionSide == Short
    && o.quantity == amountToPrecision(f.symbol, f.executedQty)
    && o.stopPrice == None && o.timeInForce == None
    && o.leverage == Config.Leverage && o.marginType == Config.MarginMode
  }

  /**
   * The loop over the entry acknowledgments: each fill yields one stop-loss and one closing
   * order, both sized by the fill's executed quantity. A fill whose symbol has no entered rate
   * raises `KeyError`.
   */
  function ProtectionOrders(fills: seq<Fill>, rates: map<Symbol, real>,
                            amountToPrecision: Precision, priceToPrecision: Precision)
    : (r: Result<Protection, BuildError>)
    ensures r.Ok? <==> forall f :: f in fills ==> f.symbol in rates
    ensures r.Ok? ==> |r.value.stopLosses| == |fills| && |r.value.closes| == |fills|
    ensures r.Ok? ==> forall i :: 0 <= i < |fills| ==>
              && IsStopLossFor(r.value.stopLosses[i], fills[i], rates[fills[i].symbol], amountToPrecision, priceToPrecision)
              && IsCloseFor(r.value.closes[i], fills[i], amountToPrecision)
    ensures r.Err? ==> r.error.NoRateForFill? &&
                       exists f :: f in fills && f.symbol == r.error.symbol && f.symbol !in rates
    decreases |fills|
  {
    if fills == [] then Ok(Protection([], []))
    else
      var f := fills[0];
      assert forall g :: g in fills <==> g == f || g in fills[1..];
      if f.symbol !in rates then Err(NoRateForFill(f.symbol))
      else
        var quantity := amountToPrecision(f.symbol, f.executedQty);
        var stopPrice := priceToPrecision(f.symbol, RawStopPrice(f.avgPrice, rates[f.symbol]));
        var stopLoss := Order(f.symbol, Buy, StopMarket, Short, quantity, Some(stopPrice), Some(GoodTillCancel),
                              Config.Leverage, Config.MarginMode);
        var close := Order(f.symbol, Buy, Market, Short, quantity, None, None, Config.Leverage, Config.MarginMode);
        match ProtectionOrders(fills[1..], rates, amountToPrecision, priceToPrecision)
        case Err(e) => Err(e)
        case Ok(rest) => Ok(Protection([stopLoss] + rest.stopLosses, [close] + rest.closes))
  }

  /** The assignments `sl_orders_ids[item['symbol']] = item['orderId']`, in response order. */
  function StopLossAssignments(acks: seq<Ack>): (pairs: seq<(Symbol, nat)>)
    ensures |pairs| == |acks| && forall i :: 0 <= i < |acks| ==> pairs[i] == (acks[i].symbol, acks[i].orderId)
  {
    seq(|acks|, i requires 0 <= i < |acks| => (acks[i].symbol, acks[i].orderId))
  }

  /** `sl_orders_ids`: each acknowledged stop-loss's symbol mapped to its order id, later acks overwriting. */
  function StopLossIds(acks: seq<Ack>): map<Symbol, nat> {
    LastWins(StopLossAssignments(acks))
  }

  /** The order `for o in sl_orders_ids` visits the symbols: first acknowledgment first. */
  function StopLossOrder(acks: seq<Ack>): seq<Symbol> {
    InsertionOrder(StopLossAssignments(acks))
  }

  /** Every symbol the cancel loop visits has an id in the table. */
  lemma StopLossOrderHasIds(acks: seq<Ack>)
    ensures forall s :: s in StopLossOrder(acks) ==> s in StopLossIds(acks)
  {
    InsertionOrderContents(StopLossAssignments(acks));
  }

  /** The id table holds exactly the acknowledged symbols, each with its last acknowledged id. */
  lemma StopLossIdsContents(acks: seq<Ack>)
    ensures forall s :: s in StopLossIds(acks) <==> exists a :: a in acks && a.symbol == s
    ensures forall s :: s in StopLossIds(acks) ==>
              exists i :: 0 <= i < |acks| && acks[i] == Ack(s, StopLossIds(acks)[s]) &&
                          forall j :: i < j < |acks| ==> acks[j].symbol != s
  {
    var pairs := StopLossAssignments(acks);
    var m := LastWins(pairs);
    LastWinsContents(pairs);
    forall s | exists a :: a in acks && a.symbol == s ensures s in m {
      var a :| a in acks && a.symbol == s;
      var i :| 0 <= i < |acks| && acks[i] == a;
      assert pairs[i].0 == s;
    }
    forall s | s in m
      ensures exists i :: 0 <= i < |acks| && acks[i] == Ack(s, m[s]) &&
                          forall j :: i < j < |acks| ==> acks[j].symbol != s
    {
      assert IsLastAssignment(pairs, s, m[s]);
      var i :| 0 <= i < |pairs| && pairs[i] == (s, m[s]) && forall j :: i < j < |pairs| ==> pairs[j].0 != s;
      assert acks[i] == Ack(s, m[s]);
      assert acks[i] in acks;
    }
  }

  /** Iterating the id table visits each of its symbols, and each exactly once. */
  lemma StopLossOrderContents(acks: seq<Ack>)
    ensures forall s :: s in StopLossOrder(acks) <==> s in StopLossIds(acks)
    ensures forall i, j :: 0 <= i < j < |StopLossOrder(acks)| ==> StopLossOrder(acks)[i] != StopLossOrder(acks)[j]
  {
    var pairs := StopLossAssignments(acks);
    var m := LastWins(pairs);
    LastWinsContents(pairs);
    InsertionOrderContents(pairs);
    forall s | s in m ensures s in InsertionOrder(pairs) {
      assert IsLastAssignment(pairs, s, m[s]);
      var i :| 0 <= i < |pairs| && pairs[i] == (s, m[s]) && forall j :: i < j < |pairs| ==> pairs[j].0 != s;
      assert pairs[i].0 == s;
    }
  }

  /** Example: a fill at 100 with a -1.5% rate gets its stop at 103. */
  lemma StopPriceExample()
    ensures RawStopPrice(100.0, -0.015) == 103.0
  {
  }

  /**
   * A partial fill: the entry asks for 2 units (100 USD at a mark price of 50), only 1.5 fill,
   * and both the stop-loss and the closing order are for 1.5, not 2 (rounding taken as exact).
   */
  lemma PartialFillSizesProtection()
    ensures var exact: Precision := (s: Symbol, x: real) => x;
            var t := Quote("X", -0.02, 50.0);
            var entries := EntryOrders([t], exact);
            var p := ProtectionOrders([Fill("X", 50.0, 1.5)], RateTable([t]), exact, exact);
            && entries.Ok? && entries.value[0].quantity == 2.0
            && p.Ok? && p.value.stopLosses[0].quantity == 1.5 && p.value.closes[0].quantity == 1.5
  {
    var t := Quote("X", -0.02, 50.0);
    RateTableContents([t]);
  }

  /**
   * When every fill is for an entered symbol, protection is built for every fill; the stop-loss
   * and closing batches then list the same symbols, in fill order, with equal quantities. When,
   * moreover, every entered rate is negative and every fill price positive, each stop sits
   * strictly above its fill price.
   */
  lemma {:induction false} ProtectionForEnteredFills(tickers: seq<Quote>, fills: seq<Fill>,
                                                     amountToPrecision: Precision, priceToPrecision: Precision)
    requires forall f :: f in fills ==> exists t :: t in tickers && t.symbol == f.symbol
    ensures var p := ProtectionOrders(fills, RateTable(tickers), amountToPrecision, priceToPrecision);
            && p.Ok?
            && forall i :: 0 <= i < |fills| ==>
                 && p.value.stopLosses[i].symbol == p.value.closes[i].symbol == fills[i].symbol
                 && p.value.stopLosses[i].quantity == p.value.closes[i].quantity
                 && exists t :: t in tickers && t.symbol == fills[i].symbol && RateTable(tickers)[fills[i].symbol] == t.rate
    ensures (forall t :: t in tickers ==> t.rate < 0.0) && (forall f :: f in fills ==> f.avgPrice > 0.0) ==>
              forall i :: 0 <= i < |fills| ==> RawStopPrice(fills[i].avgPrice, RateTable(tickers)[fills[i].symbol]) > fills[i].avgPrice
  {
    var rates := RateTable(tickers);
    RateTableContents(tickers);
    forall i | 0 <= i < |fills|
      ensures fills[i].symbol in rates
      ensures exists t :: t in tickers && t.symbol == fills[i].symbol && rates[fills[i].symbol] == t.rate
    {
      assert fills[i] in fills;
      var j :| 0 <= j < |tickers| && tickers[j].symbol == fills[i].symbol && rates[fills[i].symbol] == tickers[j].rate &&
               forall k :: j < k < |tickers| ==> tickers[k].symbol != fills[i].symbol;
      assert tickers[j] in tickers;
    }
  }
}
