/**
 * The exchange as the trading module sees it through `IExchange`, backed by the Bybit client of
 * `src/exchange/bybit_api.cpp`. What the venue answers (equity, prices, positions, the reply to
 * an order) is outside the program, so it is a `Venue`: functions of the orders sent so far.
 * The state the program changes is that history of orders, kept by an `Exchange` object.
 */
module Exchange {
  import opened Common
  import opened BybitWire
  import BybitApi

  /** The `category` of an order: `createSpotOrder` sends "spot", `createOrder` "linear". */
  datatype Market = Spot | Linear

  /** One call of `/v5/order/create`, with its category, symbol, side and quantity. */
  datatype Order = Order(market: Market, symbol: string, side: string, qty: real)

  /**
   * What `makeRequest` returns for an order: `NoReply` is the null value (transport or parse
   * failure), `Answer` a parsed object with its `retCode` and `result.orderId`.
   */
  datatype OrderReply = NoReply | Answer(retCode: int, orderId: string)

  /**
   * The venue's answers, each given the orders sent before the question was asked:
   * `getTotalEquity`, `getSpotPrice(symbol)`, the parsed `/v5/position/list` reply for a symbol
   * (the empty symbol asks for all positions), and the reply to a new order.
   */
  datatype Venue = Venue(
    equity: seq<Order> -> real,
    spotPrice: (seq<Order>, string) -> real,
    positions: (seq<Order>, string) -> Reply<Position>,
    answer: (seq<Order>, Order) -> OrderReply)

  /** `createSpotOrder`'s verdict: the reply is an object and its `retCode` is 0. */
  predicate Accepted(r: OrderReply)
  {
    r.Answer? && r.retCode == 0
  }

  /**
   * The orders `closePosition(symbol)` sends after `orders`: one order on the opposite side of
   * the first listed position, for its full size, or none when no position is listed.
   */
  function CloseOrders(venue: Venue, orders: seq<Order>, symbol: string): (os: seq<Order>)
    ensures |os| <= 1
    ensures |os| == 1 <==> BybitApi.CloseOrder(venue.positions(orders, symbol)).Some?
    ensures |os| == 1 ==>
      var first := venue.positions(orders, symbol).list.value[0];
      os[0] == Order(Linear, symbol, CloseSide(first.side), first.size)
  {
    match BybitApi.CloseOrder(venue.positions(orders, symbol))
    case None => []
    case Some((side, size)) => [Order(Linear, symbol, side, size)]
  }

  /** What one accepted spot order does to the holding of its symbol: a buy adds, a sell removes. */
  function SpotEffect(venue: Venue, before: seq<Order>, o: Order, symbol: string): real
  {
    if o.market == Spot && o.symbol == symbol && Accepted(venue.answer(before, o)) then
      (if o.side == "Buy" then o.qty else if o.side == "Sell" then -o.qty else 0.0)
    else 0.0
  }

  /**
   * The spot quantity of `symbol` bought minus sold by the orders of `orders` that the venue
   * accepted, each judged by the reply it got at the time it was sent.
   */
  function SpotHolding(venue: Venue, orders: seq<Order>, symbol: string): real
  {
    if |orders| == 0 then 0.0
    else
      var before := orders[..|orders| - 1];
      SpotHolding(venue, before, symbol) + SpotEffect(venue, before, orders[|orders| - 1], symbol)
  }

  /** Sending one more order changes the holding by that order's effect alone. */
  lemma SpotHoldingSnoc(venue: Venue, orders: seq<Order>, o: Order, symbol: string)
    ensures SpotHolding(venue, orders + [o], symbol) == SpotHolding(venue, orders, symbol) + SpotEffect(venue, orders, o, symbol)
  {
    assert (orders + [o])[..|orders|] == orders;
  }

  /** Orders sent on the linear market leave every spot holding as it was. */
  lemma {:induction false} LinearOrdersKeepSpot(venue: Venue, orders: seq<Order>, more: seq<Order>, symbol: string)
    requires forall i :: 0 <= i < |more| ==> more[i].market == Linear
    ensures SpotHolding(venue, orders + more, symbol) == SpotHolding(venue, orders, symbol)
    decreases |more|
  {
    if |more| > 0 {
      var init := more[..|more| - 1];
      LinearOrdersKeepSpot(venue, orders, init, symbol);
      assert orders + more == (orders + init) + [more[|more| - 1]];
      SpotHoldingSnoc(venue, orders + init, more[|more| - 1], symbol);
    } else {
      assert orders + more == orders;
    }
  }

  class Exchange {
    const venue: Venue
    /** Every order sent, oldest first. */
    var orders: seq<Order>

    constructor (venue: Venue)
      ensures this.venue == venue && orders == []
    {
      this.venue := venue;
      orders := [];
    }

    method GetTotalEquity() returns (equity: real)
      ensures equity == venue.equity(orders)
    {
      equity := venue.equity(orders);
    }

    method GetSpotPrice(symbol: string) returns (price: real)
      ensures price == venue.spotPrice(orders, symbol)
    {
      price := venue.spotPrice(orders, symbol);
    }

    /** `getPositions(symbol)`; the empty symbol asks for every position. */
    method GetPositions(symbol: string) returns (reply: Reply<Position>)
      ensures reply == venue.positions(orders, symbol)
    {
      reply := venue.positions(orders, symbol);
    }

    /** `createOrder` on the linear market: the order is sent and its reply returned. */
    method CreateOrder(symbol: string, side: string, qty: real) returns (reply: OrderReply)
      modifies this
      ensures orders == old(orders) + [Order(Linear, symbol, side, qty)]
      ensures reply == venue.answer(old(orders), Order(Linear, symbol, side, qty))
    {
      var order := Order(Linear, symbol, side, qty);
      reply := venue.answer(orders, order);
      orders := orders + [order];
    }

    /** `createSpotOrder`: the order is sent; success means an object reply with `retCode 0`. */
    method CreateSpotOrder(symbol: string, side: string, qty: real) returns (ok: bool)
      modifies this
      ensures orders == old(orders) + [Order(Spot, symbol, side, qty)]
      ensures ok <==> Accepted(venue.answer(old(orders), Order(Spot, symbol, side, qty)))
    {
      var order := Order(Spot, symbol, side, qty);
      var reply := venue.answer(orders, order);
      orders := orders + [order];
      ok := reply.Answer? && reply.retCode == 0;
    }

    /** `closePosition`: look the symbol's positions up, then close the first one if any. */
    method ClosePosition(symbol: string)
      modifies this
      ensures orders == old(orders) + CloseOrders(venue, old(orders), symbol)
    {
      var position := GetPositions(symbol);
      if !(position.Object? && position.retCode == 0 && position.list.Some?) || |position.list.value| == 0 {
        return;
      }
      var first := position.list.value[0];
      var closeSide := if first.side == "Buy" then "Sell" else "Buy";
      var _ := CreateOrder(symbol, closeSide, first.size);
    }
  }
}
