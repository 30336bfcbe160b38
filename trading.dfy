/**
 * `TradingModule` (`src/trading/trading_module.cpp`): position sizing, the total-position limit,
 * the per-symbol hedge (spot buy plus contract sell, stored as a trade group when both legs
 * succeed, each successful leg reversed otherwise) and closing a stored group by its text.
 */
module Trading {
  import opened Common
  import opened Strings
  import opened BybitWire
  import opened Exchange
  import Storage

  /** The configuration values the module reads. */
  datatype TradingConfig = TradingConfig(
    totalInvestment: real,
    topPairsCount: int,
    positionScaling: bool,
    scalingFactor: real,
    maxSinglePositionRisk: real,
    minPositionSize: real,
    maxPositionSize: real,
    maxTotalPosition: real,
    defaultLeverage: int)

  function Abs(x: real): real
  {
    if x < 0.0 then -x else x
  }

  /** `std::min` on doubles: the second argument when it is smaller, else the first. */
  function MinReal(a: real, b: real): real
  {
    if b < a then b else a
  }

  /** `std::max` on doubles: the second argument when it is larger, else the first. */
  function MaxReal(a: real, b: real): real
  {
    if a < b then b else a
  }

  // ---------------------------------------------------------------- calculatePositionSize

  /** Too little equity to trade: none, or less than a tenth of the total investment. */
  predicate LowEquity(cfg: TradingConfig, equity: real)
  {
    equity <= 0.0 || equity < cfg.totalInvestment * 0.1
  }

  /** The share of one pair, scaled up by the size of the rate when scaling is on. */
  function Scaled(cfg: TradingConfig, rate: real): real
    requires cfg.topPairsCount != 0
  {
    var basePosition := cfg.totalInvestment / cfg.topPairsCount as real;
    if cfg.positionScaling then basePosition * (1.0 + Abs(rate) * cfg.scalingFactor) else basePosition
  }

  /** The configured minimum and maximum sizes in coins, priced in USDT, and the single-position cap. */
  function MinSize(cfg: TradingConfig, spotPrice: real): real
  {
    cfg.minPositionSize * spotPrice
  }

  function MaxSize(cfg: TradingConfig, spotPrice: real): real
  {
    cfg.maxPositionSize * spotPrice
  }

  function RiskCap(cfg: TradingConfig): real
  {
    cfg.totalInvestment * cfg.maxSinglePositionRisk
  }

  /** The last two clamps: raise to `lo`, then cap at `hi`; the cap has the last word. */
  function Clamp(x: real, lo: real, hi: real): (r: real)
    ensures r <= hi
    ensures lo <= hi ==> lo <= r
    ensures lo <= x <= hi ==> r == x
  {
    MinReal(MaxReal(x, lo), hi)
  }

  /**
   * The position size in USDT: zero on low equity; otherwise the scaled share, capped by the
   * single-position risk, raised to the minimum size and finally capped by the maximum size
   * (both sizes in coins, priced at the spot price).
   */
  function PositionSize(cfg: TradingConfig, equity: real, rate: real, spotPrice: real): (size: real)
    requires cfg.topPairsCount != 0
    ensures LowEquity(cfg, equity) ==> size == 0.0
    ensures !LowEquity(cfg, equity) ==> size <= MaxSize(cfg, spotPrice)
    ensures !LowEquity(cfg, equity) && MinSize(cfg, spotPrice) <= MaxSize(cfg, spotPrice) ==>
      MinSize(cfg, spotPrice) <= size
    ensures !LowEquity(cfg, equity) ==>
      var capped := MinReal(Scaled(cfg, rate), RiskCap(cfg));
      MinSize(cfg, spotPrice) <= capped <= MaxSize(cfg, spotPrice) ==> size == capped
  {
    if LowEquity(cfg, equity) then 0.0
    else
      var adjusted := MinReal(Scaled(cfg, rate), RiskCap(cfg));
      Clamp(adjusted, MinSize(cfg, spotPrice), MaxSize(cfg, spotPrice))
  }

  lemma MulLeft(c: real, a: real, b: real)
    requires c >= 0.0 && a <= b
    ensures c * a <= c * b
  {
  }

  /** With non-negative investment and factor, the scaled share grows with the size of the rate. */
  lemma ScaledMonotone(cfg: TradingConfig, r1: real, r2: real)
    requires cfg.topPairsCount > 0 && cfg.totalInvestment >= 0.0 && cfg.scalingFactor >= 0.0
    requires Abs(r1) <= Abs(r2)
    ensures Scaled(cfg, r1) <= Scaled(cfg, r2)
  {
    var basePosition := cfg.totalInvestment / cfg.topPairsCount as real;
    assert basePosition >= 0.0;
    MulLeft(cfg.scalingFactor, Abs(r1), Abs(r2));
    assert Abs(r1) * cfg.scalingFactor <= Abs(r2) * cfg.scalingFactor;
    MulLeft(basePosition, 1.0 + Abs(r1) * cfg.scalingFactor, 1.0 + Abs(r2) * cfg.scalingFactor);
  }

  /** The clamps keep that order: a larger rate never gives a smaller position. */
  lemma PositionSizeMonotone(cfg: TradingConfig, equity: real, r1: real, r2: real, spotPrice: real)
    requires cfg.topPairsCount > 0 && cfg.totalInvestment >= 0.0 && cfg.scalingFactor >= 0.0
    requires Abs(r1) <= Abs(r2)
    ensures PositionSize(cfg, equity, r1, spotPrice) <= PositionSize(cfg, equity, r2, spotPrice)
  {
    ScaledMonotone(cfg, r1, r2);
  }

  /** Without scaling the rate plays no part in the size. */
  lemma PositionSizeIgnoresRate(cfg: TradingConfig, equity: real, r1: real, r2: real, spotPrice: real)
    requires cfg.topPairsCount != 0 && !cfg.positionScaling
    ensures PositionSize(cfg, equity, r1, spotPrice) == PositionSize(cfg, equity, r2, spotPrice)
  {
    assert Scaled(cfg, r1) == Scaled(cfg, r2);
  }

  // ---------------------------------------------------------------- checkTotalPositionLimit

  /** The sum of `positionValue` over the listed positions. */
  function TotalValue(ps: seq<Position>): real
  {
    if |ps| == 0 then 0.0 else TotalValue(ps[..|ps| - 1]) + ps[|ps| - 1].positionValue
  }

  /** What `checkTotalPositionLimit` adds up: the listed positions, or nothing for a null reply. */
  function PositionsTotal(reply: Reply<Position>): real
  {
    if ListReturned(reply) then TotalValue(reply.list.value) else 0.0
  }

  /** The positions now held stay below the share of the investment allowed in total. */
  predicate WithinLimit(cfg: TradingConfig, reply: Reply<Position>)
  {
    PositionsTotal(reply) < cfg.totalInvestment * cfg.maxTotalPosition
  }

  /** With non-negative values the total is at least any one of them. */
  lemma {:induction false} TotalValueAtLeastEach(ps: seq<Position>, i: nat)
    requires forall j :: 0 <= j < |ps| ==> ps[j].positionValue >= 0.0
    requires i < |ps|
    ensures TotalValue(ps) >= ps[i].positionValue
    decreases |ps|
  {
    var init := ps[..|ps| - 1];
    assert forall j :: 0 <= j < |init| ==> init[j].positionValue >= 0.0;
    TotalValueNonNegative(init);
    if i < |ps| - 1 {
      TotalValueAtLeastEach(init, i);
      assert init[i] == ps[i];
    }
  }

  lemma {:induction false} TotalValueNonNegative(ps: seq<Position>)
    requires forall j :: 0 <= j < |ps| ==> ps[j].positionValue >= 0.0
    ensures TotalValue(ps) >= 0.0
    decreases |ps|
  {
    if |ps| > 0 {
      TotalValueNonNegative(ps[..|ps| - 1]);
    }
  }

  /** One position already worth the whole allowance is enough to refuse new hedges. */
  lemma LargePositionBlocks(cfg: TradingConfig, reply: Reply<Position>, i: nat)
    requires ListReturned(reply) && i < |reply.list.value|
    requires forall j :: 0 <= j < |reply.list.value| ==> reply.list.value[j].positionValue >= 0.0
    requires reply.list.value[i].positionValue >= cfg.totalInvestment * cfg.maxTotalPosition
    ensures !WithinLimit(cfg, reply)
  {
    TotalValueAtLeastEach(reply.list.value, i);
  }

  // ---------------------------------------------------------------- executeHedgeStrategy

  /** The spot order id: "SPOT_" followed by the clock reading in seconds. */
  function SpotOrderId(now: int): string
  {
    "SPOT_" + IntToString(now)
  }

  /** `contractOrder["retCode"].asInt() == 0`, as written: a null reply reads as 0. */
  predicate ContractOkAsWritten(r: OrderReply)
  {
    r.NoReply? || r.retCode == 0
  }

  /** The contract leg succeeded: the venue answered and the answer carries `retCode 0`. */
  predicate ContractOk(r: OrderReply)
  {
    r.Answer? && r.retCode == 0
  }

  /** `contractOrder["result"]["orderId"].asString()`: empty for a null reply. */
  function FuturesOrderId(r: OrderReply): string
  {
    if r.Answer? then r.orderId else ""
  }

  /** What the hedge changes: the orders sent and the trade-group rows. */
  datatype World = World(orders: seq<Order>, groups: seq<Storage.GroupRow>)

  /**
   * The quantities of a hedge for `symbol` after `orders`, or `None` when it is skipped: a size
   * or a spot price that is not positive. The spot leg buys size / price coins, the contract
   * leg sells that many times the leverage.
   */
  function Plan(cfg: TradingConfig, venue: Venue, orders: seq<Order>, symbol: string, rate: real): Option<(real, real)>
    requires cfg.topPairsCount != 0
  {
    var size := PositionSize(cfg, venue.equity(orders), rate, venue.spotPrice(orders, symbol));
    var price := venue.spotPrice(orders, symbol);
    if size <= 0.0 || price <= 0.0 then None
    else
      var spotQty := size / price;
      Some((spotQty, spotQty * cfg.defaultLeverage as real))
  }

  /**
   * A hedge is planned exactly when the size and the spot price are both positive; then the
   * spot leg is worth the size at that price and the contract leg is the leverage times it.
   */
  lemma PlanQuantities(cfg: TradingConfig, venue: Venue, orders: seq<Order>, symbol: string, rate: real)
    requires cfg.topPairsCount != 0
    ensures var size := PositionSize(cfg, venue.equity(orders), rate, venue.spotPrice(orders, symbol));
      Plan(cfg, venue, orders, symbol, rate).Some? <==> size > 0.0 && venue.spotPrice(orders, symbol) > 0.0
    ensures var size := PositionSize(cfg, venue.equity(orders), rate, venue.spotPrice(orders, symbol));
      var p := Plan(cfg, venue, orders, symbol, rate);
      p.Some? ==> p.value.0 * venue.spotPrice(orders, symbol) == size
                  && p.value.1 == p.value.0 * cfg.defaultLeverage as real
  {
    var size := PositionSize(cfg, venue.equity(orders), rate, venue.spotPrice(orders, symbol));
    var price := venue.spotPrice(orders, symbol);
    if size > 0.0 && price > 0.0 {
      QuotientTimesDivisor(size, price);
    }
  }

  lemma QuotientTimesDivisor(x: real, d: real)
    requires d > 0.0
    ensures (x / d) * d == x
  {
  }

  /** The two readings of the contract reply disagree only on a null reply, which only the one as written accepts. */
  lemma ContractTestsDifferOnlyOnNull(r: OrderReply)
    ensures ContractOk(r) ==> ContractOkAsWritten(r)
    ensures (ContractOkAsWritten(r) && !ContractOk(r)) <==> r.NoReply?
  {
  }

  /** On a venue that answers every contract order, the step as written and the corrected one agree. */
  lemma AsWrittenAgreesOnAnswers(cfg: TradingConfig, venue: Venue, connected: bool, now: int, w: World,
                                 symbol: string, rate: real)
    requires cfg.topPairsCount != 0
    requires forall os: seq<Order>, o: Order :: o.market == Linear ==> venue.answer(os, o).Answer?
    ensures HedgeStepUsing(ContractOkAsWritten, cfg, venue, connected, now, w, symbol, rate)
            == HedgeStep(cfg, venue, connected, now, w, symbol, rate)
  {
    if Plan(cfg, venue, w.orders, symbol, rate).Some? {
      var (spotQty, contractQty) := Plan(cfg, venue, w.orders, symbol, rate).value;
      var buy := Order(Spot, symbol, "Buy", spotQty);
      var sell := Order(Linear, symbol, "Sell", contractQty);
      var reply := venue.answer(w.orders + [buy], sell);
      assert reply.Answer?;
      assert ContractOkAsWritten(reply) == ContractOk(reply);
    }
  }

  /** One pass of the loop body, with the contract leg judged by `contractOk`. */
  function HedgeStepUsing(contractOk: OrderReply -> bool, cfg: TradingConfig, venue: Venue, connected: bool,
                          now: int, w: World, symbol: string, rate: real): World
    requires cfg.topPairsCount != 0
  {
    match Plan(cfg, venue, w.orders, symbol, rate)
    case None => w
    case Some((spotQty, contractQty)) =>
      var buy := Order(Spot, symbol, "Buy", spotQty);
      var spotOk := Accepted(venue.answer(w.orders, buy));
      var o1 := w.orders + [buy];
      var sell := Order(Linear, symbol, "Sell", contractQty);
      var reply := venue.answer(o1, sell);
      var o2 := o1 + [sell];
      if spotOk && contractOk(reply) then
        var row := Storage.NewGroup("BYBIT", symbol, SpotOrderId(now), FuturesOrderId(reply), cfg.defaultLeverage);
        World(o2, if connected then w.groups + [row] else w.groups)
      else
        var o3 := if spotOk then o2 + [Order(Spot, symbol, "Sell", spotQty)] else o2;
        var o4 := if contractOk(reply) then o3 + CloseOrders(venue, o3, symbol) else o3;
        World(o4, w.groups)
  }

  function HedgeStep(cfg: TradingConfig, venue: Venue, connected: bool, now: int, w: World,
                     symbol: string, rate: real): World
    requires cfg.topPairsCount != 0
  {
    HedgeStepUsing(ContractOk, cfg, venue, connected, now, w, symbol, rate)
  }

  /** The loop over the top rates, in their order. */
  function HedgePass(cfg: TradingConfig, venue: Venue, connected: bool, now: int, w: World,
                     rates: seq<(string, real)>): World
    requires cfg.topPairsCount != 0
  {
    if |rates| == 0 then w
    else
      var last := rates[|rates| - 1];
      HedgeStep(cfg, venue, connected, now, HedgePass(cfg, venue, connected, now, w, rates[..|rates| - 1]), last.0, last.1)
  }

  /** One more symbol is one more loop body. */
  lemma HedgePassStep(cfg: TradingConfig, venue: Venue, connected: bool, now: int, w: World,
                      rates: seq<(string, real)>, k: nat)
    requires cfg.topPairsCount != 0 && k < |rates|
    ensures HedgePass(cfg, venue, connected, now, w, rates[..k + 1])
            == HedgeStep(cfg, venue, connected, now, HedgePass(cfg, venue, connected, now, w, rates[..k]), rates[k].0, rates[k].1)
  {
    assert rates[..k + 1][..k] == rates[..k];
  }

  /** `executeHedgeStrategy`: nothing at all when the positions are over the limit. */
  function Execute(cfg: TradingConfig, venue: Venue, connected: bool, now: int, w: World,
                   rates: seq<(string, real)>): World
    requires cfg.topPairsCount != 0
  {
    if !WithinLimit(cfg, venue.positions(w.orders, "")) then w
    else HedgePass(cfg, venue, connected, now, w, rates)
  }

  /** A skipped symbol sends no order and stores nothing. */
  lemma SkippedSymbolIsUntouched(cfg: TradingConfig, venue: Venue, connected: bool, now: int, w: World,
                                 symbol: string, rate: real)
    requires cfg.topPairsCount != 0
    requires PositionSize(cfg, venue.equity(w.orders), rate, venue.spotPrice(w.orders, symbol)) <= 0.0
             || venue.spotPrice(w.orders, symbol) <= 0.0
    ensures HedgeStep(cfg, venue, connected, now, w, symbol, rate) == w
  {
    assert Plan(cfg, venue, w.orders, symbol, rate).None?;
  }

  /**
   * A planned hedge sends the spot buy and then the contract sell, and a group is stored,
   * exactly when both legs succeed on a connected store: one active "BYBIT" row for the
   * symbol, with the spot id from the clock, the contract's order id and the leverage.
   * A completed hedge sends nothing more; a failed one sells back the spot leg when it
   * succeeded and closes the symbol's position when the contract leg succeeded.
   */
  lemma HedgeStepOutcome(cfg: TradingConfig, venue: Venue, connected: bool, now: int, w: World,
                         symbol: string, rate: real)
    requires cfg.topPairsCount != 0
    requires Plan(cfg, venue, w.orders, symbol, rate).Some?
    ensures var (spotQty, contractQty) := Plan(cfg, venue, w.orders, symbol, rate).value;
      var buy := Order(Spot, symbol, "Buy", spotQty);
      var sell := Order(Linear, symbol, "Sell", contractQty);
      var reply := venue.answer(w.orders + [buy], sell);
      var after := HedgeStep(cfg, venue, connected, now, w, symbol, rate);
      |after.orders| >= |w.orders| + 2
      && after.orders[..|w.orders| + 2] == w.orders + [buy, sell]
      && (connected && Accepted(venue.answer(w.orders, buy)) && ContractOk(reply) ==>
            after.groups == w.groups + [Storage.NewGroup("BYBIT", symbol, SpotOrderId(now), reply.orderId, cfg.defaultLeverage)])
      && (!(connected && Accepted(venue.answer(w.orders, buy)) && ContractOk(reply)) ==> after.groups == w.groups)
    ensures var (spotQty, contractQty) := Plan(cfg, venue, w.orders, symbol, rate).value;
      var buy := Order(Spot, symbol, "Buy", spotQty);
      var sell := Order(Linear, symbol, "Sell", contractQty);
      var spotOk := Accepted(venue.answer(w.orders, buy));
      var contractOk := ContractOk(venue.answer(w.orders + [buy], sell));
      var o2 := w.orders + [buy, sell];
      var o3 := if spotOk then o2 + [Order(Spot, symbol, "Sell", spotQty)] else o2;
      var after := HedgeStep(cfg, venue, connected, now, w, symbol, rate);
      (spotOk && contractOk ==> after.orders == o2)
      && (!(spotOk && contractOk) ==> after.orders == o3 + (if contractOk then CloseOrders(venue, o3, symbol) else []))
  {
    var (spotQty, contractQty) := Plan(cfg, venue, w.orders, symbol, rate).value;
    var buy := Order(Spot, symbol, "Buy", spotQty);
    var sell := Order(Linear, symbol, "Sell", contractQty);
    var o2 := w.orders + [buy] + [sell];
    var after := HedgeStep(cfg, venue, connected, now, w, symbol, rate);
    assert after.orders[..|o2|] == o2;
    assert o2 == w.orders + [buy, sell];
  }

  /**
   * The spot leg is undone on failure: when the hedge does not complete, the spot holding of
   * the symbol is what it was before, provided the venue accepts the reversing sell.
   */
  lemma FailedHedgeRestoresSpot(cfg: TradingConfig, venue: Venue, connected: bool, now: int, w: World,
                                symbol: string, rate: real)
    requires cfg.topPairsCount != 0
    requires Plan(cfg, venue, w.orders, symbol, rate).Some?
    requires var (spotQty, contractQty) := Plan(cfg, venue, w.orders, symbol, rate).value;
      var buy := Order(Spot, symbol, "Buy", spotQty);
      var sell := Order(Linear, symbol, "Sell", contractQty);
      var o2 := w.orders + [buy, sell];
      !(Accepted(venue.answer(w.orders, buy)) && ContractOk(venue.answer(w.orders + [buy], sell)))
      && (Accepted(venue.answer(w.orders, buy)) ==> Accepted(venue.answer(o2, Order(Spot, symbol, "Sell", spotQty))))
    ensures SpotHolding(venue, HedgeStep(cfg, venue, connected, now, w, symbol, rate).orders, symbol)
            == SpotHolding(venue, w.orders, symbol)
  {
    var (spotQty, contractQty) := Plan(cfg, venue, w.orders, symbol, rate).value;
    var buy := Order(Spot, symbol, "Buy", spotQty);
    var sell := Order(Linear, symbol, "Sell", contractQty);
    var spotOk := Accepted(venue.answer(w.orders, buy));
    var o1 := w.orders + [buy];
    var o2 := o1 + [sell];
    assert o2 == w.orders + [buy, sell];
    var undo := Order(Spot, symbol, "Sell", spotQty);
    var o3 := if spotOk then o2 + [undo] else o2;
    var closes := if ContractOk(venue.answer(o1, sell)) then CloseOrders(venue, o3, symbol) else [];
    assert HedgeStep(cfg, venue, connected, now, w, symbol, rate).orders == o3 + closes;
    SpotHoldingSnoc(venue, w.orders, buy, symbol);
    SpotHoldingSnoc(venue, o1, sell, symbol);
    if spotOk {
      SpotHoldingSnoc(venue, o2, undo, symbol);
    }
    LinearOrdersKeepSpot(venue, o3, closes, symbol);
  }

  /** A completed hedge adds exactly the bought quantity to the spot holding. */
  lemma CompletedHedgeAddsSpot(cfg: TradingConfig, venue: Venue, connected: bool, now: int, w: World,
                               symbol: string, rate: real)
    requires cfg.topPairsCount != 0
    requires Plan(cfg, venue, w.orders, symbol, rate).Some?
    requires var (spotQty, contractQty) := Plan(cfg, venue, w.orders, symbol, rate).value;
      var buy := Order(Spot, symbol, "Buy", spotQty);
      Accepted(venue.answer(w.orders, buy)) && ContractOk(venue.answer(w.orders + [buy], Order(Linear, symbol, "Sell", contractQty)))
    ensures SpotHolding(venue, HedgeStep(cfg, venue, connected, now, w, symbol, rate).orders, symbol)
            == SpotHolding(venue, w.orders, symbol) + Plan(cfg, venue, w.orders, symbol, rate).value.0
  {
    var (spotQty, contractQty) := Plan(cfg, venue, w.orders, symbol, rate).value;
    var buy := Order(Spot, symbol, "Buy", spotQty);
    var sell := Order(Linear, symbol, "Sell", contractQty);
    SpotHoldingSnoc(venue, w.orders, buy, symbol);
    SpotHoldingSnoc(venue, w.orders + [buy], sell, symbol);
  }

  /** The rows a pass may add: active "BYBIT" rows for symbols of the list, at the configured leverage. */
  ghost predicate HedgeRows(cfg: TradingConfig, rates: seq<(string, real)>, rows: seq<Storage.GroupRow>)
  {
    forall i :: 0 <= i < |rows| ==>
      rows[i].exchangeId == "BYBIT" && rows[i].active && rows[i].leverage == cfg.defaultLeverage
      && exists j :: 0 <= j < |rates| && rates[j].0 == rows[i].symbol
  }

  /**
   * A pass only appends: earlier orders and rows stay in place, at most one row is added per
   * symbol, each added row is a hedge row, and nothing is stored when the store is disconnected.
   */
  lemma {:induction false} HedgePassAppends(cfg: TradingConfig, venue: Venue, connected: bool, now: int,
                                            w: World, rates: seq<(string, real)>)
    requires cfg.topPairsCount != 0
    ensures var after := HedgePass(cfg, venue, connected, now, w, rates);
      |after.orders| >= |w.orders| && after.orders[..|w.orders|] == w.orders
      && |w.groups| <= |after.groups| <= |w.groups| + |rates|
      && after.groups[..|w.groups|] == w.groups
      && HedgeRows(cfg, rates, after.groups[|w.groups|..])
      && (!connected ==> after.groups == w.groups)
    decreases |rates|
  {
    if |rates| > 0 {
      var init := rates[..|rates| - 1];
      var (symbol, rate) := rates[|rates| - 1];
      HedgePassAppends(cfg, venue, connected, now, w, init);
      var mid := HedgePass(cfg, venue, connected, now, w, init);
      var after := HedgeStep(cfg, venue, connected, now, mid, symbol, rate);
      assert after == HedgePass(cfg, venue, connected, now, w, rates);
      StepAppends(cfg, venue, connected, now, mid, symbol, rate);
      assert after.orders[..|w.orders|] == mid.orders[..|w.orders|];
      assert after.groups[..|w.groups|] == mid.groups[..|w.groups|];
      var added := after.groups[|w.groups|..];
      forall i | 0 <= i < |added|
        ensures added[i].exchangeId == "BYBIT" && added[i].active && added[i].leverage == cfg.defaultLeverage
        ensures exists j :: 0 <= j < |rates| && rates[j].0 == added[i].symbol
      {
        if i < |mid.groups| - |w.groups| {
          assert added[i] == mid.groups[|w.groups|..][i];
          var j :| 0 <= j < |init| && init[j].0 == added[i].symbol;
          assert rates[j] == init[j];
        } else {
          assert added[i] == after.groups[|mid.groups|];
          assert rates[|rates| - 1].0 == added[i].symbol;
        }
      }
    }
  }

  /** One step appends: its orders and rows extend the old ones, by at most one row for the symbol. */
  lemma StepAppends(cfg: TradingConfig, venue: Venue, connected: bool, now: int, w: World,
                    symbol: string, rate: real)
    requires cfg.topPairsCount != 0
    ensures var after := HedgeStep(cfg, venue, connected, now, w, symbol, rate);
      |after.orders| >= |w.orders| && after.orders[..|w.orders|] == w.orders
      && |w.groups| <= |after.groups| <= |w.groups| + 1
      && after.groups[..|w.groups|] == w.groups
      && (|after.groups| > |w.groups| ==>
            var row := after.groups[|w.groups|];
            connected && row.exchangeId == "BYBIT" && row.symbol == symbol && row.active
            && row.leverage == cfg.defaultLeverage && row.spotOrderId == SpotOrderId(now))
  {
    var after := HedgeStep(cfg, venue, connected, now, w, symbol, rate);
    if Plan(cfg, venue, w.orders, symbol, rate).Some? {
      var (spotQty, contractQty) := Plan(cfg, venue, w.orders, symbol, rate).value;
      var buy := Order(Spot, symbol, "Buy", spotQty);
      var sell := Order(Linear, symbol, "Sell", contractQty);
      var o1 := w.orders + [buy];
      var o2 := o1 + [sell];
      var tail := after.orders[|o2|..];
      assert after.orders == o2 + tail;
      assert after.orders[..|w.orders|] == w.orders;
    }
    assert after.groups[..|w.groups|] == w.groups;
  }

  // ---------------------------------------------------------------- the contract-reply finding

  /**
   * As written, a contract order that got no reply at all counts as filled: with an accepted
   * spot leg the hedge is stored, under an empty futures order id, and nothing is reversed.
   */
  lemma NullContractReplyStoredAsWritten(cfg: TradingConfig, venue: Venue, now: int, w: World,
                                         symbol: string, rate: real)
    requires cfg.topPairsCount != 0
    requires Plan(cfg, venue, w.orders, symbol, rate).Some?
    requires var (spotQty, contractQty) := Plan(cfg, venue, w.orders, symbol, rate).value;
      var buy := Order(Spot, symbol, "Buy", spotQty);
      Accepted(venue.answer(w.orders, buy)) && venue.answer(w.orders + [buy], Order(Linear, symbol, "Sell", contractQty)).NoReply?
    ensures HedgeStepUsing(ContractOkAsWritten, cfg, venue, true, now, w, symbol, rate).groups
            == w.groups + [Storage.NewGroup("BYBIT", symbol, SpotOrderId(now), "", cfg.defaultLeverage)]
    ensures var (spotQty, contractQty) := Plan(cfg, venue, w.orders, symbol, rate).value;
      HedgeStepUsing(ContractOkAsWritten, cfg, venue, true, now, w, symbol, rate).orders
      == w.orders + [Order(Spot, symbol, "Buy", spotQty), Order(Linear, symbol, "Sell", contractQty)]
    ensures HedgeStep(cfg, venue, true, now, w, symbol, rate).groups == w.groups
    ensures var spotQty := Plan(cfg, venue, w.orders, symbol, rate).value.0;
      Order(Spot, symbol, "Sell", spotQty) in HedgeStep(cfg, venue, true, now, w, symbol, rate).orders
  {
    var (spotQty, contractQty) := Plan(cfg, venue, w.orders, symbol, rate).value;
    var buy := Order(Spot, symbol, "Buy", spotQty);
    var sell := Order(Linear, symbol, "Sell", contractQty);
    var o3 := w.orders + [buy] + [sell] + [Order(Spot, symbol, "Sell", spotQty)];
    assert HedgeStep(cfg, venue, true, now, w, symbol, rate).orders == o3;
    assert o3[|o3| - 1] == Order(Spot, symbol, "Sell", spotQty);
  }

  /** A concrete venue for the finding: orders accepted on spot, no reply on the linear market. */
  function SilentContractVenue(): Venue
  {
    Venue(
      (orders: seq<Order>) => 10000.0,
      (orders: seq<Order>, symbol: string) => 100.0,
      (orders: seq<Order>, symbol: string) => Object(0, Some([])),
      (orders: seq<Order>, o: Order) => if o.market == Spot then Answer(0, "S1") else NoReply)
  }

  function SampleConfig(): TradingConfig
  {
    TradingConfig(1000.0, 10, false, 0.0, 0.2, 0.001, 10.0, 0.8, 3)
  }

  /** On that venue, hedging "BTCUSDT" as written stores a group whose contract was never answered. */
  lemma NullContractReplyExample()
    ensures HedgeStepUsing(ContractOkAsWritten, SampleConfig(), SilentContractVenue(), true, 0, World([], []), "BTCUSDT", 0.001).groups
            == [Storage.NewGroup("BYBIT", "BTCUSDT", SpotOrderId(0), "", 3)]
    ensures HedgeStep(SampleConfig(), SilentContractVenue(), true, 0, World([], []), "BTCUSDT", 0.001).groups == []
  {
    var cfg, venue := SampleConfig(), SilentContractVenue();
    assert !LowEquity(cfg, 10000.0);
    assert Scaled(cfg, 0.001) == 100.0;
    assert PositionSize(cfg, 10000.0, 0.001, 100.0) == 100.0;
    assert Plan(cfg, venue, [], "BTCUSDT", 0.001) == Some((1.0, 3.0));
    NullContractReplyStoredAsWritten(cfg, venue, 0, World([], []), "BTCUSDT", 0.001);
  }

  // ---------------------------------------------------------------- closeTradeGroup

  /** The orders `closeTradeGroup(group)` sends: a close of the second `:`-separated part, if any. */
  function GroupCloseOrders(venue: Venue, orders: seq<Order>, group: string): seq<Order>
  {
    var parts := Split(group, ':');
    if |parts| >= 2 then CloseOrders(venue, orders, parts[1]) else []
  }

  /** A group text without a colon names no symbol and closes nothing. */
  lemma GroupWithoutColonClosesNothing(venue: Venue, orders: seq<Order>, group: string)
    requires ':' !in group
    ensures GroupCloseOrders(venue, orders, group) == []
  {
    SplitWithoutDelimiter(group, ':');
  }

  /** Closing a stored group's text closes exactly the symbol the group was stored for. */
  lemma StoredGroupClosesItsSymbol(venue: Venue, orders: seq<Order>, r: Storage.GroupRow)
    requires ':' !in r.exchangeId && ':' !in r.symbol
    ensures GroupCloseOrders(venue, orders, Storage.FormatGroup(r)) == CloseOrders(venue, orders, r.symbol)
  {
    Storage.FormatGroupSplit(r);
  }

  // ---------------------------------------------------------------- the module

  class TradingModule {
    const exchange: Exchange
    const storage: Storage.SqliteStorage
    const config: TradingConfig

    constructor (exchange: Exchange, storage: Storage.SqliteStorage, config: TradingConfig)
      ensures this.exchange == exchange && this.storage == storage && this.config == config
    {
      this.exchange := exchange;
      this.storage := storage;
      this.config := config;
    }

    /** `calculatePositionSize`: equity and spot price are read from the exchange as it is now. */
    method CalculatePositionSize(symbol: string, rate: real) returns (size: real)
      requires config.topPairsCount != 0
      ensures size == PositionSize(config, exchange.venue.equity(exchange.orders), rate,
                                   exchange.venue.spotPrice(exchange.orders, symbol))
    {
      var totalInvestment := config.totalInvestment;
      var availableEquity := exchange.GetTotalEquity();
      if availableEquity <= 0.0 || availableEquity < totalInvestment * 0.1 {
        return 0.0;
      }
      var basePosition := totalInvestment / config.topPairsCount as real;
      var adjustedPosition := basePosition;
      if config.positionScaling {
        adjustedPosition := basePosition * (1.0 + Abs(rate) * config.scalingFactor);
      }
      assert adjustedPosition == Scaled(config, rate);
      adjustedPosition := MinReal(adjustedPosition, totalInvestment * config.maxSinglePositionRisk);
      ghost var capped := adjustedPosition;
      assert capped == MinReal(Scaled(config, rate), RiskCap(config));
      var price := exchange.GetSpotPrice(symbol);
      var lo := config.minPositionSize * price;
      assert lo == MinSize(config, price);
      adjustedPosition := MaxReal(adjustedPosition, lo);
      price := exchange.GetSpotPrice(symbol);
      var hi := config.maxPositionSize * price;
      assert hi == MaxSize(config, price);
      adjustedPosition := MinReal(adjustedPosition, hi);
      size := adjustedPosition;
      assert size == Clamp(capped, lo, hi);
    }

    /** `checkTotalPositionLimit`: add up every position's value and compare with the allowance. */
    method CheckTotalPositionLimit() returns (ok: bool)
      ensures ok <==> WithinLimit(config, exchange.venue.positions(exchange.orders, ""))
    {
      var positions := exchange.GetPositions("");
      var totalPositionValue := 0.0;
      if ListReturned(positions) {
        var list := positions.list.value;
        var i := 0;
        while i < |list|
          invariant 0 <= i <= |list|
          invariant totalPositionValue == TotalValue(list[..i])
        {
          assert list[..i + 1][..i] == list[..i];
          totalPositionValue := totalPositionValue + list[i].positionValue;
          i := i + 1;
        }
        assert list[..i] == list;
      }
      ok := totalPositionValue < config.totalInvestment * config.maxTotalPosition;
    }

    /** `closeTradeGroup`: split the group text on `:` and close the symbol in second place. */
    method CloseTradeGroup(group: string)
      modifies exchange
      ensures exchange.orders == old(exchange.orders) + GroupCloseOrders(exchange.venue, old(exchange.orders), group)
    {
      var parts := Split(group, ':');
      if |parts| >= 2 {
        var symbol := parts[1];
        exchange.ClosePosition(symbol);
      }
    }

    /** The body of the loop of `executeHedgeStrategy` for one symbol. */
    method HedgeOne(symbol: string, rate: real, now: int)
      requires config.topPairsCount != 0 && storage.Valid()
      modifies exchange, storage
      ensures storage.Valid()
      ensures World(exchange.orders, storage.tradeGroups)
              == HedgeStep(config, exchange.venue, storage.connected, now,
                           World(old(exchange.orders), old(storage.tradeGroups)), symbol, rate)
      ensures storage.trades == old(storage.trades)
      ensures storage.connected == old(storage.connected) && storage.hasHandle == old(storage.hasHandle)
    {
      var positionSize := CalculatePositionSize(symbol, rate);
      if positionSize <= 0.0 {
        return;
      }
      var spotPrice := exchange.GetSpotPrice(symbol);
      if spotPrice <= 0.0 {
        return;
      }
      var leverage := config.defaultLeverage;
      var spotQty := positionSize / spotPrice;
      var contractQty := spotQty * leverage as real;
      ghost var w := World(exchange.orders, storage.tradeGroups);
      assert positionSize == PositionSize(config, exchange.venue.equity(w.orders), rate, exchange.venue.spotPrice(w.orders, symbol));
      assert spotPrice == exchange.venue.spotPrice(w.orders, symbol);
      assert Plan(config, exchange.venue, w.orders, symbol, rate).Some?;
      assert Plan(config, exchange.venue, w.orders, symbol, rate).value.0 == spotQty;
      assert Plan(config, exchange.venue, w.orders, symbol, rate).value.1 == contractQty;
      assert Plan(config, exchange.venue, w.orders, symbol, rate) == Some((spotQty, contractQty));
      var spotOrderSuccess := exchange.CreateSpotOrder(symbol, "Buy", spotQty);
      ghost var o1 := exchange.orders;
      var contractOrder := exchange.CreateOrder(symbol, "Sell", contractQty);
      ghost var o2 := exchange.orders;
      assert contractOrder == exchange.venue.answer(o1, Order(Linear, symbol, "Sell", contractQty));
      var contractOrderSuccess := ContractOk(contractOrder);
      if spotOrderSuccess && contractOrderSuccess {
        var spotOrderId := SpotOrderId(now);
        var futuresOrderId := FuturesOrderId(contractOrder);
        storage.StoreTradeGroup("BYBIT", symbol, spotOrderId, futuresOrderId, leverage);
      } else {
        if spotOrderSuccess {
          var _ := exchange.CreateSpotOrder(symbol, "Sell", spotQty);
        }
        assert exchange.orders == if spotOrderSuccess then o2 + [Order(Spot, symbol, "Sell", spotQty)] else o2;
        if contractOrderSuccess {
          exchange.ClosePosition(symbol);
        }
      }
    }

    /**
     * `executeHedgeStrategy(topRates)`: nothing when over the total-position limit; otherwise
     * one hedge attempt per listed symbol, in order. `now` stands for the clock reading.
     */
    method ExecuteHedgeStrategy(topRates: seq<(string, real)>, now: int)
      requires config.topPairsCount != 0 && storage.Valid()
      modifies exchange, storage
      ensures storage.Valid()
      ensures World(exchange.orders, storage.tradeGroups)
              == Execute(config, exchange.venue, storage.connected, now,
                         World(old(exchange.orders), old(storage.tradeGroups)), topRates)
      ensures storage.trades == old(storage.trades) && storage.connected == old(storage.connected)
      ensures !WithinLimit(config, exchange.venue.positions(old(exchange.orders), "")) ==>
                exchange.orders == old(exchange.orders) && storage.tradeGroups == old(storage.tradeGroups)
    {
      ghost var start := World(exchange.orders, storage.tradeGroups);
      ghost var venue := exchange.venue;
      ghost var connected := storage.connected;
      var withinLimit := CheckTotalPositionLimit();
      if !withinLimit {
        return;
      }
      var k := 0;
      while k < |topRates|
        invariant 0 <= k <= |topRates|
        invariant storage.Valid()
        invariant World(exchange.orders, storage.tradeGroups) == HedgePass(config, venue, connected, now, start, topRates[..k])
        invariant storage.trades == old(storage.trades)
        invariant storage.connected == connected && storage.hasHandle == old(storage.hasHandle)
      {
        var (symbol, rate) := topRates[k];
        HedgePassStep(config, venue, connected, now, start, topRates, k);
        HedgeOne(symbol, rate, now);
        k := k + 1;
      }
      assert topRates[..k] == topRates;
    }
  }
}
