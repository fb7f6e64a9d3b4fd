/** The sizing rules and trade predicates every strategy shares: how many
    pieces to buy or sell, whether a trade is worth making, and the order
    dict handed to the broker.
 */
module StrategyBase {
  import opened Wrappers
  import opened PyMath
  import opened StockSchema
  import opened BrokerBase
  import opened DemoBroker

  /** The tunable percentages and thresholds of a strategy. */
  datatype Settings = Settings(
    orderType: OrderType,
    sellPercentage: real,
    buyPercentage: real,
    thresholdProfit: real,
    thresholdCommissionPriceRatio: real,
    buyUnderValueLimitPercentage: real,
    sellOverValueLimitPercentage: real)

  /** The values a strategy starts from when no arguments override them. */
  const DEFAULT_SETTINGS: Settings := Settings(Market, 1.0, 1.0, 0.2, 0.005, 0.01, 0.005)

  /** calculate_buy_amount: the whole number of pieces the buy share of the
      cash pays for at the price, cut toward zero by int(). */
  function CalculateBuyAmount(cash: real, buyPercentage: real, lastPrice: real): (r: Result<int>)
    ensures r.Err? <==> lastPrice == 0.0
    ensures r.Err? ==> r.error == ZeroDivisionError
    ensures r.Ok? ==> r.value == Trunc(cash * buyPercentage / lastPrice)
  {
    if lastPrice == 0.0 then Err(ZeroDivisionError)
    else Ok(Trunc(cash * buyPercentage / lastPrice))
  }

  /** With non-negative money and a positive price, the amount is the
      largest number of pieces the budget covers. */
  lemma BuyAmountAffordable(cash: real, buyPercentage: real, lastPrice: real)
    requires cash >= 0.0 && buyPercentage >= 0.0 && lastPrice > 0.0
    ensures var n := CalculateBuyAmount(cash, buyPercentage, lastPrice).value;
            n >= 0 && n as real * lastPrice <= cash * buyPercentage < (n + 1) as real * lastPrice
  {
    var budget := cash * buyPercentage;
    var q := budget / lastPrice;
    assert budget >= 0.0;
    assert q >= 0.0;
    TruncBounds(q);
    var n := Trunc(q);
    assert q * lastPrice == budget;
    assert n == CalculateBuyAmount(cash, buyPercentage, lastPrice).value;
    MulMono(n as real, q, lastPrice);
    assert q < (n + 1) as real;
    MulStrict(q, (n + 1) as real, lastPrice);
    assert budget < (n + 1) as real * lastPrice;
  }

  lemma MulMono(a: real, b: real, c: real)
    requires a <= b && c >= 0.0
    ensures a * c <= b * c
  {
    assert b * c - a * c == (b - a) * c;
  }

  lemma MulStrict(a: real, b: real, c: real)
    requires a < b && c > 0.0
    ensures a * c < b * c
  {
    assert b * c - a * c == (b - a) * c;
  }

  /** A lower price never buys fewer pieces. */
  lemma BuyAmountMonotone(cash: real, buyPercentage: real, p1: real, p2: real)
    requires cash >= 0.0 && buyPercentage >= 0.0 && 0.0 < p1 <= p2
    ensures CalculateBuyAmount(cash, buyPercentage, p1).value >= CalculateBuyAmount(cash, buyPercentage, p2).value
  {
    var budget := cash * buyPercentage;
    assert budget >= 0.0;
    var q1, q2 := budget / p1, budget / p2;
    assert q2 * p2 == budget == q1 * p1;
    assert q2 * p1 <= q2 * p2;
    assert q2 <= q1;
    TruncBounds(q1);
    TruncBounds(q2);
  }

  /** Whether a portfolio entry belongs to the stock and the signal. */
  predicate ItemMatches(it: Item, stockId: int, signalId: int)
  {
    it.stockId == stockId && it.signalId == signalId
  }

  /** Entry k is the first entry for the stock and signal. */
  predicate FirstMatchAt(items: seq<Item>, stockId: int, signalId: int, k: int)
  {
    0 <= k < |items| && ItemMatches(items[k], stockId, signalId)
    && forall j :: 0 <= j < k ==> !ItemMatches(items[j], stockId, signalId)
  }

  /** The index of the first entry for the stock and signal. */
  function FirstItem(items: seq<Item>, stockId: int, signalId: int): (r: Option<nat>)
    ensures r.None? <==> forall k :: 0 <= k < |items| ==> !ItemMatches(items[k], stockId, signalId)
    ensures r.Some? ==> r.value < |items| && ItemMatches(items[r.value], stockId, signalId)
                        && forall j :: 0 <= j < r.value ==> !ItemMatches(items[j], stockId, signalId)
    decreases |items|
  {
    if |items| == 0 then None
    else if ItemMatches(items[0], stockId, signalId) then Some(0)
    else
      var r := FirstItem(items[1..], stockId, signalId);
      assert forall k :: 1 <= k < |items| ==> items[k] == items[1..][k - 1];
      if r.Some? then Some(r.value + 1) else None
  }

  /** calculate_sell_amount: the sell share of the size of the first
      portfolio entry for the stock and signal, rounded up; 0 without one. */
  function CalculateSellAmount(items: seq<Item>, stockId: int, signalId: int, sellPercentage: real): (r: int)
    ensures (forall k :: 0 <= k < |items| ==> !ItemMatches(items[k], stockId, signalId)) ==> r == 0
    ensures forall k :: FirstMatchAt(items, stockId, signalId, k) ==> r == Ceil(items[k].size as real * sellPercentage)
  {
    match FirstItem(items, stockId, signalId)
    case None => 0
    case Some(k) => Ceil(items[k].size as real * sellPercentage)
  }

  /** Selling the whole position (the default share 1.0) sells its size. */
  lemma SellAllSellsSize(items: seq<Item>, stockId: int, signalId: int, k: int)
    requires 0 <= k < |items| && ItemMatches(items[k], stockId, signalId)
    requires forall j :: 0 <= j < k ==> !ItemMatches(items[j], stockId, signalId)
    ensures CalculateSellAmount(items, stockId, signalId, DEFAULT_SETTINGS.sellPercentage) == items[k].size
  {
    assert items[k].size as real * 1.0 == items[k].size as real;
  }

  /** is_sell_possible: at least one piece. */
  function IsSellPossible(amount: int): (r: bool)
    ensures r <==> amount >= 1
  {
    !(1 > amount)
  }

  /** A sell of the amount computed for a held position is possible iff the
      rounded-up share is at least one piece; for a positive share of a
      positive size it always is. */
  lemma SellPossibleForHeld(size: int, sellPercentage: real)
    requires size > 0 && sellPercentage > 0.0
    ensures IsSellPossible(Ceil(size as real * sellPercentage))
  {
    assert size as real * sellPercentage > 0.0;
  }

  /** is_buy_possible: no position and no waiting buy in the stock, a
      non-zero amount, and a commission that is a small enough share of the
      order value.  The commission is whatever the strategy's broker charges
      (DemoBroker.Commission or DegiroCommission).  A zero order value with
      a non-zero amount (price 0) raises ZeroDivisionError. */
  function IsBuyPossible(orders: seq<Order>, stockId: int, amount: int, price: real, threshold: real,
                         commission: real -> real): (r: Result<bool>)
    ensures r.Err? <==> SizeSum(orders, stockId, Completed, -1) <= 0 && StockSizeNotComplete(orders, stockId) <= 0
                        && amount != 0 && amount as real * price == 0.0
    ensures r.Err? ==> r.error == ZeroDivisionError
    ensures r == Ok(true) <==>
      SizeSum(orders, stockId, Completed, -1) <= 0 && StockSizeNotComplete(orders, stockId) <= 0
      && amount != 0 && amount as real * price != 0.0
      && commission(amount as real * price) / (amount as real * price) <= threshold
  {
    if SizeSum(orders, stockId, Completed, -1) > 0 then Ok(false)
    else if StockSizeNotComplete(orders, stockId) > 0 then Ok(false)
    else if amount == 0 then Ok(false)
    else
      var gross := amount as real * price;
      if gross == 0.0 then Err(ZeroDivisionError)
      else Ok(!(commission(gross) / gross > threshold))
  }

  /** The Degiro client's commission: 2.0 plus 0.026 % of the order value. */
  function DegiroCommission(gross: real): real
  {
    2.0 + gross * 0.00026
  }

  /** The commission test depends on the broker: a 410.0 order of a stock
      with no position passes the default threshold at the demo broker and
      fails it at Degiro. */
  lemma BrokerDecidesSmallBuys()
    ensures IsBuyPossible([], 1, 1, 410.0, DEFAULT_SETTINGS.thresholdCommissionPriceRatio, Commission) == Ok(true)
    ensures IsBuyPossible([], 1, 1, 410.0, DEFAULT_SETTINGS.thresholdCommissionPriceRatio, DegiroCommission) == Ok(false)
  {
  }

  /** With the default threshold of 0.5 % the demo broker's fixed fee rules
      out small orders: a positive order value passes the commission test
      iff it is at least 2.0 / 0.00492 (about 406.50). */
  lemma DefaultCommissionFloor(gross: real)
    requires gross > 0.0
    ensures Commission(gross) / gross <= DEFAULT_SETTINGS.thresholdCommissionPriceRatio
            <==> gross * 0.00492 >= 2.0
  {
    DivAtMost(Commission(gross), gross, 0.005);
  }

  /** For a positive divisor, a quotient is at most k exactly when the
      dividend is at most k times the divisor. */
  lemma DivAtMost(c: real, g: real, k: real)
    requires g > 0.0
    ensures c / g <= k <==> c <= k * g
  {
    var x := c / g;
    assert x * g == c;
    if x > k {
      MulStrict(k, x, g);
      assert k * g < c;
    } else {
      assert (k - x) * g >= 0.0;
    }
  }

  /** get_order_data: a market order carries the price -1, a limit order
      the given price; other order types are not implemented. */
  function GetOrderData(orderType: OrderType, amount: int, signalId: int, price: real): (r: Result<OrderData>)
    ensures r.Ok? <==> orderType == Market || orderType == Limit
    ensures r.Err? ==> r.error == NotImplementedError
    ensures r.Ok? ==> r.value.size == amount && r.value.signalId == signalId && r.value.orderType == orderType
    ensures orderType == Market ==> r.value.price == Some(-1.0)
    ensures orderType == Limit ==> r.value.price == Some(price)
  {
    if orderType == Market then Ok(OrderData(amount, Some(-1.0), Market, signalId))
    else if orderType == Limit then Ok(OrderData(amount, Some(price), Limit, signalId))
    else Err(NotImplementedError)
  }

  /** The order data is what the broker books: a limit order at the market
      marker price -1 is one the broker refuses, a limit order at any other
      price keeps it as its limit. */
  lemma OrderDataMeetsBroker(amount: int, signalId: int, price: real, stockId: int, isSell: bool, cash: real, env: Env)
    ensures price == -1.0 ==> DoLimit(stockId, GetOrderData(Limit, amount, signalId, price).value, isSell, cash, env)
                              == Err(RuntimeError)
    ensures price != -1.0 && DoLimit(stockId, GetOrderData(Limit, amount, signalId, price).value, isSell, cash, env).Ok?
            ==> DoLimit(stockId, GetOrderData(Limit, amount, signalId, price).value, isSell, cash, env).value.price == price
  {
  }

  /** The limit a sell order asks: the last price raised by the over-value
      percentage. */
  function SellLimitPrice(price: real, overPercentage: real): real
  {
    price + price * overPercentage
  }

  /** The limit a buy order bids: the last price lowered by the under-value
      percentage. */
  function BuyLimitPrice(price: real, underPercentage: real): real
  {
    price - price * underPercentage
  }

  /** A sell asks more than the last price and a buy bids less, both as
      the given share of it, for positive prices and shares below one. */
  lemma LimitPricesBracketMarket(price: real, under: real, over: real)
    requires price > 0.0 && 0.0 < under < 1.0 && over > 0.0
    ensures 0.0 < BuyLimitPrice(price, under) < price < SellLimitPrice(price, over)
  {
    MulStrict(0.0, under, price);
    MulStrict(under, 1.0, price);
    MulStrict(0.0, over, price);
    assert 0.0 * price == 0.0 && 1.0 * price == price;
  }

  /** Whether a sell signal has a position share worth one piece: the first
      entry for the stock and signal exists and the sell percentage of its
      size is positive, so rounding it up gives at least one piece. */
  predicate HasSellableShare(items: seq<Item>, stockId: int, signalId: int, sellPercentage: real)
  {
    var k := FirstItem(items, stockId, signalId);
    k.Some? && items[k.value].size as real * sellPercentage > 0.0
  }

  /** The computed sell amount is tradeable exactly when the signal has a
      sellable share. */
  lemma SellPossibleIffShare(items: seq<Item>, stockId: int, signalId: int, sellPercentage: real)
    ensures IsSellPossible(CalculateSellAmount(items, stockId, signalId, sellPercentage))
            <==> HasSellableShare(items, stockId, signalId, sellPercentage)
  {
    match FirstItem(items, stockId, signalId)
    case None =>
    case Some(k) => CeilAtLeastOne(items[k].size as real * sellPercentage);
  }

  /** Rounding up gives at least one piece exactly for a positive share. */
  lemma CeilAtLeastOne(x: real)
    ensures IsSellPossible(Ceil(x)) <==> x > 0.0
  {
  }

  /** The order a strategy's sell loop sends for one sell signal, or None
      when the amount is not tradeable.  The size is the sell percentage of
      the first matching entry rounded up; a limit sell asks the last price
      raised by the over-value percentage, a market sell carries -1. */
  function SellOrder(s: Settings, items: seq<Item>, stockId: int, signalId: int, lastPrice: real): (r: Result<Option<OrderData>>)
    ensures r == Ok(None) <==> !HasSellableShare(items, stockId, signalId, s.sellPercentage)
    ensures r.Err? <==> HasSellableShare(items, stockId, signalId, s.sellPercentage)
                        && s.orderType != Market && s.orderType != Limit
    ensures r.Err? ==> r.error == NotImplementedError
    ensures r.Ok? && r.value.Some? ==>
      var d := r.value.value;
      d.signalId == signalId && d.orderType == s.orderType
      && (s.orderType == Market ==> d.price == Some(-1.0))
      && (s.orderType == Limit ==> d.price == Some(SellLimitPrice(lastPrice, s.sellOverValueLimitPercentage)))
  {
    SellPossibleIffShare(items, stockId, signalId, s.sellPercentage);
    var amount := CalculateSellAmount(items, stockId, signalId, s.sellPercentage);
    if !IsSellPossible(amount) then Ok(None)
    else
      var limit := if s.orderType == Limit then SellLimitPrice(lastPrice, s.sellOverValueLimitPercentage) else -1.0;
      var d :- GetOrderData(s.orderType, amount, signalId, limit);
      Ok(Some(d))
  }

  /** The sell amount of a signal with an entry is its first entry's share
      rounded up to whole pieces. */
  lemma SellAmountOfFirst(items: seq<Item>, stockId: int, signalId: int, sellPercentage: real)
    requires FirstItem(items, stockId, signalId).Some?
    ensures var k := FirstItem(items, stockId, signalId).value;
            var n := CalculateSellAmount(items, stockId, signalId, sellPercentage);
            n as real - 1.0 < items[k].size as real * sellPercentage <= n as real
  {
    var k := FirstItem(items, stockId, signalId).value;
    assert ItemMatches(items[k], stockId, signalId);
  }

  /** A sell order's size is the sell percentage of the first matching
      entry's size rounded up to whole pieces, and at least one piece. */
  lemma SellOrderSize(s: Settings, items: seq<Item>, stockId: int, signalId: int, lastPrice: real)
    requires SellOrder(s, items, stockId, signalId, lastPrice).Ok?
    requires SellOrder(s, items, stockId, signalId, lastPrice).value.Some?
    ensures var d := SellOrder(s, items, stockId, signalId, lastPrice).value.value;
      FirstItem(items, stockId, signalId).Some?
      && var k := FirstItem(items, stockId, signalId).value;
      d.size as real - 1.0 < items[k].size as real * s.sellPercentage <= d.size as real
      && d.size >= 1
  {
    var amount := CalculateSellAmount(items, stockId, signalId, s.sellPercentage);
    SellAmountOfFirst(items, stockId, signalId, s.sellPercentage);
    assert IsSellPossible(amount);
    assert SellOrder(s, items, stockId, signalId, lastPrice).value.value.size == amount;
  }

  /** The order a strategy's buy loop sends for one buy signal, or None when
      the buy is not possible.  A limit buy bids under the last price and
      recomputes the amount at that bid.  The commission is the one the
      strategy's broker charges. */
  function BuyOrder(s: Settings, commission: real -> real, orders: seq<Order>, cash: real, stockId: int, signalId: int, price: real): (r: Result<Option<OrderData>>)
    ensures r.Ok? && r.value.Some? ==>
      var d := r.value.value;
      price != 0.0
      && IsBuyPossible(orders, stockId, CalculateBuyAmount(cash, s.buyPercentage, price).value, price,
                    s.thresholdCommissionPriceRatio, commission) == Ok(true)
      && d.orderType == s.orderType && d.signalId == signalId
      && (s.orderType == Market ==> d.size == CalculateBuyAmount(cash, s.buyPercentage, price).value && d.price == Some(-1.0))
      && (s.orderType == Limit ==>
            BuyLimitPrice(price, s.buyUnderValueLimitPercentage) != 0.0
            && d.price == Some(BuyLimitPrice(price, s.buyUnderValueLimitPercentage))
            && d.size == CalculateBuyAmount(cash, s.buyPercentage, BuyLimitPrice(price, s.buyUnderValueLimitPercentage)).value)
    ensures price == 0.0 ==> r == Err(ZeroDivisionError)
    ensures price != 0.0 ==>
      var possible := IsBuyPossible(orders, stockId, CalculateBuyAmount(cash, s.buyPercentage, price).value, price,
                                    s.thresholdCommissionPriceRatio, commission);
      (r == Ok(None) <==> possible == Ok(false))
      && (possible.Err? ==> r == Err(ZeroDivisionError))
      && (possible == Ok(true) ==>
            (s.orderType == Market ==> r.Ok? && r.value.Some?)
            && (s.orderType == Limit ==>
                  (r == Err(ZeroDivisionError) <==> BuyLimitPrice(price, s.buyUnderValueLimitPercentage) == 0.0)
                  && (r.Ok? <==> BuyLimitPrice(price, s.buyUnderValueLimitPercentage) != 0.0))
            && (s.orderType != Market && s.orderType != Limit ==> r == Err(NotImplementedError)))
  {
    var amount :- CalculateBuyAmount(cash, s.buyPercentage, price);
    var possible :- IsBuyPossible(orders, stockId, amount, price, s.thresholdCommissionPriceRatio, commission);
    if !possible then Ok(None)
    else if s.orderType == Limit then
      var limit := BuyLimitPrice(price, s.buyUnderValueLimitPercentage);
      var n :- CalculateBuyAmount(cash, s.buyPercentage, limit);
      var d := GetOrderData(Limit, n, signalId, limit).value;
      Ok(Some(d))
    else
      var d :- GetOrderData(s.orderType, amount, signalId, -1.0);
      Ok(Some(d))
  }

  /** A limit buy with a positive price and an under-value share below one
      bids below the market and never asks for fewer pieces than a market
      buy would. */
  lemma LimitBuyBuysAtLeastAsMany(cash: real, s: Settings, price: real)
    requires cash >= 0.0 && s.buyPercentage >= 0.0 && price > 0.0
    requires 0.0 < s.buyUnderValueLimitPercentage < 1.0
    ensures var limit := BuyLimitPrice(price, s.buyUnderValueLimitPercentage);
            limit < price
            && CalculateBuyAmount(cash, s.buyPercentage, limit).value >= CalculateBuyAmount(cash, s.buyPercentage, price).value
  {
    var limit := BuyLimitPrice(price, s.buyUnderValueLimitPercentage);
    LimitPricesBracketMarket(price, s.buyUnderValueLimitPercentage, 1.0);
    BuyAmountMonotone(cash, s.buyPercentage, limit, price);
  }
}
