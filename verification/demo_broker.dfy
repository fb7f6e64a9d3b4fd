/** The demo broker: a simulated broker that books orders into a portfolio
    held in the database.  Market orders complete at once at the last known
    price; limit orders wait until a later daily high reaches their price,
    or expire.

    Clock readings, the last price of a stock, the order id the database
    assigns and the "first bar that reaches the limit" query are inputs.
 */
module DemoBroker {
  import opened Wrappers
  import opened StockSchema
  import opened BrokerBase

  /** The fixed part of the commission. */
  const FIXED_FEE: real := 2.0
  /** The commission share of the gross order value. */
  const FEE_RATE: real := 0.00008
  /** How long a limit order waits before it expires, by default. */
  const DEFAULT_EXPIRE_IN_HOURS: int := 20
  const SECONDS_PER_HOUR: int := 3600

  /** get_commission of a gross order value. */
  function Commission(gross: real): (r: real)
    ensures gross >= 0.0 ==> r >= FIXED_FEE
    ensures r - FIXED_FEE == gross * FEE_RATE
  {
    FIXED_FEE + gross * FEE_RATE
  }

  /** Unit price, the cash effect of the whole order, and its commission. */
  datatype Pricing = Pricing(price: real, priceComplete: real, commission: real)

  /** __calculate_price: a buy costs the gross value plus commission, a sell
      brings in the gross value minus commission. */
  function CalculatePrice(price: real, size: int, isSell: bool): (r: Pricing)
    ensures r.price == price && r.commission == Commission(price * size as real)
    ensures isSell ==> r.priceComplete + r.commission == price * size as real
    ensures !isSell ==> -r.priceComplete - r.commission == price * size as real
  {
    var gross := price * size as real;
    var commission := Commission(gross);
    Pricing(price, if isSell then gross - commission else -(gross + commission), commission)
  }

  /** Buying and selling the same size at the same price loses exactly the
      two commissions. */
  lemma RoundTripCostsCommissions(price: real, size: int)
    ensures CalculatePrice(price, size, false).priceComplete + CalculatePrice(price, size, true).priceComplete
            == -2.0 * Commission(price * size as real)
    ensures price >= 0.0 && size >= 0 ==>
            CalculatePrice(price, size, false).priceComplete + CalculatePrice(price, size, true).priceComplete <= -2.0 * FIXED_FEE
  {
    assert price >= 0.0 && size >= 0 ==> price * size as real >= 0.0;
  }

  /** The order dict: size, limit price (None when the key is missing),
      order type and signal. */
  datatype OrderData = OrderData(size: int, price: Option<real>, orderType: OrderType, signalId: int)

  /** What the broker reads from outside when it books an order. */
  datatype Env = Env(now: int, expireInHours: int, lastPrice: Option<real>, newId: int)

  /** A tradable stock: its id and the symbol of its exchange. */
  datatype StockRef = StockRef(id: int, exchange: string)

  /** __do_limit: a confirmed limit order expiring expire_in_hours from now.
      A missing price or the market marker -1 is refused, and so is a buy
      the cash cannot pay. */
  function DoLimit(stockId: int, d: OrderData, isSell: bool, cash: real, env: Env): (r: Result<Order>)
    ensures r.Ok? <==> d.price.Some? && d.price.value != -1.0
                       && (isSell || cash + CalculatePrice(d.price.value, d.size, false).priceComplete >= 0.0)
    ensures r.Err? ==> r.error == RuntimeError
    ensures r.Ok? ==> r.value.status == Confirmed && r.value.orderType == Limit
                      && r.value.size == (if isSell then -d.size else d.size)
                      && r.value.isSell == isSell && r.value.stockId == stockId
                      && r.value.price == d.price.value && r.value.date == env.now
                      && r.value.priceComplete == CalculatePrice(d.price.value, d.size, isSell).priceComplete
                      && r.value.expireDate == Some(env.now + env.expireInHours * SECONDS_PER_HOUR)
  {
    if d.price.None? || d.price.value == -1.0 then Err(RuntimeError)
    else
      var p := CalculatePrice(d.price.value, d.size, isSell);
      if !isSell && cash + p.priceComplete < 0.0 then Err(RuntimeError)
      else Ok(Order(env.newId, env.now, Confirmed, Limit, if isSell then -d.size else d.size,
                    p.price, p.commission, p.priceComplete, isSell, stockId, d.signalId, None,
                    Some(env.now + env.expireInHours * SECONDS_PER_HOUR)))
  }

  /** __do_market: a completed order at the last price.  No last price (or
      a zero one, which is falsy) is refused, and so is a buy the cash
      cannot pay. */
  function DoMarket(stockId: int, d: OrderData, isSell: bool, cash: real, env: Env): (r: Result<Order>)
    ensures r.Ok? <==> env.lastPrice.Some? && env.lastPrice.value != 0.0
                       && (isSell || cash + CalculatePrice(env.lastPrice.value, d.size, false).priceComplete >= 0.0)
    ensures r.Err? ==> r.error == RuntimeError
    ensures r.Ok? ==> r.value.status == Completed && r.value.orderType == Market
                      && r.value.size == (if isSell then -d.size else d.size)
                      && r.value.isSell == isSell && r.value.stockId == stockId
                      && r.value.price == env.lastPrice.value && r.value.date == env.now
                      && r.value.priceComplete == CalculatePrice(env.lastPrice.value, d.size, isSell).priceComplete
  {
    if env.lastPrice.None? || env.lastPrice.value == 0.0 then Err(RuntimeError)
    else
      var p := CalculatePrice(env.lastPrice.value, d.size, isSell);
      if !isSell && cash + p.priceComplete < 0.0 then Err(RuntimeError)
      else Ok(Order(env.newId, env.now, Completed, Market, if isSell then -d.size else d.size,
                    p.price, p.commission, p.priceComplete, isSell, stockId, d.signalId, None, None))
  }

  /** The order __order builds, before it is booked: the checks on the
      portfolio, the size, the stock and the order type come first. */
  function MakeOrder(p: Option<Portfolio>, stocks: seq<StockRef>, stockId: int, exchange: string,
                     d: OrderData, isSell: bool, env: Env): (r: Result<Order>)
    ensures r.Ok? ==> p.Some? && d.size >= 1 && StockRef(stockId, exchange) in stocks
                      && (d.orderType == Market || d.orderType == Limit)
    ensures p.None? || d.size < 1 || StockRef(stockId, exchange) !in stocks ==> r == Err(RuntimeError)
    ensures d.orderType != Market && d.orderType != Limit ==> r == Err(RuntimeError)
    ensures p.Some? && d.size >= 1 && StockRef(stockId, exchange) in stocks ==>
      r == (if d.orderType == Market then DoMarket(stockId, d, isSell, p.value.cash, env)
            else if d.orderType == Limit then DoLimit(stockId, d, isSell, p.value.cash, env)
            else Err(RuntimeError))
  {
    if p.None? then Err(RuntimeError)
    else if d.size < 1 then Err(RuntimeError)
    else if StockRef(stockId, exchange) !in stocks then Err(RuntimeError)
    else if d.orderType == Market then DoMarket(stockId, d, isSell, p.value.cash, env)
    else if d.orderType == Limit then DoLimit(stockId, d, isSell, p.value.cash, env)
    else Err(RuntimeError)
  }

  /** __order: book the order, pay or collect its price, and link a sell
      to the buy it closes. */
  method PlaceOrder(p: Option<Portfolio>, stocks: seq<StockRef>, stockId: int, exchange: string,
                    d: OrderData, isSell: bool, env: Env) returns (r: Result<Portfolio>)
    ensures r.Ok? <==> MakeOrder(p, stocks, stockId, exchange, d, isSell, env).Ok?
    ensures r.Err? ==> r.error == RuntimeError
    ensures r.Ok? ==>
      var o := MakeOrder(p, stocks, stockId, exchange, d, isSell, env).value;
      && r.value.cash == p.value.cash + o.priceComplete
      && |r.value.orders| == |p.value.orders| + 1
      && r.value.orders[|p.value.orders|] == o
      && (forall j :: 0 <= j < |p.value.orders| ==> r.value.orders[j] == p.value.orders[j].(parent := r.value.orders[j].parent))
      && (!isSell ==> r.value.cash >= 0.0)
  {
    var made := MakeOrder(p, stocks, stockId, exchange, d, isSell, env);
    if made.Err? {
      return Err(made.error);
    }
    var o := made.value;
    var orders := p.value.orders + [o];
    if o.isSell {
      var linked := ConnectRelatedOrder(orders, o);
      assert !Closes(o, o);
      orders := linked;
    }
    r := Ok(Portfolio(p.value.cash + o.priceComplete, orders));
  }

  /** Orders that agree except in their parent links count the same. */
  lemma {:induction false} SizeSumIgnoresParents(a: seq<Order>, b: seq<Order>, stockId: int, status: Status, isSell: int)
    requires |a| == |b|
    requires forall j :: 0 <= j < |a| ==> b[j] == a[j].(parent := b[j].parent)
    ensures SizeSum(a, stockId, status, isSell) == SizeSum(b, stockId, status, isSell)
    decreases |a|
  {
    if |a| > 0 {
      SizeSumIgnoresParents(a[..|a| - 1], b[..|b| - 1], stockId, status, isSell);
    }
  }

  /** What a stock's holding can still cover: pieces held minus pieces
      already offered in waiting sell orders (whose sizes are negative). */
  function Uncommitted(orders: seq<Order>, stockId: int): int
  {
    SizeSum(orders, stockId, Completed, -1) + StockSizeInSell(orders, stockId)
  }

  /** sell: refuse to sell more than is held, or more than is held and not
      yet offered by a waiting sell, then book the order.  An accepted sell
      keeps the uncommitted holding non-negative. */
  method Sell(p: Option<Portfolio>, stocks: seq<StockRef>, stockId: int, exchange: string,
              d: OrderData, env: Env) returns (r: Result<Portfolio>)
    ensures p.None? ==> r == Err(AttributeError)
    ensures p.Some? && SizeSum(p.value.orders, stockId, Completed, -1) < d.size ==> r == Err(RuntimeError)
    ensures p.Some? && Uncommitted(p.value.orders, stockId) < d.size ==> r == Err(RuntimeError)
    ensures r.Ok? ==> p.Some? && d.size <= SizeSum(p.value.orders, stockId, Completed, -1)
                      && d.size <= Uncommitted(p.value.orders, stockId)
                      && MakeOrder(p, stocks, stockId, exchange, d, true, env).Ok?
    ensures r.Ok? && Uncommitted(p.value.orders, stockId) >= 0 ==> Uncommitted(r.value.orders, stockId) >= 0
  {
    if p.None? {
      return Err(AttributeError);
    }
    var available := GetStockSize(p.value.orders, stockId, Completed, -1);
    if available < d.size {
      return Err(RuntimeError);
    }
    var inSell := GetStockSize(p.value.orders, stockId, Confirmed, 1);
    if available + inSell < d.size {
      return Err(RuntimeError);
    }
    r := PlaceOrder(p, stocks, stockId, exchange, d, true, env);
    if r.Ok? {
      var o := MakeOrder(p, stocks, stockId, exchange, d, true, env).value;
      var before := p.value.orders;
      var after := r.value.orders;
      SizeSumIgnoresParents(before + [o], after, stockId, Completed, -1);
      SizeSumIgnoresParents(before + [o], after, stockId, Confirmed, 1);
      assert (before + [o])[..|before|] == before;
      assert o.size == -d.size;
    }
  }

  /** buy: book the order; an accepted buy leaves the cash non-negative. */
  method Buy(p: Option<Portfolio>, stocks: seq<StockRef>, stockId: int, exchange: string,
             d: OrderData, env: Env) returns (r: Result<Portfolio>)
    ensures r.Ok? <==> MakeOrder(p, stocks, stockId, exchange, d, false, env).Ok?
    ensures r.Err? ==> r.error == RuntimeError
    ensures r.Ok? ==> r.value.cash >= 0.0
    ensures r.Ok? && MakeOrder(p, stocks, stockId, exchange, d, false, env).value.price >= 0.0
            ==> r.value.cash <= p.value.cash - FIXED_FEE
  {
    r := PlaceOrder(p, stocks, stockId, exchange, d, false, env);
    if r.Ok? {
      var o := MakeOrder(p, stocks, stockId, exchange, d, false, env).value;
      assert o.price >= 0.0 ==> o.price * d.size as real >= 0.0;
    }
  }

  /** __is_exchange_open: Xetra trades Monday to Friday from 9 to 16
      o'clock, Frankfurt from 8 to 19 o'clock; every other exchange is
      closed.  weekday is the ISO weekday (Monday 1 .. Sunday 7) and hour
      the hour of the local clock. */
  function IsExchangeOpen(exchange: string, weekday: int, hour: int): (r: bool)
    ensures exchange == "XETR" ==> (r <==> 1 <= weekday <= 5 && 9 <= hour <= 16)
    ensures exchange == "XFRA" ==> (r <==> 1 <= weekday <= 5 && 8 <= hour <= 19)
    ensures r ==> 1 <= weekday <= 5 && 8 <= hour <= 19
    ensures exchange != "XETR" && exchange != "XFRA" ==> !r
  {
    (exchange == "XETR" && 1 <= weekday < 6 && 9 <= hour < 17)
    || (exchange == "XFRA" && 1 <= weekday < 6 && 8 <= hour < 20)
  }

  /** Nothing is open at the weekend, and Xetra's hours lie inside
      Frankfurt's. */
  lemma ExchangeHours(exchange: string, weekday: int, hour: int)
    ensures IsExchangeOpen(exchange, weekday, hour) ==> 1 <= weekday <= 5 && 8 <= hour <= 19
    ensures IsExchangeOpen("XETR", weekday, hour) ==> IsExchangeOpen("XFRA", weekday, hour)
    ensures exchange != "XETR" && exchange != "XFRA" ==> !IsExchangeOpen(exchange, weekday, hour)
  {
  }

  /** The expiry test as written: the age in seconds divided by 60, which
      is minutes, compared with expire_in_hours. */
  predicate ExpiresAsWritten(orderDate: int, now: int, expireInHours: int)
  {
    (now - orderDate) as real / 60.0 >= expireInHours as real
  }

  /** The expiry test as intended: the age in hours compared with
      expire_in_hours. */
  predicate Expires(orderDate: int, now: int, expireInHours: int)
  {
    (now - orderDate) as real / (SECONDS_PER_HOUR as real) >= expireInHours as real
  }

  /** As written, a 20-hour limit order expires after half an hour. */
  lemma ExpiresAsWrittenTooEarly()
    ensures ExpiresAsWritten(0, 1800, DEFAULT_EXPIRE_IN_HOURS)
    ensures !Expires(0, 1800, DEFAULT_EXPIRE_IN_HOURS)
  {
  }

  /** As written, the limit is read in minutes: an order expires once it is
      expire_in_hours minutes old. */
  lemma ExpiresAsWrittenInMinutes(orderDate: int, now: int, h: int)
    ensures ExpiresAsWritten(orderDate, now, h) <==> now - orderDate >= 60 * h
  {
  }

  /** As intended, a limit order expires exactly when its expire_date has
      been reached. */
  lemma ExpiresAtExpireDate(o: Order, now: int, h: int)
    requires o.expireDate == Some(o.date + h * SECONDS_PER_HOUR)
    ensures Expires(o.date, now, h) <==> now >= o.expireDate.value
  {
    var age := (now - o.date) as real;
    assert age / 3600.0 >= h as real <==> age >= (h * 3600) as real;
  }

  /** Which expiry test settles a waiting order: the code's (seconds / 60
      against expire_in_hours) or the intended one (the age in hours). */
  datatype ExpiryRule = AsWritten | AsIntended

  predicate ExpiredBy(rule: ExpiryRule, orderDate: int, now: int, expireInHours: int)
  {
    match rule
    case AsWritten => ExpiresAsWritten(orderDate, now, expireInHours)
    case AsIntended => Expires(orderDate, now, expireInHours)
  }

  /** The seconds a unit of expire_in_hours stands for under a rule. */
  function SecondsPerUnit(rule: ExpiryRule): int
  {
    match rule
    case AsWritten => 60
    case AsIntended => SECONDS_PER_HOUR
  }

  /** Under either rule an order expires exactly once it is expire_in_hours
      units old, the unit being a minute as written and an hour as
      intended. */
  lemma ExpiredByAge(rule: ExpiryRule, orderDate: int, now: int, h: int)
    ensures ExpiredBy(rule, orderDate, now, h) <==> now - orderDate >= SecondsPerUnit(rule) * h
  {
    var age := (now - orderDate) as real;
    match rule
    case AsWritten =>
      ExpiresAsWrittenInMinutes(orderDate, now, h);
    case AsIntended =>
      assert age / 3600.0 >= h as real <==> age >= (h * 3600) as real;
  }

  /** The query for a waiting limit order: the date of the first daily bar
      of its stock between the order date and now whose high the limit
      price reaches, if there is one.  It reads the stock, the order date
      and the limit price. */
  type Fill = (int, int, real) -> Option<int>

  /** What __handle_open_orders makes of one order: a waiting order fills
      at the date the query gives, or expires when it is old enough under
      the expiry rule; any other order stays as it is. */
  function Settle(o: Order, now: int, hours: int, fill: Fill, rule: ExpiryRule): (r: Order)
    ensures r.size == o.size && r.priceComplete == o.priceComplete && r.isSell == o.isSell
    ensures o.status != Confirmed ==> r == o
    ensures o.status == Confirmed && fill(o.stockId, o.date, o.price).Some? ==>
      r.status == Completed && r.date == fill(o.stockId, o.date, o.price).value
    ensures r.status == Expired && o.status == Confirmed <==>
      o.status == Confirmed && fill(o.stockId, o.date, o.price).None?
      && o.date <= now - SecondsPerUnit(rule) * hours
    ensures o.status == Confirmed && r.status == Confirmed ==> r == o
  {
    ExpiredByAge(rule, o.date, now, hours);
    if o.status != Confirmed then o
    else match fill(o.stockId, o.date, o.price)
      case Some(d) => o.(status := Completed, date := d)
      case None => if ExpiredBy(rule, o.date, now, hours) then o.(status := Expired) else o
  }

  /** The cash an order gives back when it expires: its price_complete. */
  function Refund(o: Order, now: int, hours: int, fill: Fill, rule: ExpiryRule): real
  {
    if o.status == Confirmed && fill(o.stockId, o.date, o.price).None? && ExpiredBy(rule, o.date, now, hours)
    then o.priceComplete else 0.0
  }

  function RefundSum(orders: seq<Order>, now: int, hours: int, fill: Fill, rule: ExpiryRule): real
    decreases |orders|
  {
    if |orders| == 0 then 0.0
    else RefundSum(orders[..|orders| - 1], now, hours, fill, rule) + Refund(orders[|orders| - 1], now, hours, fill, rule)
  }

  /** __handle_open_orders: settle each waiting order in turn under the
      expiry rule; a filled sell is linked to the buy it closes, an expired
      order's price_complete is taken back from the cash. The code runs it
      with AsWritten. */
  method HandleOpenOrders(p: Portfolio, now: int, hours: int, fill: Fill, rule: ExpiryRule) returns (q: Portfolio)
    ensures |q.orders| == |p.orders|
    ensures forall i :: 0 <= i < |p.orders| ==>
      q.orders[i] == Settle(p.orders[i], now, hours, fill, rule).(parent := q.orders[i].parent)
    ensures q.cash == p.cash - RefundSum(p.orders, now, hours, fill, rule)
  {
    var orders := p.orders;
    var cash := p.cash;
    for i := 0 to |orders|
      invariant |orders| == |p.orders|
      invariant forall j :: 0 <= j < i ==>
        orders[j] == Settle(p.orders[j], now, hours, fill, rule).(parent := orders[j].parent)
      invariant forall j :: i <= j < |orders| ==> orders[j] == p.orders[j].(parent := orders[j].parent)
      invariant cash == p.cash - RefundSum(p.orders[..i], now, hours, fill, rule)
    {
      assert p.orders[..i + 1][..i] == p.orders[..i];
      var o := orders[i];
      assert Refund(o, now, hours, fill, rule) == Refund(p.orders[i], now, hours, fill, rule);
      if o.status == Confirmed {
        match fill(o.stockId, o.date, o.price) {
          case Some(d) =>
            orders := orders[i := o.(status := Completed, date := d)];
            orders := ConnectRelatedOrder(orders, orders[i]);
          case None =>
            if ExpiredBy(rule, o.date, now, hours) {
              orders := orders[i := o.(status := Expired)];
              cash := cash - o.priceComplete;
            }
        }
      }
    }
    assert p.orders[..|p.orders|] == p.orders;
    q := Portfolio(cash, orders);
  }

  /** A limit buy that expires unfilled gives all its cash back: booking it
      and then expiring it leaves the cash where it was. As written this
      happens expire_in_hours minutes after the booking, as intended at its
      expire_date. */
  lemma LimitBuyExpiryRestoresCash(stockId: int, d: OrderData, cash: real, env: Env, now: int, fill: Fill,
                                   rule: ExpiryRule)
    requires DoLimit(stockId, d, false, cash, env).Ok?
    requires fill(stockId, env.now, d.price.value).None?
    requires now >= env.now + env.expireInHours * SecondsPerUnit(rule)
    ensures var o := DoLimit(stockId, d, false, cash, env).value;
            Settle(o, now, env.expireInHours, fill, rule).status == Expired
            && (cash + o.priceComplete) - Refund(o, now, env.expireInHours, fill, rule) == cash
  {
    var o := DoLimit(stockId, d, false, cash, env).value;
    ExpiredByAge(rule, o.date, now, env.expireInHours);
  }

  /** As written, the demo broker's 20-hour limit buy is given back after
      20 minutes; as intended only at its expire_date, 20 hours later. */
  lemma DefaultLimitBuyExpiry(o: Order, fill: Fill)
    requires o.status == Confirmed && fill(o.stockId, o.date, o.price).None?
    ensures Settle(o, o.date + 20 * 60, DEFAULT_EXPIRE_IN_HOURS, fill, AsWritten).status == Expired
    ensures Settle(o, o.date + 20 * 60, DEFAULT_EXPIRE_IN_HOURS, fill, AsIntended) == o
    ensures Settle(o, o.date + 20 * SECONDS_PER_HOUR, DEFAULT_EXPIRE_IN_HOURS, fill, AsIntended).status == Expired
  {
  }
}
