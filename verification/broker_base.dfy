/** The broker bookkeeping shared by every broker: how many pieces of a
    stock the orders of a portfolio add up to, the list of stocks held, and
    the link from a sell order to the buy order it closes.
 */
module BrokerBase {
  import opened Wrappers
  import opened StockSchema

  /** is_sell as the integer it compares equal to (False == 0, True == 1). */
  function SellFlag(o: Order): int
  {
    if o.isSell then 1 else 0
  }

  /** Whether get_stock_size counts the order: its status matches, its
      is_sell matches when a filter (0 or 1) is given, and its stock id is
      set and equal to the requested one. */
  predicate Counts(o: Order, stockId: int, status: Status, isSell: int)
  {
    o.status == status && (isSell > -1 ==> SellFlag(o) == isSell)
    && o.stockId != 0 && o.stockId == stockId
  }

  /** Reference definition: the summed size of the counted orders. */
  function SizeSum(orders: seq<Order>, stockId: int, status: Status, isSell: int): int
    decreases |orders|
  {
    if |orders| == 0 then 0
    else
      var last := orders[|orders| - 1];
      SizeSum(orders[..|orders| - 1], stockId, status, isSell)
      + (if Counts(last, stockId, status, isSell) then last.size else 0)
  }

  /** get_stock_size: the loop over the orders. */
  method GetStockSize(orders: seq<Order>, stockId: int, status: Status, isSell: int) returns (sum: int)
    ensures sum == SizeSum(orders, stockId, status, isSell)
    ensures stockId == 0 ==> sum == 0
  {
    sum := 0;
    for i := 0 to |orders|
      invariant sum == SizeSum(orders[..i], stockId, status, isSell)
    {
      assert orders[..i + 1][..i] == orders[..i];
      if Counts(orders[i], stockId, status, isSell) {
        sum := sum + orders[i].size;
      }
    }
    assert orders[..|orders|] == orders;
    if stockId == 0 {
      SizeSumUnset(orders, status, isSell);
    }
  }

  /** Orders without a stock never count, so stock id 0 has size 0. */
  lemma {:induction false} SizeSumUnset(orders: seq<Order>, status: Status, isSell: int)
    ensures SizeSum(orders, 0, status, isSell) == 0
    decreases |orders|
  {
    if |orders| > 0 {
      SizeSumUnset(orders[..|orders| - 1], status, isSell);
    }
  }

  /** The size of a concatenation is the sum of the sizes. */
  lemma {:induction false} SizeSumAppend(a: seq<Order>, b: seq<Order>, stockId: int, status: Status, isSell: int)
    ensures SizeSum(a + b, stockId, status, isSell)
            == SizeSum(a, stockId, status, isSell) + SizeSum(b, stockId, status, isSell)
    decreases |b|
  {
    if |b| == 0 {
      assert a + b == a;
    } else {
      var b' := b[..|b| - 1];
      assert (a + b)[..|a + b| - 1] == a + b';
      SizeSumAppend(a, b', stockId, status, isSell);
    }
  }

  /** Orders none of which counts add up to nothing, and orders of
      non-negative size add up to a non-negative size. */
  lemma {:induction false} SizeSumSign(orders: seq<Order>, stockId: int, status: Status, isSell: int)
    ensures (forall i :: 0 <= i < |orders| ==> !Counts(orders[i], stockId, status, isSell))
            ==> SizeSum(orders, stockId, status, isSell) == 0
    ensures (forall i :: 0 <= i < |orders| ==> orders[i].size >= 0)
            ==> SizeSum(orders, stockId, status, isSell) >= 0
    decreases |orders|
  {
    if |orders| > 0 {
      var front := orders[..|orders| - 1];
      SizeSumSign(front, stockId, status, isSell);
      assert forall i :: 0 <= i < |front| ==> front[i] == orders[i];
    }
  }

  /** Pieces of a stock in sell orders that wait to be filled: nothing for
      an unset stock or without a confirmed sell of it. */
  function StockSizeInSell(orders: seq<Order>, stockId: int): (r: int)
    ensures stockId == 0 ==> r == 0
    ensures (forall i :: 0 <= i < |orders| ==>
               !(orders[i].status == Confirmed && orders[i].isSell && orders[i].stockId == stockId)) ==> r == 0
    ensures (forall i :: 0 <= i < |orders| ==> orders[i].size >= 0) ==> r >= 0
  {
    SizeSumUnset(orders, Confirmed, 1);
    SizeSumSign(orders, stockId, Confirmed, 1);
    SizeSum(orders, stockId, Confirmed, 1)
  }

  /** Pieces of a stock in buy orders that wait to be filled: nothing for
      an unset stock or without a confirmed buy of it. */
  function StockSizeNotComplete(orders: seq<Order>, stockId: int): (r: int)
    ensures stockId == 0 ==> r == 0
    ensures (forall i :: 0 <= i < |orders| ==>
               !(orders[i].status == Confirmed && !orders[i].isSell && orders[i].stockId == stockId)) ==> r == 0
    ensures (forall i :: 0 <= i < |orders| ==> orders[i].size >= 0) ==> r >= 0
  {
    SizeSumUnset(orders, Confirmed, 0);
    SizeSumSign(orders, stockId, Confirmed, 0);
    SizeSum(orders, stockId, Confirmed, 0)
  }

  /** One order adds its size to the in-sell count iff it is a confirmed
      sell of the stock, and to the not-complete count iff it is a
      confirmed buy of the stock; with SizeSumAppend this fixes both
      counts for every order list. */
  lemma PendingCounts(o: Order, stockId: int)
    ensures StockSizeInSell([o], stockId)
            == if o.status == Confirmed && o.isSell && stockId != 0 && o.stockId == stockId then o.size else 0
    ensures StockSizeNotComplete([o], stockId)
            == if o.status == Confirmed && !o.isSell && stockId != 0 && o.stockId == stockId then o.size else 0
  {
    assert [o][..0] == [];
    assert SizeSum([o], stockId, Confirmed, 1) == if Counts(o, stockId, Confirmed, 1) then o.size else 0;
    assert SizeSum([o], stockId, Confirmed, 0) == if Counts(o, stockId, Confirmed, 0) then o.size else 0;
  }

  /** One entry of get_portfolio_items. */
  datatype Item = Item(stockId: int, size: int, signalId: int)

  /** The stock ids of the completed orders. */
  function CompletedIds(orders: seq<Order>): (r: seq<int>)
    ensures forall s :: s in r <==> exists o :: o in orders && o.status == Completed && o.stockId == s
  {
    if |orders| == 0 then []
    else
      var rest := CompletedIds(orders[1..]);
      assert forall o :: o in orders[1..] ==> o in orders;
      assert forall o :: o in orders ==> o == orders[0] || o in orders[1..];
      if orders[0].status == Completed then [orders[0].stockId] + rest else rest
  }

  /** Each value once, in order of first occurrence.  Python builds the list
      from a set, whose order is not specified. */
  function Distinct(xs: seq<int>): (r: seq<int>)
    ensures forall x :: x in r <==> x in xs
    ensures forall i, j :: 0 <= i < j < |r| ==> r[i] != r[j]
    decreases |xs|
  {
    if |xs| == 0 then []
    else
      var rest := Distinct(xs[..|xs| - 1]);
      var x := xs[|xs| - 1];
      assert forall y :: y in xs <==> y in xs[..|xs| - 1] || y == x;
      if x in rest then rest else rest + [x]
  }

  /** The signal ids of the completed buys of a stock, in order. */
  function BuySignals(orders: seq<Order>, stockId: int): (r: seq<int>)
    ensures |r| <= |orders|
    ensures r == [] <==> forall o :: o in orders ==> !(o.status == Completed && !o.isSell && o.stockId == stockId)
    decreases |orders|
  {
    if |orders| == 0 then []
    else
      var o := orders[|orders| - 1];
      var rest := BuySignals(orders[..|orders| - 1], stockId);
      assert forall x :: x in orders <==> x in orders[..|orders| - 1] || x == o;
      if o.status == Completed && !o.isSell && o.stockId == stockId then rest + [o.signalId] else rest
  }

  /** The entries for the given stocks, in order, skipping those with no
      positive completed size; `[...][-1]` on no completed buy raises
      IndexError. */
  function ItemsFor(ids: seq<int>, orders: seq<Order>): Result<seq<Item>>
    decreases |ids|
  {
    if |ids| == 0 then Ok([])
    else
      var id := ids[0];
      var size := SizeSum(orders, id, Completed, -1);
      var rest :- ItemsFor(ids[1..], orders);
      if size > 0 then
        var signals := BuySignals(orders, id);
        if |signals| == 0 then Err(IndexError)
        else Ok([Item(id, size, signals[|signals| - 1])] + rest)
      else Ok(rest)
  }

  /** The entry a held stock gets: its completed size and the signal of its
      last completed buy. */
  predicate IsItemOf(it: Item, orders: seq<Order>)
  {
    var signals := BuySignals(orders, it.stockId);
    it.size == SizeSum(orders, it.stockId, Completed, -1) && it.size > 0
    && |signals| > 0 && it.signalId == signals[|signals| - 1]
  }

  /** A stock whose completed size is positive but that has no completed
      buy: the entry for it cannot be built. */
  predicate NoBuyFor(id: int, orders: seq<Order>)
  {
    SizeSum(orders, id, Completed, -1) > 0 && BuySignals(orders, id) == []
  }

  /** The entries can be built iff no listed stock is held without a
      completed buy; otherwise IndexError. */
  lemma {:induction false} ItemsForOk(ids: seq<int>, orders: seq<Order>)
    ensures ItemsFor(ids, orders).Ok? <==> forall id :: id in ids ==> !NoBuyFor(id, orders)
    ensures ItemsFor(ids, orders).Err? ==> ItemsFor(ids, orders).error == IndexError
    decreases |ids|
  {
    if |ids| > 0 {
      ItemsForOk(ids[1..], orders);
      assert forall id :: id in ids <==> id == ids[0] || id in ids[1..];
      assert NoBuyFor(ids[0], orders) <==>
        SizeSum(orders, ids[0], Completed, -1) > 0 && |BuySignals(orders, ids[0])| == 0;
    }
  }

  /** Every entry is the entry of a listed stock, and distinct stocks give
      entries with distinct stocks. */
  lemma {:induction false} ItemsForSound(ids: seq<int>, orders: seq<Order>)
    requires ItemsFor(ids, orders).Ok?
    ensures forall it :: it in ItemsFor(ids, orders).value ==> it.stockId in ids && IsItemOf(it, orders)
    ensures (forall i, j :: 0 <= i < j < |ids| ==> ids[i] != ids[j]) ==>
      var r := ItemsFor(ids, orders).value;
      forall i, j :: 0 <= i < j < |r| ==> r[i].stockId != r[j].stockId
    decreases |ids|
  {
    if |ids| > 0 {
      var rest := ids[1..];
      ItemsForSound(rest, orders);
      assert forall id :: id in rest ==> id in ids;
      if (forall i, j :: 0 <= i < j < |ids| ==> ids[i] != ids[j]) {
        assert forall i, j :: 0 <= i < j < |rest| ==> rest[i] == ids[i + 1] && rest[j] == ids[j + 1];
        assert ids[0] !in rest;
        if SizeSum(orders, ids[0], Completed, -1) > 0 {
          ItemsForFront(ids, orders);
        }
      }
    }
  }

  /** An item made for the first id comes first, then the items of the
      remaining ids. */
  lemma ItemsForFront(ids: seq<int>, orders: seq<Order>)
    requires |ids| > 0 && ItemsFor(ids, orders).Ok?
    requires SizeSum(orders, ids[0], Completed, -1) > 0
    ensures var r, rr := ItemsFor(ids, orders).value, ItemsFor(ids[1..], orders).value;
      |r| == |rr| + 1 && r[0].stockId == ids[0] && forall j :: 1 <= j < |r| ==> r[j] == rr[j - 1] && r[j] in rr
  {
    var r, rr := ItemsFor(ids, orders).value, ItemsFor(ids[1..], orders).value;
    assert r == [r[0]] + rr;
  }


  /** Every listed stock with a positive completed size has an entry. */
  lemma {:induction false} ItemsForComplete(ids: seq<int>, orders: seq<Order>)
    requires ItemsFor(ids, orders).Ok?
    ensures forall id :: id in ids && SizeSum(orders, id, Completed, -1) > 0
                         ==> exists it :: it in ItemsFor(ids, orders).value && it.stockId == id
    decreases |ids|
  {
    if |ids| > 0 {
      ItemsForComplete(ids[1..], orders);
      assert forall id :: id in ids <==> id == ids[0] || id in ids[1..];
      var r := ItemsFor(ids, orders).value;
      var rr := ItemsFor(ids[1..], orders).value;
      assert forall it :: it in rr ==> it in r;
      if SizeSum(orders, ids[0], Completed, -1) > 0 {
        assert r[0] in r && r[0].stockId == ids[0];
      }
    }
  }

  /** get_portfolio_items: one entry per stock with a positive completed
      size, each for a stock some completed order trades. */
  function GetPortfolioItems(orders: seq<Order>): (r: Result<seq<Item>>)
    ensures r.Err? ==> r.error == IndexError
    ensures r.Ok? ==> forall i :: 0 <= i < |r.value| ==>
      SizeSum(orders, r.value[i].stockId, Completed, -1) > 0
      && r.value[i].size == SizeSum(orders, r.value[i].stockId, Completed, -1)
  {
    var ids := Distinct(CompletedIds(orders));
    var r := ItemsFor(ids, orders);
    ItemsForOk(ids, orders);
    if r.Ok? then
      ItemsForSound(ids, orders);
      assert forall i :: 0 <= i < |r.value| ==> r.value[i] in r.value;
      r
    else r
  }

  /** The portfolio lists each held stock exactly once, with its completed
      size and the signal of its last completed buy, and nothing else; it
      raises IndexError iff a held stock has no completed buy. */
  lemma PortfolioItemsSpec(orders: seq<Order>)
    ensures GetPortfolioItems(orders).Ok? <==>
      forall o :: o in orders && o.status == Completed ==> !NoBuyFor(o.stockId, orders)
    ensures GetPortfolioItems(orders).Err? ==> GetPortfolioItems(orders).error == IndexError
    ensures GetPortfolioItems(orders).Ok? ==>
      var r := GetPortfolioItems(orders).value;
      (forall it :: it in r ==> IsItemOf(it, orders))
      && (forall o :: o in orders && o.status == Completed && SizeSum(orders, o.stockId, Completed, -1) > 0
                      ==> exists it :: it in r && it.stockId == o.stockId)
      && (forall i, j :: 0 <= i < j < |r| ==> r[i].stockId != r[j].stockId)
  {
    var ids := Distinct(CompletedIds(orders));
    ItemsForOk(ids, orders);
    if ItemsFor(ids, orders).Ok? {
      ItemsForSound(ids, orders);
      ItemsForComplete(ids, orders);
    }
    forall id | id in ids
      ensures exists o :: o in orders && o.status == Completed && o.stockId == id
    {
      assert id in CompletedIds(orders);
    }
    forall o | o in orders && o.status == Completed
      ensures o.stockId in ids
    {
      assert o.stockId in CompletedIds(orders);
    }
  }

  /** The buy orders a sell can close: completed buys with the sell's
      signal and stock whose size is the sell's size without its sign. */
  predicate Closes(sell: Order, o: Order)
  {
    o.status == Completed && !o.isSell && sell.signalId == o.signalId
    && PyMathAbs(sell.size) == o.size && sell.stockId == o.stockId
  }

  function PyMathAbs(x: int): nat
  {
    if x < 0 then -x else x
  }

  /** Index k holds the buy a sell is linked to: a closing buy whose time
      to the sell is the least, and strictly less than that of every
      closing buy before it. */
  predicate IsLinkTarget(orders: seq<Order>, sell: Order, k: int)
  {
    0 <= k < |orders| && Closes(sell, orders[k])
    && (forall j :: 0 <= j < |orders| && Closes(sell, orders[j])
          ==> sell.date - orders[k].date <= sell.date - orders[j].date)
    && (forall j :: 0 <= j < k && Closes(sell, orders[j])
          ==> sell.date - orders[j].date > sell.date - orders[k].date)
  }

  /** The search loop of connect_related_order: keep the first candidate
      and replace it only by a strictly closer one. */
  method FindRelated(orders: seq<Order>, sell: Order) returns (k: Option<nat>)
    ensures k.None? <==> forall j :: 0 <= j < |orders| ==> !Closes(sell, orders[j])
    ensures k.Some? ==> IsLinkTarget(orders, sell, k.value)
  {
    k := None;
    var diff := 0;
    for i := 0 to |orders|
      invariant k.None? <==> forall j :: 0 <= j < i ==> !Closes(sell, orders[j])
      invariant k.Some? ==> k.value < i && Closes(sell, orders[k.value]) && diff == sell.date - orders[k.value].date
      invariant k.Some? ==> forall j :: 0 <= j < i && Closes(sell, orders[j]) ==> diff <= sell.date - orders[j].date
      invariant k.Some? ==> forall j :: 0 <= j < k.value && Closes(sell, orders[j]) ==> sell.date - orders[j].date > diff
    {
      if Closes(sell, orders[i]) {
        var now := sell.date - orders[i].date;
        if k.None? {
          k := Some(i);
          diff := now;
        } else if diff > now {
          k := Some(i);
          diff := now;
        }
      }
    }
  }

  /** connect_related_order: a sell links the buy it closes to itself (the
      buy's parent becomes the sell); anything else changes nothing. */
  method ConnectRelatedOrder(orders: seq<Order>, sell: Order) returns (r: seq<Order>)
    ensures |r| == |orders|
    ensures forall j :: 0 <= j < |orders| ==> r[j] == orders[j].(parent := r[j].parent)
    ensures !sell.isSell ==> r == orders
    ensures sell.isSell && (forall j :: 0 <= j < |orders| ==> !Closes(sell, orders[j])) ==> r == orders
    ensures sell.isSell && (exists j :: 0 <= j < |orders| && Closes(sell, orders[j])) ==>
      exists k :: IsLinkTarget(orders, sell, k)
                  && r[k] == orders[k].(parent := Some(sell.id))
                  && forall j :: 0 <= j < |orders| && j != k ==> r[j] == orders[j]
  {
    r := orders;
    if sell.isSell {
      var k := FindRelated(orders, sell);
      if k.Some? {
        r := orders[k.value := orders[k.value].(parent := Some(sell.id))];
      }
    }
  }

  /** The linked buy is unique: two indices that both satisfy the rule are
      the same index. */
  lemma LinkTargetUnique(orders: seq<Order>, sell: Order, k1: int, k2: int)
    requires IsLinkTarget(orders, sell, k1) && IsLinkTarget(orders, sell, k2)
    ensures k1 == k2
  {
  }
}
