/** The signal-filter strategy: a buy signal is acted on only when the
    indicator's recent trades, read back from the signal's stored plot, were a
    run of winners of exactly the configured length.

    Decoding the stored plot (base64, zlib, JSON) is not modelled: a plot row
    carries what its decoding yields. The conversion of millisecond
    timestamps to calendar days uses the local time zone and enters as the
    parameter `day`.
 */
module StrategySignalFilter {
  import opened Wrappers

  /** The only implemented mode of get_relevant_buy_signals. */
  const ONLY_BUY_WHEN_ON_RUN: int := 0

  /** A buy or sell marker of the plot, at time x (milliseconds). */
  datatype Marker = Marker(x: int, text: string)

  /** One [time, price] entry of the plot's price series. */
  datatype PricePoint = PricePoint(time: int, price: real)

  /** The decoded plot: the length of the decoded list, its price series
      (entry 0) and its markers (entry 1). */
  datatype Decoded = Decoded(size: nat, prices: seq<PricePoint>, markers: seq<Marker>)

  /** A stored plot row: whether its blob is non-empty, and what decoding it
      gives (None when the blob is not valid base64). */
  datatype PlotRow = PlotRow(hasData: bool, decoded: Option<Decoded>)

  /** A trade read from the plot: its time and the price found for that day. */
  datatype Point = Point(time: int, price: Option<real>)

  /** find_price_helper: the price of the first entry on the same day as
      searchTime; None for a zero time or an empty series. */
  function FindPrice(searchTime: int, prices: seq<PricePoint>, day: int -> int): (r: Option<real>)
    ensures r.Some? <==> searchTime != 0 && exists i :: 0 <= i < |prices| && day(prices[i].time) == day(searchTime)
    ensures r.Some? ==> exists i :: (0 <= i < |prices| && day(prices[i].time) == day(searchTime)
                                     && r.value == prices[i].price
                                     && forall j :: 0 <= j < i ==> day(prices[j].time) != day(searchTime))
    decreases |prices|
  {
    if searchTime == 0 || |prices| == 0 then None
    else if day(prices[0].time) == day(searchTime) then Some(prices[0].price)
    else
      var r := FindPrice(searchTime, prices[1..], day);
      assert forall i :: 0 <= i < |prices| - 1 ==> prices[1..][i] == prices[i + 1];
      if r.Some? then
        assert exists i :: (0 <= i < |prices| - 1 && day(prices[1..][i].time) == day(searchTime)
                            && r.value == prices[1..][i].price
                            && forall j :: 0 <= j < i ==> day(prices[1..][j].time) != day(searchTime));
        var i :| 0 <= i < |prices| - 1 && day(prices[1..][i].time) == day(searchTime)
                 && r.value == prices[1..][i].price
                 && forall j :: 0 <= j < i ==> day(prices[1..][j].time) != day(searchTime);
        assert forall j :: 1 <= j < i + 1 ==> day(prices[j].time) != day(searchTime) by {
          forall j | 1 <= j < i + 1
            ensures day(prices[j].time) != day(searchTime)
          {
            assert prices[j] == prices[1..][j - 1];
          }
        }
        r
      else r
  }

  /** The markers with the given text, as trades, in plot order. */
  function PointsOf(markers: seq<Marker>, text: string, prices: seq<PricePoint>, day: int -> int): (r: seq<Point>)
    ensures |r| <= |markers|
    ensures forall p :: p in r <==> exists m :: m in markers && m.text == text && p == Point(m.x, FindPrice(m.x, prices, day))
    decreases |markers|
  {
    if |markers| == 0 then []
    else
      var rest := PointsOf(markers[1..], text, prices, day);
      assert forall m :: m in markers <==> m == markers[0] || m in markers[1..];
      if markers[0].text == text then [Point(markers[0].x, FindPrice(markers[0].x, prices, day))] + rest
      else rest
  }

  /** Ordered by time, earliest first. */
  predicate Ascending(s: seq<Point>)
  {
    forall i, j :: 0 <= i < j < |s| ==> s[i].time <= s[j].time
  }

  /** Ordered by time, latest first. */
  predicate Descending(s: seq<Point>)
  {
    forall i, j :: 0 <= i < j < |s| ==> s[i].time >= s[j].time
  }

  /** Put p into an ascending list, ahead of every entry at the same time or later. */
  function Insert(p: Point, s: seq<Point>): (r: seq<Point>)
    ensures multiset(r) == multiset(s) + multiset{p}
    ensures |r| == |s| + 1
    decreases |s|
  {
    if |s| == 0 || p.time <= s[0].time then [p] + s
    else
      assert s == [s[0]] + s[1..];
      [s[0]] + Insert(p, s[1..])
  }

  /** Every entry of s is at or after time t. */
  predicate NotBefore(s: seq<Point>, t: int)
  {
    forall i :: 0 <= i < |s| ==> t <= s[i].time
  }

  lemma {:induction false} InsertNotBefore(p: Point, s: seq<Point>, t: int)
    requires NotBefore(s, t) && t <= p.time
    ensures NotBefore(Insert(p, s), t)
    decreases |s|
  {
    if |s| > 0 && p.time > s[0].time {
      InsertNotBefore(p, s[1..], t);
    }
  }

  /** Inserting into an ascending list keeps it ascending. */
  lemma {:induction false} InsertAscending(p: Point, s: seq<Point>)
    requires Ascending(s)
    ensures Ascending(Insert(p, s))
    decreases |s|
  {
    if |s| > 0 && p.time > s[0].time {
      var tail := s[1..];
      assert Ascending(tail);
      InsertAscending(p, tail);
      InsertNotBefore(p, tail, s[0].time);
      var r := Insert(p, s);
      assert r == [s[0]] + Insert(p, tail);
      forall i, j | 0 <= i < j < |r|
        ensures r[i].time <= r[j].time
      {
        assert r[j] == Insert(p, tail)[j - 1];
        if i > 0 {
          assert r[i] == Insert(p, tail)[i - 1];
        }
      }
    }
  }

  /** sorted(points, key=time): a stable sort by time. */
  function SortByTime(s: seq<Point>): (r: seq<Point>)
    ensures multiset(r) == multiset(s)
    ensures |r| == |s|
    decreases |s|
  {
    if |s| == 0 then []
    else
      assert s == [s[0]] + s[1..];
      Insert(s[0], SortByTime(s[1..]))
  }

  /** The sort puts the points in time order. */
  lemma {:induction false} SortAscending(s: seq<Point>)
    ensures Ascending(SortByTime(s))
    decreases |s|
  {
    if |s| > 0 {
      SortAscending(s[1..]);
      InsertAscending(s[0], SortByTime(s[1..]));
    }
  }

  /** s[::-1]. */
  function Reverse<T>(s: seq<T>): (r: seq<T>)
    ensures |r| == |s| && forall i :: 0 <= i < |s| ==> r[i] == s[|s| - 1 - i]
  {
    seq(|s|, i requires 0 <= i < |s| => s[|s| - 1 - i])
  }

  /** The buy and sell lists parse_plot_data hands back. */
  datatype Trades = Trades(buys: seq<Point>, sells: seq<Point>)

  /** The two trimming rules on the time-sorted lists: a first sell that comes
      before the first buy is dropped, then a last buy after the last sell. */
  function Trim(buys: seq<Point>, sells: seq<Point>): (r: Trades)
    ensures |sells| > 0 && |buys| > 0 && buys[0].time > sells[0].time ==> r.sells == sells[1..]
    ensures !(|sells| > 0 && |buys| > 0 && buys[0].time > sells[0].time) ==> r.sells == sells
    ensures |r.sells| > 0 && |buys| > 0 && buys[|buys| - 1].time > r.sells[|r.sells| - 1].time ==>
      r.buys == buys[..|buys| - 1]
    ensures !(|r.sells| > 0 && |buys| > 0 && buys[|buys| - 1].time > r.sells[|r.sells| - 1].time) ==>
      r.buys == buys
  {
    var s := if |sells| > 0 && |buys| > 0 && buys[0].time > sells[0].time then sells[1..] else sells;
    var b := if |s| > 0 && |buys| > 0 && buys[|buys| - 1].time > s[|s| - 1].time then buys[..|buys| - 1] else buys;
    Trades(b, s)
  }

  /** parse_plot_data: the buy and the sell trades of the first plot row,
      sorted by time, trimmed, and returned latest first; nothing when the
      plot is missing, empty, undecodable or not a four-element list. */
  function ParsePlotData(plot: seq<PlotRow>, day: int -> int): (r: Trades)
    ensures plot == [] || !plot[0].hasData || plot[0].decoded.None? || plot[0].decoded.value.size != 4 ==>
      r == Trades([], [])
    ensures Descending(r.buys) && Descending(r.sells)
  {
    if plot == [] || !plot[0].hasData then Trades([], [])
    else
      match plot[0].decoded
      case None => Trades([], [])
      case Some(d) =>
        if d.size != 4 then Trades([], [])
        else
          var buys := SortByTime(PointsOf(d.markers, "Buy", d.prices, day));
          var sells := SortByTime(PointsOf(d.markers, "Sell", d.prices, day));
          SortAscending(PointsOf(d.markers, "Buy", d.prices, day));
          SortAscending(PointsOf(d.markers, "Sell", d.prices, day));
          var t := Trim(buys, sells);
          TrimAscending(buys, sells);
          ReverseDescending(t.buys);
          ReverseDescending(t.sells);
          Trades(Reverse(t.buys), Reverse(t.sells))
  }

  /** On a decodable four-element plot the buys are buy markers and the
      sells sell markers of that plot, each list with at most its first sell
      or last buy trimmed away. */
  lemma ParsePlotDataTrades(plot: seq<PlotRow>, day: int -> int)
    requires plot != [] && plot[0].hasData && plot[0].decoded.Some? && plot[0].decoded.value.size == 4
    ensures var d := plot[0].decoded.value;
      var buys, sells := PointsOf(d.markers, "Buy", d.prices, day), PointsOf(d.markers, "Sell", d.prices, day);
      var r := ParsePlotData(plot, day);
      && (forall p :: p in r.buys ==> p in buys)
      && (forall p :: p in r.sells ==> p in sells)
      && |buys| - 1 <= |r.buys| <= |buys| && |sells| - 1 <= |r.sells| <= |sells|
  {
    var d := plot[0].decoded.value;
    var buys, sells := PointsOf(d.markers, "Buy", d.prices, day), PointsOf(d.markers, "Sell", d.prices, day);
    var sb, ss := SortByTime(buys), SortByTime(sells);
    SortMembers(buys);
    SortMembers(sells);
    var t := Trim(sb, ss);
    TrimMembers(sb, ss);
    ReverseMembers(t.buys);
    ReverseMembers(t.sells);
  }

  lemma SortMembers(s: seq<Point>)
    ensures forall p :: p in SortByTime(s) <==> p in s
  {
    assert forall p :: p in SortByTime(s) <==> p in multiset(SortByTime(s));
  }

  lemma ReverseMembers<T>(s: seq<T>)
    ensures forall p :: p in Reverse(s) <==> p in s
  {
    forall p | p in Reverse(s)
      ensures p in s
    {
      var i :| 0 <= i < |s| && Reverse(s)[i] == p;
      assert p == s[|s| - 1 - i];
    }
    forall p | p in s
      ensures p in Reverse(s)
    {
      var i :| 0 <= i < |s| && s[i] == p;
      assert p == Reverse(s)[|s| - 1 - i];
    }
  }

  /** Trimming drops at most one entry of each list and adds none. */
  lemma TrimMembers(buys: seq<Point>, sells: seq<Point>)
    ensures var t := Trim(buys, sells);
      && (forall p :: p in t.buys ==> p in buys) && (forall p :: p in t.sells ==> p in sells)
      && |buys| - 1 <= |t.buys| <= |buys| && |sells| - 1 <= |t.sells| <= |sells|
  {
  }

  /** A slice of an ascending list is ascending. */
  lemma SliceAscending(s: seq<Point>, lo: nat, hi: nat)
    requires Ascending(s) && lo <= hi <= |s|
    ensures Ascending(s[lo..hi])
  {
    forall i, j | 0 <= i < j < hi - lo
      ensures s[lo..hi][i].time <= s[lo..hi][j].time
    {
      assert s[lo..hi][i] == s[lo + i] && s[lo..hi][j] == s[lo + j];
    }
  }

  /** Reversing an ascending list gives a descending one. */
  lemma ReverseDescending(s: seq<Point>)
    requires Ascending(s)
    ensures Descending(Reverse(s))
  {
  }

  /** Trimming keeps both lists in time order. */
  lemma TrimAscending(buys: seq<Point>, sells: seq<Point>)
    requires Ascending(buys) && Ascending(sells)
    ensures Ascending(Trim(buys, sells).buys) && Ascending(Trim(buys, sells).sells)
  {
    var t := Trim(buys, sells);
    if t.sells != sells {
      SliceAscending(sells, 1, |sells|);
      assert t.sells == sells[1..|sells|];
    }
    if t.buys != buys {
      SliceAscending(buys, 0, |buys| - 1);
    }
  }

  /** Once a leading sell is trimmed, the buys no longer start after the
      sells: the first buy is not later than the first remaining sell,
      provided it is not later than the second sell. */
  lemma TrimFirstSell(buys: seq<Point>, sells: seq<Point>)
    requires |sells| >= 2 && |buys| >= 1 && buys[0].time <= sells[1].time
    ensures |Trim(buys, sells).sells| > 0 && buys[0].time <= Trim(buys, sells).sells[0].time
  {
  }

  /** The run of winners, as a reference: the length of the longest prefix of
      paired trades in which the sell price is above the buy price. */
  predicate Wins(sell: Point, buy: Point)
    requires sell.price.Some? && buy.price.Some?
  {
    sell.price.value > buy.price.value
  }

  /** Every pair up to k is priced and a win. */
  predicate RunOf(sells: seq<Point>, buys: seq<Point>, k: nat)
  {
    k <= |sells| && k <= |buys|
    && forall i :: 0 <= i < k ==> sells[i].price.Some? && buys[i].price.Some? && Wins(sells[i], buys[i])
  }

  /** The run counter as a function of the two lists: the number of leading
      pairs whose sell price is above the buy price. Comparing a missing price
      raises TypeError. */
  function RunLength(sells: seq<Point>, buys: seq<Point>): Result<nat>
    decreases |sells|
  {
    if |sells| == 0 || |buys| == 0 then Ok(0)
    else if sells[0].price.None? || buys[0].price.None? then Err(TypeError)
    else if !Wins(sells[0], buys[0]) then Ok(0)
    else
      var rest :- RunLength(sells[1..], buys[1..]);
      Ok(1 + rest)
  }

  /** A run of winners of length k, followed by a pair with a missing price. */
  predicate Blocked(sells: seq<Point>, buys: seq<Point>, k: nat)
  {
    RunOf(sells, buys, k) && k < |sells| && k < |buys| && (sells[k].price.None? || buys[k].price.None?)
  }

  /** RunLength counts the maximal run of winners: every pair before it wins,
      and the pair at it is missing or not a win. */
  lemma {:induction false} RunLengthOk(sells: seq<Point>, buys: seq<Point>)
    requires RunLength(sells, buys).Ok?
    ensures var k := RunLength(sells, buys).value;
      && RunOf(sells, buys, k)
      && (k == |sells| || k == |buys| || (sells[k].price.Some? && buys[k].price.Some? && !Wins(sells[k], buys[k])))
    decreases |sells|
  {
    if |sells| > 0 && |buys| > 0 && sells[0].price.Some? && buys[0].price.Some? && Wins(sells[0], buys[0]) {
      RunLengthOk(sells[1..], buys[1..]);
      var k := RunLength(sells[1..], buys[1..]).value;
      assert forall i :: 0 <= i < |sells| - 1 ==> sells[1..][i] == sells[i + 1];
      assert forall i :: 0 <= i < |buys| - 1 ==> buys[1..][i] == buys[i + 1];
      assert RunOf(sells, buys, k + 1);
    }
  }

  /** RunLength fails, with TypeError, exactly when the run is cut short by a
      missing price. */
  lemma {:induction false} RunLengthErr(sells: seq<Point>, buys: seq<Point>)
    ensures RunLength(sells, buys).Err? <==> exists k: nat :: Blocked(sells, buys, k)
    ensures RunLength(sells, buys).Err? ==> RunLength(sells, buys).error == TypeError
    decreases |sells|
  {
    if |sells| > 0 && |buys| > 0 {
      var ts, tb := sells[1..], buys[1..];
      if sells[0].price.Some? && buys[0].price.Some? && Wins(sells[0], buys[0]) {
        RunLengthErr(ts, tb);
        assert forall i :: 0 <= i < |ts| ==> ts[i] == sells[i + 1];
        assert forall i :: 0 <= i < |tb| ==> tb[i] == buys[i + 1];
        if RunLength(ts, tb).Err? {
          var k: nat :| Blocked(ts, tb, k);
          assert Blocked(sells, buys, k + 1);
        }
        if exists k: nat :: Blocked(sells, buys, k) {
          var k: nat :| Blocked(sells, buys, k);
          assert Blocked(ts, tb, k - 1);
        }
      } else if sells[0].price.None? || buys[0].price.None? {
        assert Blocked(sells, buys, 0);
      } else {
        assert forall k: nat :: RunOf(sells, buys, k) && k < |sells| && k < |buys| ==> k == 0;
      }
    }
  }

  /** A count of k added to a run counted further on. */
  function Plus(r: Result<nat>, k: nat): Result<nat>
  {
    match r
    case Ok(v) => Ok(v + k)
    case Err(e) => Err(e)
  }

  /** on_run_counter: counts the pairs, from the start, where the sell price is
      above the buy price, and stops at the first pair that is not. Missing
      or empty lists count 0. */
  method OnRunCounter(sellData: Option<seq<Point>>, buyData: Option<seq<Point>>) returns (r: Result<nat>)
    ensures sellData.None? || buyData.None? ==> r == Ok(0)
    ensures sellData.Some? && buyData.Some? ==> r == RunLength(sellData.value, buyData.value)
    ensures r.Ok? && sellData.Some? && buyData.Some? ==> r.value <= |sellData.value| && r.value <= |buyData.value|
  {
    if sellData.None? || buyData.None? || sellData.value == [] || buyData.value == [] {
      return Ok(0);
    }
    var sells := sellData.value;
    var buys := buyData.value;
    var minLength := if |sells| <= |buys| then |sells| else |buys|;
    var count: nat := 0;
    for idx := 0 to minLength
      invariant count == idx
      invariant RunLength(sells, buys) == Plus(RunLength(sells[idx..], buys[idx..]), idx)
    {
      assert sells[idx..][1..] == sells[idx + 1..] && buys[idx..][1..] == buys[idx + 1..];
      if sells[idx].price.None? || buys[idx].price.None? {
        return Err(TypeError);
      }
      if sells[idx].price.value > buys[idx].price.value {
        count := count + 1;
      } else {
        return Ok(count);
      }
    }
    return Ok(count);
  }

  /** The run counter fails on this signal's plot (a missing price). */
  predicate CounterFails(plot: seq<PlotRow>, day: int -> int)
  {
    var t := ParsePlotData(plot, day);
    RunLength(t.sells, t.buys).Err?
  }

  /** The elements of xs that keep accepts, in their order in xs. */
  function Filter<S>(xs: seq<S>, keep: S -> bool): (r: seq<S>)
    ensures |r| <= |xs|
    decreases |xs|
  {
    if |xs| == 0 then []
    else
      var n := |xs| - 1;
      Filter(xs[..n], keep) + (if keep(xs[n]) then [xs[n]] else [])
  }

  /** The indices of xs whose elements keep accepts, ascending. */
  function FilterPositions<S>(xs: seq<S>, keep: S -> bool): seq<nat>
    decreases |xs|
  {
    if |xs| == 0 then []
    else
      var n := |xs| - 1;
      FilterPositions(xs[..n], keep) + (if keep(xs[n]) then [n] else [])
  }

  /** Filter reads xs at strictly increasing indices. */
  lemma {:induction false} FilterReadsPositions<S>(xs: seq<S>, keep: S -> bool)
    ensures var r, ix := Filter(xs, keep), FilterPositions(xs, keep);
            |ix| == |r|
            && (forall j :: 0 <= j < |ix| ==> ix[j] < |xs| && r[j] == xs[ix[j]])
            && (forall j, k :: 0 <= j < k < |ix| ==> ix[j] < ix[k])
    decreases |xs|
  {
    if |xs| > 0 {
      var n := |xs| - 1;
      var p := xs[..n];
      FilterReadsPositions(p, keep);
      var r0, ix0 := Filter(p, keep), FilterPositions(p, keep);
      assert forall j :: 0 <= j < |ix0| ==> r0[j] == xs[ix0[j]];
      if keep(xs[n]) {
        var r, ix := r0 + [xs[n]], ix0 + [n];
        assert Filter(xs, keep) == r && FilterPositions(xs, keep) == ix;
        assert forall j :: 0 <= j < |ix0| ==> r[j] == r0[j] && ix[j] == ix0[j];
      } else {
        assert Filter(xs, keep) == r0 && FilterPositions(xs, keep) == ix0;
      }
    }
  }

  /** An index is among the positions exactly when keep accepts its element. */
  lemma {:induction false} FilterPositionsExact<S>(xs: seq<S>, keep: S -> bool)
    ensures var ix := FilterPositions(xs, keep);
            (forall j :: 0 <= j < |ix| ==> ix[j] < |xs|)
            && (forall i :: 0 <= i < |xs| ==> (i in ix <==> keep(xs[i])))
    decreases |xs|
  {
    if |xs| > 0 {
      var n := |xs| - 1;
      var p := xs[..n];
      FilterPositionsExact(p, keep);
      assert forall i :: 0 <= i < n ==> p[i] == xs[i];
    }
  }

  /** Filter is order-preserving: it reads xs at strictly increasing
      indices, and an index is read exactly when keep accepts its element. */
  lemma {:induction false} FilterIsOrdered<S>(xs: seq<S>, keep: S -> bool)
    ensures var r, ix := Filter(xs, keep), FilterPositions(xs, keep);
            |ix| == |r|
            && (forall j :: 0 <= j < |ix| ==> ix[j] < |xs| && r[j] == xs[ix[j]])
            && (forall j, k :: 0 <= j < k < |ix| ==> ix[j] < ix[k])
            && (forall i :: 0 <= i < |xs| ==> (i in ix <==> keep(xs[i])))
  {
    FilterReadsPositions(xs, keep);
    FilterPositionsExact(xs, keep);
  }

  /** The test only_buy_when_on_run applies to one signal. */
  function OnRunTest<S>(plotOf: S -> seq<PlotRow>, day: int -> int, threshold: int): S -> bool
  {
    x => OnRun(plotOf(x), day, threshold)
  }

  /** only_buy_when_on_run: the buy signals whose plot shows a run of winners
      of exactly the threshold length, in their original order; the
      TypeError of a counter cut short by a missing price escapes. */
  method OnlyBuyWhenOnRun<S>(buySignals: seq<S>, plotOf: S -> seq<PlotRow>, day: int -> int, threshold: int)
    returns (r: Result<seq<S>>)
    ensures r.Err? <==> exists i :: 0 <= i < |buySignals| && CounterFails(plotOf(buySignals[i]), day)
    ensures r.Err? ==> r.error == TypeError
    ensures r.Ok? ==> r.value == Filter(buySignals, OnRunTest(plotOf, day, threshold))
    ensures r.Ok? ==> forall s :: s in buySignals ==> (s in r.value <==> OnRun(plotOf(s), day, threshold))
  {
    var keep := OnRunTest(plotOf, day, threshold);
    var filtered: seq<S> := [];
    for i := 0 to |buySignals|
      invariant filtered == Filter(buySignals[..i], keep)
      invariant forall k :: 0 <= k < i ==> !CounterFails(plotOf(buySignals[k]), day)
    {
      var x := buySignals[i];
      var t := ParsePlotData(plotOf(x), day);
      var ctx := OnRunCounter(Some(t.sells), Some(t.buys));
      if ctx.Err? {
        RunLengthErr(t.sells, t.buys);
        return Err(ctx.error);
      }
      assert !CounterFails(plotOf(x), day);
      NoneFailsExtend(buySignals, i, plotOf, day);
      FilterSnoc(buySignals, i, keep);
      assert keep(x) <==> ctx.value == threshold;
      if ctx.value == threshold {
        filtered := filtered + [x];
      }
    }
    assert buySignals[..|buySignals|] == buySignals;
    FilterMembers(buySignals, keep);
    r := Ok(filtered);
  }

  /** No counter failure among the first i signals nor at signal i: none
      among the first i + 1. */
  lemma NoneFailsExtend<S>(xs: seq<S>, i: nat, plotOf: S -> seq<PlotRow>, day: int -> int)
    requires i < |xs|
    requires forall k :: 0 <= k < i ==> !CounterFails(plotOf(xs[k]), day)
    requires !CounterFails(plotOf(xs[i]), day)
    ensures forall k :: 0 <= k < i + 1 ==> !CounterFails(plotOf(xs[k]), day)
  {
  }

  /** Filtering one more element appends it when keep accepts it. */
  lemma FilterSnoc<S>(xs: seq<S>, i: nat, keep: S -> bool)
    requires i < |xs|
    ensures Filter(xs[..i + 1], keep) == Filter(xs[..i], keep) + (if keep(xs[i]) then [xs[i]] else [])
  {
    assert xs[..i + 1][..i] == xs[..i];
  }

  /** An element of xs is in the filtered list exactly when keep accepts it. */
  lemma FilterMembers<S>(xs: seq<S>, keep: S -> bool)
    ensures forall s :: s in xs ==> (s in Filter(xs, keep) <==> keep(s))
  {
    FilterIsOrdered(xs, keep);
    var r, ix := Filter(xs, keep), FilterPositions(xs, keep);
    forall s | s in xs ensures s in r <==> keep(s) {
      var i :| 0 <= i < |xs| && xs[i] == s;
      if keep(s) {
        assert i in ix;
        var j :| 0 <= j < |ix| && ix[j] == i;
        assert r[j] == s;
      }
      if s in r {
        var j :| 0 <= j < |r| && r[j] == s;
        assert ix[j] in ix;
      }
    }
  }

  /** The plot shows a run of winners of exactly the threshold length. */
  predicate OnRun(plot: seq<PlotRow>, day: int -> int, threshold: int)
  {
    var t := ParsePlotData(plot, day);
    RunLength(t.sells, t.buys) == Ok(threshold)
  }


  /** get_relevant_buy_signals: mode ONLY_BUY_WHEN_ON_RUN answers what
      only_buy_when_on_run answers, any other mode raises
      NotImplementedError. */
  method GetRelevantBuySignals<S>(mode: int, buySignals: seq<S>, plotOf: S -> seq<PlotRow>, day: int -> int, threshold: int)
    returns (r: Result<seq<S>>)
    ensures mode != ONLY_BUY_WHEN_ON_RUN ==> r == Err(NotImplementedError)
    ensures mode == ONLY_BUY_WHEN_ON_RUN ==>
      && (r.Err? <==> exists i :: 0 <= i < |buySignals| && CounterFails(plotOf(buySignals[i]), day))
      && (r.Err? ==> r.error == TypeError)
      && (r.Ok? ==> r.value == Filter(buySignals, OnRunTest(plotOf, day, threshold)))
  {
    if mode == ONLY_BUY_WHEN_ON_RUN {
      r := OnlyBuyWhenOnRun(buySignals, plotOf, day, threshold);
    } else {
      r := Err(NotImplementedError);
    }
  }
}
