/** The StockIsHot filter: the opening prices are cut into chunks of each
    configured interval, a line is fitted to every chunk, and the score is
    the weighted share of non-negative changes between consecutive slopes,
    later intervals weighing more. The line fit (numpy's polyfit) is a
    parameter: it maps a chunk to its slope. */
module StockIsHot {
  import opened Wrappers
  import opened PyMath
  import opened Gather
  import opened BaseFilter

  /** One row of the bars array as the filters read it: the close and the
      open, either of which may be missing. */
  datatype Row = Row(close: Option<real>, open: Option<real>)

  /** The line fit: the slope of the line through a chunk's values. */
  type Slope = seq<real> -> real

  /** bars[:, 1]: the opening prices. */
  function Opens(bars: seq<Row>): (r: seq<Option<real>>)
    ensures |r| == |bars| && forall i :: 0 <= i < |bars| ==> r[i] == bars[i].open
  {
    seq(|bars|, i requires 0 <= i < |bars| => bars[i].open)
  }

  /** array[array != None]: the values that are present, in order. */
  function Present(values: seq<Option<real>>): (r: seq<real>)
    ensures |r| <= |values|
    ensures forall v :: v in r <==> Some(v) in values
    decreases |values|
  {
    if |values| == 0 then []
    else
      var n := |values| - 1;
      assert values == values[..n] + [values[n]];
      Present(values[..n]) + (if values[n].Some? then [values[n].value] else [])
  }

  /** (n - d) / d is one less than n / d. */
  lemma DivStep(n: nat, d: nat)
    requires 0 < d <= n
    ensures (n - d) / d == n / d - 1
  {
    var q, m := (n - d) / d, (n - d) % d;
    assert n == d * (q + 1) + m && 0 <= m < d;
    DivUnique(n, d, q + 1, m);
  }

  /** Integer division is determined by quotient and remainder. */
  lemma DivUnique(n: nat, d: nat, q: nat, m: nat)
    requires 0 < d && n == d * q + m && m < d
    ensures n / d == q
  {
    var q', m' := n / d, n % d;
    assert n == d * q' + m' && m' < d;
    assert d * (q' - q) == m - m';
    if q' > q {
      MulAtLeast(d, q' - q);
    } else if q' < q {
      MulAtLeast(d, q - q');
    }
  }

  lemma MulAtLeast(d: nat, k: nat)
    requires k >= 1
    ensures d * k >= d
  {
  }

  /** Consecutive chunks of interval values from the start; a shorter tail
      is dropped. */
  function Chunks(ys: seq<real>, interval: nat): (r: seq<seq<real>>)
    requires interval > 0
    ensures |r| == |ys| / interval
    ensures forall k :: 0 <= k < |r| ==> |r[k]| == interval
    ensures Concat(r) <= ys && |ys| - |Concat(r)| < interval
    decreases |ys|
  {
    if |ys| < interval then []
    else
      DivStep(|ys|, interval);
      var rest := Chunks(ys[interval..], interval);
      assert Concat([ys[..interval]] + rest) == ys[..interval] + Concat(rest) by {
        ConcatCons(ys[..interval], rest);
      }
      [ys[..interval]] + rest
  }

  /** The chunks laid end to end. */
  function Concat(cs: seq<seq<real>>): seq<real>
    decreases |cs|
  {
    if |cs| == 0 then [] else cs[0] + Concat(cs[1..])
  }

  lemma ConcatCons(c: seq<real>, cs: seq<seq<real>>)
    ensures Concat([c] + cs) == c + Concat(cs)
  {
    assert ([c] + cs)[1..] == cs;
  }

  /** The slope of every chunk. */
  function Slopes(chunks: seq<seq<real>>, slope: Slope): (r: seq<real>)
    ensures |r| == |chunks| && forall k :: 0 <= k < |chunks| ==> r[k] == slope(chunks[k])
  {
    seq(|chunks|, k requires 0 <= k < |chunks| => slope(chunks[k]))
  }

  /** np.diff: the differences of consecutive values. */
  function Diff(d: seq<real>): (r: seq<real>)
    ensures |r| == if |d| == 0 then 0 else |d| - 1
    ensures forall k :: 0 <= k < |r| ==> r[k] == d[k + 1] - d[k]
  {
    if |d| <= 1 then [] else seq(|d| - 1, k requires 0 <= k < |d| - 1 => d[k + 1] - d[k])
  }

  /** The floor of the quotient of two naturals is their integer quotient. */
  lemma FloorOfQuotient(n: nat, d: nat)
    requires d > 0
    ensures (n as real / d as real).Floor == n / d
  {
    var q := n / d;
    var x := n as real / d as real;
    assert d * q <= n < d * q + d;
    assert (d * q) as real == d as real * q as real;
    assert d as real * q as real <= n as real;
    assert q as real <= x;
    assert n as real < d as real * (q + 1) as real;
    assert x < (q + 1) as real;
  }

  /** int(n / interval), the number of chunks; a zero interval raises
      ZeroDivisionError and a negative count makes np.zeros raise
      ValueError. */
  function Steps(n: nat, interval: int): (r: Result<nat>)
    ensures interval == 0 <==> r == Err(ZeroDivisionError)
    ensures interval > 0 ==> r == Ok(n / interval)
    ensures interval < 0 ==> (r.Ok? <==> n < -interval) && (r.Ok? ==> r.value == 0)
  {
    if interval == 0 then Err(ZeroDivisionError)
    else
      var steps := Trunc(n as real / interval as real);
      if interval > 0 then
        FloorOfQuotient(n, interval);
        Ok(steps)
      else
        assert n as real / interval as real == -(n as real / (-interval) as real);
        FloorOfQuotient(n, -interval);
        if steps < 0 then Err(ValueError) else Ok(steps)
  }

  /** get_performance: drop the missing values, fit a line to each full
      chunk of interval values and return the changes between consecutive
      slopes. */
  function GetPerformance(values: seq<Option<real>>, interval: int, slope: Slope): (r: Result<seq<real>>)
    ensures interval == 0 <==> r == Err(ZeroDivisionError)
    ensures interval > 0 ==> (r.Ok? &&
      var steps := |Present(values)| / interval;
      |r.value| == (if steps == 0 then 0 else steps - 1))
    ensures interval > 0 ==> (r.Ok? &&
      var chunks := Chunks(Present(values), interval);
      forall k :: 0 <= k < |r.value| ==> r.value[k] == slope(chunks[k + 1]) - slope(chunks[k]))
    ensures interval < 0 ==> (r.Ok? <==> |Present(values)| < -interval) && (r.Ok? ==> r.value == [])
  {
    var ys := Present(values);
    var steps :- Steps(|ys|, interval);
    if interval <= 0 then Ok([])
    else Ok(Diff(Slopes(Chunks(ys, interval), slope)))
  }

  /** Interval number idx weighs 1 + 4 idx. */
  function Weight(idx: nat): (w: real)
    ensures w >= 1.0
  {
    1.0 + 4.0 * idx as real
  }

  /** The inner loop's perf_sum: w added once per value. */
  function WeighAll(vals: seq<real>, w: real): (r: real)
    requires w >= 1.0
    ensures r >= 0.0 && (r == 0.0 <==> vals == [])
    decreases |vals|
  {
    if |vals| == 0 then 0.0 else WeighAll(vals[..|vals| - 1], w) + w
  }

  /** The inner loop's ascending_counter: w added once per non-negative
      value. */
  function WeighRising(vals: seq<real>, w: real): (r: real)
    requires w >= 1.0
    ensures 0.0 <= r <= WeighAll(vals, w)
    decreases |vals|
  {
    if |vals| == 0 then 0.0
    else WeighRising(vals[..|vals| - 1], w) + (if vals[|vals| - 1] >= 0.0 then w else 0.0)
  }

  /** Every value of a list is weighed as ascending exactly when none is
      negative. */
  lemma {:induction false} WeighRisingAll(vals: seq<real>, w: real)
    requires w >= 1.0
    ensures WeighRising(vals, w) == WeighAll(vals, w) <==> forall i :: 0 <= i < |vals| ==> vals[i] >= 0.0
    decreases |vals|
  {
    if |vals| > 0 {
      var n := |vals| - 1;
      WeighRisingAll(vals[..n], w);
      assert forall i :: 0 <= i < n ==> vals[..n][i] == vals[i];
    }
  }

  /** perf_sum: every value of performance list idx weighs Weight(idx). */
  function Total(perfs: seq<seq<real>>): (r: real)
    ensures r >= 0.0
    ensures r == 0.0 <==> forall k :: 0 <= k < |perfs| ==> perfs[k] == []
    decreases |perfs|
  {
    if |perfs| == 0 then 0.0
    else
      var n := |perfs| - 1;
      assert forall k :: 0 <= k < n ==> perfs[..n][k] == perfs[k];
      Total(perfs[..n]) + WeighAll(perfs[n], Weight(n))
  }

  /** ascending_counter: the weight of the non-negative values. */
  function Ascending(perfs: seq<seq<real>>): (r: real)
    ensures 0.0 <= r <= Total(perfs)
    decreases |perfs|
  {
    if |perfs| == 0 then 0.0
    else
      var n := |perfs| - 1;
      Ascending(perfs[..n]) + WeighRising(perfs[n], Weight(n))
  }

  /** No performance value is negative. */
  predicate NoneNegative(perfs: seq<seq<real>>)
  {
    forall k, i :: 0 <= k < |perfs| && 0 <= i < |perfs[k]| ==> perfs[k][i] >= 0.0
  }

  /** Every value is weighed as ascending exactly when none is negative. */
  lemma {:induction false} AscendingFull(perfs: seq<seq<real>>)
    ensures Ascending(perfs) == Total(perfs) <==> NoneNegative(perfs)
    decreases |perfs|
  {
    if |perfs| > 0 {
      var n := |perfs| - 1;
      var init := perfs[..n];
      AscendingFull(init);
      WeighRisingAll(perfs[n], Weight(n));
      assert NoneNegative(perfs) <==> NoneNegative(init) && forall i :: 0 <= i < |perfs[n]| ==> perfs[n][i] >= 0.0 by {
        assert forall k :: 0 <= k < n ==> init[k] == perfs[k];
      }
    }
  }

  /** A part of a positive whole is a share between 0 and 1, and 1 only
      when it is the whole. */
  lemma ShareBounds(a: real, t: real)
    requires 0.0 <= a <= t && t > 0.0
    ensures 0.0 <= a / t <= 1.0
    ensures a / t == 1.0 <==> a == t
  {
  }

  /** The score: the weighted share of non-negative values, or nothing when
      there are no values at all. */
  function Hotness(perfs: seq<seq<real>>): (r: Option<real>)
    ensures r.None? <==> forall k :: 0 <= k < |perfs| ==> perfs[k] == []
    ensures r.Some? ==> 0.0 <= r.value <= 1.0
    ensures r.Some? ==> (r.value == 1.0 <==> NoneNegative(perfs))
  {
    var total := Total(perfs);
    if total == 0.0 then None
    else
      AscendingFull(perfs);
      ShareBounds(Ascending(perfs), total);
      Some(Ascending(perfs) / total)
  }

  /** The performance list of every interval, in order. */
  function Performances(values: seq<Option<real>>, intervals: seq<int>, slope: Slope): (r: Result<seq<seq<real>>>)
    ensures r.Ok? ==> |r.value| == |intervals|
  {
    MapIndexed(intervals, (k: nat, interval: int) => GetPerformance(values, interval, slope))
  }

  /** With positive intervals the performance lists are those of the
      intervals, one each. */
  lemma PerformancesOk(values: seq<Option<real>>, intervals: seq<int>, slope: Slope)
    requires forall k :: 0 <= k < |intervals| ==> intervals[k] > 0
    ensures Performances(values, intervals, slope).Ok?
    ensures forall k :: 0 <= k < |intervals| ==>
      Performances(values, intervals, slope).value[k] == GetPerformance(values, intervals[k], slope).value
  {
    MapIndexedAll(intervals, (k: nat, interval: int) => GetPerformance(values, interval, slope));
  }

  /** analyse: the score of the opening prices, classified; when there is
      not a single performance value it sells and keeps the previous
      score. get_bars gives no rows as a one-dimensional empty array, so
      bars[:, 1] raises IndexError once there is an interval to loop over. */
  function Analyse(bars: seq<Row>, intervals: seq<int>, slope: Slope, buy: real, sell: real, prev: real)
    : (r: Result<Outcome>)
    ensures |bars| == 0 && |intervals| > 0 ==> r == Err(IndexError)
    ensures |bars| > 0 || |intervals| == 0 ==>
      (r.Err? <==> Performances(Opens(bars), intervals, slope).Err?)
      && (r.Err? ==> r.error == Performances(Opens(bars), intervals, slope).error)
    ensures r.Ok? ==> var perfs := Performances(Opens(bars), intervals, slope).value;
      match Hotness(perfs)
      case None => r.value == Outcome(prev, Sell)
      case Some(h) => r.value == Outcome(h, Classify(h, buy, sell)) && 0.0 <= h <= 1.0
  {
    if |bars| == 0 && |intervals| > 0 then Err(IndexError)
    else
      var perfs :- Performances(Opens(bars), intervals, slope);
      match Hotness(perfs)
      case None => Ok(Outcome(prev, Sell))
      case Some(h) => Ok(Outcome(h, Classify(h, buy, sell)))
  }

  /** When every change of slope over positive intervals is non-negative
      and there is at least one, the score is 1. */
  lemma AllRisingScoresOne(bars: seq<Row>, intervals: seq<int>, slope: Slope, buy: real, sell: real, prev: real,
                            perfs: seq<seq<real>>)
    requires |perfs| == |intervals|
    requires forall k :: 0 <= k < |intervals| ==>
      intervals[k] > 0 && GetPerformance(Opens(bars), intervals[k], slope) == Ok(perfs[k])
    requires NoneNegative(perfs) && exists k :: 0 <= k < |perfs| && perfs[k] != []
    ensures Analyse(bars, intervals, slope, buy, sell, prev) == Ok(Outcome(1.0, Classify(1.0, buy, sell)))
  {
    PerformancesOk(Opens(bars), intervals, slope);
    assert Performances(Opens(bars), intervals, slope).value == perfs;
    assert Hotness(perfs) == Some(1.0);
  }

  /** How many months the filter looks back: its lookback setting. */
  function LookBackMonths(lookback: int): int
  {
    lookback
  }

  /** A calendar month: the year and the month 1..12. */
  datatype YearMonth = YearMonth(year: int, month: int)

  /** Months since January of year 0. */
  function MonthIndex(d: YearMonth): int
  {
    d.year * 12 + d.month - 1
  }

  /** look_back_date: today moved back by relativedelta(months=-lookback),
      which lands in a valid month exactly lookback months earlier, the
      year rolling over as needed. */
  function LookBackDate(today: YearMonth, lookback: int): (r: YearMonth)
    requires 1 <= today.month <= 12
    ensures 1 <= r.month <= 12
    ensures MonthIndex(r) == MonthIndex(today) - LookBackMonths(lookback)
    ensures lookback == 0 ==> r == today
  {
    var k := MonthIndex(today) - LookBackMonths(lookback);
    YearMonth(k / 12, k % 12 + 1)
  }
}
