/** The strategy launcher: the fixed table of strategy configurations, the
    threshold variants generated from it, and the selection of which
    strategies to start.

    A configuration is a record; its numeric settings live in a map keyed by
    the setting names the strategies read. Starting a strategy (opening the
    portfolio and running it) is outside the model: its outcome is a
    parameter, None for success or the exception it raised. */
module StartStrategy {
  import opened Wrappers
  import opened PyMath
  import opened PyJson
  import opened StockSchema

  datatype StrategyClass = BaseStrategy | FilterStrategy

  datatype Strategy = Strategy(
    name: string,
    cls: StrategyClass,
    cash: int,
    orderType: OrderType,
    numbers: map<string, real>,
    filterName: Option<string>,
    ignoreSignals: seq<string>)

  /** str(i) for an integer. */
  function IntToString(i: int): (s: string)
    ensures |s| > 0
  {
    if i < 0 then "-" + NatToString(-i) else NatToString(i)
  }

  /** A configuration with the settings every entry of the table shares. */
  function Config(name: string, cls: StrategyClass, orderType: OrderType, threshold: Option<real>,
                  filterName: Option<string>, ignoreAroon: bool, limitPercentage: Option<(real, real)>): (r: Strategy)
    ensures r.name == name
  {
    var base := map["buy_percentage" := 0.4, "sell_percentage" := 1.0];
    var withThreshold := if threshold.Some? then base["threshold" := threshold.value] else base;
    var numbers := if limitPercentage.Some?
      then withThreshold["buy_under_value_limit_percentage" := limitPercentage.value.0]
                        ["sell_over_value_limit_percentage" := limitPercentage.value.1]
      else withThreshold;
    Strategy(name, cls, 2000, orderType, numbers, filterName,
             if ignoreAroon then ["AroonSignal"] else [])
  }

  /** StartStrategy.strategies: the nineteen configured strategies. */
  function Strategies(): (r: seq<Strategy>)
    ensures |r| == 19
  {
    var l := Some((0.002, 0.002));
    [ Config("SimpleMarket40", BaseStrategy, Market, None, None, false, None),
      Config("SimpleLimit40", BaseStrategy, Limit, None, None, false, Some((0.01, 0.005))),
      Config("RsiP14", FilterStrategy, Market, Some(70.0), Some("RsiP14"), true, None),
      Config("RsiP5", FilterStrategy, Market, Some(70.0), Some("RsiP5"), true, None),
      Config("AdxP14", FilterStrategy, Market, Some(30.0), Some("AdxP14"), true, None),
      Config("AdxP5", FilterStrategy, Market, Some(30.0), Some("AdxP5"), true, None),
      Config("RsiP14L", FilterStrategy, Limit, Some(70.0), Some("RsiP14"), true, l),
      Config("RsiP5L", FilterStrategy, Limit, Some(70.0), Some("RsiP5"), true, l),
      Config("AdxP14L", FilterStrategy, Limit, Some(30.0), Some("AdxP14"), true, l),
      Config("AdxP5L", FilterStrategy, Limit, Some(30.0), Some("AdxP5"), true, l),
      Config("SecureHot2Month", FilterStrategy, Market, Some(0.8), Some("SecureHot2Month"), false, None),
      Config("SecureHot3Month", FilterStrategy, Market, Some(0.7), Some("SecureHot3Month"), false, None),
      Config("SecureHot6Month", FilterStrategy, Market, Some(0.6), Some("SecureHot6Month"), false, None),
      Config("SecureHotH2Month", FilterStrategy, Market, Some(0.8), Some("SecureHotH2Month"), false, None),
      Config("SecureHotH3Month", FilterStrategy, Market, Some(0.7), Some("SecureHotH3Month"), false, None),
      Config("SecureHotH6Month", FilterStrategy, Market, Some(0.6), Some("SecureHotH6Month"), false, None),
      Config("SecureHotH6MonthL", FilterStrategy, Limit, Some(0.6), Some("SecureHotH6Month"), false, l),
      Config("SecureHotH6NoAr", FilterStrategy, Market, Some(0.6), Some("SecureHotH6Month"), true, None),
      Config("SecureHotH6NoArL", FilterStrategy, Limit, Some(0.6), Some("SecureHotH6Month"), true, l) ]
  }

  /** One generated variant: a copy of s whose name gains the suffix and the
      parameter in hundredths, and whose setting key holds the parameter. */
  function Variant(s: Strategy, suffix: string, key: string, param: real): Strategy
  {
    s.(name := s.name + suffix + IntToString(Trunc(param * 100.0)), numbers := s.numbers[key := param])
  }

  /** A variant differs from its original only in the name, which extends
      the original's, and in the one setting it overrides. */
  lemma VariantChanges(s: Strategy, suffix: string, key: string, param: real)
    ensures var r := Variant(s, suffix, key, param);
            r.name[..|s.name|] == s.name
            && r.name[|s.name|..] == suffix + IntToString(Trunc(param * 100.0))
            && key in r.numbers && r.numbers[key] == param
            && (forall k :: k != key ==> (k in r.numbers <==> k in s.numbers))
            && (forall k :: k in s.numbers && k != key ==> r.numbers[k] == s.numbers[k])
            && r.(name := s.name, numbers := s.numbers) == s
  {
  }

  /** The variants of every strategy for one parameter, in table order. */
  function Row(strategies: seq<Strategy>, suffix: string, key: string, param: real): (r: seq<Strategy>)
    ensures |r| == |strategies|
    ensures forall i :: 0 <= i < |r| ==> r[i] == Variant(strategies[i], suffix, key, param)
  {
    seq(|strategies|, i requires 0 <= i < |strategies| => Variant(strategies[i], suffix, key, param))
  }

  /** __extend_strategies: for every parameter in turn, a variant of every
      strategy (param-major order). */
  function Extend(strategies: seq<Strategy>, suffix: string, key: string, params: seq<real>): (r: seq<Strategy>)
    ensures |r| == Times(|params|, |strategies|)
    decreases |params|
  {
    if |params| == 0 then []
    else
      var n := |params| - 1;
      Extend(strategies, suffix, key, params[..n]) + Row(strategies, suffix, key, params[n])
  }

  /** a * b as repeated addition, so that the index arithmetic below stays
      linear for the solver. */
  function Times(a: nat, b: nat): (r: nat)
    decreases a
  {
    if a == 0 then 0 else Times(a - 1, b) + b
  }

  lemma {:induction false} TimesIsProduct(a: nat, b: nat)
    ensures Times(a, b) == a * b
    decreases a
  {
    if a > 0 {
      TimesIsProduct(a - 1, b);
    }
  }

  /** Row p of n rows of width m lies before row n. */
  lemma {:induction false} InFrontRows(p: nat, s: nat, n: nat, m: nat)
    requires p < n && s < m
    ensures Times(p, m) + s < Times(n, m)
    decreases n
  {
    if p < n - 1 {
      InFrontRows(p, s, n - 1, m);
    }
  }

  /** Entry p * |strategies| + s is strategy s under parameter p. */
  lemma {:induction false} ExtendAt(strategies: seq<Strategy>, suffix: string, key: string, params: seq<real>, p: nat, s: nat)
    requires p < |params| && s < |strategies|
    ensures Times(p, |strategies|) + s < |Extend(strategies, suffix, key, params)|
    ensures Extend(strategies, suffix, key, params)[Times(p, |strategies|) + s]
            == Variant(strategies[s], suffix, key, params[p])
    decreases |params|
  {
    var m := |strategies|;
    var n := |params| - 1;
    var front := Extend(strategies, suffix, key, params[..n]);
    var row := Row(strategies, suffix, key, params[n]);
    assert Extend(strategies, suffix, key, params) == front + row;
    if p < n {
      ExtendAt(strategies, suffix, key, params[..n], p, s);
      assert params[..n][p] == params[p];
    } else {
      assert Times(p, m) == |front|;
    }
  }

  /** Entry p * |strategies| + s of r exists and is strategy s under
      parameter p. */
  predicate VariantAt(r: seq<Strategy>, strategies: seq<Strategy>, suffix: string, key: string,
                      params: seq<real>, p: int, s: int)
    requires 0 <= p < |params| && 0 <= s < |strategies|
  {
    p * |strategies| + s < |r| && r[p * |strategies| + s] == Variant(strategies[s], suffix, key, params[p])
  }

  /** The whole shape: |params| * |strategies| entries in param-major
      order, entry p * |strategies| + s being strategy s under parameter p.
      The inputs are values and stay as they were. */
  lemma ExtendShape(strategies: seq<Strategy>, suffix: string, key: string, params: seq<real>)
    ensures |Extend(strategies, suffix, key, params)| == |params| * |strategies|
    ensures forall p, s :: 0 <= p < |params| && 0 <= s < |strategies| ==>
              VariantAt(Extend(strategies, suffix, key, params), strategies, suffix, key, params, p, s)
  {
    var r := Extend(strategies, suffix, key, params);
    TimesIsProduct(|params|, |strategies|);
    forall p, s | 0 <= p < |params| && 0 <= s < |strategies|
      ensures VariantAt(r, strategies, suffix, key, params, p, s)
    {
      ExtendAt(strategies, suffix, key, params, p, s);
      TimesIsProduct(p, |strategies|);
    }
  }

  /** The names the hot-list variants are generated from. */
  const HOT_NAMES: seq<string> := ["StockIsHot6Month", "SecureHotH2Month", "SecureHotH3Month", "SecureHotH6Month"]

  /** The strategy's name is on the list. */
  predicate Listed(s: Strategy, names: seq<string>)
  {
    s.name in names
  }

  /** The strategies whose name is on a list, in table order. */
  function Named(strategies: seq<Strategy>, names: seq<string>): (r: seq<Strategy>)
    ensures |r| <= |strategies|
    ensures forall i :: 0 <= i < |r| ==> r[i] in strategies && Listed(r[i], names)
    decreases |strategies|
  {
    if |strategies| == 0 then []
    else
      var n := |strategies| - 1;
      Named(strategies[..n], names) + (if Listed(strategies[n], names) then [strategies[n]] else [])
  }

  const THRESHOLDS: seq<real> := [0.4, 0.5, 0.6, 0.65, 0.7, 0.75, 0.8, 0.85, 0.9, 0.95]
  const HOT_BUY_THRESHOLDS: seq<real> := [0.4, 0.5, 0.6, 0.7, 0.75, 0.8, 0.85, 0.9, 0.95]
  const BUY_THRESHOLDS: seq<real> := [0.3, 0.4, 0.5, 0.6, 0.7]

  /** get_all_strategies: threshold variants of the hot-list strategies,
      buy-threshold variants of those, buy-threshold variants of the whole
      table, then the table itself. */
  function AllStrategies(): (r: seq<Strategy>)
    ensures |r| == 30 + 270 + 95 + 19
  {
    HotListIsSecureHotH();
    TimesIsProduct(10, 3);
    TimesIsProduct(9, 30);
    TimesIsProduct(5, 19);
    var hot := Named(Strategies(), HOT_NAMES);
    var first := Extend(hot, "T", "threshold", THRESHOLDS);
    var all := first + Extend(first, "V", "buy_threshold", HOT_BUY_THRESHOLDS);
    var all := all + Extend(Strategies(), "V", "buy_threshold", BUY_THRESHOLDS);
    all + Strategies()
  }

  /** Only the three SecureHotH strategies match the hot list: there is no
      StockIsHot6Month in the table. */
  lemma HotListIsSecureHotH()
    ensures Named(Strategies(), HOT_NAMES) == Strategies()[13..16]
  {
    var t := Strategies();
    assert forall i :: 0 <= i < |t| ==> (Listed(t[i], HOT_NAMES) <==> 13 <= i < 16);
    NamedBlock(t, HOT_NAMES, 13, 16);
  }

  /** Filtering a concatenation filters each part. */
  lemma {:induction false} NamedAppend(a: seq<Strategy>, b: seq<Strategy>, names: seq<string>)
    ensures Named(a + b, names) == Named(a, names) + Named(b, names)
    decreases |b|
  {
    if |b| > 0 {
      var n := |b| - 1;
      assert (a + b)[..|a + b| - 1] == a + b[..n];
      NamedAppend(a, b[..n], names);
    } else {
      assert a + b == a;
    }
  }

  /** Nothing is picked when no name is listed. */
  lemma {:induction false} NamedNone(strategies: seq<Strategy>, names: seq<string>)
    requires forall i :: 0 <= i < |strategies| ==> !Listed(strategies[i], names)
    ensures Named(strategies, names) == []
    decreases |strategies|
  {
    if |strategies| > 0 {
      var n := |strategies| - 1;
      assert forall i :: 0 <= i < n ==> strategies[..n][i] == strategies[i];
      NamedNone(strategies[..n], names);
    }
  }

  /** Everything is picked when every name is listed. */
  lemma {:induction false} NamedAll(strategies: seq<Strategy>, names: seq<string>)
    requires forall i :: 0 <= i < |strategies| ==> Listed(strategies[i], names)
    ensures Named(strategies, names) == strategies
    decreases |strategies|
  {
    if |strategies| > 0 {
      var n := |strategies| - 1;
      assert forall i :: 0 <= i < n ==> strategies[..n][i] == strategies[i];
      NamedAll(strategies[..n], names);
      assert strategies[..n] + [strategies[n]] == strategies;
    }
  }

  /** When exactly the strategies at positions lo..hi have listed names,
      Named picks out that block. */
  lemma NamedBlock(strategies: seq<Strategy>, names: seq<string>, lo: nat, hi: nat)
    requires lo <= hi <= |strategies|
    requires forall i :: 0 <= i < |strategies| ==> (Listed(strategies[i], names) <==> lo <= i < hi)
    ensures Named(strategies, names) == strategies[lo..hi]
  {
    var before, block, after := strategies[..lo], strategies[lo..hi], strategies[hi..];
    assert strategies == before + block + after;
    NamedAppend(before + block, after, names);
    NamedAppend(before, block, names);
    SliceListed(strategies, names, lo, hi);
    NamedNone(before, names);
    NamedAll(block, names);
    NamedNone(after, names);
  }

  /** The listing of the three parts around a block of listed strategies. */
  lemma SliceListed(strategies: seq<Strategy>, names: seq<string>, lo: nat, hi: nat)
    requires lo <= hi <= |strategies|
    requires forall i :: 0 <= i < |strategies| ==> (Listed(strategies[i], names) <==> lo <= i < hi)
    ensures forall i :: 0 <= i < lo ==> !Listed(strategies[..lo][i], names)
    ensures forall i :: 0 <= i < hi - lo ==> Listed(strategies[lo..hi][i], names)
    ensures forall i :: 0 <= i < |strategies| - hi ==> !Listed(strategies[hi..][i], names)
  {
    forall i | 0 <= i < hi - lo
      ensures Listed(strategies[lo..hi][i], names)
    {
      assert strategies[lo..hi][i] == strategies[lo + i];
    }
    forall i | 0 <= i < |strategies| - hi
      ensures !Listed(strategies[hi..][i], names)
    {
      assert strategies[hi..][i] == strategies[hi + i];
    }
  }

  /** A strategy runs when "ALL" or its name is among the requested names. */
  predicate Selected(s: Strategy, requested: seq<string>)
  {
    "ALL" in requested || s.name in requested
  }

  /** The portfolio names of the selected strategies, in order. */
  function SelectedNames(strategies: seq<Strategy>, requested: seq<string>, prefix: string): (r: seq<string>)
    decreases |strategies|
  {
    if |strategies| == 0 then []
    else
      var n := |strategies| - 1;
      SelectedNames(strategies[..n], requested, prefix)
        + (if Selected(strategies[n], requested) then [prefix + strategies[n].name] else [])
  }

  /** The number of selected strategies whose start raised RuntimeError, or
      the first other exception, which build does not catch. */
  function Failures(strategies: seq<Strategy>, requested: seq<string>, prefix: string,
                    start: string -> Option<PyError>): (r: Result<nat>)
    ensures r.Ok? ==> r.value <= |strategies|
    ensures r.Err? ==> r.error != RuntimeError
    decreases |strategies|
  {
    if |strategies| == 0 then Ok(0)
    else
      var n := |strategies| - 1;
      var before :- Failures(strategies[..n], requested, prefix, start);
      var s := strategies[n];
      if !Selected(s, requested) then Ok(before)
      else match start(prefix + s.name)
        case None => Ok(before)
        case Some(e) => if e == RuntimeError then Ok(before + 1) else Err(e)
  }

  /** When every selected start succeeds or raises RuntimeError, the return
      code counts the failures, so it is at most the number started. */
  lemma {:induction false} FailuresBounded(strategies: seq<Strategy>, requested: seq<string>, prefix: string,
                                           start: string -> Option<PyError>)
    ensures Failures(strategies, requested, prefix, start).Ok? <==>
            forall i :: 0 <= i < |strategies| && Selected(strategies[i], requested) ==>
              start(prefix + strategies[i].name) in {None, Some(RuntimeError)}
    ensures Failures(strategies, requested, prefix, start).Ok? ==>
            Failures(strategies, requested, prefix, start).value <= |SelectedNames(strategies, requested, prefix)|
    decreases |strategies|
  {
    if |strategies| > 0 {
      var n := |strategies| - 1;
      FailuresBounded(strategies[..n], requested, prefix, start);
      assert forall i :: 0 <= i < n ==> strategies[..n][i] == strategies[i];
    }
  }

  /** A strategy is started exactly when it is selected. */
  lemma {:induction false} SelectionExact(strategies: seq<Strategy>, requested: seq<string>, prefix: string)
    ensures forall i :: 0 <= i < |strategies| && Selected(strategies[i], requested) ==>
              prefix + strategies[i].name in SelectedNames(strategies, requested, prefix)
    ensures forall x :: x in SelectedNames(strategies, requested, prefix) ==>
              exists i :: 0 <= i < |strategies| && Selected(strategies[i], requested) && x == prefix + strategies[i].name
    decreases |strategies|
  {
    if |strategies| > 0 {
      var n := |strategies| - 1;
      SelectionExact(strategies[..n], requested, prefix);
      assert forall i :: 0 <= i < n ==> strategies[..n][i] == strategies[i];
    }
  }

  /** With "ALL" requested every strategy runs, under the prefixed name. */
  lemma {:induction false} AllSelectsEverything(strategies: seq<Strategy>, requested: seq<string>, prefix: string)
    requires "ALL" in requested
    ensures |SelectedNames(strategies, requested, prefix)| == |strategies|
    ensures forall i :: 0 <= i < |strategies| ==>
              SelectedNames(strategies, requested, prefix)[i] == prefix + strategies[i].name
    decreases |strategies|
  {
    if |strategies| > 0 {
      var n := |strategies| - 1;
      AllSelectsEverything(strategies[..n], requested, prefix);
    }
  }

  /** build over a list of strategies: start every selected one in order,
      counting the ones that raise RuntimeError; any other exception ends
      the run. */
  method Build(all: seq<Strategy>, requested: seq<string>, prefix: string, start: string -> Option<PyError>)
    returns (started: seq<string>, code: Result<nat>)
    ensures code == Failures(all, requested, prefix, start)
    ensures code.Ok? ==> started == SelectedNames(all, requested, prefix)
  {
    started := [];
    var failures := 0;
    var i := 0;
    while i < |all|
      invariant 0 <= i <= |all|
      invariant Failures(all[..i], requested, prefix, start) == Ok(failures)
      invariant started == SelectedNames(all[..i], requested, prefix)
    {
      var s := all[i];
      assert all[..i + 1][..i] == all[..i];
      if Selected(s, requested) {
        var name := prefix + s.name;
        started := started + [name];
        var outcome := start(name);
        if outcome.Some? && outcome.value != RuntimeError {
          FailuresPropagate(all, i + 1, requested, prefix, start);
          code := Err(outcome.value);
          return;
        }
        if outcome.Some? {
          failures := failures + 1;
        }
      }
      i := i + 1;
    }
    assert all[..i] == all;
    code := Ok(failures);
  }

  /** build as the launcher runs it, over get_all_strategies. */
  method BuildAll(requested: seq<string>, prefix: string, start: string -> Option<PyError>)
    returns (started: seq<string>, code: Result<nat>)
    ensures code == Failures(AllStrategies(), requested, prefix, start)
    ensures code.Ok? ==> started == SelectedNames(AllStrategies(), requested, prefix)
    ensures "ALL" in requested && code.Ok? ==> |started| == 414
  {
    var all := AllStrategies();
    started, code := Build(all, requested, prefix, start);
    if "ALL" in requested {
      AllSelectsEverything(all, requested, prefix);
    }
  }

  /** An exception that escapes a prefix escapes the whole run. */
  lemma {:induction false} FailuresPropagate(all: seq<Strategy>, k: nat, requested: seq<string>, prefix: string,
                                             start: string -> Option<PyError>)
    requires k <= |all|
    requires Failures(all[..k], requested, prefix, start).Err?
    ensures Failures(all, requested, prefix, start) == Failures(all[..k], requested, prefix, start)
    decreases |all| - k
  {
    if k < |all| {
      assert all[..k + 1][..k] == all[..k];
      FailuresPropagate(all, k + 1, requested, prefix, start);
    } else {
      assert all[..k] == all;
    }
  }
}
