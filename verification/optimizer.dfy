/** The parameter optimizer: every candidate parameter tuple is run through the
    indicator and the backtester, and the most profitable one is kept.

    The indicator is mutable in the source: calc_profit attaches the stock's
    bars the first time and appends the live price on every call, before the
    candidate's parameters are even checked. The model threads those bars
    through the sweep explicitly (BarsBefore), so "what candidate j earns" is a
    function of the sweep and j (Eval).
 */
module Optimizer {
  import opened Wrappers
  import opened BaseIndicator
  import opened BackTesting

  /** The profit run_optimizer starts from: a candidate is only kept when it
      earns strictly more. */
  const PROFIT_FLOOR: real := -2000.0

  /** The indicator as the optimizer drives it: set_parameters, and
      generate_signals over float bars with the foreign indicator routines
      folded in; noBarsError is what those routines raise when the buffers
      are still None, and objectError what they raise when the buffers are
      object arrays holding a None. */
  datatype Strategy<!P> = Strategy(setParameters: seq<int> -> Result<P>, generate: (Bars, P) -> Result<Generated>,
                                   noBarsError: PyError, objectError: PyError)

  /** What one candidate earns: its profit and the status of its signal. */
  datatype Score = Score(profit: real, status: int)

  /** run_optimizer's answer: the best profit, the candidate that first reached
      it, and the status of the last candidate that ran through. */
  datatype Outcome = Outcome(profitMax: real, paramMax: Option<seq<int>>, status: int)

  /** The opening of calc_profit: bars are attached only when the indicator has
      none (and a usable stock_bars is given), then the live price is appended. */
  function Prepare(bars: Buffers, stockBars: BarsInput, lastPrice: Option<Price>): (r: Buffers)
    ensures HasBars(bars) ==> r == AppendValueToBars(bars, lastPrice)
    ensures r.NoBars? <==> bars.NoBars? && !(stockBars.Table? && stockBars.width == 6) && lastPrice.None?
    ensures r.NoneLed? <==>
      bars.NoneLed? || (bars.NoBars? && !(stockBars.Table? && stockBars.width == 6) && lastPrice.Some?)
    ensures bars.NoBars? && stockBars.Table? && stockBars.width == 6 ==>
      r.Numeric? && |r.bars.close| == |stockBars.rows| + (if lastPrice.Some? then 1 else 0)
  {
    var attached := if !HasBars(bars) then SetBars(bars, stockBars) else bars;
    AppendValueToBars(attached, lastPrice)
  }

  /** The profit of a generated signal: the last backtest total over the
      starting capital, less one, with the default backtest arguments. An empty
      signal has no last total; a shift that runs past the open prices is
      reported as IndexError as well. */
  function Profit(g: Generated, open: seq<real>): (r: Result<real>)
    ensures r.Err? <==> |g.signal| == 0 || !InBounds(g.signal, open, g.shift) || !Fundable(g.signal, open, g.shift)
    ensures r.Err? && |g.signal| > 0 && InBounds(g.signal, open, g.shift) ==> r.error == ZeroDivisionError
    ensures |g.signal| == 0 || !InBounds(g.signal, open, g.shift) ==> r == Err(IndexError)
  {
    if |g.signal| == 0 || !InBounds(g.signal, open, g.shift) then Err(IndexError)
    else
      var total :- Backtest(g.signal, open, g.shift, DefaultFees);
      Ok(total[|total| - 1] / DefaultFees.initialCapital - 1.0)
  }

  /** A signal that never buys or sells earns exactly nothing. */
  lemma IdleSignalEarnsNothing(g: Generated, open: seq<real>)
    requires |g.signal| > 0 && InBounds(g.signal, open, g.shift)
    requires forall i :: 0 <= i < |g.signal| ==> g.signal[i] != BUY && g.signal[i] != SELL
    ensures Profit(g, open) == Ok(0.0)
  {
    AllHoldConstant(g.signal, open, g.shift, DefaultFees);
  }

  /** calc_profit on bars already prepared: set_parameters, then
      generate_signals (whose foreign routines fail on None buffers), then
      the status and the backtest. */
  function CalcProfit<P>(bars: Buffers, s: Strategy<P>, candidate: seq<int>): (r: Result<Score>)
    ensures s.setParameters(candidate).Err? ==> r == Err(s.setParameters(candidate).error)
    ensures s.setParameters(candidate).Ok? && bars.NoBars? ==> r == Err(s.noBarsError)
    ensures s.setParameters(candidate).Ok? && bars.NoneLed? ==> r == Err(s.objectError)
    ensures r.Ok? ==>
      && bars.Numeric? && s.setParameters(candidate).Ok?
      && var g := s.generate(bars.bars, s.setParameters(candidate).value);
      && g.Ok? && r.value.status == GetStatus(g.value.signal)
      && Profit(g.value, bars.bars.open) == Ok(r.value.profit)
  {
    var p :- s.setParameters(candidate);
    match bars
    case NoBars => Err(s.noBarsError)
    case NoneLed(_) => Err(s.objectError)
    case Numeric(b) =>
      var g :- s.generate(b, p);
      var profit :- Profit(g, b.open);
      Ok(Score(profit, GetStatus(g.signal)))
  }

  /** calc_profit for one indicator, as a value: what a candidate yields on
      the bars it is given. */
  function CalcOf<P>(s: Strategy<P>): (Buffers, seq<int>) -> Result<Score>
  {
    (bars: Buffers, candidate: seq<int>) => CalcProfit(bars, s, candidate)
  }

  /** One optimizer run: the candidates, calc_profit for the indicator, its
      bars before the run, the stock bars offered to it and the live price. */
  datatype Sweep = Sweep(candidates: seq<seq<int>>, calcProfit: (Buffers, seq<int>) -> Result<Score>,
                         bars: Buffers, stockBars: BarsInput, lastPrice: Option<Price>)

  /** The indicator's bars once the first k candidates have been prepared. */
  function BarsBefore(w: Sweep, k: nat): Buffers
  {
    if k == 0 then w.bars else Prepare(BarsBefore(w, k - 1), w.stockBars, w.lastPrice)
  }

  /** What candidate j yields, on the bars it sees. */
  function Eval(w: Sweep, j: nat): Result<Score>
    requires j < |w.candidates|
  {
    w.calcProfit(BarsBefore(w, j + 1), w.candidates[j])
  }

  /** What every candidate of the sweep yields, in order. */
  function Evals(w: Sweep): (r: seq<Result<Score>>)
    ensures |r| == |w.candidates|
  {
    seq(|w.candidates|, j requires 0 <= j < |w.candidates| => Eval(w, j))
  }

  /** Result j raises something other than ValueError, which ends the run. */
  predicate Fatal(rs: seq<Result<Score>>, j: nat)
    requires j < |rs|
  {
    rs[j].Err? && rs[j].error != ValueError
  }

  /** The outcome promised for the first n candidates, given what each one
      yields: no scored candidate beats the best profit, which is the floor or
      some candidate's profit; the kept parameters are those of the first
      candidate to reach it; the status is that of the last scored candidate,
      NO_SIGNAL if there is none. */
  predicate IsBest(cands: seq<seq<int>>, rs: seq<Result<Score>>, n: nat, o: Outcome)
    requires n <= |rs| && n <= |cands|
  {
    Bounded(rs, n, o) && FirstToReach(cands, rs, n, o) && LastStatus(rs, n, o)
  }

  predicate Bounded(rs: seq<Result<Score>>, n: nat, o: Outcome)
    requires n <= |rs|
  {
    && PROFIT_FLOOR <= o.profitMax
    && forall j :: 0 <= j < n && rs[j].Ok? ==> rs[j].value.profit <= o.profitMax
  }

  /** Candidate i is scored at profit m, and no scored candidate before it
      reaches m. */
  predicate FirstAt(rs: seq<Result<Score>>, i: nat, m: real)
    requires i < |rs|
  {
    && rs[i].Ok? && rs[i].value.profit == m
    && forall j :: 0 <= j < i && rs[j].Ok? ==> rs[j].value.profit < m
  }

  predicate FirstToReach(cands: seq<seq<int>>, rs: seq<Result<Score>>, n: nat, o: Outcome)
    requires n <= |rs| && n <= |cands|
  {
    && (o.paramMax.None? ==> o.profitMax == PROFIT_FLOOR)
    && (o.paramMax.Some? ==>
          PROFIT_FLOOR < o.profitMax
          && exists i :: 0 <= i < n && FirstAt(rs, i, o.profitMax) && cands[i] == o.paramMax.value)
  }

  /** Candidate i is scored with status st and none after it, up to n, is. */
  predicate LastAt(rs: seq<Result<Score>>, n: nat, i: nat, st: int)
    requires i < n <= |rs|
  {
    && rs[i].Ok? && rs[i].value.status == st
    && forall j :: i < j < n ==> rs[j].Err?
  }

  predicate LastStatus(rs: seq<Result<Score>>, n: nat, o: Outcome)
    requires n <= |rs|
  {
    && ((forall j :: 0 <= j < n ==> rs[j].Err?) ==> o.status == NO_SIGNAL)
    && ((exists j :: 0 <= j < n && rs[j].Ok?) ==> exists i :: 0 <= i < n && LastAt(rs, n, i, o.status))
  }

  /** The loop body on a scored candidate: a strictly higher profit takes over
      the best profit and the parameters; the status is always taken over. */
  function Update(o: Outcome, candidate: seq<int>, s: Score): Outcome
  {
    if s.profit > o.profitMax then Outcome(s.profit, Some(candidate), s.status)
    else o.(status := s.status)
  }

  /** A failing candidate leaves the promise intact. */
  lemma SkipKeepsBest(cands: seq<seq<int>>, done: seq<Result<Score>>, res: Result<Score>, o: Outcome)
    requires |done| < |cands| && IsBest(cands, done, |done|, o) && res.Err?
    ensures IsBest(cands, done + [res], |done| + 1, o)
  {
    var n := |done|;
    var rs := done + [res];
    assert forall j :: 0 <= j < n ==> rs[j] == done[j];
    if exists j :: 0 <= j < n + 1 && rs[j].Ok? {
      var i :| 0 <= i < n && LastAt(done, n, i, o.status);
      assert LastAt(rs, n + 1, i, o.status);
    }
    if o.paramMax.Some? {
      var i :| 0 <= i < n && FirstAt(done, i, o.profitMax) && cands[i] == o.paramMax.value;
      assert FirstAt(rs, i, o.profitMax);
    }
  }

  /** A scored candidate, folded in by Update, keeps the promise. */
  lemma ScoreKeepsBest(cands: seq<seq<int>>, done: seq<Result<Score>>, res: Result<Score>, o: Outcome)
    requires |done| < |cands| && IsBest(cands, done, |done|, o) && res.Ok?
    ensures IsBest(cands, done + [res], |done| + 1, Update(o, cands[|done|], res.value))
  {
    var n := |done|;
    var rs := done + [res];
    assert forall j :: 0 <= j < n ==> rs[j] == done[j];
    var u := Update(o, cands[n], res.value);
    assert LastAt(rs, n + 1, n, u.status);
    if res.value.profit > o.profitMax {
      assert FirstAt(rs, n, u.profitMax);
    } else if o.paramMax.Some? {
      var i :| 0 <= i < n && FirstAt(done, i, o.profitMax) && cands[i] == o.paramMax.value;
      assert FirstAt(rs, i, o.profitMax);
    }
  }

  /** The sweep as a fold over what the candidates yield, left to right: a
      failure other than ValueError ends it, a ValueError is skipped, a score
      is folded in by Update. */
  function Optimize(cands: seq<seq<int>>, rs: seq<Result<Score>>): Result<Outcome>
    requires |rs| <= |cands|
  {
    if |rs| == 0 then Ok(Outcome(PROFIT_FLOOR, None, NO_SIGNAL))
    else
      var n := |rs| - 1;
      var prev :- Optimize(cands, rs[..n]);
      if rs[n].Ok? then Ok(Update(prev, cands[n], rs[n].value))
      else if rs[n].error == ValueError then Ok(prev)
      else Err(rs[n].error)
  }

  /** One step of the fold, unrolled: the prefix before the last result, and
      how the last result extends it. */
  lemma OptimizeLast(cands: seq<seq<int>>, rs: seq<Result<Score>>)
    requires 0 < |rs| <= |cands|
    ensures forall j :: 0 <= j < |rs| - 1 ==> (Fatal(rs[..|rs| - 1], j) <==> Fatal(rs, j))
    ensures Optimize(cands, rs) ==
      match Optimize(cands, rs[..|rs| - 1])
      case Err(e) => Err(e)
      case Ok(o) =>
        if rs[|rs| - 1].Ok? then Ok(Update(o, cands[|rs| - 1], rs[|rs| - 1].value))
        else if !Fatal(rs, |rs| - 1) then Ok(o)
        else Err(rs[|rs| - 1].error)
  {
    var n := |rs| - 1;
    assert forall j :: 0 <= j < n ==> rs[..n][j] == rs[j];
  }

  /** The fold fails exactly when some result is fatal. */
  lemma {:induction false} OptimizeOkIff(cands: seq<seq<int>>, rs: seq<Result<Score>>)
    requires |rs| <= |cands|
    ensures Optimize(cands, rs).Ok? <==> forall j :: 0 <= j < |rs| ==> !Fatal(rs, j)
  {
    if |rs| > 0 {
      var n := |rs| - 1;
      var pre := rs[..n];
      OptimizeOkIff(cands, pre);
      OptimizeLast(cands, rs);
      if Optimize(cands, pre).Err? {
        var j :| 0 <= j < n && Fatal(pre, j);
        assert Fatal(rs, j);
      } else if Fatal(rs, n) {
        assert Optimize(cands, rs).Err?;
      } else {
        assert forall j :: 0 <= j < n ==> !Fatal(pre, j);
      }
    }
  }

  /** A failed fold carries the first fatal result's error. */
  lemma {:induction false} OptimizeFirstFatal(cands: seq<seq<int>>, rs: seq<Result<Score>>)
    requires |rs| <= |cands| && Optimize(cands, rs).Err?
    ensures exists j :: (0 <= j < |rs| && Fatal(rs, j) && Optimize(cands, rs).error == rs[j].error
                         && forall k :: 0 <= k < j ==> !Fatal(rs, k))
  {
    var n := |rs| - 1;
    var pre := rs[..n];
    OptimizeLast(cands, rs);
    if Optimize(cands, pre).Err? {
      OptimizeFirstFatal(cands, pre);
      var j :| 0 <= j < n && Fatal(pre, j) && Optimize(cands, pre).error == pre[j].error
               && forall k :: 0 <= k < j ==> !Fatal(pre, k);
      assert pre[j] == rs[j];
    } else {
      OptimizeOkIff(cands, pre);
      assert Fatal(rs, n);
    }
  }

  /** A successful fold yields the best outcome. */
  lemma {:induction false} OptimizeBest(cands: seq<seq<int>>, rs: seq<Result<Score>>)
    requires |rs| <= |cands| && Optimize(cands, rs).Ok?
    ensures IsBest(cands, rs, |rs|, Optimize(cands, rs).value)
  {
    if |rs| > 0 {
      var n := |rs| - 1;
      var pre := rs[..n];
      OptimizeLast(cands, rs);
      OptimizeBest(cands, pre);
      assert pre + [rs[n]] == rs;
      var o := Optimize(cands, pre).value;
      if rs[n].Ok? {
        ScoreKeepsBest(cands, pre, rs[n], o);
      } else {
        SkipKeepsBest(cands, pre, rs[n], o);
      }
    }
  }

  /** The fold fails exactly when some result is fatal, with the first fatal
      result's error; otherwise its outcome is the best one. */
  lemma OptimizeSpec(cands: seq<seq<int>>, rs: seq<Result<Score>>)
    requires |rs| <= |cands|
    ensures Optimize(cands, rs).Ok? <==> forall j :: 0 <= j < |rs| ==> !Fatal(rs, j)
    ensures Optimize(cands, rs).Err? ==>
      exists j :: (0 <= j < |rs| && Fatal(rs, j) && Optimize(cands, rs).error == rs[j].error
                   && forall k :: 0 <= k < j ==> !Fatal(rs, k))
    ensures Optimize(cands, rs).Ok? ==> IsBest(cands, rs, |rs|, Optimize(cands, rs).value)
  {
    OptimizeOkIff(cands, rs);
    if Optimize(cands, rs).Err? {
      OptimizeFirstFatal(cands, rs);
    } else {
      OptimizeBest(cands, rs);
    }
  }

  /** Once the fold has failed on a prefix, later results change nothing. */
  lemma {:induction false} OptimizeErrSticks(cands: seq<seq<int>>, rs: seq<Result<Score>>, k: nat)
    requires k <= |rs| <= |cands| && Optimize(cands, rs[..k]).Err?
    ensures Optimize(cands, rs) == Optimize(cands, rs[..k])
    decreases |rs| - k
  {
    if k < |rs| {
      assert rs[..k + 1][..k] == rs[..k];
      OptimizeErrSticks(cands, rs, k + 1);
    } else {
      assert rs[..k] == rs;
    }
  }

  /** One more result extends the fold by one step. */
  lemma FoldStep(rs: seq<Result<Score>>, cands: seq<seq<int>>, i: nat, done: seq<Result<Score>>, res: Result<Score>)
    requires i < |rs| <= |cands| && done == rs[..i] && res == rs[i]
    ensures done + [res] == rs[..i + 1]
    ensures Optimize(cands, rs[..i + 1]) ==
      match Optimize(cands, done)
      case Err(e) => Err(e)
      case Ok(o) =>
        if res.Ok? then Ok(Update(o, cands[i], res.value))
        else if res.error == ValueError then Ok(o)
        else Err(res.error)
  {
    assert rs[..i + 1] == rs[..i] + [rs[i]];
    assert rs[..i + 1][..i] == done;
  }

  /** run_optimizer: only ValueError is skipped, any other failure ends the run
      with that failure; otherwise the outcome is the best one in the sense of
      IsBest. */
  method RunOptimizer(w: Sweep) returns (r: Result<Outcome>)
    ensures r.Ok? <==> forall j :: 0 <= j < |w.candidates| ==> !Fatal(Evals(w), j)
    ensures r.Err? ==>
      exists j :: (0 <= j < |w.candidates| && Fatal(Evals(w), j) && r.error == Evals(w)[j].error
                   && forall i :: 0 <= i < j ==> !Fatal(Evals(w), i))
    ensures r.Ok? ==> IsBest(w.candidates, Evals(w), |w.candidates|, r.value)
    ensures r == Optimize(w.candidates, Evals(w))
  {
    ghost var done: seq<Result<Score>> := [];
    var best := Outcome(PROFIT_FLOOR, None, NO_SIGNAL);
    var bars := w.bars;
    for i := 0 to |w.candidates|
      invariant bars == BarsBefore(w, i)
      invariant |done| == i && done == Evals(w)[..i]
      invariant Optimize(w.candidates, done) == Ok(best)
    {
      var res;
      bars, res := RunCandidate(w, i, bars);
      FoldStep(Evals(w), w.candidates, i, done, res);
      if res.Err? {
        if res.error != ValueError {
          OptimizeErrSticks(w.candidates, Evals(w), i + 1);
          OptimizeSpec(w.candidates, Evals(w));
          return Err(res.error);
        }
      } else {
        best := Update(best, w.candidates[i], res.value);
      }
      done := done + [res];
    }
    assert done == Evals(w);
    OptimizeSpec(w.candidates, Evals(w));
    r := Ok(best);
  }

  /** One call of calc_profit inside the sweep: prepares the bars candidate i
      sees and evaluates it on them. */
  method RunCandidate(w: Sweep, i: nat, bars: Buffers) returns (next: Buffers, res: Result<Score>)
    requires i < |w.candidates| && bars == BarsBefore(w, i)
    ensures next == BarsBefore(w, i + 1)
    ensures res == Evals(w)[i]
  {
    next := Prepare(bars, w.stockBars, w.lastPrice);
    res := w.calcProfit(next, w.candidates[i]);
  }

  /** IsBest pins the outcome down: two outcomes that both meet it are equal. */
  lemma IsBestUnique(cands: seq<seq<int>>, rs: seq<Result<Score>>, n: nat, a: Outcome, b: Outcome)
    requires n <= |rs| && n <= |cands| && IsBest(cands, rs, n, a) && IsBest(cands, rs, n, b)
    ensures a == b
  {
    if a.paramMax.Some? {
      var i :| 0 <= i < n && FirstAt(rs, i, a.profitMax) && cands[i] == a.paramMax.value;
      assert b.paramMax.Some?;
      var k :| 0 <= k < n && FirstAt(rs, k, b.profitMax) && cands[k] == b.paramMax.value;
      assert a.profitMax == b.profitMax;
      assert i == k;
    }
    if exists j :: 0 <= j < n && rs[j].Ok? {
      var i :| 0 <= i < n && LastAt(rs, n, i, a.status);
      var k :| 0 <= k < n && LastAt(rs, n, k, b.status);
      assert i == k;
    }
  }

  /** With no candidates, or when every candidate fails, the result is the
      floor, no parameters and NO_SIGNAL. */
  lemma NothingScored(cands: seq<seq<int>>, rs: seq<Result<Score>>, o: Outcome)
    requires |rs| == |cands| && IsBest(cands, rs, |rs|, o)
    requires forall j :: 0 <= j < |rs| ==> rs[j].Err?
    ensures o == Outcome(PROFIT_FLOOR, None, NO_SIGNAL)
  {
  }

  /** The live price is appended once per candidate: on an indicator that
      already has bars, candidate k sees the original bars followed by k + 1
      copies of the price. */
  lemma {:induction false} BarsGrowPerCandidate(w: Sweep, k: nat)
    requires w.bars.Numeric? && Aligned(w.bars.bars)
    ensures BarsBefore(w, k).Numeric? && Aligned(BarsBefore(w, k).bars)
    ensures var b := BarsBefore(w, k).bars;
      && |b.close| == |w.bars.bars.close| + (if w.lastPrice.Some? then k else 0)
      && b.close[..|w.bars.bars.close|] == w.bars.bars.close
      && b.open[..|w.bars.bars.open|] == w.bars.bars.open
      && (w.lastPrice.Some? ==>
            forall i :: |w.bars.bars.close| <= i < |b.close| ==>
              b.close[i] == w.lastPrice.value.priceclose && b.open[i] == w.lastPrice.value.priceopen)
  {
    if k > 0 {
      BarsGrowPerCandidate(w, k - 1);
      var before := BarsBefore(w, k - 1).bars;
      var after := BarsBefore(w, k).bars;
      var n := |w.bars.bars.close|;
      if w.lastPrice.Some? {
        assert after == AppendRow(before, w.lastPrice.value);
        assert after.close[..|before.close|] == before.close;
        assert after.close[..n] == before.close[..n];
        assert after.open[..|before.open|] == before.open;
        assert after.open[..n] == before.open[..n];
      }
    }
  }

  /** Buffers that hold only copies of one price still do after it is
      appended once more. */
  lemma AppendSamePrice(b: Bars, p: Price)
    requires Aligned(b)
    requires forall i :: 0 <= i < |b.close| ==> b.close[i] == p.priceclose && b.open[i] == p.priceopen
    ensures var a := AppendRow(b, p);
      Aligned(a) && forall i :: 0 <= i < |a.close| ==> a.close[i] == p.priceclose && a.open[i] == p.priceopen
  {
    var a := AppendRow(b, p);
    assert a.close == b.close + [p.priceclose] && a.open == b.open + [p.priceopen];
  }

  /** An indicator without bars that is offered no usable stock bars but a
      live price gets object buffers from the first candidate on: candidate
      k sees a leading None and k + 1 rows of the price. */
  lemma {:induction false} MissingBarsBecomeObjects(w: Sweep, k: nat)
    requires w.bars.NoBars? && !(w.stockBars.Table? && w.stockBars.width == 6) && w.lastPrice.Some?
    ensures BarsBefore(w, k + 1).NoneLed? && Aligned(BarsBefore(w, k + 1).rows)
    ensures var rows := BarsBefore(w, k + 1).rows;
      |rows.close| == k + 1
      && forall i :: 0 <= i < |rows.close| ==>
           rows.close[i] == w.lastPrice.value.priceclose && rows.open[i] == w.lastPrice.value.priceopen
  {
    var p := w.lastPrice.value;
    if k > 0 {
      MissingBarsBecomeObjects(w, k - 1);
      var before := BarsBefore(w, k).rows;
      assert BarsBefore(w, k + 1) == Prepare(BarsBefore(w, k), w.stockBars, w.lastPrice);
      assert BarsBefore(w, k + 1) == NoneLed(AppendRow(before, p));
      AppendSamePrice(before, p);
    } else {
      assert BarsBefore(w, 1) == Prepare(NoBars, w.stockBars, w.lastPrice);
      assert BarsBefore(w, 1) == NoneLed(AppendRow(EmptyBars, p));
      AppendSamePrice(EmptyBars, p);
    }
  }

  /** On such an indicator no candidate is ever scored: set_parameters
      decides a candidate's error, or it is the foreign routines' error on
      object arrays. */
  lemma MissingBarsNeverScore<P>(w: Sweep, s: Strategy<P>, k: nat)
    requires w.bars.NoBars? && !(w.stockBars.Table? && w.stockBars.width == 6) && w.lastPrice.Some?
    requires k < |w.candidates| && w.calcProfit == CalcOf(s)
    ensures Eval(w, k) == (match s.setParameters(w.candidates[k])
                           case Err(e) => Err(e)
                           case Ok(_) => Err(s.objectError))
  {
    MissingBarsBecomeObjects(w, k);
  }

  /** An indicator offered neither a six-column stock_bars nor a live price
      keeps its None buffers through every candidate. */
  lemma {:induction false} NoBarsStay(w: Sweep, k: nat)
    requires w.bars.NoBars? && !(w.stockBars.Table? && w.stockBars.width == 6) && w.lastPrice.None?
    ensures BarsBefore(w, k).NoBars?
  {
    if k > 0 {
      NoBarsStay(w, k - 1);
    }
  }

  /** On such an indicator no candidate is ever scored: set_parameters
      decides a candidate's error, or it is the error the foreign routines
      raise on None buffers. */
  lemma NoBarsNeverScore<P>(w: Sweep, s: Strategy<P>, k: nat)
    requires w.bars.NoBars? && !(w.stockBars.Table? && w.stockBars.width == 6) && w.lastPrice.None?
    requires k < |w.candidates| && w.calcProfit == CalcOf(s)
    ensures Eval(w, k) == (match s.setParameters(w.candidates[k])
                           case Err(e) => Err(e)
                           case Ok(_) => Err(s.noBarsError))
  {
    NoBarsStay(w, k + 1);
  }
}
