/** The stochastic oscillator indicator (SHORT_NAME 'SO'; 'SOM2' is the same
    indicator in mode 2). %K and %D are tulipy outputs and enter as inputs. */
module Stochastic {
  import opened Wrappers
  import opened NumpyOps
  import opened BaseIndicator

  const SHORT_NAME: string := "SO"

  datatype Periods = Periods(dPeriod: int, slowing: int, period: int)

  /** The constructor arguments besides the parameters: the signal mode and the
      overbought / oversold thresholds. */
  datatype Settings = Settings(mode: int, upper: int, lower: int)

  const DefaultSettings: Settings := Settings(1, 80, 20)

  /** set_parameters: exactly three parameters with d_period <= slowing;
      they become d_period, slowing and period in that order. */
  function SetParameters(p: seq<int>): (r: Result<Periods>)
    ensures r.Ok? <==> |p| == 3 && p[0] <= p[1]
    ensures r.Err? ==> r.error == ValueError
    ensures r.Ok? ==> r.value.dPeriod == p[0] && r.value.slowing == p[1] && r.value.period == p[2]
  {
    if |p| != 3 then Err(ValueError)
    else if p[0] > p[1] then Err(ValueError)
    else Ok(Periods(p[0], p[1], p[2]))
  }

  /** The raw oscillator array for one series: -1 below the lower threshold,
      1 above the upper one, 0 in between; a sell overrides a buy. */
  function ThresholdRaw(x: seq<real>, s: Settings): seq<int>
  {
    seq(|x|, i requires 0 <= i < |x| =>
      if (s.lower as real) > x[i] then -1 else if x[i] > (s.upper as real) then 1 else 0)
  }

  /** The mode-3 raw array: both %K and %D beyond a threshold. */
  function BothRaw(k: seq<real>, d: seq<real>, s: Settings): seq<int>
    requires |k| == |d|
  {
    seq(|d|, i requires 0 <= i < |d| =>
      if (s.lower as real) > d[i] && (s.lower as real) > k[i] then -1
      else if d[i] > (s.upper as real) && k[i] > (s.upper as real) then 1
      else 0)
  }

  /** The mask steps for one series: ones above the upper threshold, then
      minus ones below the lower threshold overriding them. */
  function OneSeries(x: seq<real>, s: Settings): (r: seq<int>)
    ensures r == SetSignalOsc(ThresholdRaw(x, s))
  {
    var buy := AssignMask(Zeros(|x|), GtScalar(x, s.upper as real), 1).value;
    var sell := AssignMask(buy, LtScalar(x, s.lower as real), -1).value;
    assert sell == ThresholdRaw(x, s);
    SetSignalOsc(sell)
  }

  /** signal_shift: the absolute length difference between the dates and %D. */
  function Shift(timesCount: nat, dCount: nat): (r: nat)
    ensures r + dCount == timesCount || r + timesCount == dCount
  {
    if timesCount >= dCount then timesCount - dCount else dCount - timesCount
  }

  /** generate_signals. Mode 1 thresholds %D, mode 2 thresholds %K, mode 3
      needs both; any other mode leaves the previous signal in place. The
      shift is the length difference between the dates and %D. */
  function GenerateSignals(s: Settings, stochK: seq<real>, stochD: seq<real>, timesCount: nat,
                           previous: seq<int>): (r: Result<Generated>)
    ensures s.mode == 1 ==> r == Ok(Generated(SetSignalOsc(ThresholdRaw(stochD, s)), Shift(timesCount, |stochD|)))
    ensures s.mode == 2 ==> r == Ok(Generated(SetSignalOsc(ThresholdRaw(stochK, s)), Shift(timesCount, |stochD|)))
    ensures s.mode == 3 && |stochK| == |stochD| ==>
      r == Ok(Generated(SetSignalOsc(BothRaw(stochK, stochD, s)), Shift(timesCount, |stochD|)))
    ensures s.mode != 1 && s.mode != 2 && s.mode != 3 ==> r.Ok? && r.value.signal == previous
    ensures r.Ok? ==> r.value.shift == Shift(timesCount, |stochD|)
    ensures r.Err? ==> s.mode == 3 && |stochK| != |stochD|
  {
    var shift := Shift(timesCount, |stochD|);
    if s.mode == 1 then Ok(Generated(OneSeries(stochD, s), shift))
    else if s.mode == 2 then Ok(Generated(OneSeries(stochK, s), shift))
    else if s.mode == 3 then
      var buyMask :- And(GtScalar(stochD, s.upper as real), GtScalar(stochK, s.upper as real));
      var buy :- AssignMask(Zeros(|stochD|), buyMask, 1);
      var sellMask := And(LtScalar(stochD, s.lower as real), LtScalar(stochK, s.lower as real)).value;
      var sell := AssignMask(buy, sellMask, -1).value;
      assert |stochK| == |stochD| ==> sell == BothRaw(stochK, stochD, s);
      Ok(Generated(SetSignalOsc(sell), shift))
    else Ok(Generated(previous, shift))
  }

  /** Thresholding one series and shaping it with set_signal_osc: the
      position the signal builds (its running sum) is always flat or long;
      a buy comes exactly when flat with the series above the upper
      threshold and not below the lower one, a sell exactly when long with
      the series below the lower threshold. */
  lemma ThresholdPositions(x: seq<real>, s: Settings)
    ensures var sig := SetSignalOsc(ThresholdRaw(x, s));
      |sig| == |x| && forall k :: 0 <= k <= |sig| ==> Sum(sig[..k]) == 0 || Sum(sig[..k]) == 1
    ensures var sig := SetSignalOsc(ThresholdRaw(x, s));
      forall k :: 0 <= k < |sig| ==>
        (sig[k] == BUY <==> Sum(sig[..k]) == 0 && x[k] > s.upper as real && !(s.lower as real > x[k]))
        && (sig[k] == SELL <==> Sum(sig[..k]) == 1 && s.lower as real > x[k])
  {
    var raw := ThresholdRaw(x, s);
    var sig := SetSignalOsc(raw);
    SetSignalOscAlternates(raw);
    forall k | 0 <= k < |sig|
      ensures (sig[k] == BUY <==> Sum(sig[..k]) == 0 && x[k] > s.upper as real && !(s.lower as real > x[k]))
      ensures (sig[k] == SELL <==> Sum(sig[..k]) == 1 && s.lower as real > x[k])
    {
      assert raw[k] == 1 <==> x[k] > s.upper as real && !(s.lower as real > x[k]);
      assert raw[k] == -1 <==> s.lower as real > x[k];
    }
  }

  /** In mode 1 the position follows %D: a buy exactly when flat with %D
      above the upper threshold, a sell exactly when long with %D below the
      lower one; the signal is as long as %D. */
  lemma ModeOnePositions(s: Settings, stochK: seq<real>, stochD: seq<real>, timesCount: nat, previous: seq<int>)
    requires s.mode == 1
    ensures var sig := GenerateSignals(s, stochK, stochD, timesCount, previous).value.signal;
      forall k :: 0 <= k <= |sig| ==> Sum(sig[..k]) == 0 || Sum(sig[..k]) == 1
    ensures var sig := GenerateSignals(s, stochK, stochD, timesCount, previous).value.signal;
      |sig| == |stochD|
      && forall k :: 0 <= k < |sig| ==>
        (sig[k] == BUY <==> Sum(sig[..k]) == 0 && stochD[k] > s.upper as real && !(s.lower as real > stochD[k]))
        && (sig[k] == SELL <==> Sum(sig[..k]) == 1 && s.lower as real > stochD[k])
  {
    ThresholdPositions(stochD, s);
  }

  /** In mode 2 the position follows %K in the same way; the signal is as
      long as %K. */
  lemma ModeTwoPositions(s: Settings, stochK: seq<real>, stochD: seq<real>, timesCount: nat, previous: seq<int>)
    requires s.mode == 2
    ensures var sig := GenerateSignals(s, stochK, stochD, timesCount, previous).value.signal;
      forall k :: 0 <= k <= |sig| ==> Sum(sig[..k]) == 0 || Sum(sig[..k]) == 1
    ensures var sig := GenerateSignals(s, stochK, stochD, timesCount, previous).value.signal;
      |sig| == |stochK|
      && forall k :: 0 <= k < |sig| ==>
        (sig[k] == BUY <==> Sum(sig[..k]) == 0 && stochK[k] > s.upper as real && !(s.lower as real > stochK[k]))
        && (sig[k] == SELL <==> Sum(sig[..k]) == 1 && s.lower as real > stochK[k])
  {
    ThresholdPositions(stochK, s);
  }

  /** In mode 3, on %K and %D of one length, a buy comes exactly when flat
      with both above the upper threshold and not both below the lower one,
      a sell exactly when long with both below the lower threshold. */
  lemma ModeThreePositions(s: Settings, stochK: seq<real>, stochD: seq<real>, timesCount: nat, previous: seq<int>)
    requires s.mode == 3 && |stochK| == |stochD|
    ensures var sig := GenerateSignals(s, stochK, stochD, timesCount, previous).value.signal;
      forall k :: 0 <= k <= |sig| ==> Sum(sig[..k]) == 0 || Sum(sig[..k]) == 1
    ensures var sig := GenerateSignals(s, stochK, stochD, timesCount, previous).value.signal;
      |sig| == |stochD|
      && forall k :: 0 <= k < |sig| ==>
        (sig[k] == BUY <==> Sum(sig[..k]) == 0 && stochD[k] > s.upper as real && stochK[k] > s.upper as real
                            && !(s.lower as real > stochD[k] && s.lower as real > stochK[k]))
        && (sig[k] == SELL <==> Sum(sig[..k]) == 1 && s.lower as real > stochD[k] && s.lower as real > stochK[k])
  {
    var raw := BothRaw(stochK, stochD, s);
    var sig := GenerateSignals(s, stochK, stochD, timesCount, previous).value.signal;
    assert sig == SetSignalOsc(raw);
    SetSignalOscAlternates(raw);
    forall k | 0 <= k < |sig|
      ensures (sig[k] == BUY <==> Sum(sig[..k]) == 0 && stochD[k] > s.upper as real && stochK[k] > s.upper as real
                                  && !(s.lower as real > stochD[k] && s.lower as real > stochK[k]))
      ensures (sig[k] == SELL <==> Sum(sig[..k]) == 1 && s.lower as real > stochD[k] && s.lower as real > stochK[k])
    {
      assert raw[k] == 1 <==> stochD[k] > s.upper as real && stochK[k] > s.upper as real
                              && !(s.lower as real > stochD[k] && s.lower as real > stochK[k]);
      assert raw[k] == -1 <==> s.lower as real > stochD[k] && s.lower as real > stochK[k];
    }
  }
}
