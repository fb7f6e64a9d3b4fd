/** The Klinger volume oscillator indicator (SHORT_NAME 'Kvo'). The KVO line
    and its EMA signal line are tulipy outputs and enter as inputs. */
module Kvo {
  import opened Wrappers
  import opened NumpyOps
  import opened BaseIndicator

  const SHORT_NAME: string := "Kvo"

  datatype Windows = Windows(short: int, long: int, signal: int)

  /** set_parameters: exactly three parameters with long >= short; they become
      the short, long and signal windows in that order. */
  function SetParameters(p: seq<int>): (r: Result<Windows>)
    ensures r.Ok? <==> |p| == 3 && p[1] >= p[0]
    ensures r.Err? ==> r.error == ValueError
    ensures r.Ok? ==> r.value.short == p[0] && r.value.long == p[1] && r.value.signal == p[2]
  {
    if |p| != 3 || p[1] < p[0] then Err(ValueError) else Ok(Windows(p[0], p[1], p[2]))
  }

  /** The raw oscillator array: 1 where the signal line is above the KVO line,
      -1 where it is below, 0 on a tie. */
  function KvoRaw(kvo: seq<real>, kvoSignal: seq<real>): seq<int>
    requires |kvo| == |kvoSignal|
  {
    seq(|kvo|, i requires 0 <= i < |kvo| =>
      if kvoSignal[i] > kvo[i] then 1 else if kvo[i] > kvoSignal[i] then -1 else 0)
  }

  /** generate_signals: the raw array shaped by set_signal_osc, shift fixed at 1. */
  function GenerateSignals(kvo: seq<real>, kvoSignal: seq<real>): (r: Result<Generated>)
    ensures |kvo| == |kvoSignal| ==> r == Ok(Generated(SetSignalOsc(KvoRaw(kvo, kvoSignal)), 1))
    ensures r.Ok? ==> |r.value.signal| == |kvo| && r.value.shift == 1
  {
    var buyMask :- Gt(kvoSignal, kvo);
    var buy :- AssignMask(Zeros(|kvo|), buyMask, 1);
    var sellMask := Gt(kvo, kvoSignal).value;
    var sell := AssignMask(buy, sellMask, -1).value;
    assert |kvo| == |kvoSignal| ==> sell == KvoRaw(kvo, kvoSignal);
    Ok(Generated(SetSignalOsc(sell), 1))
  }

  /** The position the signal builds (its running sum) is always flat or
      long; a buy comes exactly when flat with the signal line above the KVO
      line, a sell exactly when long with the KVO line above the signal
      line. */
  lemma Positions(kvo: seq<real>, kvoSignal: seq<real>)
    requires |kvo| == |kvoSignal|
    ensures var sig := GenerateSignals(kvo, kvoSignal).value.signal;
      forall k :: 0 <= k <= |sig| ==> Sum(sig[..k]) == 0 || Sum(sig[..k]) == 1
    ensures var sig := GenerateSignals(kvo, kvoSignal).value.signal;
      forall k :: 0 <= k < |sig| ==>
        (sig[k] == BUY <==> Sum(sig[..k]) == 0 && kvoSignal[k] > kvo[k])
        && (sig[k] == SELL <==> Sum(sig[..k]) == 1 && kvo[k] > kvoSignal[k])
  {
    var raw := KvoRaw(kvo, kvoSignal);
    var sig := GenerateSignals(kvo, kvoSignal).value.signal;
    assert sig == SetSignalOsc(raw);
    SetSignalOscAlternates(raw);
    forall k | 0 <= k < |sig|
      ensures (sig[k] == BUY <==> Sum(sig[..k]) == 0 && kvoSignal[k] > kvo[k])
      ensures (sig[k] == SELL <==> Sum(sig[..k]) == 1 && kvo[k] > kvoSignal[k])
    {
      assert raw[k] == 1 <==> kvoSignal[k] > kvo[k];
      assert raw[k] == -1 <==> kvo[k] > kvoSignal[k];
    }
  }
}
