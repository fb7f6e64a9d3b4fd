/** The ultimate oscillator with one EMA against the open price
    (SHORT_NAME 'Uos'). The oscillator and the EMA are tulipy outputs and
    enter as inputs. */
module UltimateSimpleEma {
  import opened Wrappers
  import opened NumpyOps
  import opened BaseIndicator
  import opened UltimateGap

  const SHORT_NAME: string := "Uos"

  datatype Windows = Windows(short: int, medium: int, long: int)

  /** set_parameters: exactly three parameters with medium >= short; the
      third is not checked. */
  function SetParameters(p: seq<int>): (r: Result<Windows>)
    ensures r.Ok? <==> |p| == 3 && p[1] >= p[0]
    ensures r.Err? ==> r.error == ValueError
    ensures r.Ok? ==> r.value.short == p[0] && r.value.medium == p[1] && r.value.long == p[2]
  {
    if |p| != 3 || p[1] < p[0] then Err(ValueError) else Ok(Windows(p[0], p[1], p[2]))
  }

  /** generate_signals: the EMA and the open prices are cut by the long
      window, a buy condition where the EMA is above the open price, shaped by
      set_signal and shifted by the long window. With an EMA as long as the
      open series, a long window inside it and an oscillator exactly that much
      shorter, it succeeds with that raw array. */
  function GenerateSignals(w: Windows, ultimate: seq<real>, ema: seq<real>, open: seq<real>): (r: Result<Generated>)
    ensures r.Ok? ==> |r.value.signal| == |ultimate| && r.value.shift == w.long
    ensures |ema| == |open| && 0 <= w.long <= |open| && |ultimate| == |open| - w.long ==>
      r == Ok(Generated(SetSignal(seq(|ultimate|, i requires 0 <= i < |ultimate| =>
                                      if ema[i + w.long] > open[i + w.long] then 1 else 0)), w.long))
  {
    var cross :- Gt(Drop(ema, w.long), Drop(open, w.long));
    var raw :- ApplyGapMask(ultimate, cross);
    assert |ema| == |open| && 0 <= w.long <= |open| && |ultimate| == |open| - w.long ==>
      raw == seq(|ultimate|, i requires 0 <= i < |ultimate| =>
                   if ema[i + w.long] > open[i + w.long] then 1 else 0);
    Ok(Generated(SetSignal(raw), w.long))
  }

  /** With the lengths generate_signals expects, a buy exactly where the EMA
      rises above the open price past the long window, a sell exactly where
      it stops being above. */
  lemma Crossings(w: Windows, ultimate: seq<real>, ema: seq<real>, open: seq<real>)
    requires |ema| == |open| && 0 <= w.long <= |open| && |ultimate| == |open| - w.long
    ensures var sig := GenerateSignals(w, ultimate, ema, open).value.signal;
      forall i :: 0 <= i < |sig| ==>
        (sig[i] == BUY <==> AboveAt(ema, open, w.long, i) && !AboveBefore(ema, open, w.long, i))
        && (sig[i] == SELL <==> !AboveAt(ema, open, w.long, i) && AboveBefore(ema, open, w.long, i))
  {
    var raw := seq(|ultimate|, i requires 0 <= i < |ultimate| => if ema[i + w.long] > open[i + w.long] then 1 else 0);
    assert GenerateSignals(w, ultimate, ema, open).value.signal == SetSignal(raw);
    SetSignalOfAbove(ema, open, w.long, raw);
  }
}
