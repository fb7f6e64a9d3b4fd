/** The exponential-moving-average crossover indicator (SHORT_NAME 'Ema').

    The two EMAs are tulipy outputs and enter as inputs.
 */
module EmaCross {
  import opened Wrappers
  import opened NumpyOps
  import opened BaseIndicator

  const SHORT_NAME: string := "Ema"

  datatype Windows = Windows(short: int, long: int)

  /** set_parameters: exactly two parameters, in any order. */
  function SetParameters(p: seq<int>): (r: Result<Windows>)
    ensures r.Ok? <==> |p| == 2
    ensures r.Err? ==> r.error == ValueError
    ensures r.Ok? ==> r.value.short == p[0] && r.value.long == p[1]
  {
    if |p| != 2 then Err(ValueError) else Ok(Windows(p[0], p[1]))
  }

  /** generate_signals. This indicator never assigns signal_shift, so it keeps
      the base class's initial value 0. */
  function GenerateSignals(shortEma: seq<real>, longEma: seq<real>): (r: Result<Generated>)
    ensures |shortEma| == |longEma| ==> r.Ok?
    ensures |shortEma| == |longEma| ==>
      r.value.signal == SetSignal(seq(|longEma|, i requires 0 <= i < |longEma| =>
                                      if shortEma[i] > longEma[i] then 1 else 0))
    ensures r.Ok? ==> |r.value.signal| == |longEma| && r.value.shift == 0
    ensures |shortEma| != |longEma| && |shortEma| != 1 && |longEma| != 1 ==> r == Err(ValueError)
  {
    var mask :- Gt(shortEma, longEma);
    var raw :- AssignWhere(Zeros(|longEma|), mask, 1);
    assert |shortEma| == |longEma| ==>
      raw == seq(|longEma|, i requires 0 <= i < |longEma| => if shortEma[i] > longEma[i] then 1 else 0);
    Ok(Generated(SetSignal(raw), 0))
  }

  /** A buy exactly where the short EMA rises above the long one (or already
      is above at the first bar), a sell exactly where it stops being above. */
  lemma Crossings(shortEma: seq<real>, longEma: seq<real>)
    requires |shortEma| == |longEma|
    ensures var sig := GenerateSignals(shortEma, longEma).value.signal;
      forall i :: 0 <= i < |sig| ==>
        (sig[i] == BUY <==> AboveAt(shortEma, longEma, 0, i) && !AboveBefore(shortEma, longEma, 0, i))
        && (sig[i] == SELL <==> !AboveAt(shortEma, longEma, 0, i) && AboveBefore(shortEma, longEma, 0, i))
  {
    var raw := seq(|longEma|, i requires 0 <= i < |longEma| => if shortEma[i] > longEma[i] then 1 else 0);
    assert GenerateSignals(shortEma, longEma).value.signal == SetSignal(raw);
    SetSignalOfAbove(shortEma, longEma, 0, raw);
  }
}
