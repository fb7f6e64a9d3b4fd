/** The Aroon indicator (SHORT_NAME 'Ar'). Aroon down and up are tulipy
    outputs and enter as inputs. */
module AroonBasic {
  import opened Wrappers
  import opened NumpyOps
  import opened BaseIndicator

  const SHORT_NAME: string := "Ar"

  /** set_parameters: exactly one parameter, the period. */
  function SetParameters(p: seq<int>): (r: Result<int>)
    ensures r.Ok? <==> |p| == 1
    ensures r.Err? ==> r.error == ValueError
    ensures r.Ok? ==> r.value == p[0]
  {
    if |p| != 1 then Err(ValueError) else Ok(p[0])
  }

  /** generate_signals: a buy condition wherever Aroon up exceeds Aroon down,
      shaped by set_signal, shifted by the period. */
  function GenerateSignals(period: int, aroonDown: seq<real>, aroonUp: seq<real>): (r: Result<Generated>)
    ensures |aroonDown| == |aroonUp| ==> r.Ok?
    ensures |aroonDown| == |aroonUp| ==>
      r.value.signal == SetSignal(seq(|aroonDown|, i requires 0 <= i < |aroonDown| =>
                                      if aroonUp[i] > aroonDown[i] then 1 else 0))
    ensures r.Ok? ==> |r.value.signal| == |aroonDown| && r.value.shift == period
  {
    var mask :- Gt(aroonUp, aroonDown);
    var raw :- AssignWhere(Zeros(|aroonDown|), mask, 1);
    assert |aroonDown| == |aroonUp| ==>
      raw == seq(|aroonDown|, i requires 0 <= i < |aroonDown| => if aroonUp[i] > aroonDown[i] then 1 else 0);
    Ok(Generated(SetSignal(raw), period))
  }

  /** A buy exactly where Aroon up rises above Aroon down (or already is
      above at the first bar), a sell exactly where it stops being above. */
  lemma Crossings(period: int, aroonDown: seq<real>, aroonUp: seq<real>)
    requires |aroonDown| == |aroonUp|
    ensures var sig := GenerateSignals(period, aroonDown, aroonUp).value.signal;
      forall i :: 0 <= i < |sig| ==>
        (sig[i] == BUY <==> AboveAt(aroonUp, aroonDown, 0, i) && !AboveBefore(aroonUp, aroonDown, 0, i))
        && (sig[i] == SELL <==> !AboveAt(aroonUp, aroonDown, 0, i) && AboveBefore(aroonUp, aroonDown, 0, i))
  {
    var raw := seq(|aroonDown|, i requires 0 <= i < |aroonDown| => if aroonUp[i] > aroonDown[i] then 1 else 0);
    assert GenerateSignals(period, aroonDown, aroonUp).value.signal == SetSignal(raw);
    SetSignalOfAbove(aroonUp, aroonDown, 0, raw);
  }
}
