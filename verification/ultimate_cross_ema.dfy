/** The ultimate oscillator crossed with two EMAs of the close (SHORT_NAME
    'Uoe'). The oscillator and the EMAs are tulipy outputs and enter as
    inputs. */
module UltimateCrossEma {
  import opened Wrappers
  import opened NumpyOps
  import opened BaseIndicator
  import opened UltimateGap

  const SHORT_NAME: string := "Uoe"

  /** The oscillator's fixed windows; the long one is also the signal shift. */
  const SHORT: int := 7
  const MEDIUM: int := 14
  const LONG: int := 28

  datatype Windows = Windows(emaShort: int, emaLong: int)

  /** set_parameters: exactly two parameters with the long window not below
      the short one. */
  function SetParameters(p: seq<int>): (r: Result<Windows>)
    ensures r.Ok? <==> |p| == 2 && p[1] >= p[0]
    ensures r.Err? ==> r.error == ValueError
    ensures r.Ok? ==> r.value.emaShort == p[0] && r.value.emaLong == p[1]
  {
    if |p| != 2 || p[1] < p[0] then Err(ValueError) else Ok(Windows(p[0], p[1]))
  }

  /** generate_signals: both EMAs are cut by the oscillator's long window; a
      buy condition where the short EMA is above the long one, shaped by
      set_signal, shifted by 28. With equal EMA lengths of at least 28 and an
      oscillator exactly 28 shorter, it succeeds with that raw array. */
  function GenerateSignals(ultimate: seq<real>, emaShort: seq<real>, emaLong: seq<real>): (r: Result<Generated>)
    ensures r.Ok? ==> |r.value.signal| == |ultimate| && r.value.shift == LONG
    ensures |emaShort| == |emaLong| >= LONG && |ultimate| == |emaShort| - LONG ==>
      r == Ok(Generated(SetSignal(seq(|ultimate|, i requires 0 <= i < |ultimate| =>
                                      if emaShort[i + LONG] > emaLong[i + LONG] then 1 else 0)), LONG))
  {
    var cross :- Gt(Drop(emaShort, LONG), Drop(emaLong, LONG));
    var raw :- ApplyGapMask(ultimate, cross);
    assert |emaShort| == |emaLong| >= LONG && |ultimate| == |emaShort| - LONG ==>
      raw == seq(|ultimate|, i requires 0 <= i < |ultimate| =>
                   if emaShort[i + LONG] > emaLong[i + LONG] then 1 else 0);
    Ok(Generated(SetSignal(raw), LONG))
  }

  /** With the lengths generate_signals expects, a buy exactly where the short
      EMA rises above the long one past the oscillator's window, a sell
      exactly where it stops being above. */
  lemma Crossings(ultimate: seq<real>, emaShort: seq<real>, emaLong: seq<real>)
    requires |emaShort| == |emaLong| >= LONG && |ultimate| == |emaShort| - LONG
    ensures var sig := GenerateSignals(ultimate, emaShort, emaLong).value.signal;
      forall i :: 0 <= i < |sig| ==>
        (sig[i] == BUY <==> AboveAt(emaShort, emaLong, LONG, i) && !AboveBefore(emaShort, emaLong, LONG, i))
        && (sig[i] == SELL <==> !AboveAt(emaShort, emaLong, LONG, i) && AboveBefore(emaShort, emaLong, LONG, i))
  {
    var raw := seq(|ultimate|, i requires 0 <= i < |ultimate| => if emaShort[i + LONG] > emaLong[i + LONG] then 1 else 0);
    assert GenerateSignals(ultimate, emaShort, emaLong).value.signal == SetSignal(raw);
    SetSignalOfAbove(emaShort, emaLong, LONG, raw);
  }
}
