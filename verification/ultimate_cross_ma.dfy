/** The ultimate oscillator crossed with two simple moving averages
    (SHORT_NAME 'Uom'). The oscillator and the averages are tulipy outputs
    and enter as inputs. */
module UltimateCrossMa {
  import opened Wrappers
  import opened NumpyOps
  import opened BaseIndicator
  import opened UltimateGap

  const SHORT_NAME: string := "Uom"

  datatype Windows = Windows(maShort: int, maLong: int)

  /** set_parameters: exactly two parameters with the long window not below
      the short one. */
  function SetParameters(p: seq<int>): (r: Result<Windows>)
    ensures r.Ok? <==> |p| == 2 && p[1] >= p[0]
    ensures r.Err? ==> r.error == ValueError
    ensures r.Ok? ==> r.value.maShort == p[0] && r.value.maLong == p[1]
  {
    if |p| != 2 || p[1] < p[0] then Err(ValueError) else Ok(Windows(p[0], p[1]))
  }

  /** The three series after get_indicators' alignment, with the shift it sets. */
  datatype Series = Series(ultimate: seq<real>, maShort: seq<real>, maLong: seq<real>, shift: int)

  function Min3(a: nat, b: nat, c: nat): (m: nat)
    ensures m <= a && m <= b && m <= c && (m == a || m == b || m == c)
  {
    if a <= b && a <= c then a else if b <= c then b else c
  }

  /** get_indicators' alignment: each series keeps its last m elements, m
      being the shortest length, and the shift is the open series' length
      minus m. */
  function Align(ultimate: seq<real>, maShort: seq<real>, maLong: seq<real>, openCount: nat): (r: Series)
    ensures var m := Min3(|maLong|, |maShort|, |ultimate|);
      && |r.ultimate| == m && |r.maShort| == m && |r.maLong| == m
      && r.shift == openCount - m
      && (forall i :: 0 <= i < m ==> r.ultimate[i] == ultimate[i + |ultimate| - m])
      && (forall i :: 0 <= i < m ==> r.maShort[i] == maShort[i + |maShort| - m])
      && (forall i :: 0 <= i < m ==> r.maLong[i] == maLong[i + |maLong| - m])
  {
    var m := Min3(|maLong|, |maShort|, |ultimate|);
    Series(Drop(ultimate, |ultimate| - m), Drop(maShort, |maShort| - m), Drop(maLong, |maLong| - m),
           openCount - m)
  }

  /** generate_signals on the aligned series: a buy condition exactly where
      the short average is above the long one, shaped by set_signal. It cannot
      fail, and the oscillator gap mask has no effect on it. */
  function GenerateSignals(ultimate: seq<real>, maShort: seq<real>, maLong: seq<real>, openCount: nat)
    : (r: Generated)
    ensures var a := Align(ultimate, maShort, maLong, openCount);
      r.signal == SetSignal(Above(a.maShort, a.maLong)) && r.shift == a.shift
  {
    var a := Align(ultimate, maShort, maLong, openCount);
    CrossIsAbove(a.ultimate, a.maShort, a.maLong);
    var cross := Gt(a.maShort, a.maLong).value;
    var raw := ApplyGapMask(a.ultimate, cross).value;
    Generated(SetSignal(raw), a.shift)
  }

  /** 1 where the short average is above the long one, 0 elsewhere. */
  function Above(maShort: seq<real>, maLong: seq<real>): (r: seq<int>)
    requires |maShort| == |maLong|
  {
    seq(|maShort|, i requires 0 <= i < |maShort| => if maShort[i] > maLong[i] then 1 else 0)
  }

  /** On series of one length the crossing never fails and the gap mask
      leaves exactly the crossing. */
  lemma CrossIsAbove(ultimate: seq<real>, maShort: seq<real>, maLong: seq<real>)
    requires |ultimate| == |maShort| == |maLong|
    ensures Gt(maShort, maLong).Ok?
    ensures ApplyGapMask(ultimate, Gt(maShort, maLong).value) == Ok(Above(maShort, maLong))
  {
    var cross := Gt(maShort, maLong).value;
    assert forall i :: 0 <= i < |cross| ==> (cross[i] <==> maShort[i] > maLong[i]);
    var raw := ApplyGapMask(ultimate, cross);
    assert raw.Ok?;
    assert raw.value == Above(maShort, maLong);
  }

  /** Shaped by set_signal, the crossing of two series of one length buys
      exactly where the short average rises above the long one (or already
      is above at the first bar) and sells exactly where it stops being
      above; generate_signals applies this to the aligned series. */
  lemma Crossings(maShort: seq<real>, maLong: seq<real>)
    requires |maShort| == |maLong|
    ensures var sig := SetSignal(Above(maShort, maLong));
      forall i :: 0 <= i < |sig| ==>
        (sig[i] == BUY <==> AboveAt(maShort, maLong, 0, i) && !AboveBefore(maShort, maLong, 0, i))
        && (sig[i] == SELL <==> !AboveAt(maShort, maLong, 0, i) && AboveBefore(maShort, maLong, 0, i))
  {
    SetSignalOfAbove(maShort, maLong, 0, Above(maShort, maLong));
  }
}
