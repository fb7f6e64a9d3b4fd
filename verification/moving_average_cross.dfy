/** The simple-moving-average crossover indicator (SHORT_NAME 'Macs').

    The two moving averages are tulipy outputs and enter as inputs; the model
    covers parameter validation, the alignment of the short average against
    the long one and the raw crossover condition.
 */
module MovingAverageCross {
  import opened Wrappers
  import opened NumpyOps
  import opened BaseIndicator

  const SHORT_NAME: string := "Macs"

  datatype Windows = Windows(short: int, long: int)

  /** set_parameters: exactly two parameters, in any order. */
  function SetParameters(p: seq<int>): (r: Result<Windows>)
    ensures r.Ok? <==> |p| == 2
    ensures r.Err? ==> r.error == ValueError
    ensures r.Ok? ==> r.value.short == p[0] && r.value.long == p[1]
  {
    if |p| != 2 then Err(ValueError) else Ok(Windows(p[0], p[1]))
  }

  /** The short average, cut by long - short, lines up with the long one. */
  predicate Aligned(w: Windows, shortMavg: seq<real>, longMavg: seq<real>)
  {
    0 <= w.long - w.short <= |shortMavg| && |shortMavg| - (w.long - w.short) == |longMavg|
  }

  /** The raw crossover array: 1 where the aligned short average lies above
      the long average. */
  function CrossRaw(w: Windows, shortMavg: seq<real>, longMavg: seq<real>): seq<int>
    requires Aligned(w, shortMavg, longMavg)
  {
    seq(|longMavg|, i requires 0 <= i < |longMavg| =>
      if shortMavg[i + (w.long - w.short)] > longMavg[i] then 1 else 0)
  }

  /** generate_signals on the two moving averages. */
  function GenerateSignals(w: Windows, shortMavg: seq<real>, longMavg: seq<real>): (r: Result<Generated>)
    ensures Aligned(w, shortMavg, longMavg) ==>
      r == Ok(Generated(SetSignal(CrossRaw(w, shortMavg, longMavg)), w.long - 1))
    ensures var cut := Drop(shortMavg, w.long - w.short);
      |cut| != |longMavg| && |cut| != 1 && |longMavg| != 1 ==> r == Err(ValueError)
    ensures r.Ok? ==> |r.value.signal| == |longMavg| && r.value.shift == w.long - 1
  {
    var mask :- Gt(Drop(shortMavg, w.long - w.short), longMavg);
    var raw :- AssignWhere(Zeros(|longMavg|), mask, 1);
    assert Aligned(w, shortMavg, longMavg) ==> raw == CrossRaw(w, shortMavg, longMavg);
    Ok(Generated(SetSignal(raw), w.long - 1))
  }

  /** At position i of the long average, the aligned short average lies
      above it. */
  predicate ShortAbove(w: Windows, shortMavg: seq<real>, longMavg: seq<real>, i: int)
    requires Aligned(w, shortMavg, longMavg) && 0 <= i < |longMavg|
  {
    shortMavg[i + (w.long - w.short)] > longMavg[i]
  }

  /** The aligned short average lay above the long one at the position
      before i. */
  predicate ShortAboveBefore(w: Windows, shortMavg: seq<real>, longMavg: seq<real>, i: int)
    requires Aligned(w, shortMavg, longMavg) && 0 <= i < |longMavg|
  {
    i > 0 && ShortAbove(w, shortMavg, longMavg, i - 1)
  }

  /** ShortAbove at every position of the long average. */
  function ShortAboveAll(w: Windows, shortMavg: seq<real>, longMavg: seq<real>): (c: seq<bool>)
    requires Aligned(w, shortMavg, longMavg)
    ensures |c| == |longMavg| && forall i :: 0 <= i < |longMavg| ==> c[i] == ShortAbove(w, shortMavg, longMavg, i)
  {
    seq(|longMavg|, i requires 0 <= i < |longMavg| => ShortAbove(w, shortMavg, longMavg, i))
  }

  /** The raw crossover array is one exactly where the short average is
      above. */
  lemma RawIsShortAbove(w: Windows, shortMavg: seq<real>, longMavg: seq<real>)
    requires Aligned(w, shortMavg, longMavg)
    ensures CrossRaw(w, shortMavg, longMavg) == OnesWhere(ShortAboveAll(w, shortMavg, longMavg))
  {
    var raw, ones := CrossRaw(w, shortMavg, longMavg), OnesWhere(ShortAboveAll(w, shortMavg, longMavg));
    forall i | 0 <= i < |longMavg|
      ensures raw[i] == ones[i]
    {
      assert ones[i] == 1 <==> ShortAbove(w, shortMavg, longMavg, i);
    }
  }

  /** On aligned averages, a buy exactly where the short average rises above
      the long one (or already is above at the first bar), a sell exactly
      where it stops being above. */
  lemma Crossings(w: Windows, shortMavg: seq<real>, longMavg: seq<real>)
    requires Aligned(w, shortMavg, longMavg)
    ensures var sig := GenerateSignals(w, shortMavg, longMavg).value.signal;
      forall i :: 0 <= i < |sig| ==>
        (sig[i] == BUY <==> ShortAbove(w, shortMavg, longMavg, i) && !ShortAboveBefore(w, shortMavg, longMavg, i))
        && (sig[i] == SELL <==> !ShortAbove(w, shortMavg, longMavg, i) && ShortAboveBefore(w, shortMavg, longMavg, i))
  {
    var c := ShortAboveAll(w, shortMavg, longMavg);
    var sig := GenerateSignals(w, shortMavg, longMavg).value.signal;
    RawIsShortAbove(w, shortMavg, longMavg);
    SetSignalOfCondition(c);
    forall i | 0 <= i < |sig|
      ensures (sig[i] == BUY <==> ShortAbove(w, shortMavg, longMavg, i) && !ShortAboveBefore(w, shortMavg, longMavg, i))
      ensures (sig[i] == SELL <==> !ShortAbove(w, shortMavg, longMavg, i) && ShortAboveBefore(w, shortMavg, longMavg, i))
    {
      assert HeldBefore(c, i) == ShortAboveBefore(w, shortMavg, longMavg, i);
    }
  }
}
