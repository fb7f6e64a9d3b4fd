/** The triple moving-average crossover indicator (SHORT_NAME 'Tmacs').

    The three simple moving averages are tulipy outputs and enter as inputs.
 */
module TripleMovingAverageCross {
  import opened Wrappers
  import opened NumpyOps
  import opened BaseIndicator

  const SHORT_NAME: string := "Tmacs"

  datatype Windows = Windows(short: int, medium: int, long: int)

  /** set_parameters: exactly three parameters, in any order. */
  function SetParameters(p: seq<int>): (r: Result<Windows>)
    ensures r.Ok? <==> |p| == 3
    ensures r.Err? ==> r.error == ValueError
    ensures r.Ok? ==> r.value.short == p[0] && r.value.medium == p[1] && r.value.long == p[2]
  {
    if |p| != 3 then Err(ValueError) else Ok(Windows(p[0], p[1], p[2]))
  }

  /** The short and medium averages, cut by long - short and long - medium,
      line up with the long one. */
  predicate Aligned(w: Windows, s: seq<real>, m: seq<real>, l: seq<real>)
  {
    && 0 <= w.long - w.short <= |s| && |s| - (w.long - w.short) == |l|
    && 0 <= w.long - w.medium <= |m| && |m| - (w.long - w.medium) == |l|
  }

  /** The raw array: 1 exactly where short > medium > long on the aligned averages. */
  function TripleRaw(w: Windows, s: seq<real>, m: seq<real>, l: seq<real>): seq<int>
    requires Aligned(w, s, m, l)
  {
    seq(|l|, i requires 0 <= i < |l| =>
      var sv := s[i + (w.long - w.short)];
      var mv := m[i + (w.long - w.medium)];
      if sv > mv && sv > l[i] && mv > l[i] then 1 else 0)
  }

  /** generate_signals on the three moving averages. */
  function GenerateSignals(w: Windows, shortMavg: seq<real>, mediumMavg: seq<real>, long: seq<real>)
    : (r: Result<Generated>)
    ensures Aligned(w, shortMavg, mediumMavg, long) ==>
      r == Ok(Generated(SetSignal(TripleRaw(w, shortMavg, mediumMavg, long)), w.long - 1))
    ensures r.Ok? ==> |r.value.signal| == |long| && r.value.shift == w.long - 1
  {
    var short := Drop(shortMavg, w.long - w.short);
    var medium := Drop(mediumMavg, w.long - w.medium);
    DropsLineUp(w, shortMavg, mediumMavg, long);
    var raw :- Masks(short, medium, long);
    Ok(Generated(SetSignal(raw), w.long - 1))
  }

  /** 1 exactly where short > medium > long, on series of one length. */
  function Ordered(short: seq<real>, medium: seq<real>, long: seq<real>): seq<int>
    requires |short| == |medium| == |long|
  {
    seq(|long|, i requires 0 <= i < |long| =>
      if short[i] > medium[i] && short[i] > long[i] && medium[i] > long[i] then 1 else 0)
  }

  /** The masking steps of generate_signals on the cut averages: ones where
      all three are in order, then zeros where medium > short. */
  function Masks(short: seq<real>, medium: seq<real>, long: seq<real>): (r: Result<seq<int>>)
    ensures |short| == |medium| == |long| ==> r == Ok(Ordered(short, medium, long))
    ensures r.Ok? ==> |r.value| == |long|
  {
    var sm :- Gt(short, medium);
    var sl :- Gt(short, long);
    var both :- And(sm, sl);
    var ml :- Gt(medium, long);
    var longMask :- And(both, ml);
    var raw :- AssignWhere(Zeros(|long|), longMask, 1);
    var shortMask := Gt(medium, short).value;
    var raw' :- AssignWhere(raw, shortMask, 0);
    assert |short| == |medium| == |long| ==> raw' == Ordered(short, medium, long);
    Ok(raw')
  }

  /** Aligned averages, once cut, are the three series TripleRaw reads. */
  lemma DropsLineUp(w: Windows, s: seq<real>, m: seq<real>, l: seq<real>)
    ensures Aligned(w, s, m, l) ==>
      var short, medium := Drop(s, w.long - w.short), Drop(m, w.long - w.medium);
      |short| == |medium| == |l| && Ordered(short, medium, l) == TripleRaw(w, s, m, l)
  {
  }

  /** At position i of the long average, the aligned short average lies
      above the aligned medium one and both above the long one. */
  predicate InLine(w: Windows, s: seq<real>, m: seq<real>, l: seq<real>, i: int)
    requires Aligned(w, s, m, l) && 0 <= i < |l|
  {
    var sv, mv := s[i + (w.long - w.short)], m[i + (w.long - w.medium)];
    sv > mv && mv > l[i]
  }

  /** The averages stood in line at the position before i. */
  predicate InLineBefore(w: Windows, s: seq<real>, m: seq<real>, l: seq<real>, i: int)
    requires Aligned(w, s, m, l) && 0 <= i < |l|
  {
    i > 0 && InLine(w, s, m, l, i - 1)
  }

  /** InLine at every position of the long average. */
  function InLineAll(w: Windows, s: seq<real>, m: seq<real>, l: seq<real>): (c: seq<bool>)
    requires Aligned(w, s, m, l)
    ensures |c| == |l| && forall i :: 0 <= i < |l| ==> c[i] == InLine(w, s, m, l, i)
  {
    seq(|l|, i requires 0 <= i < |l| => InLine(w, s, m, l, i))
  }

  /** The raw array is one exactly where the averages are in line. */
  lemma RawIsInLine(w: Windows, s: seq<real>, m: seq<real>, l: seq<real>)
    requires Aligned(w, s, m, l)
    ensures TripleRaw(w, s, m, l) == OnesWhere(InLineAll(w, s, m, l))
  {
    var raw, ones := TripleRaw(w, s, m, l), OnesWhere(InLineAll(w, s, m, l));
    forall i | 0 <= i < |l|
      ensures raw[i] == ones[i]
    {
      assert ones[i] == 1 <==> InLine(w, s, m, l, i);
    }
  }

  /** On aligned averages, a buy exactly where short > medium > long starts
      to hold, a sell exactly where it stops. */
  lemma Crossings(w: Windows, s: seq<real>, m: seq<real>, l: seq<real>)
    requires Aligned(w, s, m, l)
    ensures var sig := GenerateSignals(w, s, m, l).value.signal;
      forall i :: 0 <= i < |sig| ==>
        (sig[i] == BUY <==> InLine(w, s, m, l, i) && !InLineBefore(w, s, m, l, i))
        && (sig[i] == SELL <==> !InLine(w, s, m, l, i) && InLineBefore(w, s, m, l, i))
  {
    var c := InLineAll(w, s, m, l);
    var sig := GenerateSignals(w, s, m, l).value.signal;
    RawIsInLine(w, s, m, l);
    SetSignalOfCondition(c);
    forall i | 0 <= i < |sig|
      ensures (sig[i] == BUY <==> InLine(w, s, m, l, i) && !InLineBefore(w, s, m, l, i))
      ensures (sig[i] == SELL <==> !InLine(w, s, m, l, i) && InLineBefore(w, s, m, l, i))
    {
      assert HeldBefore(c, i) == InLineBefore(w, s, m, l, i);
    }
  }
}
