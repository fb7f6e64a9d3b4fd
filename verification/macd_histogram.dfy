/** The MACD histogram indicator (SHORT_NAME 'Macdh'). The histogram is a
    tulipy output and enters as an input. */
module MacdHistogram {
  import opened Wrappers
  import opened NumpyOps
  import opened BaseIndicator

  const SHORT_NAME: string := "Macdh"

  datatype Periods = Periods(short: int, long: int, signal: int)

  /** set_parameters: exactly three parameters with the long period strictly
      above the short one. */
  function SetParameters(p: seq<int>): (r: Result<Periods>)
    ensures r.Ok? <==> |p| == 3 && p[1] > p[0]
    ensures r.Err? ==> r.error == ValueError
    ensures r.Ok? ==> r.value == Periods(p[0], p[1], p[2])
  {
    if |p| != 3 then Err(ValueError)
    else if !(p[1] > p[0]) then Err(ValueError)
    else Ok(Periods(p[0], p[1], p[2]))
  }

  /** generate_signals: a buy condition wherever the histogram is positive,
      shaped by set_signal and shifted by long - 1. It cannot fail. */
  function GenerateSignals(p: Periods, histogram: seq<real>): (r: Result<Generated>)
    ensures r.Ok?
    ensures r.value.signal == SetSignal(seq(|histogram|, i requires 0 <= i < |histogram| =>
                                            if histogram[i] > 0.0 then 1 else 0))
    ensures r.value.shift == p.long - 1
  {
    var raw := AssignWhere(Zeros(|histogram|), GtScalar(histogram, 0.0), 1).value;
    assert raw == seq(|histogram|, i requires 0 <= i < |histogram| => if histogram[i] > 0.0 then 1 else 0);
    Ok(Generated(SetSignal(raw), p.long - 1))
  }

  /** The histogram is positive at position i. */
  predicate Positive(histogram: seq<real>, i: int)
    requires 0 <= i < |histogram|
  {
    histogram[i] > 0.0
  }

  /** The histogram was positive at the bar before i. */
  predicate PositiveBefore(histogram: seq<real>, i: int)
    requires 0 <= i < |histogram|
  {
    i > 0 && Positive(histogram, i - 1)
  }

  /** A buy exactly where the histogram turns positive (or already is at the
      first bar), a sell exactly where it stops being positive. */
  lemma Crossings(p: Periods, histogram: seq<real>)
    ensures var sig := GenerateSignals(p, histogram).value.signal;
      forall i :: 0 <= i < |sig| ==>
        (sig[i] == BUY <==> Positive(histogram, i) && !PositiveBefore(histogram, i))
        && (sig[i] == SELL <==> !Positive(histogram, i) && PositiveBefore(histogram, i))
  {
    var raw := seq(|histogram|, i requires 0 <= i < |histogram| => if histogram[i] > 0.0 then 1 else 0);
    var c := seq(|histogram|, i requires 0 <= i < |histogram| => Positive(histogram, i));
    var sig := GenerateSignals(p, histogram).value.signal;
    assert raw == OnesWhere(c);
    SetSignalOfCondition(c);
    forall i | 0 <= i < |sig|
      ensures (sig[i] == BUY <==> Positive(histogram, i) && !PositiveBefore(histogram, i))
      ensures (sig[i] == SELL <==> !Positive(histogram, i) && PositiveBefore(histogram, i))
    {
      assert HeldBefore(c, i) == PositiveBefore(histogram, i);
    }
  }
}
