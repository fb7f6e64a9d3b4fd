/** The ultimate-oscillator gap mask shared by the three ultimate-oscillator
    indicators: a cross condition is written into a zero array, the ones that
    fall inside the oscillator's 25..75 gap are singled out, all ones are
    cleared, the gap ones restored, and finally every cross position is set
    again. The last step undoes the mask, which this module proves. */
module UltimateGap {
  import opened Wrappers
  import opened NumpyOps

  const GAP_LOW: real := 25.0
  const GAP_HIGH: real := 75.0

  /** The mask steps on the ultimate oscillator and a cross condition. */
  function ApplyGapMask(ultimate: seq<real>, cross: seq<bool>): (r: Result<seq<int>>)
    ensures r.Err? <==> exists i :: |ultimate| <= i < |cross| && cross[i]
    ensures r.Err? ==> r.error == IndexError
    ensures r.Ok? ==> |r.value| == |ultimate|
    ensures r.Ok? ==> forall i :: 0 <= i < |ultimate| ==>
      r.value[i] == if i < |cross| && cross[i] then 1 else 0
  {
    var gapMask := And(GtScalar(ultimate, GAP_LOW), LtScalar(ultimate, GAP_HIGH)).value;
    var gap := AssignMask(Zeros(|ultimate|), gapMask, 1).value;
    var marked :- AssignWhere(Zeros(|ultimate|), cross, 1);
    var keep := And(EqMask(marked, 1), EqMask(gap, 1)).value;
    var cleared := AssignMask(marked, EqMask(marked, 1), 0).value;
    var restored := AssignMask(cleared, keep, 1).value;
    var final := AssignWhere(restored, cross, 1).value;
    Ok(final)
  }
}
