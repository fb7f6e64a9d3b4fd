/** StockIsHotSecure: StockIsHot on the later half of the bars, with the
    score halved when the opening price has not grown beyond a given ratio
    over the whole range. */
module StockIsHotSecure {
  import opened Wrappers
  import opened BaseFilter
  import StockIsHot

  /** analyse: a first opening price of zero holds at once; a missing
      first or last price raises TypeError at the division. Otherwise the
      StockIsHot verdict on the later half of the bars stands when the last
      price is more than secureValue times the first; if not, the score is
      halved and classified again. */
  function Analyse(bars: seq<StockIsHot.Row>, intervals: seq<int>, slope: StockIsHot.Slope,
                   buy: real, sell: real, secureValue: real, prev: real): (r: Result<Outcome>)
    ensures |bars| == 0 ==> r == Err(IndexError)
    ensures |bars| > 0 && bars[0].open == Some(0.0) ==> r == Ok(Outcome(prev, Hold))
    ensures |bars| > 0 && bars[0].open != Some(0.0) ==>
      var first, last := bars[0].open, bars[|bars| - 1].open;
      var base := StockIsHot.Analyse(bars[|bars| / 2..], intervals, slope, buy, sell, prev);
      if first.None? || last.None? then r == Err(TypeError)
      else if base.Err? then r == Err(base.error)
      else if last.value / first.value > secureValue then r == base
      else r.Ok? && r.value.score == base.value.score / 2.0
           && r.value.status == Classify(r.value.score, buy, sell)
  {
    if |bars| == 0 then Err(IndexError)
    else
      var first, last := bars[0].open, bars[|bars| - 1].open;
      if first == Some(0.0) then Ok(Outcome(prev, Hold))
      else if first.None? || last.None? then Err(TypeError)
      else
        var ratio := last.value / first.value;
        var base :- StockIsHot.Analyse(bars[|bars| / 2..], intervals, slope, buy, sell, prev);
        if ratio > secureValue then Ok(base)
        else
          var halved := base.score / 2.0;
          Ok(Outcome(halved, Classify(halved, buy, sell)))
  }

  /** When the later half has performance values, the secure verdict is
      never better than the plain one on the same bars. */
  lemma NeverBetter(bars: seq<StockIsHot.Row>, intervals: seq<int>, slope: StockIsHot.Slope,
                    buy: real, sell: real, secureValue: real, prev: real, later: Outcome)
    requires |bars| > 0 && bars[0].open.Some? && bars[0].open != Some(0.0) && bars[|bars| - 1].open.Some?
    requires StockIsHot.Analyse(bars[|bars| / 2..], intervals, slope, buy, sell, prev) == Ok(later)
    requires later.score >= 0.0 && later.status == Classify(later.score, buy, sell)
    ensures Analyse(bars, intervals, slope, buy, sell, secureValue, prev).Ok?
    ensures Rank(Analyse(bars, intervals, slope, buy, sell, secureValue, prev).value.status) <= Rank(later.status)
  {
    KeptOrHalved(bars, intervals, slope, buy, sell, secureValue, prev, later);
    ClassifyMonotone(later.score / 2.0, later.score, buy, sell);
  }

  /** With a usable price range and a plain verdict, the secure verdict is
      that verdict or its halved score classified again. */
  lemma KeptOrHalved(bars: seq<StockIsHot.Row>, intervals: seq<int>, slope: StockIsHot.Slope,
                     buy: real, sell: real, secureValue: real, prev: real, later: Outcome)
    requires |bars| > 0 && bars[0].open.Some? && bars[0].open != Some(0.0) && bars[|bars| - 1].open.Some?
    requires StockIsHot.Analyse(bars[|bars| / 2..], intervals, slope, buy, sell, prev) == Ok(later)
    ensures Analyse(bars, intervals, slope, buy, sell, secureValue, prev) == Ok(later)
            || Analyse(bars, intervals, slope, buy, sell, secureValue, prev)
               == Ok(Outcome(later.score / 2.0, Classify(later.score / 2.0, buy, sell)))
  {
    var r := Analyse(bars, intervals, slope, buy, sell, secureValue, prev);
    if bars[|bars| - 1].open.value / bars[0].open.value > secureValue {
      assert r == Ok(later);
    } else {
      assert r.Ok? && r.value.score == later.score / 2.0;
    }
  }

  /** look_back_date: twice as many months back as StockIsHot. */
  function LookBackMonths(lookback: int): (r: int)
    ensures r == 2 * StockIsHot.LookBackMonths(lookback)
  {
    lookback * 2
  }
}
