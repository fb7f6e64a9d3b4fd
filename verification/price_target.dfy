/** The PriceTargetScore filter: the last close is placed against the
    analysts' low, mean and high price targets. Below the low or the mean
    the score counts negative steps, above the high or the mean positive
    ones; a step is a tenth of the distance from the mean to the low or to
    the high. */
module PriceTarget {
  import opened Wrappers
  import opened PyJson
  import opened PyMath
  import opened BaseFilter
  import StockSchema
  import StockIsHot

  /** A tenth of a distance, or 1 when the distance is zero. */
  function StepWidth(distance: real): (r: real)
    ensures r != 0.0
    ensures distance != 0.0 ==> r * 10.0 == distance
    ensures distance == 0.0 ==> r == 1.0
  {
    var step := distance / 10.0;
    if step == 0.0 then 1.0 else step
  }

  /** abs() of an int. */
  function IntAbs(i: int): (r: int)
    ensures r >= 0 && (r == i || r == -i)
  {
    if i >= 0 then i else -i
  }

  /** The score of the current price against the targets. Only the two
      steps together can be zero, and only between the low and the high. */
  function TargetScore(current: real, low: real, high: real, mean: real): (r: Result<int>)
    ensures current < low ==> r.Ok? && r.value <= 0
    ensures current >= low && current > high ==> r.Ok?
    ensures current >= low && current <= high && current < mean && r.Ok? ==> r.value <= 0
    ensures r.Err? ==> r.error == ZeroDivisionError && low <= current <= high
  {
    var lowSteps := StepWidth(mean - low);
    var highSteps := StepWidth(high - mean);
    if current - low < 0.0 then Ok(-IntAbs(Trunc((current - low) / lowSteps)))
    else if current - high > 0.0 then Ok(Trunc((current - high) / highSteps))
    else
      var share :- Div((current - mean) * 2.0, lowSteps + highSteps);
      if current - mean < 0.0 then Ok(-IntAbs(Trunc(share)))
      else Ok(Trunc(share))
  }

  /** With the targets in order (low <= mean <= high) both steps are
      positive: the score is never an error, a current price at or above the
      mean never scores below zero, and one below the mean never above. */
  lemma OrderedTargets(current: real, low: real, high: real, mean: real)
    requires low <= mean <= high
    ensures TargetScore(current, low, high, mean).Ok?
    ensures current >= mean ==> TargetScore(current, low, high, mean).value >= 0
    ensures current < mean ==> TargetScore(current, low, high, mean).value <= 0
  {
    var lowSteps, highSteps := StepWidth(mean - low), StepWidth(high - mean);
    assert lowSteps > 0.0 && highSteps > 0.0;
    if current - high > 0.0 {
      assert (current - high) / highSteps > 0.0;
    } else if current - low >= 0.0 && current - mean >= 0.0 {
      assert (current - mean) * 2.0 / (lowSteps + highSteps) >= 0.0;
    }
  }

  /** The price targets of the recommendation document, read and converted
      in the order low, high, mean. */
  function Targets(doc: Option<Json>): (r: Result<(real, real, real)>)
  {
    var recommendation := match doc case Some(d) => d case None => JNull;
    var prices :- Index(recommendation, "priceTarget");
    var lowValue :- Index(prices, "low");
    var low :- ToFloat(lowValue);
    var highValue :- Index(prices, "high");
    var high :- ToFloat(highValue);
    var meanValue :- Index(prices, "mean");
    var mean :- ToFloat(meanValue);
    Ok((low, high, mean))
  }

  /** analyse: the target score of the last close; a KeyError (a missing
      target) keeps the previous score, any other exception propagates;
      either way the score is classified. */
  function Analyse(s: StockSchema.Stock, bars: seq<StockIsHot.Row>, buy: real, sell: real, prev: real)
    : (r: Result<Outcome>)
    ensures r.Ok? ==> r.value.status == Classify(r.value.score, buy, sell)
    ensures Targets(StockSchema.GetData(s, "recommendation")) == Err(KeyError) ==>
      r == Ok(Outcome(prev, Classify(prev, buy, sell)))
    ensures Targets(StockSchema.GetData(s, "recommendation")).Ok? && |bars| > 0 && bars[|bars| - 1].close.Some? ==>
      var (low, high, mean) := Targets(StockSchema.GetData(s, "recommendation")).value;
      var score := TargetScore(bars[|bars| - 1].close.value, low, high, mean);
      (score.Ok? ==> r == Ok(Outcome(score.value as real, Classify(score.value as real, buy, sell))))
      && (score.Err? ==> r == Err(score.error))
  {
    var scored :=
      var targets :- Targets(StockSchema.GetData(s, "recommendation"));
      if |bars| == 0 then Err(IndexError)
      else if bars[|bars| - 1].close.None? then Err(TypeError)
      else
        var (low, high, mean) := targets;
        TargetScore(bars[|bars| - 1].close.value, low, high, mean);
    match scored
    case Ok(score) => Ok(Outcome(score as real, Classify(score as real, buy, sell)))
    case Err(e) => if e == KeyError then Ok(Outcome(prev, Classify(prev, buy, sell))) else Err(e)
  }

  /** A stock without a recommendation document raises TypeError at
      None['priceTarget']; one whose document lacks the price targets keeps
      the previous score. */
  lemma MissingTargets(s: StockSchema.Stock, bars: seq<StockIsHot.Row>, buy: real, sell: real, prev: real)
    ensures StockSchema.GetData(s, "recommendation").None? ==>
      Analyse(s, bars, buy, sell, prev) == Err(TypeError)
    ensures (StockSchema.GetData(s, "recommendation").Some?
             && StockSchema.GetData(s, "recommendation").value.JDict?
             && Lookup(StockSchema.GetData(s, "recommendation").value.entries, "priceTarget").None?) ==>
      Analyse(s, bars, buy, sell, prev) == Ok(Outcome(prev, Classify(prev, buy, sell)))
  {
  }
}
