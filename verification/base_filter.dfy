/** What every stock filter shares: the three verdicts, the score kept
    between runs, and the classification of a score against a buy and a
    sell threshold. */
module BaseFilter {

  /** SELL = 0, BUY = 1, HOLD = 2. */
  datatype Status = Sell | Buy | Hold

  /** The integer the filters return for a verdict. */
  function Code(s: Status): nat
  {
    match s
    case Sell => 0
    case Buy => 1
    case Hold => 2
  }

  /** Verdicts from worst to best: sell, hold, buy. */
  function Rank(s: Status): nat
  {
    match s
    case Sell => 0
    case Hold => 1
    case Buy => 2
  }

  /** The score a filter keeps after analyse (0 after construction) and the
      verdict analyse returns. */
  datatype Outcome = Outcome(score: real, status: Status)

  /** A score at or above the buy threshold buys; otherwise one at or below
      the sell threshold sells; anything else holds. */
  function Classify(score: real, buy: real, sell: real): (r: Status)
    ensures r == Buy <==> score >= buy
    ensures r == Sell <==> score < buy && score <= sell
    ensures r == Hold <==> sell < score < buy
  {
    if score >= buy then Buy
    else if score <= sell then Sell
    else Hold
  }

  /** The three verdicts have three different codes. */
  lemma CodesDistinct(a: Status, b: Status)
    ensures Code(a) == Code(b) <==> a == b
  {
  }

  /** A higher score never gets a worse verdict, whatever the thresholds. */
  lemma ClassifyMonotone(c1: real, c2: real, buy: real, sell: real)
    requires c1 <= c2
    ensures Rank(Classify(c1, buy, sell)) <= Rank(Classify(c2, buy, sell))
  {
  }
}
