/** The Piotroski F-score filter: nine yes/no tests on a company's
    financial statements, this year against the year before (four on
    profitability, three on liquidity, two on operating efficiency). The
    score is the number of tests passed. */
module Piotroski {
  import opened Wrappers
  import opened PyMath
  import opened BaseFilter
  import StockSchema

  /** A quantity now and four quarters earlier. */
  datatype Pair = Pair(now: real, prev: real)

  /** The statement figures the tests read, as the filter fetches them. */
  datatype Fundamentals = Fundamentals(
    cashFlow: real,
    returnOnAssets: Pair,
    netIncome: real,
    debtRatio: Pair,
    currentRatio: Pair,
    shares: Pair,
    grossMargin: Pair,
    assetTurnover: Pair)

  /** A source of statement figures: document key, item, quarters back. */
  type Figures = (string, string, int) -> Result<real>

  /** get_data_attr on the stock's quarterly figures. */
  function StockFigures(s: StockSchema.Stock): Figures
  {
    (key: string, attr: string, quarterDiff: int) => StockSchema.GetDataAttr(s, key, attr, false, quarterDiff)
  }

  /** num/den now and a year ago; the four figures are fetched first, in
      the order now, now, before, before. */
  function YearOverYear(fig: Figures, numKey: string, num: string, denKey: string, den: string): Result<Pair>
  {
    var n :- fig(numKey, num, 0);
    var d :- fig(denKey, den, 0);
    var nPrev :- fig(numKey, num, 4);
    var dPrev :- fig(denKey, den, 4);
    var now :- Div(n, d);
    var prev :- Div(nPrev, dPrev);
    Ok(Pair(now, prev))
  }

  /** Gross margin (revenue - cost of revenue) / revenue, now and a year ago. */
  function GrossMargin(fig: Figures): Result<Pair>
  {
    var revenue :- fig("income", "totalRevenue", 0);
    var cost :- fig("income", "costOfRevenue", 0);
    var revenuePrev :- fig("income", "totalRevenue", 4);
    var costPrev :- fig("income", "costOfRevenue", 4);
    var now :- Div(revenue - cost, revenue);
    var prev :- Div(revenuePrev - costPrev, revenuePrev);
    Ok(Pair(now, prev))
  }

  function Shares(fig: Figures): Result<Pair>
  {
    var now :- fig("balance", "totalSharesOutst", 0);
    var prev :- fig("balance", "totalSharesOutst", 4);
    Ok(Pair(now, prev))
  }

  /** The figures in the order the three groups fetch them; the first
      exception stops the calculation. Net income is read again by the
      third profitability test, which yields the value already read. */
  function Fetch(fig: Figures): Result<Fundamentals>
  {
    var cashFlow :- fig("cash", "cashFromOper", 0);
    var roa :- YearOverYear(fig, "income", "netIncome", "balance", "totalAssets");
    var netIncome :- fig("income", "netIncome", 0);
    var debt :- YearOverYear(fig, "balance", "longTermDebt", "balance", "totalAssets");
    var current :- YearOverYear(fig, "balance", "totalCurrentAssets", "balance", "totalCurrentLiabili");
    var shares :- Shares(fig);
    var margin :- GrossMargin(fig);
    var turnover :- YearOverYear(fig, "income", "totalRevenue", "balance", "totalAssets");
    Ok(Fundamentals(cashFlow, roa, netIncome, debt, current, shares, margin, turnover))
  }

  /** A year-over-year ratio is the quotient of the figures now and the
      quotient of the figures a year ago, neither divisor being zero. */
  lemma YearOverYearRatio(fig: Figures, numKey: string, num: string, denKey: string, den: string)
    requires YearOverYear(fig, numKey, num, denKey, den).Ok?
    ensures var d, dPrev := fig(denKey, den, 0), fig(denKey, den, 4);
      && d.Ok? && d.value != 0.0 && dPrev.Ok? && dPrev.value != 0.0
      && YearOverYear(fig, numKey, num, denKey, den).value
         == Pair(fig(numKey, num, 0).value / d.value, fig(numKey, num, 4).value / dPrev.value)
  {
  }

  /** The profitability figures: the return on assets as a year-over-year
      ratio of net income to total assets, and net income as read. */
  lemma FetchedProfitability(fig: Figures)
    requires Fetch(fig).Ok?
    ensures Fetch(fig).value.returnOnAssets == YearOverYear(fig, "income", "netIncome", "balance", "totalAssets").value
    ensures Fetch(fig).value.netIncome == fig("income", "netIncome", 0).value
  {
  }

  /** The liquidity figures: debt and current ratios as year-over-year
      ratios, and the share count now and a year ago. */
  lemma FetchedLiquidity(fig: Figures)
    requires Fetch(fig).Ok?
    ensures Fetch(fig).value.debtRatio == YearOverYear(fig, "balance", "longTermDebt", "balance", "totalAssets").value
    ensures Fetch(fig).value.currentRatio
            == YearOverYear(fig, "balance", "totalCurrentAssets", "balance", "totalCurrentLiabili").value
    ensures Fetch(fig).value.shares
            == Pair(fig("balance", "totalSharesOutst", 0).value, fig("balance", "totalSharesOutst", 4).value)
  {
  }

  /** Profitability: positive return on assets, positive operating cash
      flow, cash flow above net income, and a return on assets above last
      year's. */
  function ProfitabilityTests(f: Fundamentals): seq<bool>
  {
    [f.returnOnAssets.now > 0.0, f.cashFlow > 0.0, f.cashFlow > f.netIncome,
     f.returnOnAssets.now > f.returnOnAssets.prev]
  }

  /** Liquidity: a lower debt ratio than last year, a higher current ratio,
      and no more shares (the only test that passes on equality). */
  function LiquidityTests(f: Fundamentals): seq<bool>
  {
    [f.debtRatio.prev > f.debtRatio.now, f.currentRatio.now > f.currentRatio.prev,
     f.shares.now >= f.shares.prev]
  }

  /** Operating efficiency: a higher gross margin and a higher asset
      turnover than last year. */
  function EfficiencyTests(f: Fundamentals): seq<bool>
  {
    [f.grossMargin.now > f.grossMargin.prev, f.assetTurnover.now > f.assetTurnover.prev]
  }

  /** How many tests pass. */
  function Passed(tests: seq<bool>): (r: nat)
    ensures r <= |tests|
  {
    if |tests| == 0 then 0
    else Passed(tests[..|tests| - 1]) + (if tests[|tests| - 1] then 1 else 0)
  }

  /** All tests pass exactly when the count is the number of tests, and
      none passes exactly when it is zero. */
  lemma {:induction false} PassedExtremes(tests: seq<bool>)
    ensures Passed(tests) == |tests| <==> forall i :: 0 <= i < |tests| ==> tests[i]
    ensures Passed(tests) == 0 <==> forall i :: 0 <= i < |tests| ==> !tests[i]
  {
    if |tests| > 0 {
      var n := |tests| - 1;
      PassedExtremes(tests[..n]);
      assert forall i :: 0 <= i < n ==> tests[..n][i] == tests[i];
    }
  }

  /** The F-score: the tests passed over the three groups, so 0 to 9. */
  function Score(f: Fundamentals): (r: nat)
    ensures r <= 9
  {
    Passed(ProfitabilityTests(f)) + Passed(LiquidityTests(f)) + Passed(EfficiencyTests(f))
  }

  /** A perfect score means every one of the nine tests passes. */
  lemma PerfectScore(f: Fundamentals)
    ensures Score(f) == 9 <==>
      && f.returnOnAssets.now > 0.0 && f.cashFlow > 0.0 && f.cashFlow > f.netIncome
      && f.returnOnAssets.now > f.returnOnAssets.prev
      && f.debtRatio.prev > f.debtRatio.now && f.currentRatio.now > f.currentRatio.prev
      && f.shares.now >= f.shares.prev
      && f.grossMargin.now > f.grossMargin.prev && f.assetTurnover.now > f.assetTurnover.prev
  {
    var p, l, e := ProfitabilityTests(f), LiquidityTests(f), EfficiencyTests(f);
    PassedExtremes(p);
    PassedExtremes(l);
    PassedExtremes(e);
    assert (forall i :: 0 <= i < |p| ==> p[i]) <==> p[0] && p[1] && p[2] && p[3];
    assert (forall i :: 0 <= i < |l| ==> l[i]) <==> l[0] && l[1] && l[2];
    assert (forall i :: 0 <= i < |e| ==> e[i]) <==> e[0] && e[1];
    assert (forall i :: 0 <= i < |p| ==> !p[i]) <==> !p[0] && !p[1] && !p[2] && !p[3];
    assert (forall i :: 0 <= i < |l| ==> !l[i]) <==> !l[0] && !l[1] && !l[2];
    assert (forall i :: 0 <= i < |e| ==> !e[i]) <==> !e[0] && !e[1];
  }

  /** A zero score means every one of the nine tests fails. */
  lemma ZeroScore(f: Fundamentals)
    ensures Score(f) == 0 <==>
      && f.returnOnAssets.now <= 0.0 && f.cashFlow <= 0.0 && f.cashFlow <= f.netIncome
      && f.returnOnAssets.now <= f.returnOnAssets.prev
      && f.debtRatio.prev <= f.debtRatio.now && f.currentRatio.now <= f.currentRatio.prev
      && f.shares.now < f.shares.prev
      && f.grossMargin.now <= f.grossMargin.prev && f.assetTurnover.now <= f.assetTurnover.prev
  {
    var p, l, e := ProfitabilityTests(f), LiquidityTests(f), EfficiencyTests(f);
    PassedExtremes(p);
    PassedExtremes(l);
    PassedExtremes(e);
    assert (forall i :: 0 <= i < |p| ==> p[i]) <==> p[0] && p[1] && p[2] && p[3];
    assert (forall i :: 0 <= i < |l| ==> l[i]) <==> l[0] && l[1] && l[2];
    assert (forall i :: 0 <= i < |e| ==> e[i]) <==> e[0] && e[1];
    assert (forall i :: 0 <= i < |p| ==> !p[i]) <==> !p[0] && !p[1] && !p[2] && !p[3];
    assert (forall i :: 0 <= i < |l| ==> !l[i]) <==> !l[0] && !l[1] && !l[2];
    assert (forall i :: 0 <= i < |e| ==> !e[i]) <==> !e[0] && !e[1];
  }

  /** The exceptions the filter logs and swallows. */
  predicate Caught(e: PyError)
  {
    e == KeyError || e == ZeroDivisionError || e == TypeError
  }

  /** analyse on the figures of the filtered stock (StockFigures): the
      score when the figures can be fetched; after a KeyError,
      ZeroDivisionError or TypeError the previous score stays; any other
      exception propagates. Either way the score is classified. */
  function Analyse(fig: Figures, buy: real, sell: real, prev: real): (r: Result<Outcome>)
    ensures r.Ok? ==> r.value.status == Classify(r.value.score, buy, sell)
    ensures Fetch(fig).Ok? ==> r.Ok? && r.value.score == Score(Fetch(fig).value) as real
    ensures Fetch(fig).Err? ==> (r.Ok? <==> Caught(Fetch(fig).error))
    ensures Fetch(fig).Err? && r.Ok? ==> r.value.score == prev
    ensures r.Err? ==> r.error == Fetch(fig).error
    ensures 0.0 <= prev <= 9.0 && r.Ok? ==> 0.0 <= r.value.score <= 9.0
  {
    match Fetch(fig)
    case Ok(f) =>
      var score := Score(f) as real;
      Ok(Outcome(score, Classify(score, buy, sell)))
    case Err(e) =>
      if Caught(e) then Ok(Outcome(prev, Classify(prev, buy, sell))) else Err(e)
  }

  /** A company whose total assets are zero makes the return on assets
      divide by zero: the score of the previous run stays. */
  lemma ZeroAssetsKeepScore(fig: Figures, buy: real, sell: real, prev: real)
    requires fig("cash", "cashFromOper", 0).Ok?
    requires fig("income", "netIncome", 0).Ok? && fig("income", "netIncome", 4).Ok?
    requires fig("balance", "totalAssets", 0) == Ok(0.0) && fig("balance", "totalAssets", 4).Ok?
    ensures Analyse(fig, buy, sell, prev) == Ok(Outcome(prev, Classify(prev, buy, sell)))
  {
  }
}
