/** The indicator backtester: a wallet/position ledger over a shaped signal and
    the open prices, shifted by the indicator's signal_shift.

    The source keeps two arrays, wallet and portfolio, and on every trade
    rewrites the whole suffix from the trade index on. The model gives a
    reference ledger, folded index by index, and proves the suffix-rewriting
    loop computes exactly its running totals.
 */
module BackTesting {
  import opened Wrappers
  import opened PyMath
  import opened NumpyOps

  /** The backtest arguments: starting cash, a fixed fee per trade and a fee
      proportional to the traded value. */
  datatype Fees = Fees(initialCapital: real, fixed: real, rate: real)

  /** The arguments used when none are given. */
  const DefaultFees: Fees := Fees(100000.0, 2.0, 0.004)

  /** The running state: cash in the wallet, value booked into the portfolio
      and the number of shares held. */
  datatype Ledger = Ledger(cash: real, holdings: real, position: int)

  function Start(fees: Fees): Ledger
  {
    Ledger(fees.initialCapital, 0.0, 0)
  }

  /** The backtest can run: every price it reads exists. The source compiles
      the loop without bounds checks, so this is a caller obligation. */
  predicate InBounds(signal: seq<int>, price: seq<real>, offset: int)
  {
    0 <= offset && |signal| + offset <= |price|
  }

  /** No buy among the first k indices happens at a zero price, where the
      share count would divide by zero. */
  predicate FundableUpTo(signal: seq<int>, price: seq<real>, offset: int, k: nat)
    requires InBounds(signal, price, offset) && k <= |signal|
  {
    forall i :: 0 <= i < k && signal[i] == 1 ==> price[i + offset] != 0.0
  }

  predicate Fundable(signal: seq<int>, price: seq<real>, offset: int)
    requires InBounds(signal, price, offset)
  {
    FundableUpTo(signal, price, offset, |signal|)
  }

  /** The shares a buy acquires: the cash over the price, truncated toward
      zero as Python's int() truncates. A buy at price zero raises in the
      source; the ledger is only read where no such buy occurs (see Fundable),
      so the count given for it here is immaterial. */
  function Shares(cash: real, p: real): int
  {
    if p == 0.0 then 0 else Trunc(cash / p)
  }

  /** The value of n shares at price p. */
  function Worth(p: real, n: int): real
  {
    p * (n as real)
  }

  /** What a buy of n shares takes from the wallet: their value plus the
      proportional fee, less the fixed fee, which the source credits. */
  function BuyDebit(p: real, n: int, fees: Fees): real
  {
    Worth(p, n) * (1.0 + fees.rate) - fees.fixed
  }

  /** What a sell of n shares adds to the wallet: their value less the
      proportional fee and the fixed fee. */
  function SellCredit(p: real, n: int, fees: Fees): real
  {
    Worth(p, n) * (1.0 - fees.rate) - fees.fixed
  }

  /** One index of the ledger loop. A buy spends the wallet on as many whole
      shares as it covers and books their value into the portfolio; a sell
      books the position back into the wallet and empties the portfolio. */
  function Step(l: Ledger, sig: int, p: real, fees: Fees): Ledger
  {
    if sig == 1 then
      var n := Shares(l.cash, p);
      Ledger(l.cash - BuyDebit(p, n, fees), l.holdings + Worth(p, n), n)
    else if sig == -1 then
      Ledger(l.cash + SellCredit(p, l.position, fees), 0.0, 0)
    else l
  }

  /** The ledger after the first k indices. */
  function LedgerAfter(signal: seq<int>, price: seq<real>, offset: int, fees: Fees, k: nat): Ledger
    requires InBounds(signal, price, offset) && k <= |signal|
  {
    if k == 0 then Start(fees)
    else Step(LedgerAfter(signal, price, offset, fees, k - 1), signal[k - 1], price[k - 1 + offset], fees)
  }

  function Value(l: Ledger): real
  {
    l.cash + l.holdings
  }

  /** The reference totals: total[k] is the ledger's value once index k is done. */
  function Totals(signal: seq<int>, price: seq<real>, offset: int, fees: Fees): (r: seq<real>)
    requires InBounds(signal, price, offset) && Fundable(signal, price, offset)
    ensures |r| == |signal|
  {
    seq(|signal|, k requires 0 <= k < |signal| => Value(LedgerAfter(signal, price, offset, fees, k + 1)))
  }

  /** The loop's mutable state: the wallet and portfolio arrays and the position. */
  datatype Books = Books(wallet: seq<real>, portfolio: seq<real>, position: int)

  /** The buy branch of the loop body at index i: buy as many whole shares
      as the wallet entry covers and book them from i on. */
  function Buy(b: Books, i: nat, p: real, fees: Fees): (r: Books)
    requires i < |b.wallet| == |b.portfolio| && p != 0.0
    ensures |r.wallet| == |b.wallet| && |r.portfolio| == |b.portfolio|
    ensures r.position == Shares(b.wallet[i], p)
    ensures forall k :: 0 <= k < i ==> r.wallet[k] == b.wallet[k] && r.portfolio[k] == b.portfolio[k]
    ensures forall k :: i <= k < |r.wallet| ==>
      r.wallet[k] == b.wallet[k] - BuyDebit(p, r.position, fees)
      && r.portfolio[k] == b.portfolio[k] + Worth(p, r.position)
  {
    var n := Shares(b.wallet[i], p);
    Books(AddFrom(b.wallet, i, -BuyDebit(p, n, fees)), AddFrom(b.portfolio, i, Worth(p, n)), n)
  }

  /** The sell branch of the loop body at index i: book the position back
      from i on and empty the portfolio and the position. */
  function Sell(b: Books, i: nat, p: real, fees: Fees): (r: Books)
    requires i < |b.wallet| == |b.portfolio|
    ensures |r.wallet| == |b.wallet| && |r.portfolio| == |b.portfolio| && r.position == 0
    ensures forall k :: 0 <= k < i ==> r.wallet[k] == b.wallet[k] && r.portfolio[k] == b.portfolio[k]
    ensures forall k :: i <= k < |r.wallet| ==>
      r.wallet[k] == b.wallet[k] + SellCredit(p, b.position, fees)
      && r.portfolio[k] == 0.0
  {
    Books(AddFrom(b.wallet, i, SellCredit(p, b.position, fees)),
          FillFrom(b.portfolio, i, 0.0), 0)
  }

  /** One iteration of the ledger loop at index i: a buy, a sell or nothing,
      each rewriting the books from i on and leaving the entries before i alone. */
  function Trade(b: Books, i: nat, sig: int, p: real, fees: Fees): (r: Books)
    requires i < |b.wallet| == |b.portfolio|
    requires sig == 1 ==> p != 0.0
    ensures |r.wallet| == |b.wallet| && |r.portfolio| == |b.portfolio|
    ensures forall k :: 0 <= k < i ==> r.wallet[k] == b.wallet[k] && r.portfolio[k] == b.portfolio[k]
    ensures sig != 1 && sig != -1 ==> r == b
  {
    if sig == 1 then Buy(b, i, p, fees)
    else if sig == -1 then Sell(b, i, p, fees)
    else b
  }

  /** The books mirror a run of ledgers up to n: every entry before n holds the
      ledger after its own index, and every entry from n on, together with the
      position, holds the ledger before index n. */
  predicate Mirrors(b: Books, states: seq<Ledger>, n: nat)
  {
    && |b.wallet| == |b.portfolio| && n <= |b.wallet| && |states| == n + 1
    && (forall k :: 0 <= k < n ==> b.wallet[k] == states[k + 1].cash && b.portfolio[k] == states[k + 1].holdings)
    && b.position == states[n].position
    && (forall k :: n <= k < |b.wallet| ==> b.wallet[k] == states[n].cash && b.portfolio[k] == states[n].holdings)
  }

  /** The suffix-rewriting trade at index n keeps the books mirroring the
      run extended by one Step. */
  lemma TradeMirrors(b: Books, states: seq<Ledger>, n: nat, sig: int, p: real, fees: Fees)
    requires Mirrors(b, states, n) && n < |b.wallet|
    requires sig == 1 ==> p != 0.0
    ensures Mirrors(Trade(b, n, sig, p, fees), states + [Step(states[n], sig, p, fees)], n + 1)
  {
    var next := states + [Step(states[n], sig, p, fees)];
    if sig == 1 {
      BuyMirrors(b, states, n, p, fees);
    } else if sig == -1 {
      SellMirrors(b, states, n, p, fees);
    } else {
      assert next[n + 1] == states[n];
    }
  }

  lemma BuyMirrors(b: Books, states: seq<Ledger>, n: nat, p: real, fees: Fees)
    requires Mirrors(b, states, n) && n < |b.wallet| && p != 0.0
    ensures Mirrors(Buy(b, n, p, fees), states + [Step(states[n], 1, p, fees)], n + 1)
  {
    var before := states[n];
    assert b.wallet[n] == before.cash;
    var after := Step(before, 1, p, fees);
    BuyStepFacts(before, after, p, fees);
  }

  lemma SellMirrors(b: Books, states: seq<Ledger>, n: nat, p: real, fees: Fees)
    requires Mirrors(b, states, n) && n < |b.wallet|
    ensures Mirrors(Sell(b, n, p, fees), states + [Step(states[n], -1, p, fees)], n + 1)
  {
  }

  /** The backtest as a value: the reference totals, or the ZeroDivisionError
      the first buy at a zero price raises. */
  function Backtest(signal: seq<int>, price: seq<real>, offset: int, fees: Fees): (r: Result<seq<real>>)
    requires InBounds(signal, price, offset)
  {
    if Fundable(signal, price, offset) then Ok(Totals(signal, price, offset, fees))
    else Err(ZeroDivisionError)
  }

  /** __backtest_portfolio as the source writes it: suffix updates of a wallet
      and a portfolio array, total = portfolio + wallet. A buy at a zero price
      raises ZeroDivisionError; otherwise the totals are the reference ledger's. */
  method BacktestPortfolio(signal: seq<int>, price: seq<real>, offset: int, fees: Fees)
    returns (r: Result<seq<real>>)
    requires InBounds(signal, price, offset)
    ensures r.Err? <==> !Fundable(signal, price, offset)
    ensures r.Err? ==> r.error == ZeroDivisionError
    ensures r.Ok? ==> Fundable(signal, price, offset) && r.value == Totals(signal, price, offset, fees)
    ensures r == Backtest(signal, price, offset, fees)
  {
    var books := Books(seq(|signal|, k => fees.initialCapital), seq(|signal|, k => 0.0), 0);
    ghost var states := [Start(fees)];
    var index := 0;
    while index < |signal|
      invariant 0 <= index <= |signal| && |books.wallet| == |signal|
      invariant FundableUpTo(signal, price, offset, index)
      invariant IsRun(states, signal, price, offset, fees, index)
      invariant Mirrors(books, states, index)
    {
      var p := price[index + offset];
      if signal[index] == 1 && p == 0.0 {
        return Err(ZeroDivisionError);
      }
      TradeMirrors(books, states, index, signal[index], p, fees);
      RunExtends(states, signal, price, offset, fees, index);
      books := Trade(books, index, signal[index], p, fees);
      states := states + [Step(states[index], signal[index], p, fees)];
      index := index + 1;
    }
    MirrorsTotals(books, states, signal, price, offset, fees);
    r := Ok(BookTotals(books));
  }

  /** total = portfolio + wallet, elementwise. */
  function BookTotals(b: Books): (r: seq<real>)
    requires |b.wallet| == |b.portfolio|
    ensures |r| == |b.wallet|
  {
    seq(|b.wallet|, k requires 0 <= k < |b.wallet| => b.portfolio[k] + b.wallet[k])
  }

  /** A run extended by the Step at index n is a run one index longer. */
  lemma RunExtends(states: seq<Ledger>, signal: seq<int>, price: seq<real>, offset: int, fees: Fees, n: nat)
    requires InBounds(signal, price, offset) && n < |signal|
    requires IsRun(states, signal, price, offset, fees, n)
    ensures IsRun(states + [Step(states[n], signal[n], price[n + offset], fees)], signal, price, offset, fees, n + 1)
  {
    var next := states + [Step(states[n], signal[n], price[n + offset], fees)];
    assert forall k :: 0 <= k <= n ==> next[k] == states[k];
  }

  /** Books that mirror a complete run hold the reference totals. */
  lemma MirrorsTotals(b: Books, states: seq<Ledger>, signal: seq<int>, price: seq<real>, offset: int, fees: Fees)
    requires InBounds(signal, price, offset) && Fundable(signal, price, offset)
    requires IsRun(states, signal, price, offset, fees, |signal|) && Mirrors(b, states, |signal|)
    requires |b.wallet| == |signal|
    ensures BookTotals(b) == Totals(signal, price, offset, fees)
  {
    RunIsLedger(states, signal, price, offset, fees, |signal|);
    var totals := Totals(signal, price, offset, fees);
    forall k | 0 <= k < |signal|
      ensures BookTotals(b)[k] == totals[k]
    {
      assert totals[k] == Value(LedgerAfter(signal, price, offset, fees, k + 1));
      assert states[k + 1] == LedgerAfter(signal, price, offset, fees, k + 1);
      assert BookTotals(b)[k] == b.portfolio[k] + b.wallet[k] == Value(states[k + 1]);
    }
    assert |BookTotals(b)| == |totals|;
  }

  /** states lists the ledger before every index up to n, each obtained from
      the previous one by Step. */
  predicate IsRun(states: seq<Ledger>, signal: seq<int>, price: seq<real>, offset: int, fees: Fees, n: nat)
    requires InBounds(signal, price, offset) && n <= |signal|
  {
    && |states| == n + 1 && states[0] == Start(fees)
    && forall k :: 0 <= k < n ==> states[k + 1] == Step(states[k], signal[k], price[k + offset], fees)
  }

  /** A run of Step is the reference ledger. */
  lemma {:induction false} RunIsLedger(states: seq<Ledger>, signal: seq<int>, price: seq<real>, offset: int,
                                       fees: Fees, n: nat)
    requires InBounds(signal, price, offset) && n <= |signal|
    requires IsRun(states, signal, price, offset, fees, n)
    ensures forall k :: 0 <= k <= n ==> states[k] == LedgerAfter(signal, price, offset, fees, k)
  {
    if n > 0 {
      RunIsLedger(states[..n], signal, price, offset, fees, n - 1);
    }
  }

  /** Two signals that agree on their first n entries give the same ledger
      over those entries. */
  lemma {:induction false} PrefixAgree(a: seq<int>, b: seq<int>, price: seq<real>, offset: int, fees: Fees, n: nat)
    requires InBounds(a, price, offset) && InBounds(b, price, offset)
    requires n <= |a| && n <= |b| && a[..n] == b[..n]
    ensures LedgerAfter(a, price, offset, fees, n) == LedgerAfter(b, price, offset, fees, n)
  {
    assert forall i :: 0 <= i < n ==> a[i] == a[..n][i] == b[..n][i] == b[i];
    if n > 0 {
      assert a[..n - 1] == a[..n][..n - 1] && b[..n - 1] == b[..n][..n - 1];
      PrefixAgree(a, b, price, offset, fees, n - 1);
    }
  }

  /** The backtest is causal: the totals of a signal prefix are the prefix of
      the totals, so a trade at index i changes only totals at indices >= i. */
  lemma TotalsCausal(signal: seq<int>, price: seq<real>, offset: int, fees: Fees, n: nat)
    requires InBounds(signal, price, offset) && Fundable(signal, price, offset) && n <= |signal|
    ensures InBounds(signal[..n], price, offset) && Fundable(signal[..n], price, offset)
    ensures Totals(signal[..n], price, offset, fees) == Totals(signal, price, offset, fees)[..n]
  {
    var pre := signal[..n];
    assert forall i :: 0 <= i < n ==> pre[i] == signal[i];
    forall k | 0 <= k < n
      ensures Totals(pre, price, offset, fees)[k] == Totals(signal, price, offset, fees)[k]
    {
      assert pre[..k + 1] == signal[..k + 1];
      PrefixAgree(pre, signal, price, offset, fees, k + 1);
    }
  }

  /** The total moves only at a buy or a sell: elsewhere it repeats the
      previous total (the starting capital at index 0). */
  lemma {:induction false} TotalsPiecewiseConstant(signal: seq<int>, price: seq<real>, offset: int, fees: Fees, i: nat)
    requires InBounds(signal, price, offset) && Fundable(signal, price, offset)
    requires i < |signal| && signal[i] != 1 && signal[i] != -1
    ensures Totals(signal, price, offset, fees)[i]
      == if i == 0 then fees.initialCapital else Totals(signal, price, offset, fees)[i - 1]
  {
    assert LedgerAfter(signal, price, offset, fees, i + 1) == LedgerAfter(signal, price, offset, fees, i);
  }

  /** With no buy and no sell in the signal the total stays at the starting
      capital throughout. */
  lemma {:induction false} AllHoldConstant(signal: seq<int>, price: seq<real>, offset: int, fees: Fees)
    requires InBounds(signal, price, offset)
    requires forall i :: 0 <= i < |signal| ==> signal[i] != 1 && signal[i] != -1
    ensures Fundable(signal, price, offset)
    ensures forall k :: 0 <= k < |signal| ==> Totals(signal, price, offset, fees)[k] == fees.initialCapital
  {
    forall k | 0 <= k <= |signal|
      ensures LedgerAfter(signal, price, offset, fees, k) == Start(fees)
    {
      HoldLedger(signal, price, offset, fees, k);
    }
  }

  lemma {:induction false} HoldLedger(signal: seq<int>, price: seq<real>, offset: int, fees: Fees, k: nat)
    requires InBounds(signal, price, offset)
    requires forall i :: 0 <= i < |signal| ==> signal[i] != 1 && signal[i] != -1
    requires k <= |signal|
    ensures Fundable(signal, price, offset)
    ensures LedgerAfter(signal, price, offset, fees, k) == Start(fees)
  {
    if k > 0 {
      HoldLedger(signal, price, offset, fees, k - 1);
    }
  }

  /** A buy at index i: the position becomes the truncated quotient of the
      cash before it by the price, the wallet changes by
      -(p*n*(1 + rate) - fixed), crediting the fixed fee, and the portfolio
      grows by p*n. */
  lemma BuyEffect(signal: seq<int>, price: seq<real>, offset: int, fees: Fees, i: nat)
    requires InBounds(signal, price, offset) && Fundable(signal, price, offset)
    requires i < |signal| && signal[i] == 1
    ensures var before := LedgerAfter(signal, price, offset, fees, i);
      var after := LedgerAfter(signal, price, offset, fees, i + 1);
      var p := price[i + offset];
      && after.position == Trunc(before.cash / p)
      && after.cash - before.cash == -(p * (after.position as real) * (1.0 + fees.rate) - fees.fixed)
      && after.holdings - before.holdings == p * (after.position as real)
  {
    var before := LedgerAfter(signal, price, offset, fees, i);
    var p := price[i + offset];
    assert FundableUpTo(signal, price, offset, |signal|);
    assert p != 0.0;
    var after := LedgerAfter(signal, price, offset, fees, i + 1);
    assert after == Step(before, 1, p, fees);
    BuyStepFacts(before, after, p, fees);
  }

  lemma BuyStepFacts(before: Ledger, after: Ledger, p: real, fees: Fees)
    requires p != 0.0 && after == Step(before, 1, p, fees)
    ensures after.position == Trunc(before.cash / p)
    ensures after.cash - before.cash == -(p * (after.position as real) * (1.0 + fees.rate) - fees.fixed)
    ensures after.holdings - before.holdings == p * (after.position as real)
  {
  }

  /** Without fees a buy only moves cash into the portfolio: the total at the
      buy index equals the total before it. */
  lemma ZeroFeeBuyKeepsTotal(signal: seq<int>, price: seq<real>, offset: int, fees: Fees, i: nat)
    requires InBounds(signal, price, offset) && Fundable(signal, price, offset)
    requires fees.fixed == 0.0 && fees.rate == 0.0
    requires i < |signal| && signal[i] == 1
    ensures Totals(signal, price, offset, fees)[i]
      == if i == 0 then fees.initialCapital else Totals(signal, price, offset, fees)[i - 1]
  {
    var before := LedgerAfter(signal, price, offset, fees, i);
    var p := price[i + offset];
    var n := Trunc(before.cash / p) as real;
    assert Value(LedgerAfter(signal, price, offset, fees, i + 1))
      == before.cash - p * n + before.holdings + p * n;
  }

  /** A sell at index i empties the portfolio and the position and moves the
      wallet by p*position*(1 - rate) - fixed; selling with no position still
      costs the fixed fee. */
  lemma SellEffect(signal: seq<int>, price: seq<real>, offset: int, fees: Fees, i: nat)
    requires InBounds(signal, price, offset) && Fundable(signal, price, offset)
    requires i < |signal| && signal[i] == -1
    ensures var before := LedgerAfter(signal, price, offset, fees, i);
      var after := LedgerAfter(signal, price, offset, fees, i + 1);
      && after.holdings == 0.0 && after.position == 0
      && after.cash - before.cash == price[i + offset] * (before.position as real) * (1.0 - fees.rate) - fees.fixed
      && (before.position == 0 ==> after.cash == before.cash - fees.fixed)
  {
  }
}
