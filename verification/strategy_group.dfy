/** The group strategy: it buys a stock only when at least group_size of the
    day's buy signals name that stock.

    A signal is anything with a stock id; stockOf reads that id. */
module StrategyGroup {

  /** group_size: 1 unless the strategy's arguments set it. An empty argument
      dict is falsy and has no key, so both paths give the default. */
  function GroupSize(arguments: map<string, int>): int
  {
    if "group_size" in arguments then arguments["group_size"] else 1
  }

  /** How many signals in all name the stock id. */
  function Count<S>(all: seq<S>, stockOf: S -> int, id: int): (r: nat)
    ensures r <= |all|
    decreases |all|
  {
    if |all| == 0 then 0
    else Count(all[..|all| - 1], stockOf, id) + (if stockOf(all[|all| - 1]) == id then 1 else 0)
  }

  /** The signal's stock is named by at least groupSize signals of all. */
  predicate InGroup<S>(all: seq<S>, stockOf: S -> int, groupSize: int, x: S)
  {
    Count(all, stockOf, stockOf(x)) >= groupSize
  }

  /** The signals of xs that are in a large enough group, in input order. */
  function Keep<S>(xs: seq<S>, all: seq<S>, stockOf: S -> int, groupSize: int): (r: seq<S>)
    ensures |r| <= |xs|
    ensures forall j :: 0 <= j < |r| ==> r[j] in xs && InGroup(all, stockOf, groupSize, r[j])
    decreases |xs|
  {
    if |xs| == 0 then []
    else
      var x := xs[|xs| - 1];
      Keep(xs[..|xs| - 1], all, stockOf, groupSize) + (if InGroup(all, stockOf, groupSize, x) then [x] else [])
  }

  /** The positions of xs whose signal is kept, ascending. */
  function KeptPositions<S>(xs: seq<S>, all: seq<S>, stockOf: S -> int, groupSize: int): seq<nat>
    decreases |xs|
  {
    if |xs| == 0 then []
    else
      var n := |xs| - 1;
      KeptPositions(xs[..n], all, stockOf, groupSize) + (if InGroup(all, stockOf, groupSize, xs[n]) then [n] else [])
  }

  /** The kept positions are strictly increasing positions of xs, and the
      output is xs read at them. */
  lemma {:induction false} KeepReadsPositions<S>(xs: seq<S>, all: seq<S>, stockOf: S -> int, groupSize: int)
    ensures var r, ix := Keep(xs, all, stockOf, groupSize), KeptPositions(xs, all, stockOf, groupSize);
            |ix| == |r|
            && (forall j :: 0 <= j < |ix| ==> ix[j] < |xs| && r[j] == xs[ix[j]])
            && (forall j, k :: 0 <= j < k < |ix| ==> ix[j] < ix[k])
    decreases |xs|
  {
    if |xs| > 0 {
      var n := |xs| - 1;
      var p := xs[..n];
      KeepReadsPositions(p, all, stockOf, groupSize);
      var r0, ix0 := Keep(p, all, stockOf, groupSize), KeptPositions(p, all, stockOf, groupSize);
      assert forall j :: 0 <= j < |ix0| ==> r0[j] == xs[ix0[j]];
      if InGroup(all, stockOf, groupSize, xs[n]) {
        var r, ix := r0 + [xs[n]], ix0 + [n];
        assert Keep(xs, all, stockOf, groupSize) == r && KeptPositions(xs, all, stockOf, groupSize) == ix;
        assert forall j :: 0 <= j < |ix0| ==> r[j] == r0[j] && ix[j] == ix0[j];
      } else {
        assert Keep(xs, all, stockOf, groupSize) == r0 && KeptPositions(xs, all, stockOf, groupSize) == ix0;
      }
    }
  }

  /** A position is kept exactly when its signal is in a large enough group. */
  lemma {:induction false} KeptPositionsExact<S>(xs: seq<S>, all: seq<S>, stockOf: S -> int, groupSize: int)
    ensures var ix := KeptPositions(xs, all, stockOf, groupSize);
            (forall j :: 0 <= j < |ix| ==> ix[j] < |xs|)
            && (forall i :: 0 <= i < |xs| ==> (i in ix <==> InGroup(all, stockOf, groupSize, xs[i])))
    decreases |xs|
  {
    if |xs| > 0 {
      var n := |xs| - 1;
      var p := xs[..n];
      KeptPositionsExact(p, all, stockOf, groupSize);
      assert forall i :: 0 <= i < n ==> p[i] == xs[i];
    }
  }

  /** The output is the input read at strictly increasing positions, and a
      position is among them exactly when its signal is in a large enough
      group: an order-preserving filter. */
  lemma KeepIsFilter<S>(xs: seq<S>, all: seq<S>, stockOf: S -> int, groupSize: int)
    ensures var r, ix := Keep(xs, all, stockOf, groupSize), KeptPositions(xs, all, stockOf, groupSize);
            |ix| == |r|
            && (forall j :: 0 <= j < |ix| ==> ix[j] < |xs| && r[j] == xs[ix[j]])
            && (forall j, k :: 0 <= j < k < |ix| ==> ix[j] < ix[k])
            && (forall i :: 0 <= i < |xs| ==> (i in ix <==> InGroup(all, stockOf, groupSize, xs[i])))
  {
    KeepReadsPositions(xs, all, stockOf, groupSize);
    KeptPositionsExact(xs, all, stockOf, groupSize);
  }

  /** Two signals of the same stock are both kept or both dropped. */
  lemma SameStockSameFate<S>(xs: seq<S>, stockOf: S -> int, groupSize: int, i: int, k: int)
    requires 0 <= i < |xs| && 0 <= k < |xs|
    requires stockOf(xs[i]) == stockOf(xs[k])
    ensures var ix := KeptPositions(xs, xs, stockOf, groupSize);
            i in ix <==> k in ix
  {
    KeepIsFilter(xs, xs, stockOf, groupSize);
  }

  /** A signal of all counts itself, so its stock is named at least once. */
  lemma {:induction false} CountMember<S>(all: seq<S>, stockOf: S -> int, x: S)
    requires x in all
    ensures Count(all, stockOf, stockOf(x)) >= 1
    decreases |all|
  {
    var n := |all| - 1;
    if all[n] != x {
      assert x in all[..n] by {
        var i :| 0 <= i < |all| && all[i] == x;
        assert all[..n][i] == x;
      }
      CountMember(all[..n], stockOf, x);
    }
  }

  /** With a group size of at most one every signal is kept. */
  lemma {:induction false} SmallGroupKeepsAll<S>(xs: seq<S>, all: seq<S>, stockOf: S -> int, groupSize: int)
    requires groupSize <= 1
    requires forall i :: 0 <= i < |xs| ==> xs[i] in all
    ensures Keep(xs, all, stockOf, groupSize) == xs
    decreases |xs|
  {
    if |xs| > 0 {
      var n := |xs| - 1;
      SmallGroupKeepsAll(xs[..n], all, stockOf, groupSize);
      CountMember(all, stockOf, xs[n]);
      assert xs[..n] + [xs[n]] == xs;
    }
  }

  /** Without a group_size argument the filter passes every signal. */
  lemma DefaultKeepsAll<S>(arguments: map<string, int>, xs: seq<S>, stockOf: S -> int)
    requires "group_size" !in arguments
    ensures Keep(xs, xs, stockOf, GroupSize(arguments)) == xs
  {
    SmallGroupKeepsAll(xs, xs, stockOf, GroupSize(arguments));
  }

  /** get_relevant_buy_signals: for each signal, count the signals of its
      stock, and keep it when the count reaches groupSize. */
  method GetRelevantBuySignals<S>(buySignals: seq<S>, stockOf: S -> int, groupSize: int) returns (r: seq<S>)
    ensures r == Keep(buySignals, buySignals, stockOf, groupSize)
  {
    r := [];
    var i := 0;
    while i < |buySignals|
      invariant 0 <= i <= |buySignals|
      invariant r == Keep(buySignals[..i], buySignals, stockOf, groupSize)
    {
      var sig := buySignals[i];
      var count := 0;
      var j := 0;
      while j < |buySignals|
        invariant 0 <= j <= |buySignals|
        invariant count == Count(buySignals[..j], stockOf, stockOf(sig))
      {
        assert buySignals[..j + 1][..j] == buySignals[..j];
        if stockOf(sig) == stockOf(buySignals[j]) {
          count := count + 1;
        }
        j := j + 1;
      }
      assert buySignals[..j] == buySignals;
      if count >= groupSize {
        r := r + [sig];
      }
      assert buySignals[..i + 1][..i] == buySignals[..i];
      i := i + 1;
    }
    assert buySignals[..i] == buySignals;
  }
}
