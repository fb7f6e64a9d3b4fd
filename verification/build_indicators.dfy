/** The full indicator build for one stock: every requested indicator of the
    registry is swept over all candidate parameter tuples by the optimizer,
    and the best tuple found is stored with its profit and status.

    The candidates are itertools.product of three ranges for the stochastic
    family and itertools.combinations of one range for the rest. Both are
    modelled over an arbitrary strictly increasing sequence of values and
    proved to enumerate exactly the promised tuples in lexicographic order.
 */
module BuildIndicators {
  import opened Wrappers
  import opened PyMath
  import opened BaseIndicator
  import opened Optimizer
  import MovingAverageCross
  import TripleMovingAverageCross
  import AroonBasic
  import MacdHistogram
  import UltimateCrossEma
  import Stochastic

  /** A registry entry: the indicator's SHORT_NAME and its param_count. */
  datatype Entry = Entry(shortName: string, paramCount: nat)

  /** The indicator registry, in its declared order: the averages, the trend
      indicators, then the oscillators. */
  const INDICATORS: seq<Entry> := [
    Entry(TripleMovingAverageCross.SHORT_NAME, 3),
    Entry(MovingAverageCross.SHORT_NAME, 2),
    Entry(AroonBasic.SHORT_NAME, 1),
    Entry(MacdHistogram.SHORT_NAME, 3),
    Entry(UltimateCrossEma.SHORT_NAME, 2),
    Entry(Stochastic.SHORT_NAME, 3)
  ]

  /** The short names that get the three-fold product of candidates. */
  const STOCHASTIC_NAMES: seq<string> := ["SO", "SOM2", "SOM3"]

  /** An indicator is built when its name, or 'ALL', is among the requested signals. */
  predicate Requested(name: string, requested: seq<string>)
  {
    name in requested || "ALL" in requested
  }

  /** The registry entries that are requested, in registry order. */
  function Select(es: seq<Entry>, requested: seq<string>): (r: seq<Entry>)
    ensures forall e :: e in r <==> e in es && Requested(e.shortName, requested)
    ensures |r| <= |es|
    ensures "ALL" in requested ==> r == es
  {
    if |es| == 0 then []
    else
      var rest := Select(es[1..], requested);
      assert forall e :: e in es <==> e == es[0] || e in es[1..];
      if Requested(es[0].shortName, requested) then [es[0]] + rest else rest
  }

  /** int(look_back / 2): true division, then truncation toward zero. */
  function HalfLookBack(lookBack: int): (h: int)
    ensures lookBack >= 0 ==> h == lookBack / 2
    ensures lookBack < 0 ==> h == -((-lookBack) / 2)
  {
    Trunc(lookBack as real / 2.0)
  }

  /** range(lo, hi). */
  function Range(lo: int, hi: int): (r: seq<int>)
    ensures |r| == if lo < hi then hi - lo else 0
    ensures forall i :: 0 <= i < |r| ==> r[i] == lo + i
    decreases hi - lo
  {
    if lo >= hi then [] else [lo] + Range(lo + 1, hi)
  }

  /** Strictly increasing integers. */
  predicate Increasing(s: seq<int>)
  {
    forall i, j :: 0 <= i < j < |s| ==> s[i] < s[j]
  }

  /** Strict lexicographic order on tuples. */
  predicate LexLess(a: seq<int>, b: seq<int>)
    decreases |a|
  {
    |a| > 0 && |b| > 0 && (a[0] < b[0] || (a[0] == b[0] && LexLess(a[1..], b[1..])))
  }

  /** Each tuple lexicographically below the next one. */
  predicate LexSorted(s: seq<seq<int>>)
  {
    forall i :: 0 <= i < |s| - 1 ==> LexLess(s[i], s[i + 1])
  }

  /** Every tuple of ts with x put in front. */
  function Prefix(x: int, ts: seq<seq<int>>): (r: seq<seq<int>>)
    ensures |r| == |ts|
    ensures forall i :: 0 <= i < |ts| ==> r[i] == [x] + ts[i]
  {
    seq(|ts|, i requires 0 <= i < |ts| => [x] + ts[i])
  }

  /** itertools.product(vs, repeat=k): all k-tuples over vs, the last position
      varying fastest. */
  function Product(vs: seq<int>, k: nat): seq<seq<int>>
    decreases k, 0
  {
    if k == 0 then [[]] else Blocks(vs, vs, k - 1)
  }

  /** The product blocks for the heads hs: one block per head, each holding
      that head in front of every (k)-tuple over vs. */
  function Blocks(hs: seq<int>, vs: seq<int>, k: nat): seq<seq<int>>
    decreases k, 1, |hs|
  {
    if |hs| == 0 then [] else Prefix(hs[0], Product(vs, k)) + Blocks(hs[1..], vs, k)
  }

  /** itertools.combinations(vs, k): the k-element subsequences of vs, in the
      order of their positions. */
  function Combinations(vs: seq<int>, k: nat): seq<seq<int>>
    decreases |vs|
  {
    if k == 0 then [[]]
    else if |vs| == 0 then []
    else Prefix(vs[0], Combinations(vs[1..], k - 1)) + Combinations(vs[1..], k)
  }

  /** All entries of t are drawn from vs. */
  predicate Over(t: seq<int>, vs: seq<int>)
  {
    forall i :: 0 <= i < |t| ==> t[i] in vs
  }

  lemma {:induction false} BlocksMembers(hs: seq<int>, vs: seq<int>, k: nat, t: seq<int>)
    requires forall u :: u in Product(vs, k) <==> |u| == k && Over(u, vs)
    ensures t in Blocks(hs, vs, k) <==> |t| == k + 1 && t[0] in hs && Over(t[1..], vs)
    decreases |hs|
  {
    if |hs| > 0 {
      BlocksMembers(hs[1..], vs, k, t);
      var p := Prefix(hs[0], Product(vs, k));
      assert t in Blocks(hs, vs, k) <==> t in p || t in Blocks(hs[1..], vs, k);
      if |t| == k + 1 && t[0] == hs[0] && Over(t[1..], vs) {
        assert t == [hs[0]] + t[1..];
        var i :| 0 <= i < |Product(vs, k)| && Product(vs, k)[i] == t[1..];
        assert p[i] == t;
      }
      if t in p {
        var i :| 0 <= i < |p| && p[i] == t;
        assert t[1..] == Product(vs, k)[i];
      }
    }
  }

  /** product(vs, repeat=k) holds exactly the k-tuples over vs. */
  lemma {:induction false} ProductMembers(vs: seq<int>, k: nat)
    ensures forall t :: t in Product(vs, k) <==> |t| == k && Over(t, vs)
  {
    if k > 0 {
      ProductMembers(vs, k - 1);
      forall t
        ensures t in Product(vs, k) <==> |t| == k && Over(t, vs)
      {
        BlocksMembers(vs, vs, k - 1, t);
        if |t| == k {
          assert Over(t, vs) <==> t[0] in vs && Over(t[1..], vs) by {
            assert forall i :: 1 <= i < |t| ==> t[i] == t[1..][i - 1];
          }
        }
      }
    }
  }

  /** product(vs, repeat=k) has |vs|^k tuples. */
  function Pow(b: nat, k: nat): nat
  {
    if k == 0 then 1 else b * Pow(b, k - 1)
  }

  lemma {:induction false} BlocksCount(hs: seq<int>, vs: seq<int>, k: nat)
    ensures |Blocks(hs, vs, k)| == |hs| * |Product(vs, k)|
    decreases |hs|
  {
    if |hs| > 0 {
      var n := |Product(vs, k)|;
      BlocksCount(hs[1..], vs, k);
      assert |Blocks(hs, vs, k)| == n + |Blocks(hs[1..], vs, k)|;
      assert |hs| * n == n + (|hs| - 1) * n;
    }
  }

  lemma {:induction false} ProductCount(vs: seq<int>, k: nat)
    ensures |Product(vs, k)| == Pow(|vs|, k)
  {
    if k > 0 {
      ProductCount(vs, k - 1);
      BlocksCount(vs, vs, k - 1);
    }
  }

  /** Putting the same value in front keeps the order of tuples. */
  lemma PrefixSorted(x: int, ts: seq<seq<int>>)
    requires LexSorted(ts)
    ensures LexSorted(Prefix(x, ts))
  {
    var p := Prefix(x, ts);
    forall i | 0 <= i < |p| - 1
      ensures LexLess(p[i], p[i + 1])
    {
      assert p[i][1..] == ts[i] && p[i + 1][1..] == ts[i + 1];
    }
  }

  /** Two sorted runs joined where the first ends below where the second starts. */
  lemma JoinSorted(a: seq<seq<int>>, b: seq<seq<int>>)
    requires LexSorted(a) && LexSorted(b)
    requires |a| > 0 && |b| > 0 ==> LexLess(a[|a| - 1], b[0])
    ensures LexSorted(a + b)
  {
    var c := a + b;
    forall i | 0 <= i < |c| - 1
      ensures LexLess(c[i], c[i + 1])
    {
      if i < |a| - 1 {
        assert c[i] == a[i] && c[i + 1] == a[i + 1];
      } else if i == |a| - 1 {
        assert c[i] == a[|a| - 1] && c[i + 1] == b[0];
      } else {
        assert c[i] == b[i - |a|] && c[i + 1] == b[i - |a| + 1];
      }
    }
  }

  /** The first tuple of a block sequence starts with the first head. */
  lemma {:induction false} BlocksFirst(hs: seq<int>, vs: seq<int>, k: nat)
    requires |hs| > 0 && |Product(vs, k)| > 0
    ensures |Blocks(hs, vs, k)| > 0 && Blocks(hs, vs, k)[0][0] == hs[0]
  {
    assert Blocks(hs, vs, k)[0] == Prefix(hs[0], Product(vs, k))[0];
  }

  lemma {:induction false} BlocksSorted(hs: seq<int>, vs: seq<int>, k: nat)
    requires Increasing(hs) && LexSorted(Product(vs, k))
    ensures LexSorted(Blocks(hs, vs, k))
    decreases |hs|
  {
    if |hs| > 0 {
      var p := Product(vs, k);
      var first := Prefix(hs[0], p);
      var rest := Blocks(hs[1..], vs, k);
      assert Increasing(hs[1..]) by {
        assert forall i :: 0 <= i < |hs| - 1 ==> hs[1..][i] == hs[i + 1];
      }
      BlocksSorted(hs[1..], vs, k);
      PrefixSorted(hs[0], p);
      if |first| > 0 && |rest| > 0 {
        BlocksFirst(hs[1..], vs, k);
        assert first[|first| - 1][0] == hs[0] < hs[1] == rest[0][0];
        assert |first[|first| - 1]| > 0;
      }
      JoinSorted(first, rest);
    }
  }

  /** Over an increasing range, product order is lexicographic order. */
  lemma {:induction false} ProductSorted(vs: seq<int>, k: nat)
    requires Increasing(vs)
    ensures LexSorted(Product(vs, k))
  {
    if k > 0 {
      ProductSorted(vs, k - 1);
      BlocksSorted(vs, vs, k - 1);
    }
  }

  lemma IncreasingTail(vs: seq<int>)
    requires Increasing(vs) && |vs| > 0
    ensures Increasing(vs[1..])
    ensures forall x :: x in vs <==> x == vs[0] || x in vs[1..]
    ensures forall x :: x in vs[1..] ==> vs[0] < x
  {
    assert forall i :: 0 <= i < |vs| - 1 ==> vs[1..][i] == vs[i + 1];
    forall x | x in vs[1..]
      ensures vs[0] < x
    {
      var m :| 0 <= m < |vs| - 1 && vs[1..][m] == x;
    }
  }

  /** A value below every entry of an increasing tuple over vs[1..] extends it. */
  lemma ConsIncreasing(x: int, u: seq<int>, tail: seq<int>)
    requires Increasing(u) && Over(u, tail) && forall y :: y in tail ==> x < y
    ensures Increasing([x] + u) && Over([x] + u, [x] + tail)
  {
    var t := [x] + u;
    assert forall j :: 1 <= j < |t| ==> t[j] == u[j - 1];
    assert forall j :: 1 <= j < |t| ==> t[j] in tail;
  }

  /** A combination is an increasing k-tuple over vs. */
  lemma {:induction false} CombinationsSound(vs: seq<int>, k: nat, t: seq<int>)
    requires Increasing(vs) && t in Combinations(vs, k)
    ensures |t| == k && Increasing(t) && Over(t, vs)
    decreases |vs|
  {
    if k > 0 {
      var tail := vs[1..];
      IncreasingTail(vs);
      var p := Prefix(vs[0], Combinations(tail, k - 1));
      if t in p {
        var i :| 0 <= i < |p| && p[i] == t;
        var u := Combinations(tail, k - 1)[i];
        CombinationsSound(tail, k - 1, u);
        assert t == [vs[0]] + u;
        ConsIncreasing(vs[0], u, tail);
      } else {
        assert t in Combinations(tail, k);
        CombinationsSound(tail, k, t);
      }
    }
  }

  /** Every increasing k-tuple over vs is a combination. */
  lemma {:induction false} CombinationsComplete(vs: seq<int>, k: nat, t: seq<int>)
    requires Increasing(vs) && |t| == k && Increasing(t) && Over(t, vs)
    ensures t in Combinations(vs, k)
    decreases |vs|
  {
    if k > 0 {
      assert t[0] in vs;
      var tail := vs[1..];
      IncreasingTail(vs);
      if t[0] == vs[0] {
        var u := t[1..];
        assert forall j :: 0 <= j < |u| ==> u[j] == t[j + 1] && t[0] < t[j + 1];
        assert forall j :: 0 <= j < |u| ==> u[j] in tail;
        CombinationsComplete(tail, k - 1, u);
        var i :| 0 <= i < |Combinations(tail, k - 1)| && Combinations(tail, k - 1)[i] == u;
        assert t == [vs[0]] + u;
        assert Prefix(vs[0], Combinations(tail, k - 1))[i] == t;
      } else {
        assert forall j :: 0 <= j < |t| ==> t[j] in tail by {
          forall j | 0 <= j < |t|
            ensures t[j] in tail
          {
            if j > 0 {
              assert t[0] < t[j];
            }
          }
        }
        CombinationsComplete(tail, k, t);
      }
    }
  }

  /** combinations(vs, k) holds exactly the k-tuples drawn in increasing order
      from an increasing vs. */
  lemma CombinationsMembers(vs: seq<int>, k: nat, t: seq<int>)
    requires Increasing(vs)
    ensures t in Combinations(vs, k) <==> |t| == k && Increasing(t) && Over(t, vs)
  {
    if t in Combinations(vs, k) {
      CombinationsSound(vs, k, t);
    }
    if |t| == k && Increasing(t) && Over(t, vs) {
      CombinationsComplete(vs, k, t);
    }
  }

  /** Every combination of an increasing vs starts with some value of vs and
      lies above vs[0] only when it does not start with it. */
  lemma {:induction false} CombinationsHead(vs: seq<int>, k: nat)
    requires Increasing(vs) && k > 0
    ensures forall t :: t in Combinations(vs, k) ==> |t| == k && t[0] in vs
  {
    forall t | t in Combinations(vs, k)
      ensures |t| == k && t[0] in vs
    {
      CombinationsMembers(vs, k, t);
    }
  }

  /** combinations of an increasing range come in lexicographic order. */
  lemma {:induction false} CombinationsSorted(vs: seq<int>, k: nat)
    requires Increasing(vs)
    ensures LexSorted(Combinations(vs, k))
    decreases |vs|
  {
    if k > 0 && |vs| > 0 {
      var tail := vs[1..];
      assert Increasing(tail) by {
        assert forall i :: 0 <= i < |tail| ==> tail[i] == vs[i + 1];
      }
      CombinationsSorted(tail, k - 1);
      CombinationsSorted(tail, k);
      var first := Prefix(vs[0], Combinations(tail, k - 1));
      var rest := Combinations(tail, k);
      PrefixSorted(vs[0], Combinations(tail, k - 1));
      if |first| > 0 && |rest| > 0 {
        CombinationsHead(tail, k);
        assert rest[0] in rest;
        var m :| 0 <= m < |tail| && tail[m] == rest[0][0];
        assert vs[0] < vs[m + 1];
        assert |first[|first| - 1]| > 0 && first[|first| - 1][0] == vs[0];
      }
      JoinSorted(first, rest);
    }
  }

  /** The candidate tuples for one indicator: for the stochastic family the
      product of range(3, half) three times, for every other indicator the
      param_count-combinations of range(5, half). */
  function Candidates(e: Entry, lookBack: int): seq<seq<int>>
  {
    var half := HalfLookBack(lookBack);
    if e.shortName in STOCHASTIC_NAMES then Product(Range(3, half), 3)
    else Combinations(Range(5, half), e.paramCount)
  }

  /** The candidates are exactly the promised tuples, in lexicographic order. */
  lemma CandidatesSpec(e: Entry, lookBack: int, t: seq<int>)
    ensures e.shortName in STOCHASTIC_NAMES ==>
      (t in Candidates(e, lookBack) <==>
         |t| == 3 && forall i :: 0 <= i < 3 ==> 3 <= t[i] < HalfLookBack(lookBack))
    ensures e.shortName !in STOCHASTIC_NAMES ==>
      (t in Candidates(e, lookBack) <==>
         |t| == e.paramCount && Increasing(t) && forall i :: 0 <= i < |t| ==> 5 <= t[i] < HalfLookBack(lookBack))
    ensures LexSorted(Candidates(e, lookBack))
  {
    var half := HalfLookBack(lookBack);
    if e.shortName in STOCHASTIC_NAMES {
      var vs := Range(3, half);
      ProductMembers(vs, 3);
      ProductSorted(vs, 3);
      assert forall x :: x in vs <==> 3 <= x < half by {
        forall x | 3 <= x < half
          ensures x in vs
        {
          assert vs[x - 3] == x;
        }
      }
    } else {
      var vs := Range(5, half);
      CombinationsMembers(vs, e.paramCount, t);
      CombinationsSorted(vs, e.paramCount);
      assert forall x :: x in vs <==> 5 <= x < half by {
        forall x | 5 <= x < half
          ensures x in vs
        {
          assert vs[x - 5] == x;
        }
      }
    }
  }

  /** What is written to the bulk storage for one indicator: its name, the best
      profit, the status and the best parameter tuple. */
  datatype Stored = Stored(name: string, profit: real, params: seq<int>, status: int)

  /** The optimizer's answer for one indicator: None when nothing is stored
      (param_max is None or the empty tuple). */
  function Keep(name: string, o: Outcome): (r: Option<Stored>)
    ensures r.Some? <==> o.paramMax.Some? && |o.paramMax.value| > 0
    ensures r.Some? ==> r.value == Stored(name, o.profitMax, o.paramMax.value, o.status)
  {
    if o.paramMax.None? || |o.paramMax.value| == 0 then None
    else Some(Stored(name, o.profitMax, o.paramMax.value, o.status))
  }

  /** The optimizer run for one indicator: a fresh indicator without bars,
      the stock bars offered on the first call, no live price. */
  function SweepFor(e: Entry, lookBack: int, calcFor: string -> ((Buffers, seq<int>) -> Result<Score>),
                    stockBars: BarsInput): (w: Sweep)
    ensures w.candidates == Candidates(e, lookBack) && w.bars.NoBars? && w.lastPrice.None?
  {
    Sweep(Candidates(e, lookBack), calcFor(e.shortName), NoBars, stockBars, None)
  }

  /** What the optimizer returns for one registry entry. */
  function OutcomeFor(e: Entry, lookBack: int, calcFor: string -> ((Buffers, seq<int>) -> Result<Score>),
                      stockBars: BarsInput): Result<Outcome>
  {
    var w := SweepFor(e, lookBack, calcFor, stockBars);
    Optimize(w.candidates, Evals(w))
  }

  /** The loop of build_indicator over the selected entries es, given what the
      optimizer returns for each: the first optimizer failure escapes, and each
      kept outcome is stored, in order. */
  function BuildAll(es: seq<Entry>, outcome: Entry -> Result<Outcome>): (r: Result<seq<Stored>>)
    ensures r.Ok? ==> |r.value| <= |es|
    decreases |es|
  {
    if |es| == 0 then Ok([])
    else
      var o :- outcome(es[0]);
      var rest :- BuildAll(es[1..], outcome);
      match Keep(es[0].shortName, o)
      case None => Ok(rest)
      case Some(s) => Ok([s] + rest)
  }

  /** build_indicator: the requested indicators of the registry, each swept and
      stored when the sweep found a parameter tuple. */
  function BuildIndicator(requested: seq<string>, lookBack: int,
                          calcFor: string -> ((Buffers, seq<int>) -> Result<Score>),
                          stockBars: BarsInput): Result<seq<Stored>>
  {
    BuildAll(Select(INDICATORS, requested), e => OutcomeFor(e, lookBack, calcFor, stockBars))
  }

  /** The build succeeds exactly when every selected sweep does, fails with a
      failing sweep's error, and stores exactly the kept outcomes. */
  lemma {:induction false} BuildAllSpec(es: seq<Entry>, outcome: Entry -> Result<Outcome>)
    ensures BuildAll(es, outcome).Ok? <==> forall i :: 0 <= i < |es| ==> outcome(es[i]).Ok?
    ensures BuildAll(es, outcome).Err? ==>
      exists i :: 0 <= i < |es| && outcome(es[i]).Err? && BuildAll(es, outcome).error == outcome(es[i]).error
    ensures BuildAll(es, outcome).Ok? ==>
      forall s :: s in BuildAll(es, outcome).value <==>
        exists e :: e in es && outcome(e).Ok? && Keep(e.shortName, outcome(e).value) == Some(s)
    decreases |es|
  {
    if |es| > 0 {
      var tail := es[1..];
      BuildAllSpec(tail, outcome);
      assert forall i :: 0 <= i < |tail| ==> tail[i] == es[i + 1];
      assert forall e :: e in es <==> e == es[0] || e in tail;
      if outcome(es[0]).Ok? && BuildAll(tail, outcome).Err? {
        var i :| 0 <= i < |tail| && outcome(tail[i]).Err? && BuildAll(tail, outcome).error == outcome(tail[i]).error;
        assert outcome(es[i + 1]).Err?;
      }
    }
  }

  /** build_indicator stores a record for a registry indicator exactly when it
      was requested and its sweep kept an outcome, provided no sweep failed. */
  lemma BuildIndicatorSpec(requested: seq<string>, lookBack: int,
                           calcFor: string -> ((Buffers, seq<int>) -> Result<Score>),
                           stockBars: BarsInput)
    ensures var r := BuildIndicator(requested, lookBack, calcFor, stockBars);
      r.Ok? ==> forall s :: s in r.value <==>
        exists e :: e in INDICATORS && Requested(e.shortName, requested)
                    && OutcomeFor(e, lookBack, calcFor, stockBars).Ok?
                    && Keep(e.shortName, OutcomeFor(e, lookBack, calcFor, stockBars).value) == Some(s)
  {
    BuildAllSpec(Select(INDICATORS, requested), e => OutcomeFor(e, lookBack, calcFor, stockBars));
  }
}
