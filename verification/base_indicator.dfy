/** The indicator base class: bar buffers, the three signal shapers and the
    status classifier.

    A signal is a sequence of ints over SELL = -1, HOLD = 0 and BUY = 1; the
    shapers take a raw per-bar condition array and rewrite it in a single
    left-to-right pass, exactly as the numba loops of the indicator base class
    do. Every shaper is modelled on arbitrary int sequences (values other than
    -1, 0, 1 fall through the same branches as in the source); the
    characterisations are proved for the inputs the indicators feed them.
 */
module BaseIndicator {
  import opened Wrappers

  const SELL: int := -1
  const BUY: int := 1
  const HOLD: int := 0
  const NO_SIGNAL: int := 10
  const STRONG_BUY: int := 2
  const STRONG_SELL: int := -2

  /** A position marker: a buy or a sell. */
  predicate IsMarker(x: int) { x == BUY || x == SELL }

  predicate IsBinary(s: seq<int>) { forall i :: 0 <= i < |s| ==> s[i] == 0 || s[i] == 1 }

  predicate IsTernary(s: seq<int>) { forall i :: 0 <= i < |s| ==> -1 <= s[i] <= 1 }

  function Sum(s: seq<int>): int
  {
    if |s| == 0 then 0 else s[0] + Sum(s[1..])
  }

  lemma SumAppend(s: seq<int>, x: int)
    ensures Sum(s + [x]) == Sum(s) + x
  {
    if |s| == 0 {
      assert s + [x] == [x];
    } else {
      assert (s + [x])[1..] == s[1..] + [x];
      SumAppend(s[1..], x);
    }
  }

  // ---------------------------------------------------------------------------
  // Bar buffers (set_bars, append_value_to_bars)
  // ---------------------------------------------------------------------------

  /** The six parallel price buffers an indicator keeps; dates are day numbers. */
  datatype Bars = Bars(
    close: seq<real>, open: seq<real>, volume: seq<real>,
    high: seq<real>, low: seq<real>, times: seq<int>)

  predicate Aligned(b: Bars)
  {
    |b.open| == |b.close| && |b.volume| == |b.close| && |b.high| == |b.close|
    && |b.low| == |b.close| && |b.times| == |b.close|
  }

  /** One row of the bars array: close, open, volume, high, low, date. */
  datatype BarRow = BarRow(close: real, open: real, volume: real, high: real, low: real, date: int)

  /** The argument of set_bars: nothing usable, or a 2-D array of the given width. */
  datatype BarsInput = NotAnArray | Table(width: nat, rows: seq<BarRow>)

  /** A price record appended as a live tick. */
  datatype Price = Price(priceclose: real, priceopen: real, volume: real,
                         pricehigh: real, pricelow: real, date: int)

  /** The buffers as an indicator holds them: still None (as after
      __init__), float buffers, or the object arrays np.append(None, x)
      makes when a price is appended to buffers that are still None, which
      hold a leading None followed by the appended rows. */
  datatype Buffers = NoBars | Numeric(bars: Bars) | NoneLed(rows: Bars)

  /** has_bars: the close buffer is not None. */
  predicate HasBars(b: Buffers) { !b.NoBars? }

  /** set_bars: a 2-D array with six columns replaces all six buffers, any
      other argument leaves the indicator unchanged. */
  function SetBars(current: Buffers, input: BarsInput): (r: Buffers)
    ensures !(input.Table? && input.width == 6) ==> r == current
    ensures input.Table? && input.width == 6 ==>
      r.Numeric? && Aligned(r.bars) && |r.bars.close| == |input.rows|
      && forall i :: 0 <= i < |input.rows| ==>
           r.bars.close[i] == input.rows[i].close && r.bars.open[i] == input.rows[i].open
           && r.bars.volume[i] == input.rows[i].volume && r.bars.high[i] == input.rows[i].high
           && r.bars.low[i] == input.rows[i].low && r.bars.times[i] == input.rows[i].date
  {
    if input.Table? && input.width == 6 then
      var rows := input.rows;
      Numeric(Bars(seq(|rows|, i requires 0 <= i < |rows| => rows[i].close),
                   seq(|rows|, i requires 0 <= i < |rows| => rows[i].open),
                   seq(|rows|, i requires 0 <= i < |rows| => rows[i].volume),
                   seq(|rows|, i requires 0 <= i < |rows| => rows[i].high),
                   seq(|rows|, i requires 0 <= i < |rows| => rows[i].low),
                   seq(|rows|, i requires 0 <= i < |rows| => rows[i].date)))
    else current
  }

  /** np.append on the six buffers: each grows by exactly one element and
      keeps its prefix. */
  function AppendRow(b: Bars, p: Price): (r: Bars)
    ensures |r.close| == |b.close| + 1 && r.close[..|b.close|] == b.close
    ensures |r.open| == |b.open| + 1 && r.open[..|b.open|] == b.open
    ensures |r.volume| == |b.volume| + 1 && r.volume[..|b.volume|] == b.volume
    ensures |r.high| == |b.high| + 1 && r.high[..|b.high|] == b.high
    ensures |r.low| == |b.low| + 1 && r.low[..|b.low|] == b.low
    ensures |r.times| == |b.times| + 1 && r.times[..|b.times|] == b.times
    ensures r.close[|b.close|] == p.priceclose && r.open[|b.open|] == p.priceopen
    ensures r.volume[|b.volume|] == p.volume && r.high[|b.high|] == p.pricehigh
    ensures r.low[|b.low|] == p.pricelow && r.times[|b.times|] == p.date
    ensures Aligned(b) ==> Aligned(r)
  {
    Bars(b.close + [p.priceclose], b.open + [p.priceopen], b.volume + [p.volume],
         b.high + [p.pricehigh], b.low + [p.pricelow], b.times + [p.date])
  }

  /** The six empty buffers. */
  const EmptyBars: Bars := Bars([], [], [], [], [], [])

  /** append_value_to_bars: a missing price changes nothing; a price is
      appended to float buffers as a new last row; appended to buffers that
      are still None it gives object buffers [None, x], and later prices are
      appended after that. Either way the indicator then has bars. */
  function AppendValueToBars(b: Buffers, price: Option<Price>): (r: Buffers)
    ensures price.None? ==> r == b
    ensures price.Some? ==> HasBars(r)
    ensures price.Some? && b.Numeric? ==> r == Numeric(AppendRow(b.bars, price.value))
    ensures price.Some? && b.NoneLed? ==> r == NoneLed(AppendRow(b.rows, price.value))
    ensures price.Some? && b.NoBars? ==> r == NoneLed(AppendRow(EmptyBars, price.value))
  {
    match price
    case None => b
    case Some(p) =>
      match b
      case NoBars => NoneLed(AppendRow(EmptyBars, p))
      case Numeric(bars) => Numeric(AppendRow(bars, p))
      case NoneLed(rows) => NoneLed(AppendRow(rows, p))
  }

  /** What generate_signals leaves behind: the shaped signal and the number
      of leading bars the signal is shifted by against the price series. */
  datatype Generated = Generated(signal: seq<int>, shift: int)

  // ---------------------------------------------------------------------------
  // get_status
  // ---------------------------------------------------------------------------

  /** One iteration of the status loop once the last element is known to be no
      marker: a marker overwrites the status, a hold only replaces a status
      that is not a marker, anything else leaves it alone. */
  function StatusStep(status: int, v: int): int
  {
    if v == BUY then BUY
    else if v == SELL then SELL
    else if v == HOLD && status != BUY && status != SELL then HOLD
    else status
  }

  /** The status loop over a whole sequence, starting from NO_SIGNAL. */
  function ScanStatus(s: seq<int>): (r: int)
    ensures IsMarker(r) <==> exists i :: 0 <= i < |s| && IsMarker(s[i])
    ensures IsMarker(r) ==>
      exists i :: 0 <= i < |s| && s[i] == r && forall j :: i < j < |s| ==> !IsMarker(s[j])
    ensures !IsMarker(r) ==>
      (r == HOLD <==> exists i :: 0 <= i < |s| && s[i] == HOLD)
    ensures !IsMarker(r) && r != HOLD ==> r == NO_SIGNAL
  {
    if |s| == 0 then NO_SIGNAL
    else
      var init := s[..|s| - 1];
      var prev := ScanStatus(init);
      var r := StatusStep(prev, s[|s| - 1]);
      assert forall i :: 0 <= i < |init| ==> init[i] == s[i];
      if IsMarker(s[|s| - 1]) then
        r
      else if IsMarker(prev) then
        var i :| 0 <= i < |init| && init[i] == prev && forall j :: i < j < |init| ==> !IsMarker(init[j]);
        assert s[i] == r && forall j :: i < j < |s| ==> !IsMarker(s[j]);
        r
      else
        r
  }

  /** get_status: NO_SIGNAL for an empty signal, STRONG_BUY / STRONG_SELL when
      the last element is a buy / sell, otherwise the loop status. */
  function GetStatus(signal: seq<int>): (r: int)
    ensures |signal| == 0 ==> r == NO_SIGNAL
    ensures |signal| > 0 && signal[|signal| - 1] == BUY ==> r == STRONG_BUY
    ensures |signal| > 0 && signal[|signal| - 1] == SELL ==> r == STRONG_SELL
  {
    if |signal| == 0 then NO_SIGNAL
    else if signal[|signal| - 1] == BUY then STRONG_BUY
    else if signal[|signal| - 1] == SELL then STRONG_SELL
    else ScanStatus(signal)
  }

  /** For a non-empty signal that does not end in a marker the status is the
      most recent marker, else HOLD when the signal holds a zero, else
      NO_SIGNAL; for a ternary signal the last case cannot occur. */
  lemma GetStatusMostRecentMarker(signal: seq<int>)
    requires |signal| > 0 && !IsMarker(signal[|signal| - 1])
    ensures var r := GetStatus(signal);
      && (IsMarker(r) <==> exists i :: 0 <= i < |signal| && IsMarker(signal[i]))
      && (IsMarker(r) ==> exists i :: 0 <= i < |signal| && signal[i] == r
                             && forall j :: i < j < |signal| ==> !IsMarker(signal[j]))
      && (!IsMarker(r) && (exists i :: 0 <= i < |signal| && signal[i] == HOLD) ==> r == HOLD)
      && (IsTernary(signal) ==> r != NO_SIGNAL)
  {
    var r := GetStatus(signal);
    assert r == ScanStatus(signal);
    if IsTernary(signal) && !IsMarker(r) {
      assert signal[|signal| - 1] == HOLD;
    }
  }

  // ---------------------------------------------------------------------------
  // set_signal: the crossing shaper
  // ---------------------------------------------------------------------------

  /** One step of set_signal: given the previous symbol and the input value,
      the new previous symbol and the emitted value. */
  function CrossStep(prev: int, x: int): (int, int)
  {
    if x == 1 && prev == 1 then (1, 0)
    else if x == 0 && prev == 1 then (-1, -1)
    else if x == 1 && prev == 0 then (1, 1)
    else if x == 1 && prev == -1 then (1, 1)
    else (x, x)
  }

  function CrossRun(s: seq<int>, prev: int): (r: seq<int>)
    ensures |r| == |s|
  {
    if |s| == 0 then []
    else
      var step := CrossStep(prev, s[0]);
      [step.1] + CrossRun(s[1..], step.0)
  }

  /** set_signal, starting with previous symbol 0. */
  function SetSignal(s: seq<int>): (r: seq<int>)
    ensures |r| == |s|
  {
    CrossRun(s, 0)
  }

  /** The crossing rule at index i of a 0/1 array, stated on the input alone:
      a 1 that does not continue a run of ones is a buy, the 0 that ends a
      run of ones is a sell, everything else is a hold. */
  function CrossingRule(s: seq<int>, i: nat, prevIsOne: bool): int
    requires i < |s|
  {
    var before := if i == 0 then prevIsOne else s[i - 1] == 1;
    if s[i] == 1 && !before then BUY
    else if s[i] == 0 && before then SELL
    else HOLD
  }

  lemma {:induction false} CrossRunRule(s: seq<int>, prev: int)
    requires IsBinary(s)
    requires prev == 0 || prev == 1 || prev == -1
    ensures forall i :: 0 <= i < |s| ==> CrossRun(s, prev)[i] == CrossingRule(s, i, prev == 1)
  {
    if |s| > 0 {
      var step := CrossStep(prev, s[0]);
      assert step.0 == 1 <==> s[0] == 1;
      assert step.0 == 0 || step.0 == 1 || step.0 == -1;
      CrossRunRule(s[1..], step.0);
      forall i | 0 <= i < |s|
        ensures CrossRun(s, prev)[i] == CrossingRule(s, i, prev == 1)
      {
        if i > 0 {
          assert CrossRun(s, prev)[i] == CrossRun(s[1..], step.0)[i - 1];
          assert CrossingRule(s[1..], i - 1, step.0 == 1) == CrossingRule(s, i, prev == 1);
        }
      }
    }
  }

  /** On a 0/1 array, set_signal keeps the length and emits a buy exactly where a
      run of ones starts, a sell exactly at the zero that ends a run of ones,
      and a hold everywhere else. */
  lemma SetSignalCrossing(s: seq<int>)
    requires IsBinary(s)
    ensures |SetSignal(s)| == |s|
    ensures forall i :: 0 <= i < |s| ==>
      (SetSignal(s)[i] == BUY <==> s[i] == 1 && (i == 0 || s[i - 1] != 1))
    ensures forall i :: 0 <= i < |s| ==>
      (SetSignal(s)[i] == SELL <==> s[i] == 0 && i > 0 && s[i - 1] == 1)
    ensures forall i :: 0 <= i < |s| ==>
      (SetSignal(s)[i] == HOLD <==>
         !(s[i] == 1 && (i == 0 || s[i - 1] != 1)) && !(s[i] == 0 && i > 0 && s[i - 1] == 1))
  {
    CrossRunRule(s, 0);
  }

  /** The 0/1 array with a one exactly where a condition holds. */
  function OnesWhere(c: seq<bool>): (r: seq<int>)
    ensures |r| == |c| && IsBinary(r)
    ensures forall i :: 0 <= i < |c| ==> (r[i] == 1 <==> c[i])
  {
    seq(|c|, i requires 0 <= i < |c| => if c[i] then 1 else 0)
  }

  /** The condition held at the element before i. */
  predicate HeldBefore(c: seq<bool>, i: int)
    requires 0 <= i <= |c|
  {
    i > 0 && c[i - 1]
  }

  /** set_signal on a condition: a buy exactly where the condition starts to
      hold (or holds at the first element), a sell exactly where it stops. */
  lemma SetSignalOfCondition(c: seq<bool>)
    ensures var sig := SetSignal(OnesWhere(c));
      |sig| == |c|
      && forall i :: 0 <= i < |sig| ==>
        (sig[i] == BUY <==> c[i] && !HeldBefore(c, i))
        && (sig[i] == SELL <==> !c[i] && HeldBefore(c, i))
  {
    var s := OnesWhere(c);
    var sig := SetSignal(s);
    SetSignalCrossing(s);
    forall i | 0 <= i < |sig|
      ensures sig[i] == BUY <==> c[i] && !HeldBefore(c, i)
      ensures sig[i] == SELL <==> !c[i] && HeldBefore(c, i)
    {
      assert s[i] == 0 <==> !c[i];
      if i > 0 {
        assert s[i - 1] == 1 <==> c[i - 1];
      }
    }
  }

  /** Series a lies strictly above series b at position i + k. */
  predicate AboveAt(a: seq<real>, b: seq<real>, k: int, i: int)
    requires 0 <= k && 0 <= i && i + k < |a| && i + k < |b|
  {
    a[i + k] > b[i + k]
  }

  /** Series a lay strictly above series b at the element before i. */
  predicate AboveBefore(a: seq<real>, b: seq<real>, k: int, i: int)
    requires 0 <= k && 0 <= i && i + k < |a| && i + k < |b|
  {
    i > 0 && AboveAt(a, b, k, i - 1)
  }

  /** set_signal on the crossover array of two series compared from offset
      k on: a buy exactly where a comes to lie above b (or already does at
      the first element), a sell exactly where it stops. */
  lemma SetSignalOfAbove(a: seq<real>, b: seq<real>, k: int, raw: seq<int>)
    requires 0 <= k && |raw| + k <= |a| && |raw| + k <= |b|
    requires forall i :: 0 <= i < |raw| ==> raw[i] == (if a[i + k] > b[i + k] then 1 else 0)
    ensures var sig := SetSignal(raw);
      forall i :: 0 <= i < |sig| ==>
        (sig[i] == BUY <==> AboveAt(a, b, k, i) && !AboveBefore(a, b, k, i))
        && (sig[i] == SELL <==> !AboveAt(a, b, k, i) && AboveBefore(a, b, k, i))
  {
    var c := seq(|raw|, i requires 0 <= i < |raw| => AboveAt(a, b, k, i));
    assert raw == OnesWhere(c);
    var sig := SetSignal(raw);
    SetSignalOfCondition(c);
    forall i | 0 <= i < |sig|
      ensures (sig[i] == BUY <==> AboveAt(a, b, k, i) && !AboveBefore(a, b, k, i))
      ensures (sig[i] == SELL <==> !AboveAt(a, b, k, i) && AboveBefore(a, b, k, i))
    {
      assert HeldBefore(c, i) == AboveBefore(a, b, k, i);
    }
  }

  // ---------------------------------------------------------------------------
  // set_signal_osc: the oscillator shaper
  // ---------------------------------------------------------------------------

  function OscStep(open: bool, x: int): (bool, int)
  {
    if x == 1 && !open then (true, 1)
    else if (x == 0 || x == 1) && open then (true, 0)
    else if x == -1 && open then (false, -1)
    else if x == -1 && !open then (false, 0)
    else (open, x)
  }

  function OscRun(s: seq<int>, open: bool): (r: seq<int>)
    ensures |r| == |s|
  {
    if |s| == 0 then []
    else
      var step := OscStep(open, s[0]);
      [step.1] + OscRun(s[1..], step.0)
  }

  /** set_signal_osc, starting without an open position. */
  function SetSignalOsc(s: seq<int>): (r: seq<int>)
    ensures |r| == |s|
  {
    OscRun(s, false)
  }

  /** The oscillator rule stated through the running sum of the output: while
      flat (sum 0) only a buy passes, while holding (sum 1) only a sell. */
  function OscRule(position: int, x: int): int
  {
    if position == 0 then (if x == 1 then BUY else HOLD)
    else (if x == -1 then SELL else HOLD)
  }

  lemma SumPrefixCons(o: int, rest: seq<int>, k: nat)
    requires 0 < k <= |rest| + 1
    ensures Sum(([o] + rest)[..k]) == o + Sum(rest[..k - 1])
  {
    assert ([o] + rest)[..k][1..] == rest[..k - 1];
  }

  lemma {:induction false} OscRunRule(s: seq<int>, open: bool)
    requires IsTernary(s)
    ensures var r := OscRun(s, open); var base := if open then 1 else 0;
      forall k :: 0 <= k <= |s| ==> base + Sum(r[..k]) == 0 || base + Sum(r[..k]) == 1
    ensures var r := OscRun(s, open); var base := if open then 1 else 0;
      forall k :: 0 <= k < |s| ==> r[k] == OscRule(base + Sum(r[..k]), s[k])
  {
    var r := OscRun(s, open);
    var base := if open then 1 else 0;
    assert r[..0] == [];
    if |s| > 0 {
      var step := OscStep(open, s[0]);
      var rest := OscRun(s[1..], step.0);
      assert r == [step.1] + rest;
      var base' := if step.0 then 1 else 0;
      assert base' == base + step.1;
      assert step.1 == OscRule(base, s[0]);
      OscRunRule(s[1..], step.0);
      forall k | 0 < k <= |s|
        ensures base + Sum(r[..k]) == base' + Sum(rest[..k - 1])
      {
        SumPrefixCons(step.1, rest, k);
      }
      forall k | 0 < k < |s|
        ensures r[k] == OscRule(base + Sum(r[..k]), s[k])
      {
        assert r[k] == rest[k - 1];
      }
    }
  }

  /** On a ternary array the running sum of set_signal_osc's output never
      leaves 0 and 1: the non-zero outputs alternate and start with a buy.
      A sell while flat and a buy or hold while a position is open become 0. */
  lemma SetSignalOscAlternates(s: seq<int>)
    requires IsTernary(s)
    ensures var r := SetSignalOsc(s);
      forall k :: 0 <= k <= |s| ==> Sum(r[..k]) == 0 || Sum(r[..k]) == 1
    ensures var r := SetSignalOsc(s);
      forall k :: 0 <= k < |s| ==> r[k] == OscRule(Sum(r[..k]), s[k])
    ensures var r := SetSignalOsc(s);
      forall k :: 0 <= k < |s| ==>
        (s[k] == -1 && Sum(r[..k]) == 0 ==> r[k] == 0)
        && ((s[k] == 0 || s[k] == 1) && Sum(r[..k]) == 1 ==> r[k] == 0)
  {
    OscRunRule(s, false);
  }

  // ---------------------------------------------------------------------------
  // fill_signal
  // ---------------------------------------------------------------------------

  /** The state of fill_signal's loop: inside a fill region, and the previous symbol. */
  datatype FillState = FillState(isFill: bool, prev: int)

  function FillStep(st: FillState, x: int): (FillState, int)
  {
    if x == 0 && st.isFill then (FillState(true, x), 1)
    else if x == 1 && st.isFill then (FillState(false, x), x)
    else if x == 1 && st.prev == 0 then (FillState(true, x), x)
    else if x == 1 && st.prev == 1 then (st, 0)
    else (FillState(st.isFill, x), x)
  }

  function FillRun(s: seq<int>, st: FillState): (r: seq<int>)
    ensures |r| == |s|
  {
    if |s| == 0 then []
    else
      var step := FillStep(st, s[0]);
      [step.1] + FillRun(s[1..], step.0)
  }

  const FillInit: FillState := FillState(false, 0)

  /** fill_signal. */
  function FillSignal(s: seq<int>): (r: seq<int>)
    ensures |r| == |s|
  {
    FillRun(s, FillInit)
  }

  /** The loop state before index k, computed from the prefix alone. */
  function FillStateAt(s: seq<int>, k: nat, st: FillState): FillState
    requires k <= |s|
    decreases k
  {
    if k == 0 then st else FillStep(FillStateAt(s, k - 1, st), s[k - 1]).0
  }

  lemma {:induction false} FillRunPointwise(s: seq<int>, st: FillState)
    ensures forall k :: 0 <= k < |s| ==> FillRun(s, st)[k] == FillStep(FillStateAt(s, k, st), s[k]).1
  {
    if |s| > 0 {
      var step := FillStep(st, s[0]);
      FillRunPointwise(s[1..], step.0);
      forall k | 0 <= k < |s|
        ensures FillRun(s, st)[k] == FillStep(FillStateAt(s, k, st), s[k]).1
      {
        if k > 0 {
          FillStateShift(s, k, st);
        }
      }
    }
  }

  lemma {:induction false} FillStateShift(s: seq<int>, k: nat, st: FillState)
    requires 0 < k <= |s|
    ensures FillStateAt(s, k, st) == FillStateAt(s[1..], k - 1, FillStep(st, s[0]).0)
    decreases k
  {
    if k > 1 {
      FillStateShift(s, k - 1, st);
    }
  }

  /** Whether a buy region is open once the first k symbols are read: a 1
      read outside a region opens one when the symbol before it is 0 (or
      it is the first symbol), and the next 1 closes it; -1 and every
      other symbol leave a region as it is. */
  predicate OpenAfter(s: seq<int>, k: nat)
    requires k <= |s|
    decreases k
  {
    if k == 0 then false
    else if s[k - 1] == 1 then !OpenAfter(s, k - 1) && (k == 1 || s[k - 2] == 0)
    else OpenAfter(s, k - 1)
  }

  /** What fill_signal writes at index k, stated through the regions: a 0
      inside a region is filled with 1, a 1 is kept unless it directly
      follows a 1 outside a region (the 1 after a closing 1), which is
      cleared to 0, and every other symbol is copied. */
  function FillRef(s: seq<int>, k: nat): int
    requires k < |s|
  {
    if s[k] == 0 then (if OpenAfter(s, k) then 1 else 0)
    else if s[k] == 1 then (if !OpenAfter(s, k) && k > 0 && s[k - 1] == 1 then 0 else 1)
    else s[k]
  }

  /** The loop state before index k is the region status of the prefix and
      the symbol before k (0 at the start). */
  lemma {:induction false} FillStateIsRegion(s: seq<int>, k: nat)
    requires k <= |s|
    ensures FillStateAt(s, k, FillInit) == FillState(OpenAfter(s, k), if k == 0 then 0 else s[k - 1])
    decreases k
  {
    if k > 0 {
      FillStateIsRegion(s, k - 1);
    }
  }

  /** fill_signal writes FillRef at every index: it keeps every -1 and adds
      none, fills exactly the zeros inside an open region, and clears a 1
      that follows the 1 closing a region. */
  lemma FillSignalRegions(s: seq<int>)
    ensures |FillSignal(s)| == |s|
    ensures forall k :: 0 <= k < |s| ==> FillSignal(s)[k] == FillRef(s, k)
    ensures forall k :: 0 <= k < |s| ==> (FillSignal(s)[k] == -1 <==> s[k] == -1)
    ensures forall k :: 0 <= k < |s| && s[k] == 0 ==> (FillSignal(s)[k] == 1 <==> OpenAfter(s, k))
    ensures forall k :: (0 < k < |s| && s[k] == 1 && s[k - 1] == 1 && OpenAfter(s, k - 1)) ==>
      FillSignal(s)[k] == 0
    ensures forall k :: 0 <= k < |s| && s[k] != 0 && s[k] != 1 ==> FillSignal(s)[k] == s[k]
  {
    FillRunPointwise(s, FillInit);
    forall k | 0 <= k < |s|
      ensures FillSignal(s)[k] == FillRef(s, k)
    {
      FillStateIsRegion(s, k);
    }
    forall k | 0 < k < |s| && s[k] == 1 && s[k - 1] == 1 && OpenAfter(s, k - 1)
      ensures FillSignal(s)[k] == 0
    {
      assert !OpenAfter(s, k);
    }
  }
}
