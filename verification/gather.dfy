/** A Python loop that visits a list in order, appends what each item
    gives (or nothing) and stops at the first exception: the shape of the
    list comprehensions with a filter and of the append loops in the data
    converters. */
module Gather {
  import opened Wrappers

  /** Each item gives an error, nothing, or one value. */
  function Collect<A, B>(xs: seq<A>, f: A -> Result<Option<B>>): (r: Result<seq<B>>)
    ensures r.Ok? ==> |r.value| <= |xs|
    decreases |xs|
  {
    if |xs| == 0 then Ok([])
    else
      var init :- Collect(xs[..|xs| - 1], f);
      var last :- f(xs[|xs| - 1]);
      Ok(init + (if last.Some? then [last.value] else []))
  }

  /** The loop completes exactly when no item raises. */
  lemma {:induction false} CollectOk<A, B>(xs: seq<A>, f: A -> Result<Option<B>>)
    ensures Collect(xs, f).Ok? <==> forall i :: 0 <= i < |xs| ==> f(xs[i]).Ok?
    decreases |xs|
  {
    if |xs| > 0 {
      var n := |xs| - 1;
      CollectOk(xs[..n], f);
      assert forall i :: 0 <= i < n ==> xs[..n][i] == xs[i];
    }
  }

  /** When the loop stops, it stops with the error of the first item that
      raises. */
  lemma {:induction false} CollectErr<A, B>(xs: seq<A>, f: A -> Result<Option<B>>)
    requires Collect(xs, f).Err?
    ensures exists i :: 0 <= i < |xs| && f(xs[i]) == Err(Collect(xs, f).error)
                        && forall k :: 0 <= k < i ==> f(xs[k]).Ok?
    decreases |xs|
  {
    var n := |xs| - 1;
    var p := xs[..n];
    assert forall k :: 0 <= k < n ==> p[k] == xs[k];
    if Collect(p, f).Err? {
      CollectErr(p, f);
      var i :| 0 <= i < n && f(p[i]) == Err(Collect(p, f).error) && forall k :: 0 <= k < i ==> f(p[k]).Ok?;
      assert f(xs[i]) == Err(Collect(xs, f).error);
    } else {
      CollectOk(p, f);
      assert f(xs[n]) == Err(Collect(xs, f).error);
    }
  }

  /** A completed loop yields exactly the values the items give. */
  lemma {:induction false} CollectMembers<A, B>(xs: seq<A>, f: A -> Result<Option<B>>, b: B)
    requires Collect(xs, f).Ok?
    ensures b in Collect(xs, f).value <==> exists i :: 0 <= i < |xs| && f(xs[i]) == Ok(Some(b))
    decreases |xs|
  {
    if |xs| > 0 {
      var n := |xs| - 1;
      var p := xs[..n];
      CollectMembers(p, f, b);
      assert forall k :: 0 <= k < n ==> p[k] == xs[k];
      if exists i :: 0 <= i < |xs| && f(xs[i]) == Ok(Some(b)) {
        var i :| 0 <= i < |xs| && f(xs[i]) == Ok(Some(b));
        if i < n {
          assert f(p[i]) == Ok(Some(b));
        }
      }
    }
  }

  /** A completed loop over items that each give a value gives one value
      per item, in order. */
  lemma {:induction false} CollectAll<A, B>(xs: seq<A>, f: A -> Result<Option<B>>)
    requires forall i :: 0 <= i < |xs| ==> f(xs[i]).Ok? && f(xs[i]).value.Some?
    ensures Collect(xs, f).Ok?
    ensures |Collect(xs, f).value| == |xs|
    ensures forall i :: 0 <= i < |xs| ==> Collect(xs, f).value[i] == f(xs[i]).value.value
    decreases |xs|
  {
    if |xs| > 0 {
      var n := |xs| - 1;
      var p := xs[..n];
      assert forall k :: 0 <= k < n ==> p[k] == xs[k];
      CollectAll(p, f);
    }
  }

  /** A loop that extends its list by what each item gives, stopping at the
      first exception. */
  function FlatCollect<A, B>(xs: seq<A>, f: A -> Result<seq<B>>): (r: Result<seq<B>>)
    decreases |xs|
  {
    if |xs| == 0 then Ok([])
    else
      var init :- FlatCollect(xs[..|xs| - 1], f);
      var last :- f(xs[|xs| - 1]);
      Ok(init + last)
  }

  /** The extending loop completes exactly when no item raises, and then
      holds exactly the values the items give. */
  lemma {:induction false} FlatCollectMembers<A, B>(xs: seq<A>, f: A -> Result<seq<B>>, b: B)
    ensures FlatCollect(xs, f).Ok? <==> forall i :: 0 <= i < |xs| ==> f(xs[i]).Ok?
    ensures FlatCollect(xs, f).Ok? ==>
              (b in FlatCollect(xs, f).value <==> exists i :: 0 <= i < |xs| && b in f(xs[i]).value)
    decreases |xs|
  {
    if |xs| > 0 {
      var n := |xs| - 1;
      var p := xs[..n];
      FlatCollectMembers(p, f, b);
      assert forall k :: 0 <= k < n ==> p[k] == xs[k];
      if FlatCollect(xs, f).Ok? && exists i :: 0 <= i < |xs| && b in f(xs[i]).value {
        var i :| 0 <= i < |xs| && b in f(xs[i]).value;
        if i < n {
          assert b in f(p[i]).value;
        }
      }
    }
  }

  /** A loop in which no item raises or gives a value gives nothing. */
  lemma {:induction false} CollectNone<A, B>(xs: seq<A>, f: A -> Result<Option<B>>)
    requires forall k :: 0 <= k < |xs| ==> f(xs[k]) == Ok(None)
    ensures Collect(xs, f) == Ok([])
    decreases |xs|
  {
    if |xs| > 0 {
      var n := |xs| - 1;
      var p := xs[..n];
      assert forall k :: 0 <= k < n ==> p[k] == xs[k];
      CollectNone(p, f);
    }
  }

  /** A completed loop whose first value comes from item i starts with that
      value. */
  lemma {:induction false} CollectFirst<A, B>(xs: seq<A>, f: A -> Result<Option<B>>, i: nat)
    requires i < |xs| && f(xs[i]).Ok? && f(xs[i]).value.Some?
    requires forall k :: 0 <= k < i ==> f(xs[k]) == Ok(None)
    requires Collect(xs, f).Ok?
    ensures |Collect(xs, f).value| > 0 && Collect(xs, f).value[0] == f(xs[i]).value.value
    decreases |xs|
  {
    var n := |xs| - 1;
    var p := xs[..n];
    assert forall k :: 0 <= k < n ==> p[k] == xs[k];
    if i == n {
      CollectNone(p, f);
    } else {
      CollectFirst(p, f, i);
    }
  }

  /** `for idx, x in enumerate(xs)` appending one value per item, stopping
      at the first exception. */
  function MapIndexed<A, B>(xs: seq<A>, f: (nat, A) -> Result<B>): (r: Result<seq<B>>)
    ensures r.Ok? ==> |r.value| == |xs|
    decreases |xs|
  {
    if |xs| == 0 then Ok([])
    else
      var n := |xs| - 1;
      var init :- MapIndexed(xs[..n], f);
      var last :- f(n, xs[n]);
      Ok(init + [last])
  }

  /** When no item raises, the loop gives one value per item, each computed
      from the item at its own position. */
  lemma {:induction false} MapIndexedAll<A, B>(xs: seq<A>, f: (nat, A) -> Result<B>)
    requires forall i :: 0 <= i < |xs| ==> f(i, xs[i]).Ok?
    ensures MapIndexed(xs, f).Ok?
    ensures forall i :: 0 <= i < |xs| ==> MapIndexed(xs, f).value[i] == f(i, xs[i]).value
    decreases |xs|
  {
    if |xs| > 0 {
      var n := |xs| - 1;
      assert forall i :: 0 <= i < n ==> xs[..n][i] == xs[i];
      MapIndexedAll(xs[..n], f);
    }
  }
}
