/** The parts of the stock database schema that hold logic: the order and
    portfolio records the brokers work on, and a stock's company-data
    lookups (get_data, get_data_attr and the lookup-id search).
 */
module StockSchema {
  import opened Wrappers
  import opened PyJson

  /** Order status, with the enum values 0..4 of the schema. */
  datatype Status = Completed | Confirmed | Deleted | Open | Expired

  /** Order types, with the enum values 0..4 of the schema. */
  datatype OrderType = Limit | Market | StopLoss | StopLimit | TrailingStop

  /** One row of the orders table.  Dates are seconds since the epoch.  A
      stock id of 0 stands for a missing stock (both are falsy in the
      source).  The size is positive for a buy and negative for a sell.
      parent is the id of the sell order a buy is linked to. */
  datatype Order = Order(
    id: int,
    date: int,
    status: Status,
    orderType: OrderType,
    size: int,
    price: real,
    commission: real,
    priceComplete: real,
    isSell: bool,
    stockId: int,
    signalId: int,
    parent: Option<int>,
    expireDate: Option<int>)

  /** A portfolio: its cash and its orders, in the order the database
      returns them. */
  datatype Portfolio = Portfolio(cash: real, orders: seq<Order>)

  /** A stock: its name, its company-data rows (name, JSON document) and
      its lookup rows (type, lookup id). */
  datatype Stock = Stock(name: string, jsonData: seq<(string, Json)>, lookups: seq<(string, string)>)

  /** One price bar of the series table. Prices and volume are kept as the
      data source delivers them (a number, or None); the date is seconds
      since the epoch. */
  datatype Series = Series(
    priceOpen: Json,
    priceHigh: Json,
    priceLow: Json,
    priceClose: Json,
    volume: Json,
    resolution: string,
    date: real)

  /** One row of the exchange table, with the values the broker's
      configuration gives. */
  datatype Exchange = Exchange(id: Json, name: Json, country: Json, city: Json, symbol: Json, symbolShort: Json)

  /** Company data by key: the document of the first row with that name. */
  function GetData(s: Stock, key: string): (r: Option<Json>)
    ensures r.None? <==> forall i :: 0 <= i < |s.jsonData| ==> s.jsonData[i].0 != key
    ensures r.Some? ==> exists i :: (0 <= i < |s.jsonData| && s.jsonData[i] == (key, r.value)
                                     && forall j :: 0 <= j < i ==> s.jsonData[j].0 != key)
  {
    Lookup(s.jsonData, key)
  }

  /** The lookup id of the first lookup row of the given type. */
  function GetDataId(lookups: seq<(string, string)>, kind: string): (r: Option<string>)
    ensures r.None? <==> forall i :: 0 <= i < |lookups| ==> lookups[i].0 != kind
    ensures r.Some? ==> exists i :: (0 <= i < |lookups| && lookups[i] == (kind, r.value)
                                     && forall j :: 0 <= j < i ==> lookups[j].0 != kind)
    decreases |lookups|
  {
    if |lookups| == 0 then None
    else if lookups[0].0 == kind then Some(lookups[0].1)
    else
      var r := GetDataId(lookups[1..], kind);
      assert forall i :: 0 <= i < |lookups| - 1 ==> lookups[1..][i] == lookups[i + 1];
      if r.Some? then
        var i :| 0 <= i < |lookups| - 1 && lookups[1..][i] == (kind, r.value)
                 && forall j :: 0 <= j < i ==> lookups[1..][j].0 != kind;
        assert lookups[i + 1] == (kind, r.value);
        r
      else r
  }

  function DegiroId(s: Stock): Option<string>
  {
    GetDataId(s.lookups, "degiro")
  }

  function WebullId(s: Stock): Option<string>
  {
    GetDataId(s.lookups, "webull")
  }

  /** Python's `for x in j`: a list gives its items, a dict its keys, a
      string its characters; anything else raises TypeError. */
  function Iterate(j: Json): (r: Result<seq<Json>>)
    ensures r.Ok? <==> j.JList? || j.JDict? || j.JStr?
    ensures j.JList? ==> r == Ok(j.items)
    ensures j.JDict? ==> r.Ok? && |r.value| == |j.entries|
                         && forall i :: 0 <= i < |j.entries| ==> r.value[i] == JStr(j.entries[i].0)
    ensures j.JStr? ==> r.Ok? && |r.value| == |j.s|
                        && forall i :: 0 <= i < |j.s| ==> r.value[i] == JStr([j.s[i]])
    ensures r.Err? ==> r.error == TypeError
  {
    match j
    case JList(items) => Ok(items)
    case JDict(entries) => Ok(seq(|entries|, i requires 0 <= i < |entries| => JStr(entries[i].0)))
    case JStr(s) => Ok(seq(|s|, i requires 0 <= i < |s| => JStr([s[i]])))
    case _ => Err(TypeError)
  }

  /** What one step of a search loop looks at: a strut of company data (a
      dict with 'attr' and 'value'), or one entry of the data list with the
      annual and quarter filters. */
  datatype Probe =
    | StrutProbe(attr: string)
    | DataProbe(attr: string, annual: bool, quarterDiff: int)

  function Rank(p: Probe): nat
  {
    if p.StrutProbe? then 0 else 1
  }

  /** One loop step at index k: Ok(None) moves on, Ok(Some(v)) returns v
      from get_data_attr, Err raises. */
  function Apply(p: Probe, k: nat, x: Json): Result<Option<real>>
    decreases Rank(p), 0
  {
    match p
    case StrutProbe(attr) =>
      var hasAttr :- Contains(x, "attr");
      if !hasAttr then Ok(None) else
      var hasValue := Contains(x, "value").value;
      if !hasValue then Ok(None) else
      var a :- Index(x, "attr");
      if a != JStr(attr) then Ok(None) else
      var v :- Index(x, "value");
      FloatOrMinusOne(v)
    case DataProbe(attr, annual, quarterDiff) =>
      if !(quarterDiff == 0 || k >= quarterDiff) then Ok(None) else
      var open :- AnnualGate(x, annual);
      if !open then Ok(None) else
      var hasStruts :- Contains(x, "struts");
      if !hasStruts then Ok(None) else
      var struts :- Index(x, "struts");
      var items :- Iterate(struts);
      Scan(items, 0, StrutProbe(attr))
  }

  /** float(v), with a ValueError turned into -1 and other errors raised. */
  function FloatOrMinusOne(v: Json): (r: Result<Option<real>>)
    ensures ToFloat(v).Ok? ==> r == Ok(Some(ToFloat(v).value))
    ensures ToFloat(v) == Err(ValueError) ==> r == Ok(Some(-1.0))
    ensures r.Err? <==> ToFloat(v).Err? && ToFloat(v).error != ValueError
  {
    match ToFloat(v)
    case Ok(f) => Ok(Some(f))
    case Err(e) => if e == ValueError then Ok(Some(-1.0)) else Err(e)
  }

  /** `not annual or annual and 'annual' in data and data['annual']`. */
  function AnnualGate(x: Json, annual: bool): Result<bool>
  {
    if !annual then Ok(true)
    else
      var has :- Contains(x, "annual");
      if !has then Ok(false)
      else
        var v :- Index(x, "annual");
        Ok(Truthy(v))
  }

  /** The search loop from index i on: the first step that does not move on
      decides the result. */
  function Scan(xs: seq<Json>, i: nat, p: Probe): Result<Option<real>>
    requires i <= |xs|
    decreases Rank(p), 1, |xs| - i
  {
    if i == |xs| then Ok(None)
    else
      var step := Apply(p, i, xs[i]);
      if step == Ok(None) then Scan(xs, i + 1, p) else step
  }

  /** The loop ends without a hit iff every step moves on; otherwise its
      result is that of the first step that does not. */
  lemma {:induction false} ScanSpec(xs: seq<Json>, i: nat, p: Probe)
    requires i <= |xs|
    ensures Scan(xs, i, p) == Ok(None) <==> forall k :: i <= k < |xs| ==> Apply(p, k, xs[k]) == Ok(None)
    ensures Scan(xs, i, p) != Ok(None) ==>
      exists k :: (i <= k < |xs| && Scan(xs, i, p) == Apply(p, k, xs[k])
                   && forall m :: i <= m < k ==> Apply(p, m, xs[m]) == Ok(None))
    decreases |xs| - i
  {
    if i < |xs| {
      var step := Apply(p, i, xs[i]);
      if step == Ok(None) {
        assert Scan(xs, i, p) == Scan(xs, i + 1, p);
        ScanSpec(xs, i + 1, p);
        if Scan(xs, i + 1, p) != Ok(None) {
          var k :| i + 1 <= k < |xs| && Scan(xs, i + 1, p) == Apply(p, k, xs[k])
                   && forall m :: i + 1 <= m < k ==> Apply(p, m, xs[m]) == Ok(None);
          assert forall m :: i <= m < k ==> Apply(p, m, xs[m]) == Ok(None);
        }
      } else {
        assert Scan(xs, i, p) == step;
      }
    }
  }

  /** The loop's result from index i over xs is its result over the suffix
      when the steps do not depend on the index. */
  lemma {:induction false} ScanSuffix(xs: seq<Json>, i: nat, j: nat, p: Probe)
    requires p.StrutProbe? || p.quarterDiff == 0
    requires i + j <= |xs|
    ensures Scan(xs, i + j, p) == Scan(xs[i..], j, p)
    decreases |xs| - i - j
  {
    if i + j < |xs| {
      assert xs[i..][j] == xs[i + j];
      ScanSuffix(xs, i, j + 1, p);
    }
  }

  /** `for strut in struts` inside get_data_attr. */
  function ScanStruts(struts: Json, attr: string): Result<Option<real>>
  {
    var items :- Iterate(struts);
    Scan(items, 0, StrutProbe(attr))
  }

  /** get_data_attr on the document stored under key.  A missing document
      is None in the source, which raises TypeError at the first `in` or
      loop. */
  function AttrOf(datas: Json, key: string, attr: string, annual: bool, quarterDiff: int): (r: Result<real>)
    ensures !(datas.JList? || datas.JDict? || datas.JStr?) ==> r == Err(TypeError)
  {
    if key == "recommendation" then
      var hasRating :- if attr == "rating" then Contains(datas, "rating") else Ok(false);
      if hasRating then
        var v :- Index(datas, "rating");
        ToFloat(v)
      else
        var hasMeasures :- Contains(datas, "measures");
        if !hasMeasures then Ok(-1.0)
        else
          var measures :- Index(datas, "measures");
          var hit :- ScanStruts(measures, attr);
          Ok(if hit.Some? then hit.value else -1.0)
    else
      var items :- Iterate(datas);
      var hit :- Scan(items, 0, DataProbe(attr, annual, quarterDiff));
      Ok(if hit.Some? then hit.value else -1.0)
  }

  function GetDataAttr(s: Stock, key: string, attr: string, annual: bool, quarterDiff: int): (r: Result<real>)
    ensures (forall i :: 0 <= i < |s.jsonData| ==> s.jsonData[i].0 != key) ==> r == Err(TypeError)
    ensures forall i :: (0 <= i < |s.jsonData| && s.jsonData[i].0 == key
                         && forall j :: 0 <= j < i ==> s.jsonData[j].0 != key)
                        ==> r == AttrOf(s.jsonData[i].1, key, attr, annual, quarterDiff)
  {
    var datas := match GetData(s, key) case Some(d) => d case None => JNull;
    AttrOf(datas, key, attr, annual, quarterDiff)
  }

  /** A strut in the expected shape: a dict holding 'attr' and 'value'. */
  predicate WellFormedStrut(x: Json)
  {
    HasKeys(x, ["attr", "value"])
  }

  /** A well-formed strut is a hit iff its 'attr' is the requested one; the
      hit is float of its 'value', or -1 when that is not a number. */
  lemma StrutStep(attr: string, k: nat, x: Json)
    requires WellFormedStrut(x)
    ensures Lookup(x.entries, "attr") != Some(JStr(attr)) ==> Apply(StrutProbe(attr), k, x) == Ok(None)
    ensures Lookup(x.entries, "attr") == Some(JStr(attr)) ==>
      Apply(StrutProbe(attr), k, x) == FloatOrMinusOne(Lookup(x.entries, "value").value)
  {
    assert "attr" in ["attr", "value"] && "value" in ["attr", "value"];
  }

  /** A non-recommendation lookup over a data list returns the value of
      the first entry that decides, and -1 when none does. */
  lemma GetDataAttrSpec(items: seq<Json>, key: string, attr: string, annual: bool, q: int)
    requires key != "recommendation"
    ensures (forall k :: 0 <= k < |items| ==> Apply(DataProbe(attr, annual, q), k, items[k]) == Ok(None))
            ==> AttrOf(JList(items), key, attr, annual, q) == Ok(-1.0)
    ensures forall k :: (0 <= k < |items| && Apply(DataProbe(attr, annual, q), k, items[k]).Ok?
                         && Apply(DataProbe(attr, annual, q), k, items[k]).value.Some?
                         && (forall m :: 0 <= m < k ==> Apply(DataProbe(attr, annual, q), m, items[m]) == Ok(None)))
                        ==> AttrOf(JList(items), key, attr, annual, q) == Ok(Apply(DataProbe(attr, annual, q), k, items[k]).value.value)
  {
    ScanSpec(items, 0, DataProbe(attr, annual, q));
    var p := DataProbe(attr, annual, q);
    forall k | 0 <= k < |items| && Apply(p, k, items[k]).Ok? && Apply(p, k, items[k]).value.Some?
               && (forall m :: 0 <= m < k ==> Apply(p, m, items[m]) == Ok(None))
      ensures AttrOf(JList(items), key, attr, annual, q) == Ok(Apply(p, k, items[k]).value.value)
    {
      var k' :| 0 <= k' < |items| && Scan(items, 0, p) == Apply(p, k', items[k'])
                && forall m :: 0 <= m < k' ==> Apply(p, m, items[m]) == Ok(None);
      assert k' == k;
    }
  }

  /** Skipping the first quarterDiff entries of the data list is the same
      as looking up in the list without them. */
  lemma QuarterDiffSkips(items: seq<Json>, key: string, attr: string, annual: bool, q: nat)
    requires key != "recommendation"
    requires 0 < q <= |items|
    ensures AttrOf(JList(items), key, attr, annual, q) == AttrOf(JList(items[q..]), key, attr, annual, 0)
  {
    SkipPrefix(items, 0, attr, annual, q);
    ScanShift(items, q, 0, attr, annual, q);
  }

  lemma {:induction false} SkipPrefix(items: seq<Json>, i: nat, attr: string, annual: bool, q: nat)
    requires i <= q <= |items|
    ensures Scan(items, i, DataProbe(attr, annual, q)) == Scan(items, q, DataProbe(attr, annual, q))
    decreases q - i
  {
    if i < q {
      SkipPrefix(items, i + 1, attr, annual, q);
    }
  }

  /** From index q on, the quarter filter is open, so each step is the
      unfiltered step on the suffix. */
  lemma {:induction false} ScanShift(items: seq<Json>, q: nat, j: nat, attr: string, annual: bool, q0: nat)
    requires q0 == q
    requires q + j <= |items|
    ensures Scan(items, q + j, DataProbe(attr, annual, q0)) == Scan(items[q..], j, DataProbe(attr, annual, 0))
    decreases |items| - q - j
  {
    if q + j < |items| {
      assert items[q..][j] == items[q + j];
      ScanShift(items, q, j + 1, attr, annual, q0);
    }
  }

  /** The entries an annual lookup considers: dicts with a truthy 'annual'. */
  function AnnualOnly(items: seq<Json>): (r: seq<Json>)
    ensures forall x :: x in r ==> x in items
    ensures |r| <= |items|
  {
    if |items| == 0 then []
    else
      var rest := AnnualOnly(items[1..]);
      if AnnualGate(items[0], true) == Ok(true) then [items[0]] + rest else rest
  }

  /** On a list of dicts, an annual lookup is a plain lookup over the
      entries marked annual. */
  lemma {:induction false} AnnualFilters(items: seq<Json>, attr: string)
    requires forall k :: 0 <= k < |items| ==> items[k].JDict?
    ensures Scan(items, 0, DataProbe(attr, true, 0)) == Scan(AnnualOnly(items), 0, DataProbe(attr, false, 0))
    decreases |items|
  {
    if |items| > 0 {
      var x, rest := items[0], items[1..];
      assert forall k :: 0 <= k < |rest| ==> rest[k] == items[k + 1];
      AnnualFilters(rest, attr);
      ScanSuffix(items, 1, 0, DataProbe(attr, true, 0));
      var f := AnnualOnly(rest);
      if AnnualGate(x, true) == Ok(true) {
        ScanSuffix([x] + f, 1, 0, DataProbe(attr, false, 0));
        assert ([x] + f)[1..] == f;
      }
    }
  }

  /** The recommendation document answers 'rating' from its own key, and
      otherwise only from its 'measures'; a stock without the requested
      document raises TypeError whatever the key. */
  lemma RecommendationSpec(entries: seq<(string, Json)>, attr: string, annual: bool, q: int)
    ensures attr == "rating" && Lookup(entries, "rating").Some? ==>
      AttrOf(JDict(entries), "recommendation", attr, annual, q) == ToFloat(Lookup(entries, "rating").value)
    ensures (attr != "rating" || Lookup(entries, "rating").None?) && Lookup(entries, "measures").None? ==>
      AttrOf(JDict(entries), "recommendation", attr, annual, q) == Ok(-1.0)
    ensures forall key :: AttrOf(JNull, key, attr, annual, q) == Err(TypeError)
  {
  }
}
