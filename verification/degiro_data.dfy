/** The broker's converters from its JSON replies to database records:
    exchanges from the configuration, stocks from a product search, and
    price bars from a chart reply.

    Every Python operation that can raise is modelled with its error, so a
    converter's Err is the exception the source lets escape. */
module DegiroData {
  import opened Wrappers
  import opened PyJson
  import opened Gather
  import opened StockSchema

  const EXCHANGE_KEYS: seq<string> := ["id", "name", "country", "city", "code", "hiqAbbr"]
  const STOCK_KEYS: seq<string> := ["exchangeId", "symbol", "name", "category", "vwdId", "feedQuality"]

  /** all(k in j for k in keys): the keys are tested in order and the test
      stops at the first missing one. */
  function AllIn(keys: seq<string>, j: Json): (r: Result<bool>)
    ensures j.JDict? ==> r == Ok(HasKeys(j, keys))
    ensures r.Err? ==> r == Err(TypeError) && |keys| > 0 && !(j.JDict? || j.JList? || j.JStr?)
    decreases |keys|
  {
    if |keys| == 0 then Ok(true)
    else
      var here :- Contains(j, keys[0]);
      if !here then Ok(false)
      else
        assert forall k :: k in keys ==> k == keys[0] || k in keys[1..];
        AllIn(keys[1..], j)
  }

  /** The exchange record of one configuration entry, or nothing when the
      entry lacks one of the six keys. */
  function ExchangeOf(exchange: Json): (r: Result<Option<Exchange>>)
    ensures exchange.JDict? ==> r.Ok? && (r.value.Some? <==> HasKeys(exchange, EXCHANGE_KEYS))
  {
    var has :- AllIn(EXCHANGE_KEYS, exchange);
    if !has then Ok(None)
    else if !exchange.JDict? then Err(TypeError)
    else Ok(Some(ExchangeFrom(exchange)))
  }

  /** The exchange record built from a dict that holds the six keys. */
  function ExchangeFrom(d: Json): Exchange
    requires HasKeys(d, EXCHANGE_KEYS)
  {
    assert EXCHANGE_KEYS[0] == "id" && EXCHANGE_KEYS[1] == "name" && EXCHANGE_KEYS[2] == "country";
    assert EXCHANGE_KEYS[3] == "city" && EXCHANGE_KEYS[4] == "code" && EXCHANGE_KEYS[5] == "hiqAbbr";
    Exchange(Lookup(d.entries, "id").value, Lookup(d.entries, "name").value,
             Lookup(d.entries, "country").value, Lookup(d.entries, "city").value,
             Lookup(d.entries, "code").value, Lookup(d.entries, "hiqAbbr").value)
  }

  /** exchange_to_object: one record per configured exchange that has all
      six keys. A configuration without "exchanges" raises KeyError. */
  function ExchangeToObject(config: Json): (r: Result<seq<Exchange>>)
    ensures config.JDict? && Lookup(config.entries, "exchanges").None? ==> r == Err(KeyError)
  {
    var data :- Index(config, "exchanges");
    var xs :- Iter(data);
    Collect(xs, ExchangeOf)
  }

  /** On a configuration whose exchanges are dicts, the records are exactly
      those of the entries holding all six keys, with their values. */
  lemma ExchangesExact(config: Json, e: Exchange)
    requires config.JDict? && Lookup(config.entries, "exchanges").Some?
    requires var data := Lookup(config.entries, "exchanges").value;
             data.JList? && forall i :: 0 <= i < |data.items| ==> data.items[i].JDict?
    ensures ExchangeToObject(config).Ok?
    ensures var items := Lookup(config.entries, "exchanges").value.items;
            e in ExchangeToObject(config).value
            <==> exists i :: 0 <= i < |items| && HasKeys(items[i], EXCHANGE_KEYS) && e == ExchangeFrom(items[i])
  {
    var items := Lookup(config.entries, "exchanges").value.items;
    CollectOk(items, ExchangeOf);
    CollectMembers(items, ExchangeOf, e);
    forall i | 0 <= i < |items|
      ensures ExchangeOf(items[i]) == Ok(Some(e)) <==> HasKeys(items[i], EXCHANGE_KEYS) && e == ExchangeFrom(items[i])
    {
      ExchangeOfDict(items[i]);
    }
  }

  lemma ExchangeOfDict(d: Json)
    requires d.JDict?
    ensures HasKeys(d, EXCHANGE_KEYS) ==> ExchangeOf(d) == Ok(Some(ExchangeFrom(d)))
    ensures !HasKeys(d, EXCHANGE_KEYS) ==> ExchangeOf(d) == Ok(None)
  {
    if HasKeys(d, EXCHANGE_KEYS) {
      assert EXCHANGE_KEYS[0] == "id" && EXCHANGE_KEYS[1] == "name" && EXCHANGE_KEYS[2] == "country";
    assert EXCHANGE_KEYS[3] == "city" && EXCHANGE_KEYS[4] == "code" && EXCHANGE_KEYS[5] == "hiqAbbr";
    }
  }

  /** The stock record of the schema's stock table, as the broker fills it. */
  datatype StockRow = StockRow(exchangeId: Json, symbol: Json, name: Json, category: Json, feedQuality: Json)

  /** The vwdId and stock record of a dict that holds the six keys. */
  function StockFrom(d: Json): (Json, StockRow)
    requires HasKeys(d, STOCK_KEYS)
  {
    assert STOCK_KEYS[0] == "exchangeId" && STOCK_KEYS[1] == "symbol" && STOCK_KEYS[2] == "name";
    assert STOCK_KEYS[3] == "category" && STOCK_KEYS[4] == "vwdId" && STOCK_KEYS[5] == "feedQuality";
    (Lookup(d.entries, "vwdId").value,
     StockRow(Lookup(d.entries, "exchangeId").value, Lookup(d.entries, "symbol").value,
              Lookup(d.entries, "name").value, Lookup(d.entries, "category").value,
              Lookup(d.entries, "feedQuality").value))
  }

  /** stock_to_object: the product's vwdId with its stock record when all
      six keys are present, else None. */
  function StockToObject(stock: Json): (r: Result<Option<(Json, StockRow)>>)
    ensures stock.JDict? ==> r.Ok? && (r.value.Some? <==> HasKeys(stock, STOCK_KEYS))
    ensures stock.JDict? && r.value.Some? ==> r.value.value == StockFrom(stock)
  {
    var has :- AllIn(STOCK_KEYS, stock);
    if !has then Ok(None)
    else if !stock.JDict? then Err(TypeError)
    else Ok(Some(StockFrom(stock)))
  }

  /** str.lower() on ASCII letters. */
  function Lower(s: string): (r: string)
    ensures |r| == |s|
    ensures forall i :: 0 <= i < |s| ==> r[i] == if 'A' <= s[i] <= 'Z' then s[i] - 'A' + 'a' else s[i]
  {
    seq(|s|, i requires 0 <= i < |s| => if 'A' <= s[i] <= 'Z' then s[i] - 'A' + 'a' else s[i])
  }

  predicate StartsWith(s: string, prefix: string)
  {
    |prefix| <= |s| && s[..|prefix|] == prefix
  }

  /** What one product of a search reply gives: its stock when its isin,
      lower-cased, starts with the prefix and it has a vwdId; an isin that
      is not a string has no lower() and raises AttributeError. */
  function PickProduct(isin: string, stock: Json): (r: Result<Option<(Json, StockRow)>>)
  {
    var hasIsin :- Contains(stock, "isin");
    if !hasIsin then Ok(None)
    else
      var value :- Index(stock, "isin");
      if !value.JStr? then Err(AttributeError)
      else if !StartsWith(Lower(value.s), isin) then Ok(None)
      else
        if Lookup(stock.entries, "vwdId").None? then Ok(None)
        else StockToObject(stock)
  }

  /** The product is a dict whose isin is a string that, lower-cased,
      starts with the prefix, and that holds every stock key. */
  predicate Selected(isin: string, stock: Json)
  {
    HasKeys(stock, STOCK_KEYS) && Lookup(stock.entries, "isin").Some?
    && Lookup(stock.entries, "isin").value.JStr?
    && StartsWith(Lower(Lookup(stock.entries, "isin").value.s), isin)
  }

  /** A dict product with a string isin gives its stock exactly when it is
      selected. */
  lemma PickProductDict(isin: string, stock: Json)
    requires stock.JDict?
    requires Lookup(stock.entries, "isin").Some? ==> Lookup(stock.entries, "isin").value.JStr?
    ensures PickProduct(isin, stock).Ok?
    ensures PickProduct(isin, stock).value.Some? <==> Selected(isin, stock)
    ensures PickProduct(isin, stock).value.Some? ==> PickProduct(isin, stock) == StockToObject(stock)
  {
    assert "vwdId" in STOCK_KEYS;
  }

  /** stock_to_object_filter: the stocks of the products whose isin starts
      with the prefix, in reply order. A reply without "products" raises
      KeyError. */
  function StockToObjectFilter(data: Json, isin: string): (r: Result<seq<(Json, StockRow)>>)
    ensures data.JDict? && Lookup(data.entries, "products").None? ==> r == Err(KeyError)
  {
    var products :- Index(data, "products");
    var xs :- Iter(products);
    Collect(xs, stock => PickProduct(isin, stock))
  }

  /** On a reply whose products are dicts with string isins, the result
      holds exactly the stocks of the selected products. */
  lemma StockFilterExact(data: Json, isin: string, x: (Json, StockRow))
    requires data.JDict? && Lookup(data.entries, "products").Some?
    requires var products := Lookup(data.entries, "products").value;
             products.JList?
             && forall i :: 0 <= i < |products.items| ==>
                  products.items[i].JDict?
                  && (Lookup(products.items[i].entries, "isin").Some? ==> Lookup(products.items[i].entries, "isin").value.JStr?)
    ensures StockToObjectFilter(data, isin).Ok?
    ensures var items := Lookup(data.entries, "products").value.items;
            x in StockToObjectFilter(data, isin).value
            <==> exists i :: 0 <= i < |items| && Selected(isin, items[i]) && StockToObject(items[i]) == Ok(Some(x))
  {
    var items := Lookup(data.entries, "products").value.items;
    var f := stock => PickProduct(isin, stock);
    forall i | 0 <= i < |items|
      ensures f(items[i]).Ok?
      ensures f(items[i]) == Ok(Some(x)) <==> Selected(isin, items[i]) && StockToObject(items[i]) == Ok(Some(x))
    {
      PickProductDict(isin, items[i]);
    }
    CollectOk(items, f);
    CollectMembers(items, f, x);
  }

  /** The unit a bar's offset counts in. */
  datatype Unit = Days | Minutes | Seconds

  function UnitSeconds(u: Unit): real
  {
    match u
    case Days => 86400.0
    case Minutes => 60.0
    case Seconds => 1.0
  }

  /** The resolution a bar is stored with: "PT1H" is renamed "PT60M". */
  function StoredResolution(res: string): string
  {
    if res == "PT1H" then "PT60M" else res
  }

  predicate EndsWith(s: string, suffix: string)
  {
    |suffix| <= |s| && s[|s| - |suffix|..] == suffix
  }

  /** The offset unit of a stored resolution: minutes for PT…M, seconds
      for PT1S, days otherwise. */
  function OffsetUnit(stored: string): (u: Unit)
    ensures u == Minutes <==> StartsWith(stored, "PT") && EndsWith(stored, "M")
    ensures u == Seconds <==> stored == "PT1S"
  {
    if StartsWith(stored, "PT") && EndsWith(stored, "M") then Minutes
    else if stored == "PT1S" then Seconds
    else Days
  }

  /** An hourly series is stored as PT60M and its offsets count in
      minutes. */
  lemma HourlyInMinutes()
    ensures StoredResolution("PT1H") == "PT60M"
    ensures OffsetUnit(StoredResolution("PT1H")) == Minutes
  {
    assert StartsWith("PT60M", "PT") && EndsWith("PT60M", "M");
  }

  /** The bar at position idx: prices from ohlcs[idx][1..4], volume and
      offset from the volume entry, the date start plus the offset counted
      in the resolution's unit. */
  function Bar(data: Json, ohlcs: Json, start: real, idx: nat, volume: Json): (r: Result<Series>)
  {
    var ohlc :- At(ohlcs, idx);
    var offset :- At(volume, 0);
    if !IsNumber(offset) then Err(TypeError)
    else
      var res :- Resolution(data);
      var values :- Values(ohlc, volume);
      var (priceOpen, priceHigh, priceLow, priceClose, vol) := values;
      Ok(Series(priceOpen, priceHigh, priceLow, priceClose, vol, res,
                start + NumberValue(offset) * UnitSeconds(OffsetUnit(res))))
  }

  /** The reply's resolution with PT1H stored as PT60M; it must be a
      string. */
  function Resolution(data: Json): Result<string>
  {
    var res :- Index(data, "resolution");
    var stored := if PyEq(res, JStr("PT1H")) then JStr("PT60M") else res;
    if !stored.JStr? then Err(AttributeError) else Ok(stored.s)
  }

  /** Open, high, low and close from the price row, then the volume. */
  function Values(ohlc: Json, volume: Json): Result<(Json, Json, Json, Json, Json)>
  {
    var priceOpen :- At(ohlc, 1);
    var priceHigh :- At(ohlc, 2);
    var priceLow :- At(ohlc, 3);
    var priceClose :- At(ohlc, 4);
    var vol :- At(volume, 1);
    Ok((priceOpen, priceHigh, priceLow, priceClose, vol))
  }

  /** The guard of series_to_object with the number of series entries it
      demands before reading entries 1 and 2. */
  function SeriesWith(minEntries: nat, data: Json, parseStart: string -> Option<real>): (r: Result<Option<seq<Series>>>)
  {
    var hasSeries :- Contains(data, "series");
    if !hasSeries then Ok(None)
    else
      var series :- Index(data, "series");
      var n :- Len(series);
      if n < minEntries then Ok(None)
      else
        var first :- At(series, 1);
        var firstHasData :- Contains(first, "data");
        if !firstHasData then Ok(None)
        else
          var second :- At(series, 2);
          var secondHasData :- Contains(second, "data");
          if !secondHasData then Ok(None)
          else
            var volumes :- Index(first, "data");
            var ohlcs :- Index(second, "data");
            var startText :- Index(data, "start");
            if !startText.JStr? then Err(TypeError)
            else if parseStart(startText.s).None? then Err(ValueError)
            else
              var entries :- Iter(volumes);
              var start := parseStart(startText.s).value;
              var bars :- MapIndexed(entries, (idx, volume) => Bar(data, ohlcs, start, idx, volume));
              Ok(Some(bars))
  }

  /** series_to_object as written: it checks for at least two series
      entries and then reads entry 2. */
  function SeriesToObjectAsWritten(data: Json, parseStart: string -> Option<real>): Result<Option<seq<Series>>>
  {
    SeriesWith(2, data, parseStart)
  }

  /** With exactly two series entries, the second of which holds data, the
      converter as written raises IndexError instead of returning None. */
  lemma TwoEntriesRaise(data: Json, parseStart: string -> Option<real>, first: Json, other: Json)
    requires first.JDict? && Lookup(first.entries, "data").Some?
    requires data == JDict([("series", JList([other, first]))])
    ensures SeriesToObjectAsWritten(data, parseStart) == Err(IndexError)
  {
  }

  /** series_to_object with the guard it evidently intends: three series
      entries, since it reads entry 2. */
  function SeriesToObject(data: Json, parseStart: string -> Option<real>): (r: Result<Option<seq<Series>>>)
    ensures (data.JDict? && Lookup(data.entries, "series").Some?
             && Lookup(data.entries, "series").value.JList?
             && |Lookup(data.entries, "series").value.items| < 3) ==> r == Ok(None)
  {
    SeriesWith(3, data, parseStart)
  }

  /** Both guards agree whenever there are at least three series entries. */
  lemma GuardsAgree(data: Json, parseStart: string -> Option<real>)
    requires data.JDict? && Lookup(data.entries, "series").Some?
    requires var series := Lookup(data.entries, "series").value;
             series.JList? && |series.items| >= 3
    ensures SeriesToObject(data, parseStart) == SeriesToObjectAsWritten(data, parseStart)
  {
  }

  predicate HasData(j: Json)
  {
    j.JDict? && Lookup(j.entries, "data").Some?
  }

  /** On a reply whose series entries are dicts, the converter returns None
      exactly when there are fewer than three entries or entry 1 or entry 2
      holds no data. */
  lemma SeriesNoneExact(data: Json, parseStart: string -> Option<real>)
    requires data.JDict? && Lookup(data.entries, "series").Some?
    requires var series := Lookup(data.entries, "series").value;
             series.JList? && forall i :: 0 <= i < |series.items| ==> series.items[i].JDict?
    ensures var items := Lookup(data.entries, "series").value.items;
            SeriesToObject(data, parseStart) == Ok(None)
            <==> |items| < 3 || !HasData(items[1]) || !HasData(items[2])
  {
  }

  /** A well-formed bar: the price row at its position has four prices after
      the timestamp, the volume entry holds a numeric offset and the volume,
      and the resolution is a string. The bar carries exactly those values
      and is dated start plus the offset in the resolution's unit. */
  lemma BarOf(data: Json, ohlcs: Json, start: real, idx: nat, volume: Json)
    requires data.JDict? && Lookup(data.entries, "resolution").Some?
    requires Lookup(data.entries, "resolution").value.JStr?
    requires ohlcs.JList? && idx < |ohlcs.items|
    requires ohlcs.items[idx].JList? && |ohlcs.items[idx].items| >= 5
    requires volume.JList? && |volume.items| >= 2 && IsNumber(volume.items[0])
    ensures var res := Lookup(data.entries, "resolution").value.s;
            var row := ohlcs.items[idx].items;
            var stored := StoredResolution(res);
            Bar(data, ohlcs, start, idx, volume)
            == Ok(Series(row[1], row[2], row[3], row[4], volume.items[1], stored,
                         start + NumberValue(volume.items[0]) * UnitSeconds(OffsetUnit(stored))))
  {
    var res := Lookup(data.entries, "resolution").value.s;
    AtItem(ohlcs, idx);
    AtItem(volume, 0);
    ResolutionOf(data);
    ValuesOf(ohlcs.items[idx], volume);
  }

  lemma AtItem(j: Json, i: nat)
    requires j.JList? && i < |j.items|
    ensures At(j, i) == Ok(j.items[i])
  {
  }

  lemma ResolutionOf(data: Json)
    requires data.JDict? && Lookup(data.entries, "resolution").Some?
    requires Lookup(data.entries, "resolution").value.JStr?
    ensures Resolution(data) == Ok(StoredResolution(Lookup(data.entries, "resolution").value.s))
  {
  }

  lemma ValuesOf(ohlc: Json, volume: Json)
    requires ohlc.JList? && |ohlc.items| >= 5
    requires volume.JList? && |volume.items| >= 2
    ensures Values(ohlc, volume)
            == Ok((ohlc.items[1], ohlc.items[2], ohlc.items[3], ohlc.items[4], volume.items[1]))
  {
    AtItem(ohlc, 1);
    AtItem(ohlc, 2);
    AtItem(ohlc, 3);
    AtItem(ohlc, 4);
    AtItem(volume, 1);
  }

  /** A well-formed chart reply gives one bar per volume entry, each built
      from the entries at its own position. */
  lemma SeriesBars(data: Json, parseStart: string -> Option<real>)
    requires data.JDict?
    requires var series := Field(data, "series");
             series.Some? && series.value.JList? && |series.value.items| >= 3
             && HasData(series.value.items[1]) && HasData(series.value.items[2])
    requires var start := Field(data, "start");
             start.Some? && start.value.JStr? && parseStart(start.value.s).Some?
    requires var series := Field(data, "series").value.items;
             var volumes := Lookup(series[1].entries, "data").value;
             var ohlcs := Lookup(series[2].entries, "data").value;
             volumes.JList? && ohlcs.JList? && |volumes.items| <= |ohlcs.items|
             && (forall i :: 0 <= i < |volumes.items| ==>
                   volumes.items[i].JList? && |volumes.items[i].items| >= 2 && IsNumber(volumes.items[i].items[0])
                   && ohlcs.items[i].JList? && |ohlcs.items[i].items| >= 5)
    requires Field(data, "resolution").Some? && Field(data, "resolution").value.JStr?
    ensures var series := Field(data, "series").value.items;
            var volumes := Lookup(series[1].entries, "data").value.items;
            var ohlcs := Lookup(series[2].entries, "data").value;
            var start := parseStart(Field(data, "start").value.s).value;
            var r := SeriesToObject(data, parseStart);
            r.Ok? && r.value.Some? && |r.value.value| == |volumes|
            && forall i :: 0 <= i < |volumes| ==> Bar(data, ohlcs, start, i, volumes[i]) == Ok(r.value.value[i])
  {
    var series := Field(data, "series").value.items;
    var volumes := Lookup(series[1].entries, "data").value.items;
    var ohlcs := Lookup(series[2].entries, "data").value;
    var start := parseStart(Field(data, "start").value.s).value;
    forall i | 0 <= i < |volumes|
      ensures Bar(data, ohlcs, start, i, volumes[i]).Ok?
    {
      BarOf(data, ohlcs, start, i, volumes[i]);
    }
    MapIndexedAll(volumes, (idx, volume) => Bar(data, ohlcs, start, idx, volume));
  }
}
