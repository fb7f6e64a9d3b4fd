/** The market-data client for the public chart service: the index-symbol
    mapping, the period strings ("P<n><unit>") and the conversion of a chart
    reply into price bars. The HTTP request is a parameter. */
module Yahoo {
  import opened Wrappers
  import opened PyJson
  import opened Gather
  import opened StockSchema

  /** The index names the chart service knows under a URL-encoded caret
      code, in the order the source tests them. */
  const INDEX_CODES: seq<(string, string)> := [
    ("DAX", "%5EGDAXI"),
    ("MDAX", "%5EMDAXI"),
    ("SDAX", "%5ESDAXI"),
    ("CDAX", "%5ECDAXX"),
    ("TECDAX", "%5ETECDAX"),
    ("FTSE 100", "%5EFTSE"),
    ("OMX Helsinki 15", "%5EOMXH15"),
    ("OMX Helsinki 25", "%5EOMXH25"),
    ("CAC 40", "%5EFCHI"),
    ("DOW JONES", "%5EDJI"),
    ("NASDAQ 100", "%5EIXIC"),
    ("NIKKEI 225", "%5EN225"),
    ("S&P 100", "%5EOEX"),
    ("S&P 500", "%5EGSPC"),
    ("BEL 20", "%5EBFX"),
    ("IBEX 35", "%5EIBEX"),
    ("AEX", "%5EAEX"),
    ("ASX 200", "%5EAXJO"),
    ("OMX Stockholm 30", "%5EOMX"),
    ("Switzerland 20", "%5ESSMI")
  ]

  /** The code of the first table row named symbol, if any. */
  function CodeOf(table: seq<(string, string)>, symbol: string): (r: Option<string>)
    ensures r.None? <==> forall i :: 0 <= i < |table| ==> table[i].0 != symbol
    ensures r.Some? ==> exists i :: 0 <= i < |table| && table[i] == (symbol, r.value)
    decreases |table|
  {
    if |table| == 0 then None
    else if table[0].0 == symbol then Some(table[0].1)
    else
      var r := CodeOf(table[1..], symbol);
      assert forall i :: 0 <= i < |table| - 1 ==> table[1..][i] == table[i + 1];
      r
  }

  /** A symbol table as the client needs it: names and codes are distinct,
      and every code starts with '%', which no name does, so a code is never
      taken for a name. */
  predicate WellFormedTable(table: seq<(string, string)>)
  {
    DistinctNames(table) && DistinctCodes(table) && Prefixed(table)
  }

  predicate DistinctNames(table: seq<(string, string)>)
  {
    forall i, j :: 0 <= i < j < |table| ==> table[i].0 != table[j].0
  }

  predicate DistinctCodes(table: seq<(string, string)>)
  {
    forall i, j :: 0 <= i < j < |table| ==> table[i].1 != table[j].1
  }

  predicate Prefixed(table: seq<(string, string)>)
  {
    (forall i :: 0 <= i < |table| ==> |table[i].1| > 0 && table[i].1[0] == '%')
    && (forall i :: 0 <= i < |table| ==> |table[i].0| > 0 && table[i].0[0] != '%')
  }

  /** Replacing a name by its table code. */
  function FixWith(table: seq<(string, string)>, symbol: string): (r: string)
    requires WellFormedTable(table)
    ensures (forall i :: 0 <= i < |table| ==> table[i].0 != symbol) ==> r == symbol
    ensures forall i :: 0 <= i < |table| && table[i].0 == symbol ==> r == table[i].1
  {
    match CodeOf(table, symbol)
    case Some(code) => code
    case None => symbol
  }

  /** __fix_symbol: a known index name becomes its code, any other symbol
      is kept. */
  function FixSymbol(symbol: string): (r: string)
    ensures (forall i :: 0 <= i < |INDEX_CODES| ==> INDEX_CODES[i].0 != symbol) ==> r == symbol
    ensures forall i :: 0 <= i < |INDEX_CODES| && INDEX_CODES[i].0 == symbol ==> r == INDEX_CODES[i].1
  {
    IndexTableWellFormed();
    FixWith(INDEX_CODES, symbol)
  }

  /** The twenty index names have twenty different codes, and no code is a
      name. */
  lemma IndexTableWellFormed()
    ensures |INDEX_CODES| == 20
    ensures WellFormedTable(INDEX_CODES)
  {
    IndexNamesDistinct();
    IndexCodesDistinct();
    IndexPrefixed();
  }

  lemma IndexPrefixed()
    ensures Prefixed(INDEX_CODES)
  {
    forall i | 0 <= i < |INDEX_CODES|
      ensures |INDEX_CODES[i].1| > 0 && INDEX_CODES[i].1[0] == '%'
      ensures |INDEX_CODES[i].0| > 0 && INDEX_CODES[i].0[0] != '%'
    {
      PrefixedAt(i);
    }
  }

  /** Row i has a '%' code and a name not starting with '%'. */
  lemma PrefixedAt(i: nat)
    requires i < |INDEX_CODES|
    ensures |INDEX_CODES[i].1| > 0 && INDEX_CODES[i].1[0] == '%'
    ensures |INDEX_CODES[i].0| > 0 && INDEX_CODES[i].0[0] != '%'
  {
    if i == 0 {} else if i == 1 {} else if i == 2 {} else if i == 3 {} else if i == 4 {}
    else if i == 5 {} else if i == 6 {} else if i == 7 {} else if i == 8 {} else if i == 9 {}
    else if i == 10 {} else if i == 11 {} else if i == 12 {} else if i == 13 {} else if i == 14 {}
    else if i == 15 {} else if i == 16 {} else if i == 17 {} else if i == 18 {} else {}
  }

  lemma IndexNamesDistinct()
    ensures DistinctNames(INDEX_CODES)
  {
    forall i, j | 0 <= i < j < |INDEX_CODES|
      ensures INDEX_CODES[i].0 != INDEX_CODES[j].0
    {
      NamesDistinctAt(i, j);
    }
  }

  lemma IndexCodesDistinct()
    ensures DistinctCodes(INDEX_CODES)
  {
    forall i, j | 0 <= i < j < |INDEX_CODES|
      ensures INDEX_CODES[i].1 != INDEX_CODES[j].1
    {
      CodesDistinctAt(i, j);
    }
  }

  /** Rows i and j differ in name (checked row by row). */
  lemma NamesDistinctAt(i: nat, j: nat)
    requires i < j < |INDEX_CODES|
    ensures INDEX_CODES[i].0 != INDEX_CODES[j].0
  {
    if i == 0 {} else if i == 1 {} else if i == 2 {} else if i == 3 {} else if i == 4 {}
    else if i == 5 {} else if i == 6 {} else if i == 7 {} else if i == 8 {} else if i == 9 {}
    else if i == 10 {} else if i == 11 {} else if i == 12 {} else if i == 13 {} else if i == 14 {}
    else if i == 15 {} else if i == 16 {} else if i == 17 {} else {}
  }

  /** Rows i and j differ in code (checked row by row). */
  lemma CodesDistinctAt(i: nat, j: nat)
    requires i < j < |INDEX_CODES|
    ensures INDEX_CODES[i].1 != INDEX_CODES[j].1
  {
    if i == 0 {} else if i == 1 {} else if i == 2 {} else if i == 3 {} else if i == 4 {}
    else if i == 5 {} else if i == 6 {} else if i == 7 {} else if i == 8 {} else if i == 9 {}
    else if i == 10 {} else if i == 11 {} else if i == 12 {} else if i == 13 {} else if i == 14 {}
    else if i == 15 {} else if i == 16 {} else if i == 17 {} else {}
  }

  /** On a well-formed table, different names never collapse onto one code
      and a fixed symbol stays fixed. */
  lemma FixWithLaws(table: seq<(string, string)>, s: string, t: string)
    requires WellFormedTable(table)
    ensures (s != t && (exists i :: 0 <= i < |table| && table[i].0 == s)
             && (exists i :: 0 <= i < |table| && table[i].0 == t)) ==> FixWith(table, s) != FixWith(table, t)
    ensures FixWith(table, FixWith(table, s)) == FixWith(table, s)
  {
    var r := FixWith(table, s);
    if exists k :: 0 <= k < |table| && table[k].0 == s {
      var k :| 0 <= k < |table| && table[k].0 == s;
      assert r == table[k].1;
      assert forall i :: 0 <= i < |table| ==> table[i].0[0] != r[0];
    }
  }

  /** Different index names never collapse onto one code. */
  lemma FixSymbolInjectiveOnIndices(s: string, t: string)
    requires (exists i :: 0 <= i < |INDEX_CODES| && INDEX_CODES[i].0 == s)
    requires (exists i :: 0 <= i < |INDEX_CODES| && INDEX_CODES[i].0 == t)
    requires s != t
    ensures FixSymbol(s) != FixSymbol(t)
  {
    IndexTableWellFormed();
    FixWithLaws(INDEX_CODES, s, t);
  }

  /** Fixing a fixed symbol changes nothing more. */
  lemma FixSymbolIdempotent(s: string)
    ensures FixSymbol(FixSymbol(s)) == FixSymbol(s)
  {
    IndexTableWellFormed();
    FixWithLaws(INDEX_CODES, s, s);
  }

  /** The unit of a period and the relativedelta it steps back by. */
  datatype PeriodUnit = Day | Week | Month | Year

  /** A period: n units back from now. */
  datatype Period = Period(n: nat, unit: PeriodUnit)

  /** \w on ASCII: letters, digits and the underscore. */
  predicate IsWordChar(c: char)
  {
    'a' <= c <= 'z' || 'A' <= c <= 'Z' || IsDigit(c) || c == '_'
  }

  function LowerChar(c: char): char
  {
    if 'A' <= c <= 'Z' then c - 'A' + 'a' else c
  }

  function UnitOf(c: char): (u: Option<PeriodUnit>)
    ensures u.Some? <==> LowerChar(c) in {'d', 'w', 'm', 'y'}
  {
    match LowerChar(c)
    case 'd' => Some(Day)
    case 'w' => Some(Week)
    case 'm' => Some(Month)
    case 'y' => Some(Year)
    case _ => None
  }

  /** The part of s the pattern ^P(\d+)(\w)$ must cover: $ also matches
      before one final newline. */
  function Core(s: string): string
  {
    if |s| > 0 && s[|s| - 1] == '\n' then s[..|s| - 1] else s
  }

  /** s matches ^P(\d+)(\w)$: a P, one or more digits, and one word
      character (the digit run gives back its last digit when that is the
      only word character left). */
  predicate MatchesPeriod(s: string)
  {
    var c := Core(s);
    |c| >= 3 && c[0] == 'P' && AllDigits(c[1..|c| - 1]) && IsWordChar(c[|c| - 1])
  }

  /** __create_date, without the clock: the period the string names, or
      None when it does not match the pattern or its unit is not d, w, m or
      y in either case. */
  function CreateDate(s: string): (r: Option<Period>)
    ensures r.Some? ==> MatchesPeriod(s)
    ensures r.Some? ==> r.value.n == DigitsValue(Core(s)[1..|Core(s)| - 1])
    ensures r.Some? <==> MatchesPeriod(s) && UnitOf(Core(s)[|Core(s)| - 1]).Some?
  {
    if !MatchesPeriod(s) then None
    else
      var c := Core(s);
      match UnitOf(c[|c| - 1])
      case None => None
      case Some(u) => Some(Period(DigitsValue(c[1..|c| - 1]), u))
  }

  function UnitChar(u: PeriodUnit): char
  {
    match u
    case Day => 'D'
    case Week => 'W'
    case Month => 'M'
    case Year => 'Y'
  }

  /** The period string a caller writes: P, the count, the unit letter. */
  function PeriodString(p: Period): (s: string)
  {
    "P" + NatToString(p.n) + [UnitChar(p.unit)]
  }

  /** Writing a period and parsing it back gives the period again. */
  lemma CreateDateRoundTrip(p: Period)
    ensures CreateDate(PeriodString(p)) == Some(p)
  {
    var s := PeriodString(p);
    var digits := NatToString(p.n);
    assert Core(s) == s;
    assert s[1..|s| - 1] == digits;
    NatToStringRoundTrip(p.n);
  }

  /** The unit letter may be written in either case. */
  lemma CreateDateCaseInsensitive(s: string, k: nat)
    requires |s| >= 3 && k == |s| - 1 && 'a' <= s[k] <= 'z'
    ensures CreateDate(s[k := s[k] - 'a' + 'A']) == CreateDate(s)
  {
    var t := s[k := s[k] - 'a' + 'A'];
    assert Core(t) == t && Core(s) == s;
    assert t[1..|t| - 1] == s[1..|s| - 1];
  }

  /** What get_series gives back: nothing, the raw reply, or the bars. */
  datatype Reply = NoReply | RawReply(data: Json) | BarsReply(bars: seq<Series>)

  /** get_series: an invalid period gives None before any request; the
      request goes out for the fixed symbol and the parsed period. */
  function GetSeries(symbol: string, period: string, asJson: bool,
                     fetch: (string, Period) -> Option<Json>): (r: Result<Reply>)
    ensures CreateDate(period).None? ==> r == Ok(NoReply)
    ensures CreateDate(period).Some? && fetch(FixSymbol(symbol), CreateDate(period).value).None? ==> r == Ok(NoReply)
    ensures r.Ok? && r.value.RawReply? ==> asJson && r.value.data == fetch(FixSymbol(symbol), CreateDate(period).value).value
    ensures r.Ok? && r.value.BarsReply? ==> !asJson
    ensures CreateDate(period).Some? && fetch(FixSymbol(symbol), CreateDate(period).value).Some? ==>
      var reply := fetch(FixSymbol(symbol), CreateDate(period).value).value;
      && (asJson ==> r == Ok(RawReply(reply)))
      && (!asJson ==> (r.Ok? <==> SeriesToObject(reply).Ok?)
                      && (r.Ok? ==> r.value == BarsReply(SeriesToObject(reply).value))
                      && (r.Err? ==> r.error == SeriesToObject(reply).error))
  {
    match CreateDate(period)
    case None => Ok(NoReply)
    case Some(p) =>
      match fetch(FixSymbol(symbol), p)
      case None => Ok(NoReply)
      case Some(data) =>
        if asJson then Ok(RawReply(data))
        else
          var bars :- SeriesToObject(data);
          Ok(BarsReply(bars))
  }

  /** quote[key][idx]. */
  function Column(quote: Json, key: string, idx: nat): (r: Result<Json>)
  {
    var values :- Index(quote, key);
    At(values, idx)
  }

  /** One daily bar: the quote's values at idx, dated by the timestamp
      (fromtimestamp needs a number). */
  function QuoteBar(quote: Json, idx: nat, time: Json): (r: Result<Series>)
    ensures r.Ok? ==> r.value.resolution == "P1D" && IsNumber(time) && r.value.date == NumberValue(time)
  {
    var priceOpen :- Column(quote, "open", idx);
    var priceHigh :- Column(quote, "high", idx);
    var priceLow :- Column(quote, "low", idx);
    var priceClose :- Column(quote, "close", idx);
    var volume :- Column(quote, "volume", idx);
    if !IsNumber(time) then Err(TypeError)
    else Ok(Series(priceOpen, priceHigh, priceLow, priceClose, volume, "P1D", NumberValue(time)))
  }

  /** The first chart result when the reply has a non-empty one. */
  function ChartResult(data: Json): (r: Result<Option<Json>>)
  {
    var hasChart :- Contains(data, "chart");
    if !hasChart then Ok(None)
    else
      var chart :- Index(data, "chart");
      var hasResult :- Contains(chart, "result");
      if !hasResult then Ok(None)
      else
        var results :- Index(chart, "result");
        if !Truthy(results) then Ok(None)
        else
          var first :- At(results, 0);
          Ok(Some(first))
  }

  /** The timestamps and the first quote of a chart result, when it has
      timestamps and a non-empty quote list under its indicators. */
  function QuoteSource(d: Json): (r: Result<Option<(Json, Json)>>)
  {
    var hasTimes :- Contains(d, "timestamp");
    if !hasTimes then Ok(None)
    else if !Contains(d, "indicators").value then Ok(None)
    else
      var indicators :- Index(d, "indicators");
      var hasQuote :- Contains(indicators, "quote");
      if !hasQuote then Ok(None)
      else
        var quotes :- Index(indicators, "quote");
        if !Truthy(quotes) then Ok(None)
        else
          var times :- Index(d, "timestamp");
          var quote :- At(quotes, 0);
          Ok(Some((times, quote)))
  }

  /** series_to_object: one daily bar per timestamp; no bars when the chart,
      its result, the timestamps or the quotes are missing. */
  function SeriesToObject(data: Json): (r: Result<seq<Series>>)
    ensures ChartResult(data) == Ok(None) ==> r == Ok([])
    ensures r.Ok? ==> forall i :: 0 <= i < |r.value| ==> r.value[i].resolution == "P1D"
  {
    var result :- ChartResult(data);
    if result.None? then Ok([])
    else
      var source :- QuoteSource(result.value);
      if source.None? then Ok([])
      else
        var (times, quote) := source.value;
        var ts :- Iter(times);
        BarsAreDaily(ts, quote);
        MapIndexed(ts, (idx: nat, time: Json) => QuoteBar(quote, idx, time))
  }

  /** Every bar the loop builds has the daily resolution. */
  lemma {:induction false} BarsAreDaily(ts: seq<Json>, quote: Json)
    ensures var r := MapIndexed(ts, (idx: nat, time: Json) => QuoteBar(quote, idx, time));
            r.Ok? ==> forall i :: 0 <= i < |r.value| ==> r.value[i].resolution == "P1D"
    decreases |ts|
  {
    if |ts| > 0 {
      var n := |ts| - 1;
      var f := (idx: nat, time: Json) => QuoteBar(quote, idx, time);
      BarsAreDaily(ts[..n], quote);
      var r := MapIndexed(ts, f);
      if r.Ok? {
        var init := MapIndexed(ts[..n], f);
        assert init.Ok? && f(n, ts[n]).Ok? && r.value == init.value + [f(n, ts[n]).value];
      }
    }
  }

  /** A reply without a chart, or whose chart has no (or an empty) result
      list, gives no bars. */
  lemma NoChartNoBars(data: Json)
    requires data.JDict?
    requires var chart := Field(data, "chart");
             chart.None?
             || (chart.value.JDict? && (Field(chart.value, "result").None? || Field(chart.value, "result") == Some(JList([]))))
    ensures SeriesToObject(data) == Ok([])
  {
  }

  /** A first result without timestamps, or without a non-empty quote list
      under its indicators, gives no bars. */
  lemma NoQuotesNoBars(data: Json, result: Json)
    requires ChartResult(data) == Ok(Some(result))
    requires result.JDict?
    requires Field(result, "timestamp").None? || Field(result, "indicators").None?
             || (Field(result, "indicators").value.JDict?
                 && (Field(Field(result, "indicators").value, "quote").None?
                     || Field(Field(result, "indicators").value, "quote") == Some(JList([]))))
    ensures SeriesToObject(data) == Ok([])
  {
  }

  /** The quote holds a list of at least n values under key. */
  predicate HasColumn(quote: Json, key: string, n: nat)
  {
    Field(quote, key).Some? && Field(quote, key).value.JList? && |Field(quote, key).value.items| >= n
  }

  /** The quote has open, high, low, close and volume lists of at least n
      values each. */
  predicate QuoteCovers(quote: Json, n: nat)
  {
    quote.JDict? && HasColumn(quote, "open", n) && HasColumn(quote, "high", n) && HasColumn(quote, "low", n)
    && HasColumn(quote, "close", n) && HasColumn(quote, "volume", n)
  }

  /** The bar the quote gives at position i, dated by time. */
  function QuoteRow(quote: Json, n: nat, i: nat, time: Json): Series
    requires QuoteCovers(quote, n) && i < n && IsNumber(time)
  {
    Series(Field(quote, "open").value.items[i], Field(quote, "high").value.items[i],
           Field(quote, "low").value.items[i], Field(quote, "close").value.items[i],
           Field(quote, "volume").value.items[i], "P1D", NumberValue(time))
  }

  lemma ColumnAt(quote: Json, key: string, n: nat, i: nat)
    requires quote.JDict? && HasColumn(quote, key, n) && i < n
    ensures Column(quote, key, i) == Ok(Field(quote, key).value.items[i])
  {
  }

  /** A covering quote gives, at each position, the values stored there. */
  lemma QuoteBarAt(quote: Json, n: nat, i: nat, time: Json)
    requires QuoteCovers(quote, n) && i < n && IsNumber(time)
    ensures QuoteBar(quote, i, time) == Ok(QuoteRow(quote, n, i, time))
  {
    ColumnAt(quote, "open", n, i);
    ColumnAt(quote, "high", n, i);
    ColumnAt(quote, "low", n, i);
    ColumnAt(quote, "close", n, i);
    ColumnAt(quote, "volume", n, i);
  }

  /** The chart result holds a dict of indicators whose quote list is
      non-empty and starts with quote. */
  predicate FirstQuote(result: Json, quote: Json)
  {
    result.JDict? && Field(result, "indicators").Some?
    && var indicators := Field(result, "indicators").value;
    indicators.JDict? && Field(indicators, "quote").Some?
    && var quotes := Field(indicators, "quote").value;
    quotes.JList? && |quotes.items| > 0 && quotes.items[0] == quote
  }

  /** A chart result with timestamps and a non-empty quote list yields them
      as the loop's source. */
  lemma QuoteSourceOf(result: Json, times: Json, quote: Json)
    requires Field(result, "timestamp") == Some(times)
    requires FirstQuote(result, quote)
    ensures QuoteSource(result) == Ok(Some((times, quote)))
  {
  }

  /** On a reply whose first result has timestamps and a non-empty quote
      list, the conversion is the loop over the timestamps. */
  lemma SeriesToObjectLoop(data: Json, result: Json, times: seq<Json>, quote: Json)
    requires ChartResult(data) == Ok(Some(result))
    requires Field(result, "timestamp") == Some(JList(times))
    requires FirstQuote(result, quote)
    ensures SeriesToObject(data) == MapIndexed(times, (idx: nat, time: Json) => QuoteBar(quote, idx, time))
  {
    QuoteSourceOf(result, JList(times), quote);
  }

  /** A well-formed reply gives one daily bar per timestamp, each carrying
      the quote values at its own position and dated by its timestamp. */
  lemma OneBarPerTimestamp(data: Json, result: Json, times: seq<Json>, quote: Json)
    requires ChartResult(data) == Ok(Some(result))
    requires Field(result, "timestamp") == Some(JList(times))
    requires FirstQuote(result, quote)
    requires QuoteCovers(quote, |times|) && forall i :: 0 <= i < |times| ==> IsNumber(times[i])
    ensures var r := SeriesToObject(data);
            r.Ok? && |r.value| == |times|
            && forall i :: 0 <= i < |times| ==> r.value[i] == QuoteRow(quote, |times|, i, times[i])
  {
    var f := (idx: nat, time: Json) => QuoteBar(quote, idx, time);
    forall i | 0 <= i < |times|
      ensures f(i, times[i]) == Ok(QuoteRow(quote, |times|, i, times[i]))
    {
      QuoteBarAt(quote, |times|, i, times[i]);
    }
    MapIndexedAll(times, f);
    SeriesToObjectLoop(data, result, times, quote);
  }
}
