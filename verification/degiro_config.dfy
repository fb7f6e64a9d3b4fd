/** Lookups in the broker's configuration document: the ids of exchanges,
    countries and indices by their symbols.

    Each lookup takes the first element of a filtered list inside a try
    block that turns KeyError into None (JNull here); an empty list raises
    IndexError, which is not caught. */
module DegiroConfig {
  import opened Wrappers
  import opened PyJson
  import opened Gather

  /** The try block: KeyError becomes None, any other error escapes. */
  function CatchKeyError(r: Result<Json>): (c: Result<Json>)
    ensures r.Ok? ==> c == r
    ensures r.Err? ==> (c.Ok? <==> r.error == KeyError)
    ensures c.Ok? && r.Err? ==> c.value == JNull
    ensures c.Err? ==> c == r
  {
    if r == Err(KeyError) then Ok(JNull) else r
  }

  /** `[...][0]`: the first element, IndexError on an empty list. */
  function First(xs: seq<Json>): (r: Result<Json>)
    ensures r.Ok? <==> |xs| > 0
    ensures r.Ok? ==> r.value == xs[0]
    ensures r.Err? ==> r.error == IndexError
  {
    if |xs| == 0 then Err(IndexError) else Ok(xs[0])
  }

  /** The filter `'id' in x and key in x and x[key] == sym` with x['id'] as
      the element. */
  function IdWhere(x: Json, key: string, sym: Json): (r: Result<Option<Json>>)
  {
    var hasId :- Contains(x, "id");
    if !hasId then Ok(None)
    else
      if !Contains(x, key).value then Ok(None)
      else
        var v :- Index(x, key);
        if !PyEq(v, sym) then Ok(None)
        else Ok(Some(Lookup(x.entries, "id").value))
  }

  /** The dict x has an id and a value under key equal to sym. */
  predicate Matches(x: Json, key: string, sym: Json)
  {
    x.JDict? && Lookup(x.entries, "id").Some? && Lookup(x.entries, key).Some?
    && PyEq(Lookup(x.entries, key).value, sym)
  }

  lemma IdWhereDict(x: Json, key: string, sym: Json)
    requires x.JDict?
    ensures Matches(x, key, sym) ==> IdWhere(x, key, sym) == Ok(Some(Lookup(x.entries, "id").value))
    ensures !Matches(x, key, sym) ==> IdWhere(x, key, sym) == Ok(None)
  {
  }

  function LookupIdRaw(config: Json, listKey: string, key: string, sym: Json): Result<Json>
  {
    var list :- Index(config, listKey);
    var xs :- Iter(list);
    var ids :- Collect(xs, x => IdWhere(x, key, sym));
    First(ids)
  }

  /** The id of the first entry of config[listKey] whose key matches sym. */
  function LookupId(config: Json, listKey: string, key: string, sym: Json): (r: Result<Json>)
    ensures config.JDict? && Lookup(config.entries, listKey).None? ==> r == Ok(JNull)
  {
    CatchKeyError(LookupIdRaw(config, listKey, key, sym))
  }

  /** The configured list under listKey is a list of dicts. */
  predicate DictList(config: Json, listKey: string)
  {
    config.JDict? && Lookup(config.entries, listKey).Some?
    && Lookup(config.entries, listKey).value.JList?
    && forall i :: 0 <= i < |Lookup(config.entries, listKey).value.items| ==>
         Lookup(config.entries, listKey).value.items[i].JDict?
  }

  function Items(config: Json, listKey: string): seq<Json>
    requires DictList(config, listKey)
  {
    Lookup(config.entries, listKey).value.items
  }

  lemma IdWhereItems(config: Json, listKey: string, key: string, sym: Json)
    requires DictList(config, listKey)
    ensures var items := Items(config, listKey);
            Collect(items, x => IdWhere(x, key, sym)).Ok?
            && LookupIdRaw(config, listKey, key, sym) == First(Collect(items, x => IdWhere(x, key, sym)).value)
    ensures var items := Items(config, listKey);
            forall i :: 0 <= i < |items| ==>
              IdWhere(items[i], key, sym) == if Matches(items[i], key, sym) then Ok(Some(Lookup(items[i].entries, "id").value)) else Ok(None)
  {
    var items := Items(config, listKey);
    forall i | 0 <= i < |items|
      ensures IdWhere(items[i], key, sym) == if Matches(items[i], key, sym) then Ok(Some(Lookup(items[i].entries, "id").value)) else Ok(None)
    {
      IdWhereDict(items[i], key, sym);
    }
    CollectOk(items, x => IdWhere(x, key, sym));
  }

  /** On a list of dicts none of which matches, the lookup raises
      IndexError. */
  lemma LookupIdNoMatch(config: Json, listKey: string, key: string, sym: Json)
    requires DictList(config, listKey)
    requires forall i :: 0 <= i < |Items(config, listKey)| ==> !Matches(Items(config, listKey)[i], key, sym)
    ensures LookupId(config, listKey, key, sym) == Err(IndexError)
  {
    IdWhereItems(config, listKey, key, sym);
    CollectNone(Items(config, listKey), x => IdWhere(x, key, sym));
  }

  /** On a list of dicts, the lookup gives the id of the first matching
      entry. */
  lemma LookupIdFirstMatch(config: Json, listKey: string, key: string, sym: Json, i: nat)
    requires DictList(config, listKey)
    requires i < |Items(config, listKey)| && Matches(Items(config, listKey)[i], key, sym)
    requires forall k :: 0 <= k < i ==> !Matches(Items(config, listKey)[k], key, sym)
    ensures LookupId(config, listKey, key, sym) == Ok(Lookup(Items(config, listKey)[i].entries, "id").value)
  {
    IdWhereItems(config, listKey, key, sym);
    CollectFirst(Items(config, listKey), x => IdWhere(x, key, sym), i);
  }

  /** get_exchange_id: the id of the first exchange with that micCode. */
  function GetExchangeId(config: Json, exchangeSym: string): (r: Result<Json>)
    ensures config.JDict? && Lookup(config.entries, "exchanges").None? ==> r == Ok(JNull)
  {
    LookupId(config, "exchanges", "micCode", JStr(exchangeSym))
  }

  /** get_country_id: the id of the first country with that name. */
  function GetCountryId(config: Json, countrySym: string): (r: Result<Json>)
    ensures config.JDict? && Lookup(config.entries, "countries").None? ==> r == Ok(JNull)
  {
    LookupId(config, "countries", "name", JStr(countrySym))
  }

  /** The element of the index-symbol lookup: a matching index's productId
      when it has one and products are not ignored, else its id (KeyError
      when it has none). */
  function IndexIdWhere(x: Json, sym: string, ignoreProduct: bool): (r: Result<Option<Json>>)
  {
    var hasName :- Contains(x, "name");
    if !hasName then Ok(None)
    else
      var v :- Index(x, "name");
      if !PyEq(v, JStr(sym)) then Ok(None)
      else if Lookup(x.entries, "productId").Some? && !ignoreProduct then Ok(Some(Lookup(x.entries, "productId").value))
      else if Lookup(x.entries, "id").None? then Err(KeyError)
      else Ok(Some(Lookup(x.entries, "id").value))
  }

  /** get_id_of_index_symbol. */
  function GetIdOfIndexSymbol(config: Json, indexSym: string, ignoreProduct: bool): (r: Result<Json>)
    ensures config.JDict? && Lookup(config.entries, "indices").None? ==> r == Ok(JNull)
  {
    CatchKeyError(
      var indices :- Index(config, "indices");
      var xs :- Iter(indices);
      var ids :- Collect(xs, x => IndexIdWhere(x, indexSym, ignoreProduct));
      First(ids))
  }

  /** The index's name is sym. */
  predicate NameIs(x: Json, sym: string)
  {
    x.JDict? && Lookup(x.entries, "name").Some? && PyEq(Lookup(x.entries, "name").value, JStr(sym))
  }

  /** The id the lookup gives for a matching index. */
  function ChosenId(x: Json, ignoreProduct: bool): Json
    requires x.JDict? && Lookup(x.entries, "id").Some?
  {
    if Lookup(x.entries, "productId").Some? && !ignoreProduct then Lookup(x.entries, "productId").value
    else Lookup(x.entries, "id").value
  }

  lemma IndexIdWhereDict(x: Json, sym: string, ignoreProduct: bool)
    requires x.JDict? && Lookup(x.entries, "id").Some?
    ensures IndexIdWhere(x, sym, ignoreProduct) == if NameIs(x, sym) then Ok(Some(ChosenId(x, ignoreProduct))) else Ok(None)
  {
  }

  /** The configured indices are dicts that all have an id. */
  predicate IndicesWithIds(config: Json)
  {
    DictList(config, "indices")
    && forall i :: 0 <= i < |Items(config, "indices")| ==> Lookup(Items(config, "indices")[i].entries, "id").Some?
  }

  lemma IndexIdItems(config: Json, sym: string, ignoreProduct: bool)
    requires IndicesWithIds(config)
    ensures var items := Items(config, "indices");
            Collect(items, x => IndexIdWhere(x, sym, ignoreProduct)).Ok?
            && GetIdOfIndexSymbol(config, sym, ignoreProduct)
               == CatchKeyError(First(Collect(items, x => IndexIdWhere(x, sym, ignoreProduct)).value))
    ensures var items := Items(config, "indices");
            forall i :: 0 <= i < |items| ==>
              IndexIdWhere(items[i], sym, ignoreProduct)
              == if NameIs(items[i], sym) then Ok(Some(ChosenId(items[i], ignoreProduct))) else Ok(None)
  {
    var items := Items(config, "indices");
    forall i | 0 <= i < |items|
      ensures IndexIdWhere(items[i], sym, ignoreProduct)
              == if NameIs(items[i], sym) then Ok(Some(ChosenId(items[i], ignoreProduct))) else Ok(None)
    {
      IndexIdWhereDict(items[i], sym, ignoreProduct);
    }
    CollectOk(items, x => IndexIdWhere(x, sym, ignoreProduct));
  }

  /** No configured index named sym: IndexError. */
  lemma IndexIdNoMatch(config: Json, sym: string, ignoreProduct: bool)
    requires IndicesWithIds(config)
    requires forall i :: 0 <= i < |Items(config, "indices")| ==> !NameIs(Items(config, "indices")[i], sym)
    ensures GetIdOfIndexSymbol(config, sym, ignoreProduct) == Err(IndexError)
  {
    IndexIdItems(config, sym, ignoreProduct);
    CollectNone(Items(config, "indices"), x => IndexIdWhere(x, sym, ignoreProduct));
  }

  /** The first configured index named sym gives its productId when it has
      one and products are not ignored, otherwise its id. */
  lemma IndexIdFirstMatch(config: Json, sym: string, ignoreProduct: bool, i: nat)
    requires IndicesWithIds(config)
    requires i < |Items(config, "indices")| && NameIs(Items(config, "indices")[i], sym)
    requires forall k :: 0 <= k < i ==> !NameIs(Items(config, "indices")[k], sym)
    ensures GetIdOfIndexSymbol(config, sym, ignoreProduct) == Ok(ChosenId(Items(config, "indices")[i], ignoreProduct))
  {
    IndexIdItems(config, sym, ignoreProduct);
    CollectFirst(Items(config, "indices"), x => IndexIdWhere(x, sym, ignoreProduct), i);
  }

  /** The inner loop's test for one configured index y against index:
      y['id'] == index and 'productId' in y, giving y['productId']. */
  function ProductOf(index: Json, y: Json): (r: Result<Option<Json>>)
  {
    match y
    case JDict(entries) =>
      (match Lookup(entries, "id")
       case None => Err(KeyError)
       case Some(idv) =>
         if PyEq(idv, index) && Lookup(entries, "productId").Some? then Ok(Some(Lookup(entries, "productId").value))
         else Ok(None))
    case _ => Err(TypeError)
  }

  /** The productIds of the configured indices whose id is index. */
  function ProductIdsOf(config: Json, index: Json): (r: Result<seq<Json>>)
  {
    var all :- Index(config, "indices");
    var ys :- Iter(all);
    Collect(ys, y => ProductOf(index, y))
  }

  /** The filter `'id' in x and x['id'] == countryId`. */
  function CountryWhere(x: Json, countryId: Json): (r: Result<Option<Json>>)
  {
    var hasId :- Contains(x, "id");
    if !hasId then Ok(None)
    else
      var v :- Index(x, "id");
      Ok(if PyEq(v, countryId) then Some(x) else None)
  }

  /** The index list of the first stock country with the country's id. */
  function CountryIndexList(config: Json, countrySym: string): (r: Result<seq<Json>>)
  {
    var countryId :- GetCountryId(config, countrySym);
    var stockCountries :- Index(config, "stockCountries");
    var xs :- Iter(stockCountries);
    var matching :- Collect(xs, x => CountryWhere(x, countryId));
    var country :- First(matching);
    var indices :- Index(country, "indices");
    Iter(indices)
  }

  function CountryProductIds(config: Json, countrySym: string): Result<Json>
  {
    var ixs :- CountryIndexList(config, countrySym);
    var ids :- FlatCollect(ixs, index => ProductIdsOf(config, index));
    Ok(JList(ids))
  }

  /** get_country_id_indices: the productIds of the indices listed for the
      country, in order. */
  function GetCountryIdIndices(config: Json, countrySym: string): (r: Result<Json>)
    ensures r.Ok? ==> r.value.JNull? || r.value.JList?
  {
    CatchKeyError(CountryProductIds(config, countrySym))
  }

  /** The configured index at position i has productId v. */
  predicate ProductAt(config: Json, i: int, v: Json)
    requires DictList(config, "indices")
  {
    0 <= i < |Items(config, "indices")| && Lookup(Items(config, "indices")[i].entries, "productId") == Some(v)
  }

  /** What the inner loop collects for one index are productIds of
      configured indices. */
  lemma ProductIdsAreProducts(config: Json, index: Json, v: Json)
    requires DictList(config, "indices")
    requires ProductIdsOf(config, index).Ok? && v in ProductIdsOf(config, index).value
    ensures exists i :: ProductAt(config, i, v)
  {
    var items := Items(config, "indices");
    var f := y => ProductOf(index, y);
    CollectMembers(items, f, v);
    var i :| 0 <= i < |items| && f(items[i]) == Ok(Some(v));
    assert ProductAt(config, i, v);
  }

  /** Every id the country lookup returns is the productId of a configured
      index: indices without a productId contribute nothing. */
  lemma CountryIndicesAreProducts(config: Json, countrySym: string, v: Json)
    requires DictList(config, "indices")
    requires var r := GetCountryIdIndices(config, countrySym);
             r.Ok? && r.value.JList? && v in r.value.items
    ensures exists i :: ProductAt(config, i, v)
  {
    var raw := CountryProductIds(config, countrySym);
    assert raw.Ok?;
    var ixs := CountryIndexList(config, countrySym).value;
    var g := index => ProductIdsOf(config, index);
    assert raw.value.items == FlatCollect(ixs, g).value;
    FlatCollectMembers(ixs, g, v);
    var k :| 0 <= k < |ixs| && v in g(ixs[k]).value;
    ProductIdsAreProducts(config, ixs[k], v);
  }

  /** The element test of get_country_sym_indices:
      `x['id'] in ids or 'productId' in x and x['productId'] in ids`,
      giving x['name']. */
  function SymWhere(x: Json, ids: Json): (r: Result<Option<Json>>)
  {
    var idv :- Index(x, "id");
    var byId :- PyIn(idv, ids);
    var byProduct :-
      if byId || Lookup(x.entries, "productId").None? then Ok(false)
      else PyIn(Lookup(x.entries, "productId").value, ids);
    if !(byId || byProduct) then Ok(None)
    else
      var name :- Index(x, "name");
      Ok(Some(name))
  }

  /** SymWhere as the test of a comprehension over the indices. */
  function SymTest(ids: Json): Json -> Result<Option<Json>>
  {
    x => SymWhere(x, ids)
  }

  /** get_country_sym_indices: the names of the configured indices whose id
      or productId is among the country's index ids. With no ids (None), a
      configured index raises TypeError. */
  function GetCountrySymIndices(config: Json, countrySym: string): (r: Result<Json>)
    ensures r.Ok? ==> r.value.JNull? || r.value.JList?
    ensures config.JDict? && Lookup(config.entries, "indices").None? && GetCountryIdIndices(config, countrySym).Ok?
            ==> r == Ok(JNull)
  {
    CatchKeyError(
      var ids :- GetCountryIdIndices(config, countrySym);
      var indices :- Index(config, "indices");
      var xs :- Iter(indices);
      var names :- Collect(xs, SymTest(ids));
      Ok(JList(names)))
  }

  /** A configured index in the expected shape: a dict with an id and a name. */
  predicate NamedIndex(x: Json)
  {
    x.JDict? && Lookup(x.entries, "id").Some? && Lookup(x.entries, "name").Some?
  }

  /** The index's id, or its productId when it has one, equals one of the ids. */
  predicate IndexListed(x: Json, ids: seq<Json>)
  {
    x.JDict? &&
    ((Lookup(x.entries, "id").Some? && exists i :: 0 <= i < |ids| && PyEq(Lookup(x.entries, "id").value, ids[i]))
     || (Lookup(x.entries, "productId").Some?
         && exists i :: 0 <= i < |ids| && PyEq(Lookup(x.entries, "productId").value, ids[i])))
  }

  /** For dict indices with ids and names and a list of ids: an index's name
      is taken exactly when its id, or its productId, equals one of the ids. */
  lemma SymWhereDict(x: Json, ids: seq<Json>)
    requires NamedIndex(x)
    ensures SymWhere(x, JList(ids)) == Ok(if IndexListed(x, ids) then Some(Lookup(x.entries, "name").value) else None)
  {
    var idv := Lookup(x.entries, "id").value;
    assert Index(x, "id") == Ok(idv);
    assert Index(x, "name") == Ok(Lookup(x.entries, "name").value);
    assert PyIn(idv, JList(ids)) == Ok(exists i :: 0 <= i < |ids| && PyEq(idv, ids[i]));
  }

  /** Some index in xs is listed among the ids and carries the name. */
  predicate NameListed(xs: seq<Json>, ids: seq<Json>, name: Json)
  {
    exists i :: 0 <= i < |xs| && IndexListed(xs[i], ids) && Lookup(xs[i].entries, "name") == Some(name)
  }

  /** With a list of well-shaped indices and a list of country index ids,
      get_country_sym_indices returns a list holding a name exactly when
      some listed index carries it. */
  lemma SymIndicesNames(config: Json, countrySym: string, xs: seq<Json>, ids: seq<Json>, name: Json)
    requires config.JDict? && Lookup(config.entries, "indices") == Some(JList(xs))
    requires forall i :: 0 <= i < |xs| ==> NamedIndex(xs[i])
    requires GetCountryIdIndices(config, countrySym) == Ok(JList(ids))
    ensures GetCountrySymIndices(config, countrySym).Ok?
    ensures GetCountrySymIndices(config, countrySym).value.JList?
    ensures name in GetCountrySymIndices(config, countrySym).value.items <==> NameListed(xs, ids, name)
  {
    SymNames(xs, ids, name);
    SymIndicesCollect(config, countrySym, xs, ids);
    var c := Collect(xs, SymTest(JList(ids))).value;
    assert GetCountrySymIndices(config, countrySym) == Ok(JList(c));
    assert name in c <==> NameListed(xs, ids, name);
  }

  /** The comprehension over well-shaped indices completes and holds the
      names of the listed ones. */
  lemma SymNames(xs: seq<Json>, ids: seq<Json>, name: Json)
    requires forall i :: 0 <= i < |xs| ==> NamedIndex(xs[i])
    ensures Collect(xs, SymTest(JList(ids))).Ok?
    ensures name in Collect(xs, SymTest(JList(ids))).value <==> NameListed(xs, ids, name)
  {
    var f := SymTest(JList(ids));
    forall i | 0 <= i < |xs|
      ensures f(xs[i]).Ok?
      ensures f(xs[i]) == Ok(Some(name)) <==> IndexListed(xs[i], ids) && Lookup(xs[i].entries, "name") == Some(name)
    {
      SymWhereDict(xs[i], ids);
    }
    CollectOk(xs, f);
    CollectMembers(xs, f, name);
  }

  lemma SymIndicesCollect(config: Json, countrySym: string, xs: seq<Json>, ids: seq<Json>)
    requires config.JDict? && Lookup(config.entries, "indices") == Some(JList(xs))
    requires GetCountryIdIndices(config, countrySym) == Ok(JList(ids))
    requires Collect(xs, SymTest(JList(ids))).Ok?
    ensures GetCountrySymIndices(config, countrySym) == Ok(JList(Collect(xs, SymTest(JList(ids))).value))
  {
    assert Index(config, "indices") == Ok(JList(xs));
  }
}
