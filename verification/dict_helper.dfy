/** The search through decoded JSON that the broker clients use to pick
    values out of nested responses: every value stored under a key, at any
    depth, optionally only from dicts that hold given key/value pairs.

    The generator is modelled as the sequence of what it yields. */
module DictHelper {
  import opened Wrappers
  import opened PyJson

  /** A condition (k, s): the dict holds the string s under k. */
  type Condition = (string, string)

  /** __is_result: every condition's key is in the dict and its value equals
      the condition's value. No conditions always hold. */
  predicate IsResult(conditions: seq<Condition>, entries: seq<(string, Json)>)
  {
    forall c :: 0 <= c < |conditions| ==>
      Lookup(entries, conditions[c].0) == Some(JStr(conditions[c].1))
  }

  /** find_key: a dict is searched entry by entry, a list item by item, and
      anything else yields nothing. */
  function FindKey(key: string, j: Json, conditions: seq<Condition>): seq<Json>
    decreases j, 1, 0
  {
    match j
    case JDict(_) => InEntries(key, j, conditions, 0)
    case JList(_) => InItems(key, j, conditions, 0)
    case _ => []
  }

  /** What the entries of dict d from position i on yield. */
  function InEntries(key: string, d: Json, conditions: seq<Condition>, i: nat): seq<Json>
    requires d.JDict? && i <= |d.entries|
    decreases d, 0, |d.entries| - i + 1
  {
    if i == |d.entries| then []
    else EntryResults(key, d, conditions, i) + InEntries(key, d, conditions, i + 1)
  }

  /** What the i-th entry (k, v) of dict d yields: v itself when k is the key
      and d meets the conditions; otherwise, when v is a dict, what the search
      of v yields provided v meets the conditions; when v is a list, what the
      search of its items yields; else nothing. */
  function EntryResults(key: string, d: Json, conditions: seq<Condition>, i: nat): seq<Json>
    requires d.JDict? && i < |d.entries|
    decreases d, 0, 0
  {
    assert d.entries[i] in d.entries;
    var (k, v) := d.entries[i];
    if k == key && IsResult(conditions, d.entries) then [v]
    else if v.JDict? then
      if IsResult(conditions, v.entries) then FindKey(key, v, conditions) else []
    else if v.JList? then InItems(key, v, conditions, 0)
    else []
  }

  /** What the items of list l from position i on yield. */
  function InItems(key: string, l: Json, conditions: seq<Condition>, i: nat): seq<Json>
    requires l.JList? && i <= |l.items|
    decreases l, 0, |l.items| - i
  {
    if i == |l.items| then []
    else
      assert l.items[i] in l.items;
      FindKey(key, l.items[i], conditions) + InItems(key, l, conditions, i + 1)
  }

  /** One step into a value: the position of a dict entry or of a list item. */
  datatype Step = Entry(index: nat) | Item(index: nat)

  /** v is reached from j along path p, whose last step is an entry whose
      key is key in a dict meeting the conditions. No earlier entry on the
      path is such a match, and every dict entered straight from a dict
      entry meets the conditions. */
  predicate Hit(key: string, conditions: seq<Condition>, j: Json, p: seq<Step>, v: Json)
    decreases |p|
  {
    |p| > 0 &&
    match p[0]
    case Entry(i) =>
      j.JDict? && i < |j.entries| &&
      var k, c := j.entries[i].0, j.entries[i].1;
      var matched := k == key && IsResult(conditions, j.entries);
      if |p| == 1 then matched && c == v
      else !matched && (c.JDict? ==> IsResult(conditions, c.entries)) && Hit(key, conditions, c, p[1..], v)
    case Item(i) =>
      j.JList? && i < |j.items| && Hit(key, conditions, j.items[i], p[1..], v)
  }

  /** Every value the search yields is reached along a hit path. */
  lemma {:induction false} FindKeySound(key: string, j: Json, conditions: seq<Condition>, v: Json)
    requires v in FindKey(key, j, conditions)
    ensures exists p :: Hit(key, conditions, j, p, v)
    decreases j, 1, 0
  {
    match j
    case JDict(_) => InEntriesSound(key, j, conditions, 0, v);
    case JList(_) => InItemsSound(key, j, conditions, 0, v);
  }

  lemma {:induction false} InEntriesSound(key: string, d: Json, conditions: seq<Condition>, i: nat, v: Json)
    requires d.JDict? && i <= |d.entries|
    requires v in InEntries(key, d, conditions, i)
    ensures exists p :: Hit(key, conditions, d, p, v)
    decreases d, 0, |d.entries| - i + 1
  {
    if v in EntryResults(key, d, conditions, i) {
      EntrySound(key, d, conditions, i, v);
    } else {
      InEntriesSound(key, d, conditions, i + 1, v);
    }
  }

  lemma {:induction false} EntrySound(key: string, d: Json, conditions: seq<Condition>, i: nat, v: Json)
    requires d.JDict? && i < |d.entries|
    requires v in EntryResults(key, d, conditions, i)
    ensures exists p :: Hit(key, conditions, d, p, v)
    decreases d, 0, 0
  {
    assert d.entries[i] in d.entries;
    var k, c := d.entries[i].0, d.entries[i].1;
    if k == key && IsResult(conditions, d.entries) {
      assert Hit(key, conditions, d, [Entry(i)], v);
    } else {
      if c.JDict? {
        FindKeySound(key, c, conditions, v);
      } else {
        InItemsSound(key, c, conditions, 0, v);
      }
      var q :| Hit(key, conditions, c, q, v);
      var p := [Entry(i)] + q;
      assert p[1..] == q;
      assert Hit(key, conditions, d, p, v);
    }
  }

  lemma {:induction false} InItemsSound(key: string, l: Json, conditions: seq<Condition>, i: nat, v: Json)
    requires l.JList? && i <= |l.items|
    requires v in InItems(key, l, conditions, i)
    ensures exists p :: Hit(key, conditions, l, p, v)
    decreases l, 0, |l.items| - i
  {
    assert l.items[i] in l.items;
    if v in FindKey(key, l.items[i], conditions) {
      FindKeySound(key, l.items[i], conditions, v);
      var q :| Hit(key, conditions, l.items[i], q, v);
      var p := [Item(i)] + q;
      assert p[1..] == q;
      assert Hit(key, conditions, l, p, v);
    } else {
      InItemsSound(key, l, conditions, i + 1, v);
    }
  }

  /** What one entry yields is part of what the entries from any earlier
      position yield. */
  lemma {:induction false} InEntriesHasEntry(key: string, d: Json, conditions: seq<Condition>, i0: nat, i: nat, v: Json)
    requires d.JDict? && i0 <= i < |d.entries|
    requires v in EntryResults(key, d, conditions, i)
    ensures v in InEntries(key, d, conditions, i0)
    decreases i - i0
  {
    if i0 < i {
      InEntriesHasEntry(key, d, conditions, i0 + 1, i, v);
    }
  }

  /** What one item yields is part of what the items from any earlier
      position yield. */
  lemma {:induction false} InItemsHasItem(key: string, l: Json, conditions: seq<Condition>, i0: nat, i: nat, v: Json)
    requires l.JList? && i0 <= i < |l.items|
    requires v in FindKey(key, l.items[i], conditions)
    ensures v in InItems(key, l, conditions, i0)
    decreases i - i0
  {
    if i0 < i {
      InItemsHasItem(key, l, conditions, i0 + 1, i, v);
    }
  }

  /** Every value reached along a hit path is yielded. */
  lemma {:induction false} FindKeyComplete(key: string, j: Json, conditions: seq<Condition>, p: seq<Step>, v: Json)
    requires Hit(key, conditions, j, p, v)
    ensures v in FindKey(key, j, conditions)
    decreases |p|
  {
    match p[0]
    case Entry(i) =>
      var c := j.entries[i].1;
      if |p| > 1 {
        FindKeyComplete(key, c, conditions, p[1..], v);
      }
      assert v in EntryResults(key, j, conditions, i);
      InEntriesHasEntry(key, j, conditions, 0, i, v);
    case Item(i) =>
      FindKeyComplete(key, j.items[i], conditions, p[1..], v);
      InItemsHasItem(key, j, conditions, 0, i, v);
  }

  /** find_key yields exactly the values reached along hit paths. */
  lemma FindKeyExact(key: string, j: Json, conditions: seq<Condition>, v: Json)
    ensures v in FindKey(key, j, conditions) <==> exists p :: Hit(key, conditions, j, p, v)
  {
    if v in FindKey(key, j, conditions) {
      FindKeySound(key, j, conditions, v);
    }
    if exists p :: Hit(key, conditions, j, p, v) {
      var p :| Hit(key, conditions, j, p, v);
      FindKeyComplete(key, j, conditions, p, v);
    }
  }

  /** A key stored directly in the searched dict is always found when there
      are no conditions. */
  lemma TopLevelFound(key: string, entries: seq<(string, Json)>, i: nat)
    requires i < |entries| && entries[i].0 == key
    ensures entries[i].1 in FindKey(key, JDict(entries), [])
  {
    assert Hit(key, [], JDict(entries), [Entry(i)], entries[i].1);
    FindKeyComplete(key, JDict(entries), [], [Entry(i)], entries[i].1);
  }

  /** A value that is neither a dict nor a list yields nothing. */
  lemma ScalarYieldsNothing(key: string, j: Json, conditions: seq<Condition>)
    requires !j.JDict? && !j.JList?
    ensures FindKey(key, j, conditions) == []
    ensures forall p, v :: !Hit(key, conditions, j, p, v)
  {
  }

  /** Nothing is yielded exactly when no hit path exists. */
  lemma NothingFoundNoHit(key: string, j: Json, conditions: seq<Condition>)
    ensures FindKey(key, j, conditions) == [] <==> forall p, v :: !Hit(key, conditions, j, p, v)
  {
    var found := FindKey(key, j, conditions);
    if found != [] {
      FindKeySound(key, j, conditions, found[0]);
    }
    forall p, v | Hit(key, conditions, j, p, v)
      ensures v in found
    {
      FindKeyComplete(key, j, conditions, p, v);
    }
  }

  /** find_first_key: the first value found without conditions, or None when
      there is none. A stored None and a miss are both None. */
  function FindFirstKey(key: string, j: Json): (r: Json)
    ensures (forall p, v :: !Hit(key, [], j, p, v)) ==> r == JNull
    ensures r != JNull ==> exists p :: Hit(key, [], j, p, r)
    ensures FindKey(key, j, []) == [] ==> r == JNull
    ensures FindKey(key, j, []) != [] ==> r == FindKey(key, j, [])[0]
  {
    var found := FindKey(key, j, []);
    NothingFoundNoHit(key, j, []);
    if |found| > 0 then
      FindKeySound(key, j, [], found[0]);
      found[0]
    else JNull
  }
}
