/** Decoded JSON values and the Python operations the modelled code applies
    to them: subscripting, the `in` test, truthiness and float().

    A JSON object is an association list in insertion order, which is the
    order Python's dict iterates in. Its keys are strings.
 */
module PyJson {
  import opened Wrappers

  datatype Json =
    | JNull
    | JBool(b: bool)
    | JInt(i: int)
    | JFloat(r: real)
    | JStr(s: string)
    | JList(items: seq<Json>)
    | JDict(entries: seq<(string, Json)>)

  /** Python truthiness: None, False, zero, and empty strings, lists and dicts
      are false. */
  predicate Truthy(j: Json)
  {
    match j
    case JNull => false
    case JBool(b) => b
    case JInt(i) => i != 0
    case JFloat(r) => r != 0.0
    case JStr(s) => s != ""
    case JList(items) => items != []
    case JDict(entries) => entries != []
  }

  /** The value stored under key, the first entry with that key. */
  function Lookup(entries: seq<(string, Json)>, key: string): (r: Option<Json>)
    ensures r.None? <==> forall i :: 0 <= i < |entries| ==> entries[i].0 != key
    ensures r.Some? ==> exists i :: (0 <= i < |entries| && entries[i] == (key, r.value)
                                     && forall j :: 0 <= j < i ==> entries[j].0 != key)
    decreases |entries|
  {
    if |entries| == 0 then None
    else if entries[0].0 == key then Some(entries[0].1)
    else
      var r := Lookup(entries[1..], key);
      assert forall i :: 0 <= i < |entries| - 1 ==> entries[1..][i] == entries[i + 1];
      if r.Some? then
        var i :| 0 <= i < |entries| - 1 && entries[1..][i] == (key, r.value)
                 && forall j :: 0 <= j < i ==> entries[1..][j].0 != key;
        assert forall j :: 1 <= j <= i ==> entries[j] == entries[1..][j - 1];
        assert entries[i + 1] == (key, r.value);
        r
      else r
  }

  /** d[key] with a string key: a dict without the key raises KeyError, any
      other value raises TypeError (a list or a string needs an integer index,
      None is not subscriptable). */
  function Index(j: Json, key: string): (r: Result<Json>)
    ensures j.JDict? && Lookup(j.entries, key).Some? <==> r.Ok?
    ensures r.Ok? ==> r.value == Lookup(j.entries, key).value
    ensures j.JDict? && r.Err? ==> r.error == KeyError
    ensures !j.JDict? ==> r == Err(TypeError)
  {
    match j
    case JDict(entries) =>
      (match Lookup(entries, key)
       case Some(v) => Ok(v)
       case None => Err(KeyError))
    case _ => Err(TypeError)
  }

  /** s[i] with an integer index, negative indices counting from the end: a
      list gives its item, a string its one-character substring; out of
      range raises IndexError; a dict has only string keys, so it raises
      KeyError; any other value raises TypeError. */
  function At(j: Json, i: int): (r: Result<Json>)
    ensures r.Ok? <==> (j.JList? && -|j.items| <= i < |j.items|) || (j.JStr? && -|j.s| <= i < |j.s|)
    ensures r.Ok? && j.JList? ==> r.value == j.items[if i >= 0 then i else |j.items| + i]
    ensures r.Ok? && j.JStr? ==> r.value == JStr([j.s[if i >= 0 then i else |j.s| + i]])
    ensures (j.JList? || j.JStr?) && r.Err? ==> r.error == IndexError
    ensures j.JDict? ==> r == Err(KeyError)
    ensures !(j.JList? || j.JStr? || j.JDict?) ==> r == Err(TypeError)
  {
    match j
    case JList(items) =>
      if 0 <= i < |items| then Ok(items[i])
      else if -|items| <= i < 0 then Ok(items[|items| + i])
      else Err(IndexError)
    case JStr(s) =>
      if 0 <= i < |s| then Ok(JStr([s[i]]))
      else if -|s| <= i < 0 then Ok(JStr([s[|s| + i]]))
      else Err(IndexError)
    case JDict(_) => Err(KeyError)
    case _ => Err(TypeError)
  }

  /** len(j): the number of items, entries or characters; any other value
      raises TypeError. */
  function Len(j: Json): (r: Result<nat>)
    ensures j.JList? ==> r == Ok(|j.items|)
    ensures j.JDict? ==> r == Ok(|j.entries|)
    ensures j.JStr? ==> r == Ok(|j.s|)
    ensures r.Err? <==> !(j.JList? || j.JDict? || j.JStr?)
    ensures r.Err? ==> r.error == TypeError
  {
    match j
    case JList(items) => Ok(|items|)
    case JDict(entries) => Ok(|entries|)
    case JStr(s) => Ok(|s|)
    case _ => Err(TypeError)
  }

  /** What a for loop over j visits: a list's items, a dict's keys, a
      string's characters; any other value raises TypeError. */
  function Iter(j: Json): (r: Result<seq<Json>>)
    ensures j.JList? ==> r == Ok(j.items)
    ensures j.JDict? ==> r.Ok? && |r.value| == |j.entries|
                         && forall k :: 0 <= k < |j.entries| ==> r.value[k] == JStr(j.entries[k].0)
    ensures j.JStr? ==> r.Ok? && |r.value| == |j.s|
                        && forall k :: 0 <= k < |j.s| ==> r.value[k] == JStr([j.s[k]])
    ensures r.Err? <==> !(j.JList? || j.JDict? || j.JStr?)
    ensures r.Err? ==> r.error == TypeError
  {
    match j
    case JList(items) => Ok(items)
    case JDict(entries) => Ok(seq(|entries|, k requires 0 <= k < |entries| => JStr(entries[k].0)))
    case JStr(s) => Ok(seq(|s|, k requires 0 <= k < |s| => JStr([s[k]])))
    case _ => Err(TypeError)
  }

  /** v in j for any decoded v: a list is searched with ==; a dict is asked
      for the key (an unhashable list or dict raises TypeError, and only a
      string can equal a key); a string needs a string; anything else
      raises TypeError. */
  function PyIn(v: Json, j: Json): (r: Result<bool>)
    ensures j.JList? ==> r == Ok(exists i :: 0 <= i < |j.items| && PyEq(v, j.items[i]))
    ensures j.JDict? && v.JStr? ==> r == Ok(Lookup(j.entries, v.s).Some?)
    ensures j.JNull? ==> r == Err(TypeError)
  {
    match j
    case JList(items) => Ok(exists i :: 0 <= i < |items| && PyEq(v, items[i]))
    case JDict(entries) =>
      if v.JList? || v.JDict? then Err(TypeError)
      else Ok(v.JStr? && Lookup(entries, v.s).Some?)
    case JStr(t) =>
      if v.JStr? then Contains(j, v.s) else Err(TypeError)
    case _ => Err(TypeError)
  }

  /** Python's == between decoded values: numbers (bool included) compare by
      value across int and float; everything else compares structurally. */
  predicate PyEq(a: Json, b: Json)
  {
    if IsNumber(a) && IsNumber(b) then NumberValue(a) == NumberValue(b)
    else a == b
  }

  /** The value under key when j is a dict holding it: the guarded access
      `key in d and d[key]` of dict-shaped data. */
  function Field(j: Json, key: string): (r: Option<Json>)
    ensures r.Some? <==> Index(j, key).Ok?
    ensures r.Some? ==> r.value == Index(j, key).value
  {
    if j.JDict? then Lookup(j.entries, key) else None
  }

  predicate IsNumber(j: Json)
  {
    j.JBool? || j.JInt? || j.JFloat?
  }

  function NumberValue(j: Json): real
    requires IsNumber(j)
  {
    match j
    case JBool(b) => if b then 1.0 else 0.0
    case JInt(i) => i as real
    case JFloat(r) => r
  }

  /** s occurs in t starting at position k. */
  predicate OccursAt(t: string, s: string, k: int)
  {
    0 <= k <= |t| - |s| && t[k..k + |s|] == s
  }

  /** s in t for a string s: for a dict, whether it has the key; for a list,
      whether an element is that string (a string equals only a string); for a string, whether it occurs as a
      substring; anything else raises TypeError. */
  function Contains(j: Json, s: string): (r: Result<bool>)
    ensures j.JDict? ==> r == Ok(Lookup(j.entries, s).Some?)
    ensures j.JList? ==> r == Ok(JStr(s) in j.items)
    ensures j.JStr? ==> r == Ok(exists k :: 0 <= k <= |j.s| - |s| && OccursAt(j.s, s, k))
    ensures r.Err? <==> !(j.JDict? || j.JList? || j.JStr?)
    ensures r.Err? ==> r.error == TypeError
  {
    match j
    case JDict(entries) => Ok(Lookup(entries, s).Some?)
    case JList(items) => Ok(JStr(s) in items)
    case JStr(t) => Ok(exists k :: 0 <= k <= |t| - |s| && OccursAt(t, s, k))
    case _ => Err(TypeError)
  }

  /** True when the value is a dict that holds every one of the keys. */
  predicate HasKeys(j: Json, keys: seq<string>)
  {
    j.JDict? && forall k :: k in keys ==> Lookup(j.entries, k).Some?
  }

  predicate IsDigit(c: char)
  {
    '0' <= c <= '9'
  }

  function DigitValue(c: char): nat
    requires IsDigit(c)
  {
    (c as int) - ('0' as int)
  }

  /** The value of a run of decimal digits. */
  function DigitsValue(ds: string): nat
    requires forall i :: 0 <= i < |ds| ==> IsDigit(ds[i])
    decreases |ds|
  {
    if |ds| == 0 then 0
    else DigitsValue(ds[..|ds| - 1]) * 10 + DigitValue(ds[|ds| - 1])
  }

  function Pow10(n: nat): (r: nat)
    ensures r > 0
  {
    if n == 0 then 1 else 10 * Pow10(n - 1)
  }

  predicate AllDigits(s: string)
  {
    forall i :: 0 <= i < |s| ==> IsDigit(s[i])
  }

  /** The ASCII whitespace str.strip() and float() skip: space, tab, the
      line breaks \n, \v, \f and \r, and the separators \x1c to \x1f. */
  predicate IsSpace(c: char)
  {
    c == ' ' || c == '\t' || c == '\n' || c == '\r' || c == '\U{0B}' || c == '\U{0C}'
    || ('\U{1C}' <= c <= '\U{1F}')
  }

  predicate AllSpace(s: string)
  {
    forall i :: 0 <= i < |s| ==> IsSpace(s[i])
  }

  /** s without its leading and trailing whitespace. */
  function Strip(s: string): (r: string)
    ensures |r| <= |s|
    ensures |r| > 0 ==> !IsSpace(r[0]) && !IsSpace(r[|r| - 1])
    decreases |s|
  {
    if |s| > 0 && IsSpace(s[0]) then Strip(s[1..])
    else if |s| > 0 && IsSpace(s[|s| - 1]) then Strip(s[..|s| - 1])
    else s
  }

  /** Nothing is left of a string of whitespace. */
  lemma {:induction false} StripOfSpace(s: string)
    requires AllSpace(s)
    ensures Strip(s) == []
    decreases |s|
  {
    if |s| > 0 {
      assert IsSpace(s[0]);
      StripOfSpace(s[1..]);
    }
  }

  /** Whitespace around a string does not change what it strips to. */
  lemma {:induction false} StripPadded(pre: string, s: string, post: string)
    requires AllSpace(pre) && AllSpace(post)
    ensures Strip(pre + s + post) == Strip(s)
    decreases |pre| + |s| + |post|
  {
    var x := pre + s + post;
    if |pre| > 0 {
      assert x[0] == pre[0];
      assert x[1..] == pre[1..] + s + post;
      StripPadded(pre[1..], s, post);
    } else if |s| > 0 && IsSpace(s[0]) {
      assert x == s + post;
      assert x[0] == s[0];
      assert x[1..] == [] + s[1..] + post;
      StripPadded([], s[1..], post);
      assert Strip(s) == Strip(s[1..]);
    } else if |s| == 0 {
      assert x == post;
      StripOfSpace(post);
    } else if |post| > 0 {
      assert x == s + post;
      assert x[0] == s[0] && x[|x| - 1] == post[|post| - 1];
      assert x[..|x| - 1] == [] + s + post[..|post| - 1];
      StripPadded([], s, post[..|post| - 1]);
    } else {
      assert x == s;
    }
  }

  predicate IsDigitOrUnderscore(c: char)
  {
    IsDigit(c) || c == '_'
  }

  /** A run of digits in which single underscores may separate digits, as
      float() accepts them: "1_000" but not "_1", "1_" or "1__0". */
  predicate IsDigitGroup(s: string)
  {
    |s| > 0 && IsDigit(s[0]) && IsDigit(s[|s| - 1])
    && (forall i :: 0 <= i < |s| ==> IsDigitOrUnderscore(s[i]))
    && (forall i :: 0 < i < |s| ==> DigitBeforeUnderscore(s, i))
  }

  /** An underscore at position i follows a digit. */
  predicate DigitBeforeUnderscore(s: string, i: nat)
    requires 0 < i < |s|
  {
    s[i] == '_' ==> IsDigit(s[i - 1])
  }

  /** The value of the digits of a group, underscores skipped. */
  function GroupValue(s: string): (r: nat)
    decreases |s|
  {
    if |s| == 0 then 0
    else if IsDigit(s[|s| - 1]) then GroupValue(s[..|s| - 1]) * 10 + DigitValue(s[|s| - 1])
    else GroupValue(s[..|s| - 1])
  }

  /** The number of digits of a group, underscores skipped. */
  function GroupDigits(s: string): (r: nat)
    ensures r <= |s|
    decreases |s|
  {
    if |s| == 0 then 0
    else if IsDigit(s[|s| - 1]) then GroupDigits(s[..|s| - 1]) + 1
    else GroupDigits(s[..|s| - 1])
  }

  /** A plain run of digits is a group worth its decimal value. */
  lemma {:induction false} DigitsAreGroup(s: string)
    requires |s| > 0 && AllDigits(s)
    ensures IsDigitGroup(s)
    ensures GroupValue(s) == DigitsValue(s)
    ensures GroupDigits(s) == |s|
    decreases |s|
  {
    var init := s[..|s| - 1];
    if |s| > 1 {
      assert AllDigits(init) by {
        forall i | 0 <= i < |init| ensures IsDigit(init[i]) { assert init[i] == s[i]; }
      }
      DigitsAreGroup(init);
    }
    assert IsDigit(s[|s| - 1]);
    assert GroupValue(s) == GroupValue(init) * 10 + DigitValue(s[|s| - 1]);
    assert GroupDigits(s) == GroupDigits(init) + 1;
  }

  /** Underscores between digit groups only separate them: "a_b" reads as
      the digits of a followed by the digits of b. */
  lemma JoinGroups(a: string, b: string)
    requires IsDigitGroup(a) && IsDigitGroup(b)
    ensures IsDigitGroup(a + "_" + b)
    ensures GroupValue(a + "_" + b) == GroupValue(a) * Pow10(GroupDigits(b)) + GroupValue(b)
    ensures GroupDigits(a + "_" + b) == GroupDigits(a) + GroupDigits(b)
  {
    var ab := a + "_" + b;
    forall i | 0 < i < |ab|
      ensures DigitBeforeUnderscore(ab, i)
    {
      if i < |a| {
        assert ab[i] == a[i] && ab[i - 1] == a[i - 1];
        assert DigitBeforeUnderscore(a, i);
      } else if i == |a| {
        assert ab[i - 1] == a[|a| - 1];
      } else if i == |a| + 1 {
        assert ab[i] == b[0];
      } else {
        assert ab[i] == b[i - |a| - 1] && ab[i - 1] == b[i - |a| - 2];
        assert DigitBeforeUnderscore(b, i - |a| - 1);
      }
    }
    forall i | 0 <= i < |ab|
      ensures IsDigitOrUnderscore(ab[i])
    {
      if i < |a| {
        assert ab[i] == a[i];
      } else if i > |a| {
        assert ab[i] == b[i - |a| - 1];
      }
    }
    assert ab[|ab| - 1] == b[|b| - 1];
    JoinGroupsValue(a, b, |b|);
    assert b[..|b|] == b;
  }

  /** The inductive step of JoinGroups over the first n characters of b. */
  lemma {:induction false} JoinGroupsValue(a: string, b: string, n: nat)
    requires n <= |b|
    ensures GroupValue(a + "_" + b[..n]) == GroupValue(a) * Pow10(GroupDigits(b[..n])) + GroupValue(b[..n])
    ensures GroupDigits(a + "_" + b[..n]) == GroupDigits(a) + GroupDigits(b[..n])
    decreases n
  {
    var x := a + "_" + b[..n];
    if n == 0 {
      assert x[..|x| - 1] == a;
      assert b[..n] == [];
    } else {
      var prev := a + "_" + b[..n - 1];
      JoinGroupsValue(a, b, n - 1);
      assert x[..|x| - 1] == prev;
      assert b[..n][..n - 1] == b[..n - 1];
      assert x[|x| - 1] == b[..n][n - 1] == b[n - 1];
      var va, k := GroupValue(a), GroupDigits(b[..n - 1]);
      if IsDigit(b[n - 1]) {
        var d := DigitValue(b[n - 1]);
        assert GroupValue(x) == GroupValue(prev) * 10 + d;
        assert GroupValue(b[..n]) == GroupValue(b[..n - 1]) * 10 + d;
        assert GroupDigits(b[..n]) == k + 1;
        AppendDigit(va, k, GroupValue(b[..n - 1]), d);
      } else {
        assert GroupValue(x) == GroupValue(prev);
        assert GroupValue(b[..n]) == GroupValue(b[..n - 1]);
        assert GroupDigits(b[..n]) == k;
      }
    }
  }

  /** Appending a digit to a number whose leading part is va shifts va by
      one more place. */
  lemma AppendDigit(va: nat, k: nat, g: nat, d: nat)
    ensures (va * Pow10(k) + g) * 10 + d == va * Pow10(k + 1) + (g * 10 + d)
  {
  }

  /** The index of the first occurrence of c or d in s. */
  function FirstOf(s: string, c: char, d: char): (r: Option<nat>)
    ensures r.None? <==> forall i :: 0 <= i < |s| ==> s[i] != c && s[i] != d
    ensures r.Some? ==> r.value < |s| && (s[r.value] == c || s[r.value] == d)
                        && forall i :: 0 <= i < r.value ==> s[i] != c && s[i] != d
    decreases |s|
  {
    if |s| == 0 then None
    else if s[0] == c || s[0] == d then Some(0)
    else
      match FirstOf(s[1..], c, d)
      case None => None
      case Some(k) => Some(k + 1)
  }

  /** An optional digit group: the empty string stands for no digits. */
  predicate IsOptionalGroup(s: string)
  {
    |s| == 0 || IsDigitGroup(s)
  }

  /** A digit group holds no mark that is neither a digit nor an
      underscore. */
  lemma GroupUnmarked(m: string, c: char, d: char)
    ensures IsDigitGroup(m) && !IsDigitOrUnderscore(c) && !IsDigitOrUnderscore(d) ==> FirstOf(m, c, d).None?
  {
    if IsDigitGroup(m) && !IsDigitOrUnderscore(c) && !IsDigitOrUnderscore(d) {
      forall i | 0 <= i < |m| ensures m[i] != c && m[i] != d {
        assert IsDigitOrUnderscore(m[i]);
      }
    }
  }

  /** The decimal forms float() reads before an exponent: digits, digits
      '.', digits '.' digits, or '.' digits, each digit part a group. */
  function ParseDecimal(m: string): (r: Option<real>)
    ensures r.Some? ==> r.value >= 0.0
    ensures IsDigitGroup(m) ==> r == Some(GroupValue(m) as real)
    ensures r.Some? ==> |m| > 0
  {
    GroupUnmarked(m, '.', '.');
    match FirstOf(m, '.', '.')
    case None => if IsDigitGroup(m) then Some(GroupValue(m) as real) else None
    case Some(k) => Fraction(m[..k], m[k + 1..])
  }

  /** The number with the whole part and the fractional digits given, at
      least one of them present. */
  function Fraction(whole: string, frac: string): (r: Option<real>)
    ensures r.Some? ==> r.value >= 0.0
    ensures r.Some? <==> IsOptionalGroup(whole) && IsOptionalGroup(frac) && |whole| + |frac| > 0
  {
    if IsOptionalGroup(whole) && IsOptionalGroup(frac) && |whole| + |frac| > 0 then
      Some(GroupValue(whole) as real + Scale(GroupValue(frac) as real, -(GroupDigits(frac) as int)))
    else None
  }

  /** The exponent after 'e' or 'E': an optional sign and a digit group. */
  function ParseExponent(x: string): (r: Option<int>)
    ensures IsDigitGroup(x) ==> r == Some(GroupValue(x))
    ensures |x| > 0 && x[0] == '-' && IsDigitGroup(x[1..]) ==> r == Some(-(GroupValue(x[1..]) as int))
    ensures r.Some? ==> |x| > 0
  {
    if |x| > 0 && (x[0] == '-' || x[0] == '+') then
      if IsDigitGroup(x[1..]) then
        var v: int := GroupValue(x[1..]);
        Some(if x[0] == '-' then -v else v)
      else None
    else if IsDigitGroup(x) then Some(GroupValue(x) as int)
    else None
  }

  /** m times ten to the power e, one decimal place at a time. */
  function Scale(m: real, e: int): (r: real)
    ensures m >= 0.0 ==> r >= 0.0
    ensures e == 0 ==> r == m
    decreases if e >= 0 then e else -e
  {
    if e == 0 then m
    else if e > 0 then Scale(m, e - 1) * 10.0
    else Scale(m, e + 1) / 10.0
  }

  /** Scaling by a non-negative e multiplies by ten to the e. */
  lemma {:induction false} ScaleUp(m: real, e: nat)
    ensures Scale(m, e) == m * Pow10(e) as real
  {
    if e > 0 {
      ScaleUp(m, e - 1);
      var p := Pow10(e - 1) as real;
      assert Pow10(e) as real == 10.0 * p;
      assert m * p * 10.0 == m * (10.0 * p);
    }
  }

  /** Scaling by a negative -e divides by ten to the e. */
  lemma {:induction false} ScaleDown(m: real, e: nat)
    ensures Scale(m, -(e as int)) == m / Pow10(e) as real
  {
    if e > 0 {
      ScaleDown(m, e - 1);
      var p := Pow10(e - 1) as real;
      assert Pow10(e) as real == 10.0 * p;
      DivideTwice(m, p);
    }
  }

  /** Dividing by p and then by ten divides by ten times p. */
  lemma DivideTwice(m: real, p: real)
    requires p > 0.0
    ensures m / p / 10.0 == m / (10.0 * p)
  {
  }

  /** The unsigned forms float() reads: a decimal, optionally followed by
      'e' or 'E' and an exponent. */
  function ParseUnsigned(u: string): (r: Option<real>)
    ensures r.Some? ==> r.value >= 0.0
    ensures r.Some? ==> |u| > 0
    ensures FirstOf(u, 'e', 'E').None? ==> r == ParseDecimal(u)
  {
    match FirstOf(u, 'e', 'E')
    case None => ParseDecimal(u)
    case Some(k) => ScaleBy(ParseDecimal(u[..k]), ParseExponent(u[k + 1..]))
  }

  /** A mantissa scaled by an exponent, when both were read. */
  function ScaleBy(mantissa: Option<real>, exponent: Option<int>): (r: Option<real>)
    ensures r.Some? <==> mantissa.Some? && exponent.Some?
    ensures r.Some? && mantissa.value >= 0.0 ==> r.value >= 0.0
  {
    if mantissa.Some? && exponent.Some? then Some(Scale(mantissa.value, exponent.value)) else None
  }

  /** float(s) for a string: surrounding whitespace is skipped, then an
      optional sign and an unsigned number; None where float() raises
      ValueError. */
  function ParseFloat(s: string): (r: Option<real>)
    ensures r.Some? ==> |Strip(s)| > 0
                        && (Strip(s)[0] == '-' ==> r.value <= 0.0)
                        && (Strip(s)[0] != '-' ==> r.value >= 0.0)
  {
    ParseSigned(Strip(s))
  }

  /** A string of whitespace, the empty string included, is not a number:
      float("  ") raises ValueError. */
  lemma ParseFloatOfSpace(s: string)
    requires AllSpace(s)
    ensures ParseFloat(s) == None
  {
    StripOfSpace(s);
  }

  /** An optional sign and an unsigned number, the sign negating it. */
  function ParseSigned(t: string): (r: Option<real>)
    ensures r.Some? ==> |t| > 0 && (t[0] == '-' ==> r.value <= 0.0) && (t[0] != '-' ==> r.value >= 0.0)
    ensures |t| > 0 && t[0] != '-' && t[0] != '+' ==> r == ParseUnsigned(t)
  {
    if |t| > 0 && t[0] == '-' then Negate(ParseUnsigned(t[1..]))
    else if |t| > 0 && t[0] == '+' then ParseUnsigned(t[1..])
    else ParseUnsigned(t)
  }

  /** The negation of a number that was read. */
  function Negate(v: Option<real>): (r: Option<real>)
    ensures r.Some? <==> v.Some?
    ensures r.Some? ==> r.value == -v.value
  {
    if v.Some? then Some(-v.value) else None
  }

  /** A plain run of digits reads as its decimal value. */
  lemma ParseFloatOfDigits(s: string)
    requires |s| > 0 && AllDigits(s)
    ensures ParseFloat(s) == Some(DigitsValue(s) as real)
  {
    DigitsAreGroup(s);
    ParseFloatOfGroup(s);
  }

  /** Whitespace around a number does not change what float() reads. */
  lemma ParseFloatIgnoresSpace(pre: string, s: string, post: string)
    requires AllSpace(pre) && AllSpace(post)
    ensures ParseFloat(pre + s + post) == ParseFloat(s)
  {
    StripPadded(pre, s, post);
  }

  /** float(j): numbers convert, a string is parsed (ValueError when it is not
      a number), None, lists and dicts raise TypeError. */
  function ToFloat(j: Json): (r: Result<real>)
    ensures IsNumber(j) ==> r == Ok(NumberValue(j))
    ensures j.JStr? ==> (r.Ok? <==> ParseFloat(j.s).Some?)
    ensures j.JStr? && r.Err? ==> r.error == ValueError
    ensures j.JNull? || j.JList? || j.JDict? ==> r == Err(TypeError)
  {
    match j
    case JStr(s) =>
      (match ParseFloat(s)
       case Some(v) => Ok(v)
       case None => Err(ValueError))
    case JNull => Err(TypeError)
    case JList(_) => Err(TypeError)
    case JDict(_) => Err(TypeError)
    case _ => Ok(NumberValue(j))
  }

  /** str(n) for a natural number: its decimal digits. */
  function NatToString(n: nat): (s: string)
    ensures |s| > 0 && AllDigits(s)
    decreases n
  {
    var d := ['0' + (n % 10) as char];
    if n < 10 then d else NatToString(n / 10) + d
  }

  /** Reading back what str() wrote gives the number again. */
  lemma {:induction false} NatToStringRoundTrip(n: nat)
    ensures DigitsValue(NatToString(n)) == n
    decreases n
  {
    var s := NatToString(n);
    var d := '0' + (n % 10) as char;
    if n >= 10 {
      NatToStringRoundTrip(n / 10);
      assert s[..|s| - 1] == NatToString(n / 10);
    }
    assert s[|s| - 1] == d;
    assert DigitValue(d) == n % 10;
  }

  /** The information separators \x1c to \x1f pad a number as blanks do:
      str(n) between a unit separator and a file separator reads as n. */
  lemma ParseFloatSkipsSeparators(n: nat)
    ensures ParseFloat("\U{1F}" + NatToString(n) + "\U{1C}") == Some(n as real)
  {
    ParseFloatIgnoresSpace("\U{1F}", NatToString(n), "\U{1C}");
    ParseFloatOfNat(n);
  }

  /** float(str(n)) == n for every natural number n, and for its negation. */
  lemma ParseFloatOfNat(n: nat)
    ensures ParseFloat(NatToString(n)) == Some(n as real)
    ensures ParseFloat("-" + NatToString(n)) == Some(-(n as real))
  {
    NatToStringRoundTrip(n);
    ParseFloatOfDigits(NatToString(n));
    ParseFloatOfNegated(NatToString(n));
  }

  /** A minus sign in front of a run of digits negates its value. */
  lemma ParseFloatOfNegated(s: string)
    requires |s| > 0 && AllDigits(s)
    ensures ParseFloat("-" + s) == Some(-(DigitsValue(s) as real))
  {
    UnsignedOfDigits(s);
    MinusBeforeDigits(s);
    NegateOf(DigitsValue(s) as real);
  }

  /** Negating a number that was read. */
  lemma NegateOf(v: real)
    ensures Negate(Some(v)) == Some(-v)
  {
  }

  /** A plain run of digits is an unsigned number worth its value. */
  lemma UnsignedOfDigits(s: string)
    requires |s| > 0 && AllDigits(s)
    ensures ParseUnsigned(s) == Some(DigitsValue(s) as real)
  {
    DigitsAreGroup(s);
    GroupUnmarked(s, 'e', 'E');
  }

  /** A minus in front of a run of digits negates what the digits read as. */
  lemma MinusBeforeDigits(s: string)
    requires |s| > 0 && AllDigits(s)
    ensures ParseFloat("-" + s) == Negate(ParseUnsigned(s))
  {
    assert IsDigit(s[|s| - 1]);
    MinusNegates(s);
  }

  /** A minus sign in front of an unsigned number negates it. */
  lemma MinusNegates(u: string)
    requires |u| > 0 && !IsSpace(u[|u| - 1])
    ensures ParseFloat("-" + u) == Negate(ParseUnsigned(u))
  {
    var t := "-" + u;
    assert t[0] == '-' && t[|t| - 1] == u[|u| - 1];
    StripUnpadded(t);
    assert t[1..] == u;
  }

  /** A digit group, underscores included, reads as the number its digits
      spell: float("1_000") == 1000.0. */
  lemma ParseFloatOfGroup(g: string)
    requires IsDigitGroup(g)
    ensures ParseFloat(g) == Some(GroupValue(g) as real)
  {
    assert Strip(g) == g by {
      StripUnpadded(g);
    }
    assert ParseUnsigned(g) == Some(GroupValue(g) as real) by {
      GroupUnmarked(g, 'e', 'E');
    }
    assert ParseSigned(g) == ParseUnsigned(g) by {
      assert IsDigit(g[0]);
    }
  }

  /** A string with no whitespace at either end strips to itself. */
  lemma StripUnpadded(s: string)
    requires |s| > 0 ==> !IsSpace(s[0]) && !IsSpace(s[|s| - 1])
    ensures Strip(s) == s
  {
  }

  /** A plain run of digits is a decimal worth its value. */
  lemma DecimalOfDigits(m: string)
    requires |m| > 0 && AllDigits(m)
    ensures ParseDecimal(m) == Some(DigitsValue(m) as real)
  {
    DigitsAreGroup(m);
  }

  /** An exponent of plain digits is their value. */
  lemma ExponentOfDigits(x: string)
    requires |x| > 0 && AllDigits(x)
    ensures ParseExponent(x) == Some(DigitsValue(x) as int)
  {
    DigitsAreGroup(x);
  }

  /** A decimal without exponent markers, 'e' and the rest: float() splits
      at that 'e' and scales the decimal by the exponent the rest spells. */
  lemma UnsignedAtMarker(m: string, rest: string)
    requires forall i :: 0 <= i < |m| ==> m[i] != 'e' && m[i] != 'E'
    ensures ParseUnsigned(m + "e" + rest) == ScaleBy(ParseDecimal(m), ParseExponent(rest))
  {
    var u := m + "e" + rest;
    assert u[|m|] == 'e';
    forall i | 0 <= i < |m| ensures u[i] != 'e' && u[i] != 'E' {
      assert u[i] == m[i];
    }
    var k := FirstOf(u, 'e', 'E');
    assert k.Some?;
    assert k.value == |m|;
    assert u[..|m|] == m;
    assert u[|m| + 1..] == rest;
  }

  /** A number with no whitespace around it and no sign in front is read
      as an unsigned number. */
  lemma ParseFloatOfUnsigned(u: string)
    requires |u| > 0 && !IsSpace(u[0]) && !IsSpace(u[|u| - 1])
    requires u[0] != '-' && u[0] != '+'
    ensures ParseFloat(u) == ParseUnsigned(u)
  {
    StripUnpadded(u);
  }

  /** A positive exponent multiplies by a power of ten:
      float("5e3") == 5000.0. */
  lemma ParseFloatExponent(n: nat, e: nat)
    ensures ParseFloat(NatToString(n) + "e" + NatToString(e)) == Some(n as real * Pow10(e) as real)
  {
    ScaledNatUp(n, e);
    ScaleUp(n as real, e);
  }

  /** The decimal text of n, 'e' and the decimal text of e reads as n
      scaled up e places. */
  lemma ScaledNatUp(n: nat, e: nat)
    ensures ParseFloat(NatToString(n) + "e" + NatToString(e)) == Some(Scale(n as real, e))
  {
    var m, x := NatToString(n), NatToString(e);
    NatToStringRoundTrip(n);
    NatToStringRoundTrip(e);
    ExponentUp(m, x);
    SignlessFloat(m, "e", x);
  }

  /** Digits, a marker and digits need no stripping and carry no sign. */
  lemma SignlessFloat(m: string, marker: string, x: string)
    requires |m| > 0 && IsDigit(m[0]) && |x| > 0 && IsDigit(x[|x| - 1])
    ensures ParseFloat(m + marker + x) == ParseUnsigned(m + marker + x)
  {
    var u := m + marker + x;
    assert u[0] == m[0];
    assert u[|u| - 1] == x[|x| - 1];
    ParseFloatOfUnsigned(u);
  }

  /** Digits, 'e' and digits: the first number times ten to the second. */
  lemma ExponentUp(m: string, x: string)
    requires |m| > 0 && AllDigits(m) && |x| > 0 && AllDigits(x)
    ensures ParseUnsigned(m + "e" + x) == Some(Scale(DigitsValue(m) as real, DigitsValue(x)))
  {
    ExponentOfDigits(x);
    UnsignedWithExponent(m, x);
  }

  /** Digits, 'e' and an exponent that reads: the digits' value scaled by
      that exponent. */
  lemma UnsignedWithExponent(m: string, y: string)
    requires |m| > 0 && AllDigits(m) && ParseExponent(y).Some?
    ensures ParseUnsigned(m + "e" + y) == Some(Scale(DigitsValue(m) as real, ParseExponent(y).value))
  {
    NoMarkerInDigits(m);
    UnsignedAtMarker(m, y);
    DecimalOfDigits(m);
    ScaleByBoth(DigitsValue(m) as real, ParseExponent(y).value);
  }

  /** Both parts read: the mantissa scaled by the exponent. */
  lemma ScaleByBoth(a: real, k: int)
    ensures ScaleBy(Some(a), Some(k)) == Some(Scale(a, k))
  {
  }

  /** A run of digits holds no exponent marker. */
  lemma NoMarkerInDigits(m: string)
    requires AllDigits(m)
    ensures forall i :: 0 <= i < |m| ==> m[i] != 'e' && m[i] != 'E'
  {
    forall i | 0 <= i < |m| ensures m[i] != 'e' && m[i] != 'E' {
      assert IsDigit(m[i]);
    }
  }
}
