/** The string similarity ratio used to match names: an edit distance in
    which a substitution costs 2 (so it never beats a deletion plus an
    insertion), turned into a ratio of the combined length. */
module StringCompare {
  import opened Wrappers

  function Min3(a: int, b: int, c: int): (r: int)
    ensures r <= a && r <= b && r <= c
    ensures r == a || r == b || r == c
  {
    if a <= b && a <= c then a else if b <= c then b else c
  }

  function Max(a: int, b: int): int
  {
    if a >= b then a else b
  }

  /** The cell of the distance table for the whole of a and b: the edit
      distance with deletions and insertions costing 1 and a substitution
      costing 2. */
  function Lev(a: string, b: string): nat
    decreases |a| + |b|
  {
    if |a| == 0 then |b|
    else if |b| == 0 then |a|
    else
      var a', b' := a[..|a| - 1], b[..|b| - 1];
      var cost := if a[|a| - 1] == b[|b| - 1] then 0 else 2;
      Min3(Lev(a', b) + 1, Lev(a, b') + 1, Lev(a', b') + cost)
  }

  /** The length of a longest common subsequence. */
  function Lcs(a: string, b: string): nat
    decreases |a| + |b|
  {
    if |a| == 0 || |b| == 0 then 0
    else
      var a', b' := a[..|a| - 1], b[..|b| - 1];
      if a[|a| - 1] == b[|b| - 1] then Lcs(a', b') + 1
      else Max(Lcs(a', b), Lcs(a, b'))
  }

  /** Dropping the last character of either string lowers the common
      subsequence length by at most one. */
  lemma {:induction false} LcsDrop(a: string, b: string)
    ensures |b| > 0 ==> Lcs(a, b[..|b| - 1]) <= Lcs(a, b) <= Lcs(a, b[..|b| - 1]) + 1
    ensures |a| > 0 ==> Lcs(a[..|a| - 1], b) <= Lcs(a, b) <= Lcs(a[..|a| - 1], b) + 1
    decreases |a| + |b|
  {
    if |a| > 0 && |b| > 0 {
      var a', b' := a[..|a| - 1], b[..|b| - 1];
      LcsDrop(a, b');
      LcsDrop(a', b);
      if a[|a| - 1] == b[|b| - 1] {
        assert Lcs(a, b) == Lcs(a', b') + 1;
      } else {
        assert Lcs(a, b) == Max(Lcs(a', b), Lcs(a, b'));
      }
    }
  }

  /** The table's distance is the insert/delete distance: what is not in a
      longest common subsequence is deleted from one side and inserted from
      the other. */
  lemma {:induction false} LevIsIndel(a: string, b: string)
    ensures Lev(a, b) == |a| + |b| - 2 * Lcs(a, b)
    decreases |a| + |b|
  {
    if |a| > 0 && |b| > 0 {
      var a', b' := a[..|a| - 1], b[..|b| - 1];
      LevIsIndel(a', b);
      LevIsIndel(a, b');
      LevIsIndel(a', b');
      LcsDrop(a, b);
      LcsDrop(a', b);
      LcsDrop(a, b');
    }
  }

  /** A common subsequence is no longer than either string, and a string
      shares all of itself with itself. */
  lemma {:induction false} LcsBounds(a: string, b: string)
    ensures Lcs(a, b) <= |a| && Lcs(a, b) <= |b|
    ensures a == b ==> Lcs(a, b) == |a|
    decreases |a| + |b|
  {
    if |a| > 0 && |b| > 0 {
      var a', b' := a[..|a| - 1], b[..|b| - 1];
      LcsBounds(a', b);
      LcsBounds(a, b');
      LcsBounds(a', b');
    }
  }

  /** The distance lies between the length difference and the combined
      length, and is zero between a string and itself. */
  lemma LevBounds(a: string, b: string)
    ensures |a| - |b| <= Lev(a, b) && |b| - |a| <= Lev(a, b)
    ensures Lev(a, b) <= |a| + |b|
    ensures Lev(a, a) == 0
  {
    LevIsIndel(a, b);
    LcsBounds(a, b);
    LevIsIndel(a, a);
    LcsBounds(a, a);
  }

  /** The similarity ratio of two non-empty strings. */
  function Ratio(s: string, t: string): (r: real)
    requires |s| + |t| > 0
    ensures 0.0 <= r <= 1.0
  {
    LevBounds(s, t);
    ShareBounds(((|s| + |t|) - Lev(s, t)) as real, (|s| + |t|) as real);
    ((|s| + |t|) - Lev(s, t)) as real / (|s| + |t|) as real
  }

  /** A share of a positive whole lies in [0, 1]. */
  lemma ShareBounds(x: real, n: real)
    requires n > 0.0 && 0.0 <= x <= n
    ensures 0.0 <= x / n <= 1.0
  {
    var q := x / n;
    assert q * n == x;
  }

  /** The ratio lies in [0, 1] and is twice the longest common subsequence
      over the combined length. */
  lemma RatioBounds(s: string, t: string)
    requires |s| + |t| > 0
    ensures 0.0 <= Ratio(s, t) <= 1.0
    ensures Ratio(s, t) == (2 * Lcs(s, t)) as real / (|s| + |t|) as real
  {
    LevBounds(s, t);
    LevIsIndel(s, t);
    ShareBounds(((|s| + |t|) - Lev(s, t)) as real, (|s| + |t|) as real);
  }

  /** Identical non-empty strings have ratio 1. */
  lemma RatioIdentical(s: string)
    requires |s| > 0
    ensures Ratio(s, s) == 1.0
  {
    LevBounds(s, s);
    var n := (|s| + |s|) as real;
    assert Ratio(s, s) == n / n;
  }

  /** One column of the distance table, from the column before it. */
  method NextColumn(s: string, t: string, prev: seq<int>, col: nat) returns (cur: seq<int>)
    requires 1 <= col <= |t|
    requires |prev| == |s| + 1
    requires forall i :: 0 <= i <= |s| ==> prev[i] == Lev(s[..i], t[..col - 1])
    ensures |cur| == |s| + 1
    ensures forall i :: 0 <= i <= |s| ==> cur[i] == Lev(s[..i], t[..col])
  {
    cur := [col];
    LevEmpty(s[..0], t[..col]);
    var row := 1;
    while row <= |s|
      invariant 1 <= row <= |s| + 1
      invariant |cur| == row
      invariant forall i :: 0 <= i < row ==> cur[i] == Lev(s[..i], t[..col])
    {
      var cost := if s[row - 1] == t[col - 1] then 0 else 2;
      var v := Min3(prev[row] + 1, cur[row - 1] + 1, prev[row - 1] + cost);
      LevCell(s, t, row, col);
      assert v == Lev(s[..row], t[..col]);
      cur := cur + [v];
      row := row + 1;
    }
  }

  /** levenshtein_ratio_and_distance: fills the distance table column by
      column (one column kept at a time) and returns the ratio. With an
      empty string the loops never bind row or col, and reading them
      raises UnboundLocalError. */
  method LevenshteinRatio(s: string, t: string) returns (r: Result<real>)
    ensures |s| == 0 || |t| == 0 ==> r == Err(UnboundLocalError)
    ensures |s| > 0 && |t| > 0 ==> r == Ok(Ratio(s, t))
  {
    if |s| == 0 || |t| == 0 {
      return Err(UnboundLocalError);
    }
    var prev := seq(|s| + 1, i => i);
    forall i | 0 <= i <= |s|
      ensures prev[i] == Lev(s[..i], t[..0])
    {
      LevEmpty(s[..i], t[..0]);
    }
    var col := 1;
    while col <= |t|
      invariant 1 <= col <= |t| + 1
      invariant |prev| == |s| + 1
      invariant forall i :: 0 <= i <= |s| ==> prev[i] == Lev(s[..i], t[..col - 1])
    {
      prev := NextColumn(s, t, prev, col);
      col := col + 1;
    }
    assert s[..|s|] == s && t[..|t|] == t;
    r := Ok(((|s| + |t|) - prev[|s|]) as real / (|s| + |t|) as real);
  }

  /** The table's first row and column: against an empty string the
      distance is the other string's length. */
  lemma LevEmpty(a: string, b: string)
    requires |a| == 0 || |b| == 0
    ensures Lev(a, b) == |a| + |b|
  {
  }

  /** One step of the table's recurrence, on prefixes. */
  lemma LevCell(s: string, t: string, row: nat, col: nat)
    requires 1 <= row <= |s| && 1 <= col <= |t|
    ensures Lev(s[..row], t[..col])
            == Min3(Lev(s[..row - 1], t[..col]) + 1, Lev(s[..row], t[..col - 1]) + 1,
                    Lev(s[..row - 1], t[..col - 1]) + (if s[row - 1] == t[col - 1] then 0 else 2))
  {
    assert s[..row][..row - 1] == s[..row - 1];
    assert t[..col][..col - 1] == t[..col - 1];
  }
}
