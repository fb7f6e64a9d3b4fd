/** The back-testing calendar: the working days from a start date to an end
    date, each at 09:35.

    A datetime is a day number (days since 1970-01-01, a Thursday) and the
    second within that day. */
module DateRange {
  import opened Wrappers

  const SECONDS_PER_DAY: int := 86400

  datatype DateTime = DateTime(day: int, second: int)

  predicate Valid(d: DateTime)
  {
    0 <= d.second < SECONDS_PER_DAY
  }

  /** isoweekday(): Monday is 1 and Sunday is 7; day 0 is a Thursday. */
  function IsoWeekday(day: int): (w: int)
    ensures 1 <= w <= 7
  {
    (day + 3) % 7 + 1
  }

  lemma EpochIsThursday()
    ensures IsoWeekday(0) == 4
  {
  }

  predicate IsWorkday(day: int)
  {
    1 <= IsoWeekday(day) <= 5
  }

  /** (end - start).days: the whole days between two datetimes, rounded
      down as timedelta does. */
  function DaysBetween(start: DateTime, end: DateTime): int
  {
    end.day - start.day - (if end.second < start.second then 1 else 0)
  }

  /** timedelta.days is the floor of the difference measured in days. */
  lemma DaysBetweenIsFloor(start: DateTime, end: DateTime)
    requires Valid(start) && Valid(end)
    ensures var total := (end.day - start.day) * SECONDS_PER_DAY + end.second - start.second;
            DaysBetween(start, end) * SECONDS_PER_DAY <= total < (DaysBetween(start, end) + 1) * SECONDS_PER_DAY
  {
  }

  /** replace(hour=9, minute=35): seconds within the minute are kept. */
  function AtMorning(d: DateTime): (r: DateTime)
    requires Valid(d)
    ensures Valid(r) && r.day == d.day
    ensures r.second / 3600 == 9 && r.second % 3600 / 60 == 35 && r.second % 60 == d.second % 60
  {
    DateTime(d.day, 9 * 3600 + 35 * 60 + d.second % 60)
  }

  /** What the generator yields for the offsets 0 .. n - 1 from start. */
  function Walk(start: DateTime, n: nat): (r: seq<DateTime>)
    requires Valid(start)
    ensures |r| <= n
    ensures forall i :: 0 <= i < |r| ==> IsWorkday(r[i].day)
    decreases n
  {
    if n == 0 then []
    else
      var d := DateTime(start.day + n - 1, start.second);
      Walk(start, n - 1) + (if IsWorkday(d.day) then [AtMorning(d)] else [])
  }

  /** The number of offsets visited: all_days + 1, or none when the end lies
      before the start. */
  function Span(start: DateTime, end: DateTime): nat
  {
    var days := DaysBetween(start, end);
    if days + 1 > 0 then days + 1 else 0
  }

  /** date_range: nothing when either bound is missing, otherwise every
      working day from start to end at 09:35, in order. */
  method Dates(start: Option<DateTime>, end: Option<DateTime>) returns (r: seq<DateTime>)
    requires start.Some? ==> Valid(start.value)
    ensures start.None? || end.None? ==> r == []
    ensures start.Some? && end.Some? ==> r == Walk(start.value, Span(start.value, end.value))
  {
    r := [];
    if start.None? || end.None? {
      return;
    }
    var s := start.value;
    var allDays := DaysBetween(s, end.value);
    var n := 0;
    while n < allDays + 1
      invariant 0 <= n <= Span(s, end.value)
      invariant r == Walk(s, n)
    {
      var d := DateTime(s.day + n, s.second);
      assert Walk(s, n + 1) == Walk(s, n) + (if IsWorkday(d.day) then [AtMorning(d)] else []);
      if 1 <= IsoWeekday(d.day) <= 5 {
        r := r + [AtMorning(d)];
      }
      n := n + 1;
    }
  }

  /** Every yielded date is a working day at 09:35, within start's day plus
      n - 1 days. */
  lemma {:induction false} WalkWorkdays(start: DateTime, n: nat)
    requires Valid(start)
    ensures forall i :: 0 <= i < |Walk(start, n)| ==>
              var d := Walk(start, n)[i];
              IsWorkday(d.day) && start.day <= d.day < start.day + n
              && d.second == 9 * 3600 + 35 * 60 + start.second % 60
    decreases n
  {
    if n > 0 {
      WalkWorkdays(start, n - 1);
    }
  }

  /** The yielded dates are strictly ascending, and there are at most n. */
  lemma {:induction false} WalkAscending(start: DateTime, n: nat)
    requires Valid(start)
    ensures |Walk(start, n)| <= n
    ensures forall i, j :: 0 <= i < j < |Walk(start, n)| ==> Walk(start, n)[i].day < Walk(start, n)[j].day
    decreases n
  {
    if n > 0 {
      WalkAscending(start, n - 1);
      WalkWorkdays(start, n - 1);
    }
  }

  /** No working day in range is skipped. */
  lemma {:induction false} WalkComplete(start: DateTime, n: nat, day: int)
    requires Valid(start)
    requires start.day <= day < start.day + n && IsWorkday(day)
    ensures exists i :: 0 <= i < |Walk(start, n)| && Walk(start, n)[i].day == day
    decreases n
  {
    var w := Walk(start, n);
    if day < start.day + n - 1 {
      WalkComplete(start, n - 1, day);
      var i :| 0 <= i < |Walk(start, n - 1)| && Walk(start, n - 1)[i].day == day;
      assert w[i] == Walk(start, n - 1)[i];
    } else {
      assert w[|w| - 1].day == day;
    }
  }

  /** Each offset adds one date exactly when it falls on a working day. */
  lemma WalkStep(start: DateTime, n: nat)
    requires Valid(start) && n > 0
    ensures |Walk(start, n)| == |Walk(start, n - 1)| + Bit(IsWorkday(start.day + n - 1))
  {
  }

  /** The weekday after day d. */
  lemma NextWeekday(d: int)
    ensures IsoWeekday(d + 1) == IsoWeekday(d) % 7 + 1
  {
  }

  function Bit(b: bool): nat
  {
    if b then 1 else 0
  }

  /** Among seven consecutive days exactly five are working days. */
  lemma FiveOfSeven(k: int)
    ensures Bit(IsWorkday(k)) + Bit(IsWorkday(k + 1)) + Bit(IsWorkday(k + 2)) + Bit(IsWorkday(k + 3))
            + Bit(IsWorkday(k + 4)) + Bit(IsWorkday(k + 5)) + Bit(IsWorkday(k + 6)) == 5
  {
    NextWeekday(k); NextWeekday(k + 1); NextWeekday(k + 2);
    NextWeekday(k + 3); NextWeekday(k + 4); NextWeekday(k + 5);
    var w := IsoWeekday(k);
    if w == 1 {
    } else if w == 2 {
    } else if w == 3 {
    } else if w == 4 {
    } else if w == 5 {
    } else if w == 6 {
    } else {
    }
  }

  /** Every further week of range adds five dates. */
  lemma WeekAddsFive(start: DateTime, n: nat)
    requires Valid(start)
    ensures |Walk(start, n + 7)| == |Walk(start, n)| + 5
  {
    var k := start.day + n;
    FiveOfSeven(k);
    WalkStep(start, n + 7); WalkStep(start, n + 6); WalkStep(start, n + 5); WalkStep(start, n + 4);
    WalkStep(start, n + 3); WalkStep(start, n + 2); WalkStep(start, n + 1);
  }
}
