/**
 * Calendar dates as integer day numbers. Day 0 is a Sunday, and weekdays are
 * numbered as in moment's default locale: 0 = Sunday, 1 = Monday, ..., 6 = Saturday.
 */
module Calendar {

  /** The day of the week of day `d`. */
  function Weekday(d: int): (w: int)
    ensures 0 <= w < 7
  {
    d % 7
  }

  /** `d` is `r` days into the week numbered `q` exactly when it is day 7*q + r. */
  lemma WeekdayOf(d: int, q: int, r: int)
    requires d == 7 * q + r && 0 <= r < 7
    ensures Weekday(d) == r && d / 7 == q
  {
  }

  /**
   * `moment(d).weekday(1)`: the Monday of the Sunday-started week holding `d`.
   * A Sunday therefore moves forward to the next day.
   */
  function SnapToMonday(d: int): (m: int)
    ensures Weekday(m) == 1
    ensures m - 1 <= d <= m + 5
  {
    WeekdayOf(d - Weekday(d) + 1, d / 7, 1);
    d - Weekday(d) + 1
  }

  /** The week holding `d` has only one Monday: the snapped one. */
  lemma SnapToMondayUnique(d: int, m: int)
    requires Weekday(m) == 1 && m - 1 <= d <= m + 5
    ensures m == SnapToMonday(d)
  {
    WeekdayOf(m, m / 7, 1);
    WeekdayOf(d, m / 7, d - (m - 1));
  }

  /** `b.diff(a, 'weeks')`: the whole weeks from `a` to `b`, truncated toward zero. */
  function WeeksBetween(a: int, b: int): (w: int)
    ensures a <= b ==> 0 <= 7 * w <= b - a < 7 * w + 7
    ensures b < a ==> b - a <= 7 * w < b - a + 7 && w <= 0
  {
    if b >= a then (b - a) / 7 else -((a - b) / 7)
  }

  /** Swapping the two dates negates the week difference, as truncation toward zero does. */
  lemma WeeksBetweenAntisymmetric(a: int, b: int)
    ensures WeeksBetween(b, a) == -WeeksBetween(a, b)
  {
  }

  /**
   * The number of weeks `getPlannerHTMLDateRange` asks for: both dates are
   * snapped to their Monday and the week difference is counted inclusively.
   */
  function RangeWeekCount(startDate: int, endDate: int): int
  {
    WeeksBetween(SnapToMonday(startDate), SnapToMonday(endDate)) + 1
  }

  /** Two Mondays lie a whole number of weeks apart. */
  lemma MondaysWholeWeeksApart(a: int, b: int)
    requires Weekday(a) == 1 && Weekday(b) == 1
    ensures (b - a) % 7 == 0
  {
    assert a == 7 * (a / 7) + 1;
    assert b == 7 * (b / 7) + 1;
    assert b - a == 7 * (b / 7 - a / 7);
  }

  /** The week count spans exactly the Mondays from the first to the last. */
  lemma RangeWeekCountSpan(startDate: int, endDate: int)
    ensures SnapToMonday(startDate) + 7 * (RangeWeekCount(startDate, endDate) - 1)
         == SnapToMonday(endDate)
  {
    var a, b := SnapToMonday(startDate), SnapToMonday(endDate);
    MondaysWholeWeeksApart(a, b);
    if b >= a {
      assert b - a == 7 * ((b - a) / 7);
    } else {
      MondaysWholeWeeksApart(b, a);
      assert a - b == 7 * ((a - b) / 7);
    }
  }

  /**
   * Both dates in the same week read one week, Mondays seven days apart read
   * two, and an end week before the start week yields a count of at most 0.
   */
  lemma RangeWeekCountCases(startDate: int, endDate: int)
    ensures SnapToMonday(endDate) == SnapToMonday(startDate) ==> RangeWeekCount(startDate, endDate) == 1
    ensures SnapToMonday(endDate) == SnapToMonday(startDate) + 7 ==> RangeWeekCount(startDate, endDate) == 2
    ensures RangeWeekCount(startDate, endDate) <= 0 <==> SnapToMonday(endDate) < SnapToMonday(startDate)
  {
    RangeWeekCountSpan(startDate, endDate);
  }

  /**
   * Every day from `startDate` to `endDate` other than a Sunday falls in one
   * of the weeks read: the i-th of them starts on the start Monday plus 7*i.
   */
  lemma RangeCoversDays(startDate: int, endDate: int, d: int)
    requires startDate <= d <= endDate && Weekday(d) != 0
    ensures var i := (SnapToMonday(d) - SnapToMonday(startDate)) / 7;
      && 0 <= i < RangeWeekCount(startDate, endDate)
      && SnapToMonday(startDate) + 7 * i <= d < SnapToMonday(startDate) + 7 * i + 7
  {
    var a, m, b := SnapToMonday(startDate), SnapToMonday(d), SnapToMonday(endDate);
    MondaysWholeWeeksApart(a, m);
    MondaysWholeWeeksApart(m, b);
    assert a <= m && m <= b;
    assert m - a == 7 * ((m - a) / 7);
    RangeWeekCountSpan(startDate, endDate);
  }

  /** Adding whole weeks to a Monday gives a Monday. */
  lemma {:induction false} WeeksFromMonday(m: int, i: nat)
    requires Weekday(m) == 1
    ensures Weekday(m + 7 * i) == 1
  {
    if i > 0 {
      WeeksFromMonday(m, i - 1);
      assert m + 7 * i == (m + 7 * (i - 1)) + 7;
    }
  }

  /**
   * The start dates `getPlannerHTML` reads: `numWeeks` of them (none when it
   * is not positive), seven days apart, from `startDate` on.
   */
  method WeekStarts(startDate: int, numWeeks: int) returns (starts: seq<int>)
    ensures |starts| == if numWeeks > 0 then numWeeks else 0
    ensures forall i :: 0 <= i < |starts| ==> starts[i] == startDate + 7 * i
  {
    starts := [];
    var i := 0;
    while i < numWeeks
      invariant i == |starts| && (numWeeks > 0 ==> i <= numWeeks) && (numWeeks <= 0 ==> i == 0)
      invariant forall j :: 0 <= j < i ==> starts[j] == startDate + 7 * j
    {
      starts := starts + [startDate + 7 * i];
      i := i + 1;
    }
  }
}
