/**
 * `findLastLesson`: walk forward from a date over the days that are neither
 * weekends nor listed to skip, while their lesson has content, and answer
 * the last day reached before an empty one.
 */
module LastLesson {
  import opened Records
  import opened Calendar

  /** `momentIndexOf(days, m)`: whether some day of `days` is `m` (a yes/no answer despite the name). */
  function MomentIndexOf(days: seq<int>, m: int): (r: bool)
    ensures r <==> exists i :: 0 <= i < |days| && days[i] == m
  {
    days != [] && (days[0] == m || MomentIndexOf(days[1..], m))
  }

  /** A day the search steps over: a listed skip date, a Sunday (0) or a Saturday (6). */
  predicate Skipped(d: int, skips: seq<int>) {
    MomentIndexOf(skips, d) || Weekday(d) == 0 || Weekday(d) == 6
  }

  /** Whether a lesson has content: non-empty homework or notes. */
  predicate HasContent(lesson: LessonRecord) {
    |lesson.homework| > 0 || |lesson.notes| > 0
  }

  /** The latest skip date. */
  function MaxDay(skips: seq<int>): (m: int)
    requires skips != []
    ensures forall i :: 0 <= i < |skips| ==> skips[i] <= m
  {
    if |skips| == 1 then skips[0]
    else
      var m := MaxDay(skips[1..]);
      if skips[0] > m then skips[0] else m
  }

  /**
   * How far `c` can be from the next day not skipped: past the last skip
   * date only a weekend can intervene.
   */
  function Distance(c: int, skips: seq<int>): nat
  {
    if skips != [] && c <= MaxDay(skips) then MaxDay(skips) - c + 3
    else if Weekday(c) == 6 then 2
    else if Weekday(c) == 0 then 1
    else 0
  }

  /** Stepping over a skipped day brings the next day not skipped closer. */
  lemma DistanceDecreases(c: int, skips: seq<int>)
    requires Skipped(c, skips)
    ensures Distance(c + 1, skips) < Distance(c, skips)
  {
    WeekdayOf(c, c / 7, Weekday(c));
    if Weekday(c) < 6 {
      WeekdayOf(c + 1, c / 7, Weekday(c) + 1);
    } else {
      WeekdayOf(c + 1, c / 7 + 1, 0);
    }
  }

  /** The first day from `c` on that is not skipped. */
  function SkipFrom(c: int, skips: seq<int>): (r: int)
    ensures r >= c && !Skipped(r, skips)
    ensures forall d :: c <= d < r ==> Skipped(d, skips)
    decreases Distance(c, skips)
  {
    if !Skipped(c, skips) then c
    else
      DistanceDecreases(c, skips);
      SkipFrom(c + 1, skips)
  }

  /**
   * What `findLastLesson(date)` answers: the start date itself or a later
   * day with content that is not skipped; every day not skipped after the
   * start up to it has content; and the next day not skipped after it is empty.
   */
  ghost predicate IsLastLesson(date: int, period: int, skips: seq<int>,
                               getLesson: (int, int) -> LessonRecord, last: int) {
    && (last == date || (date < last && !Skipped(last, skips) && HasContent(getLesson(last, period))))
    && (forall d :: date < d <= last && !Skipped(d, skips) ==> HasContent(getLesson(d, period)))
    && !HasContent(getLesson(SkipFrom(last + 1, skips), period))
  }

  /** Only one day fits that description. */
  lemma IsLastLessonUnique(date: int, period: int, skips: seq<int>,
                           getLesson: (int, int) -> LessonRecord, a: int, b: int)
    requires IsLastLesson(date, period, skips, getLesson, a)
    requires IsLastLesson(date, period, skips, getLesson, b)
    ensures a == b
  {
  }

  /**
   * The worked case: from a Monday D with nothing to skip, lessons on
   * Tuesday to Thursday and none on Friday, the answer is Thursday, D + 3.
   */
  lemma ThreeFullDaysThenEmpty(date: int, period: int, getLesson: (int, int) -> LessonRecord, last: int)
    requires Weekday(date) == 1
    requires HasContent(getLesson(date + 1, period)) && HasContent(getLesson(date + 2, period))
    requires HasContent(getLesson(date + 3, period))
    requires !HasContent(getLesson(date + 4, period))
    requires IsLastLesson(date, period, [], getLesson, last)
    ensures last == date + 3
  {
    var q := date / 7;
    WeekdayOf(date + 1, q, 2);
    WeekdayOf(date + 2, q, 3);
    WeekdayOf(date + 3, q, 4);
    WeekdayOf(date + 4, q, 5);
    assert SkipFrom(date + 4, []) == date + 4;
    assert HasContent(getLesson(date + 3, period));
    IsLastLessonUnique(date, period, [], getLesson, last, date + 3);
  }

  /** The `while` loop of `findLastLesson`: step from `from` to the next day not skipped. */
  method NextCandidate(from: int, skips: seq<int>) returns (c: int)
    ensures c == SkipFrom(from + 1, skips)
  {
    c := from + 1;
    while Skipped(c, skips)
      invariant from + 1 <= c <= SkipFrom(from + 1, skips)
      invariant SkipFrom(c, skips) == SkipFrom(from + 1, skips)
      decreases SkipFrom(from + 1, skips) - c
    {
      c := c + 1;
    }
  }

  /**
   * The days looked up so far, from `date` on: the first is the next day not
   * skipped after `date`, each later one the next day not skipped after the
   * one before.
   */
  ghost predicate QueriedChain(date: int, skips: seq<int>, queried: seq<int>) {
    && |queried| > 0 && queried[0] == SkipFrom(date + 1, skips)
    && (forall k :: 0 < k < |queried| ==> queried[k] == SkipFrom(queried[k - 1] + 1, skips))
  }

  /** Looking up the next day not skipped extends the chain. */
  lemma QueriedChainStep(date: int, skips: seq<int>, queried: seq<int>, next: int)
    requires QueriedChain(date, skips, queried)
    requires next == SkipFrom(queried[|queried| - 1] + 1, skips)
    ensures QueriedChain(date, skips, queried + [next])
  {
    var q := queried + [next];
    assert q[0] == queried[0];
    forall k | 0 < k < |q|
      ensures q[k] == SkipFrom(q[k - 1] + 1, skips)
    {
      assert q[k - 1] == queried[k - 1];
      if k < |queried| { assert q[k] == queried[k]; }
    }
  }

  /** Every day of the chain is a day not skipped. */
  lemma QueriedNotSkipped(date: int, skips: seq<int>, queried: seq<int>)
    requires QueriedChain(date, skips, queried)
    ensures forall k :: 0 <= k < |queried| ==> !Skipped(queried[k], skips)
  {
    forall k | 0 <= k < |queried|
      ensures !Skipped(queried[k], skips)
    {
      if k == 0 {
        assert queried[0] == SkipFrom(date + 1, skips);
      } else {
        assert queried[k] == SkipFrom(queried[k - 1] + 1, skips);
      }
    }
  }

  /**
   * Moving the answer on to a non-skipped day with content keeps every
   * non-skipped day up to the answer a day with content.
   */
  lemma ContentStep(date: int, period: int, skips: seq<int>,
                    getLesson: (int, int) -> LessonRecord, last: int)
    requires forall d :: date < d <= last && !Skipped(d, skips) ==> HasContent(getLesson(d, period))
    requires HasContent(getLesson(SkipFrom(last + 1, skips), period))
    ensures forall d :: date < d <= SkipFrom(last + 1, skips) && !Skipped(d, skips) ==>
      HasContent(getLesson(d, period))
  {
  }

  /**
   * `findLastLesson(date, period, skips)` with its tail call turned into a
   * loop. `stop` is a day not skipped, after `date`, whose lesson is empty:
   * without one the search would go on for ever. Besides the answer it
   * returns the days whose lesson it looked up, in order: each the next day
   * not skipped after the one before, the last the empty one.
   */
  method FindLastLesson(date: int, period: int, skips: seq<int>,
                        getLesson: (int, int) -> LessonRecord, ghost stop: int)
    returns (last: int, queried: seq<int>)
    requires date < stop && !Skipped(stop, skips) && !HasContent(getLesson(stop, period))
    ensures IsLastLesson(date, period, skips, getLesson, last)
    ensures last < stop
    ensures |queried| > 0 && queried[|queried| - 1] == SkipFrom(last + 1, skips)
    ensures queried[0] == SkipFrom(date + 1, skips)
    ensures forall k :: 0 < k < |queried| ==> queried[k] == SkipFrom(queried[k - 1] + 1, skips)
    ensures forall k :: 0 <= k < |queried| ==> !Skipped(queried[k], skips)
  {
    last := date;
    var candidate := NextCandidate(last, skips);
    queried := [candidate];
    while HasContent(getLesson(candidate, period))
      invariant date <= last < candidate <= stop
      invariant candidate == SkipFrom(last + 1, skips)
      invariant last == date || (!Skipped(last, skips) && HasContent(getLesson(last, period)))
      invariant forall d :: date < d <= last && !Skipped(d, skips) ==> HasContent(getLesson(d, period))
      invariant QueriedChain(date, skips, queried) && queried[|queried| - 1] == candidate
      decreases stop - last
    {
      ContentStep(date, period, skips, getLesson, last);
      var next := NextCandidate(candidate, skips);
      QueriedChainStep(date, skips, queried, next);
      last, candidate := candidate, next;
      queried := queried + [next];
    }
    QueriedNotSkipped(date, skips, queried);
  }
}
