/**
 * The enrichment passes `getPlannerStandards` and `getPlannerHomework`: one
 * lookup per qualifying cell, its answer stored on the cell, the rest of the
 * week/column/cell tree left as it was.
 */
module Enrich {
  import opened Wrappers
  import opened Records

  /**
   * A pass and its lookup, keyed by the cell's date and period:
   * `getLinkedStandards` for the standards pass, `getLesson` for the homework pass.
   */
  datatype Pass =
    | StandardsPass(linked: (string, Option<int>) -> Json)
    | HomeworkPass(lesson: (string, Option<int>) -> LessonRecord)

  /**
   * Whether the pass looks the cell up: a (truthy) standards id for the
   * standards pass; a true `hasHomework` and a non-empty date for the homework pass.
   */
  predicate Qualifies(pass: Pass, c: Cell) {
    match pass
    case StandardsPass(_) => c.standardsId.Some? && c.standardsId.value != ""
    case HomeworkPass(_) => c.hasHomework == Some(true) && c.date != ""
  }

  /** A cell after the pass has visited it. */
  function Apply(pass: Pass, c: Cell): Cell
  {
    if !Qualifies(pass, c) then c
    else match pass
      case StandardsPass(linked) => c.(standards := Some(linked(c.date, c.period)))
      case HomeworkPass(lesson) => c.(homework := Some(lesson(c.date, c.period).homework))
  }

  /**
   * A pass changes only its own field, and only on a qualifying cell, where
   * it stores the lookup's answer for that cell's date and period.
   */
  lemma ApplyChangesOnlyItsField(pass: Pass, c: Cell)
    ensures var r := Apply(pass, c);
      && r.date == c.date && r.period == c.period && r.html == c.html
      && r.standardsId == c.standardsId && r.hasHomework == c.hasHomework
      && (pass.StandardsPass? ==>
        && r.homework == c.homework
        && r.standards == if Qualifies(pass, c) then Some(pass.linked(c.date, c.period)) else c.standards)
      && (pass.HomeworkPass? ==>
        && r.standards == c.standards
        && r.homework == if Qualifies(pass, c) then Some(pass.lesson(c.date, c.period).homework) else c.homework)
  {
  }

  /** The column `after` is the column `before` with every cell visited by the pass. */
  ghost predicate ColumnMapped(before: Column, after: Column, pass: Pass) {
    && after.title == before.title && after.period == before.period
    && |after.cells| == |before.cells|
    && forall k :: 0 <= k < |before.cells| ==> after.cells[k] == Apply(pass, before.cells[k])
  }

  /** The week `after` is the week `before` with every column visited by the pass. */
  ghost predicate WeekMapped(before: Week, after: Week, pass: Pass) {
    && after.start == before.start
    && |after.columns| == |before.columns|
    && forall j :: 0 <= j < |before.columns| ==> ColumnMapped(before.columns[j], after.columns[j], pass)
  }

  /** The weeks `after` are the weeks `before` with every cell visited by the pass. */
  ghost predicate WeeksMapped(before: seq<Week>, after: seq<Week>, pass: Pass) {
    && |after| == |before|
    && forall i :: 0 <= i < |before| ==> WeekMapped(before[i], after[i], pass)
  }

  /** The walk over one column's cells. */
  method EnrichColumn(col: Column, pass: Pass) returns (r: Column)
    ensures ColumnMapped(col, r, pass)
  {
    var cells := col.cells;
    var k := 0;
    while k < |cells|
      invariant k <= |cells| == |col.cells|
      invariant forall m :: 0 <= m < k ==> cells[m] == Apply(pass, col.cells[m])
      invariant forall m :: k <= m < |cells| ==> cells[m] == col.cells[m]
    {
      cells := cells[k := Apply(pass, cells[k])];
      k := k + 1;
    }
    r := col.(cells := cells);
  }

  /** The walk over one week's columns. */
  method EnrichWeek(week: Week, pass: Pass) returns (r: Week)
    ensures WeekMapped(week, r, pass)
  {
    var columns := week.columns;
    var j := 0;
    while j < |columns|
      invariant j <= |columns| == |week.columns|
      invariant forall m :: 0 <= m < j ==> ColumnMapped(week.columns[m], columns[m], pass)
      invariant forall m :: j <= m < |columns| ==> columns[m] == week.columns[m]
    {
      var col := EnrichColumn(columns[j], pass);
      columns := columns[j := col];
      j := j + 1;
    }
    r := week.(columns := columns);
  }

  /** The visited tree, as a value. */
  function MapWeeks(weeks: seq<Week>, pass: Pass): (r: seq<Week>)
    ensures WeeksMapped(weeks, r, pass)
  {
    seq(|weeks|, i requires 0 <= i < |weeks| =>
      weeks[i].(columns := seq(|weeks[i].columns|, j requires 0 <= j < |weeks[i].columns| =>
        weeks[i].columns[j].(cells := seq(|weeks[i].columns[j].cells|, k requires 0 <= k < |weeks[i].columns[j].cells| =>
          Apply(pass, weeks[i].columns[j].cells[k]))))))
  }

  /** A visit is determined by the tree and the pass: there is only one outcome. */
  lemma WeeksMappedUnique(before: seq<Week>, a: seq<Week>, b: seq<Week>, pass: Pass)
    requires WeeksMapped(before, a, pass) && WeeksMapped(before, b, pass)
    ensures a == b
  {
    forall i | 0 <= i < |before|
      ensures a[i] == b[i]
    {
      forall j | 0 <= j < |before[i].columns|
        ensures a[i].columns[j] == b[i].columns[j]
      {
        assert a[i].columns[j].cells == b[i].columns[j].cells;
      }
      assert a[i].columns == b[i].columns;
    }
  }

  /** Running a pass again over a tree it has already visited changes nothing. */
  lemma PassIdempotent(before: seq<Week>, after: seq<Week>, again: seq<Week>, pass: Pass)
    requires WeeksMapped(before, after, pass) && WeeksMapped(after, again, pass)
    ensures again == after
  {
    assert WeeksMapped(after, after, pass) by {
      forall i, j, k |
        0 <= i < |after| && 0 <= j < |after[i].columns| && 0 <= k < |after[i].columns[j].cells|
        ensures Apply(pass, after[i].columns[j].cells[k]) == after[i].columns[j].cells[k]
      {
        assert after[i].columns[j].cells[k] == Apply(pass, before[i].columns[j].cells[k]);
      }
    }
    WeeksMappedUnique(after, again, after, pass);
  }

  /** The standards pass and the homework pass may run in either order. */
  lemma PassesCommute(weeks: seq<Week>, linked: (string, Option<int>) -> Json, lesson: (string, Option<int>) -> LessonRecord)
    ensures MapWeeks(MapWeeks(weeks, StandardsPass(linked)), HomeworkPass(lesson))
         == MapWeeks(MapWeeks(weeks, HomeworkPass(lesson)), StandardsPass(linked))
  {
    var s, h := StandardsPass(linked), HomeworkPass(lesson);
    var sh, hs := MapWeeks(MapWeeks(weeks, s), h), MapWeeks(MapWeeks(weeks, h), s);
    forall i | 0 <= i < |weeks|
      ensures sh[i] == hs[i]
    {
      forall j | 0 <= j < |weeks[i].columns|
        ensures sh[i].columns[j] == hs[i].columns[j]
      {
        assert sh[i].columns[j].cells == hs[i].columns[j].cells;
      }
      assert sh[i].columns == hs[i].columns;
    }
  }
}
