/**
 * The client object: the planner weeks it last read and the lesson tree it
 * caches, and the operations that read and update them. Every request the
 * client would send is replaced by a lookup passed in by the caller.
 */
module OnCourse {
  import opened Wrappers
  import opened Records
  import opened Calendar
  import opened Planner
  import opened Enrich
  import opened Standards

  class Client {
    const username: string
    const password: string

    /** The weeks of the last planner read; before the first read, no weeks. */
    var weeks: seq<Week>

    /** The cached lesson-navigation tree, absent until it has been fetched. */
    var lessonTree: Option<seq<Node>>

    constructor (username: string, password: string)
      ensures this.username == username && this.password == password
      ensures weeks == [] && lessonTree == None
    {
      this.username := username;
      this.password := password;
      weeks := [];
      lessonTree := None;
    }

    /**
     * `getPlannerHTML(startDate, numWeeks)`: reset the weeks, then read the
     * week starting at `startDate + 7*i` for each i below `numWeeks`, in that
     * order, each from the page `fetchPlanner` returns for its start date
     * (set the planner to the date, then fetch the page). The first week
     * whose page does not parse ends the read with its error, the weeks read
     * before it kept.
     */
    method GetPlannerHTML(startDate: int, numWeeks: int, fetchPlanner: int -> Page)
      returns (r: Result<seq<Week>, Error>)
      modifies this`weeks
      ensures WeeksRead(startDate, numWeeks, fetchPlanner, weeks, r)
    {
      weeks := [];
      var starts := WeekStarts(startDate, numWeeks);
      var i := 0;
      while i < |starts|
        invariant i <= |starts| && |weeks| == i
        invariant forall j :: 0 <= j < i ==>
          WeekOf(startDate + 7 * j, fetchPlanner(startDate + 7 * j)) == Success(weeks[j])
      {
        var week := ParseWeek(starts[i], fetchPlanner(starts[i]));
        if week.Failure? {
          return Failure(week.error);
        }
        weeks := weeks + [week.value];
        i := i + 1;
      }
      r := Success(weeks);
    }

    /**
     * `getPlannerHTMLDateRange(startDate, endDate)`: read the weeks from the
     * Monday of `startDate`'s week through the Monday of `endDate`'s week,
     * one week per Monday in that span (none when the end week comes
     * first). Every week read starts on a Monday.
     */
    method GetPlannerHTMLDateRange(startDate: int, endDate: int, fetchPlanner: int -> Page)
      returns (r: Result<seq<Week>, Error>)
      modifies this`weeks
      ensures WeeksRead(SnapToMonday(startDate), RangeWeekCount(startDate, endDate), fetchPlanner, weeks, r)
      ensures forall i :: 0 <= i < |weeks| ==>
        weeks[i].start == SnapToMonday(startDate) + 7 * i && Weekday(weeks[i].start) == 1
    {
      var monday := SnapToMonday(startDate);
      r := GetPlannerHTML(monday, RangeWeekCount(startDate, endDate), fetchPlanner);
      WeeksReadFromMonday(monday, weeks, fetchPlanner);
    }

    /** Visit every cell of every week with the pass, week by week, in place. */
    method EnrichWeeks(pass: Pass)
      modifies this`weeks
      ensures WeeksMapped(old(weeks), weeks, pass)
    {
      var i := 0;
      while i < |weeks|
        invariant i <= |weeks| == |old(weeks)|
        invariant forall j :: 0 <= j < i ==> WeekMapped(old(weeks)[j], weeks[j], pass)
        invariant forall j :: i <= j < |weeks| ==> weeks[j] == old(weeks)[j]
      {
        var week := EnrichWeek(weeks[i], pass);
        weeks := weeks[i := week];
        i := i + 1;
      }
    }

    /**
     * `getPlannerStandards()`: with no weeks read it throws; otherwise every
     * cell with a standards id gets the linked standards of its date and
     * period, nothing else changes, and the same weeks are returned.
     */
    method GetPlannerStandards(linked: (string, Option<int>) -> Json)
      returns (r: Result<seq<Week>, Error>)
      modifies this`weeks
      ensures old(weeks) == [] ==>
        weeks == old(weeks) && r == Failure(EmptyWeeks("Requested planner standards when weeks is empty."))
      ensures old(weeks) != [] ==>
        WeeksMapped(old(weeks), weeks, StandardsPass(linked)) && r == Success(weeks)
    {
      if |weeks| == 0 {
        return Failure(EmptyWeeks("Requested planner standards when weeks is empty."));
      }
      EnrichWeeks(StandardsPass(linked));
      r := Success(weeks);
    }

    /**
     * `getPlannerHomework()`: with no weeks read it throws; otherwise every
     * cell flagged with homework and with a date gets the homework of the
     * lesson of its date and period, nothing else changes, and the same
     * weeks are returned.
     */
    method GetPlannerHomework(lesson: (string, Option<int>) -> LessonRecord)
      returns (r: Result<seq<Week>, Error>)
      modifies this`weeks
      ensures old(weeks) == [] ==>
        weeks == old(weeks) && r == Failure(EmptyWeeks("Requested planner homework when weeks is empty."))
      ensures old(weeks) != [] ==>
        WeeksMapped(old(weeks), weeks, HomeworkPass(lesson)) && r == Success(weeks)
    {
      if |weeks| == 0 {
        return Failure(EmptyWeeks("Requested planner homework when weeks is empty."));
      }
      EnrichWeeks(HomeworkPass(lesson));
      r := Success(weeks);
    }

    /**
     * `getLessonTree(force)`: answer the cached tree when there is one and no
     * refresh is forced, without a request; otherwise request the tree
     * (`fetched` is the server's answer), cache it and answer it.
     */
    method GetLessonTree(force: bool, fetched: seq<Node>) returns (tree: seq<Node>, requested: bool)
      modifies this`lessonTree
      ensures requested <==> force || old(lessonTree).None?
      ensures !requested ==> tree == old(lessonTree).value && lessonTree == old(lessonTree)
      ensures requested ==> tree == fetched && lessonTree == Some(fetched)
    {
      if !force && lessonTree.Some? {
        return lessonTree.value, false;
      }
      lessonTree := Some(fetched);
      tree, requested := fetched, true;
    }

    /**
     * `getStandardGroups()` as written: the groups of the cached tree. With
     * no tree cached it fails, as the code only names `getLessonTree`
     * instead of calling it and then reads the still-missing cache.
     */
    method GetStandardGroups() returns (r: Result<seq<StandardGroup>, Error>)
      ensures lessonTree.None? ==> r.Failure?
      ensures lessonTree.Some? ==> r == StandardGroupsOf(lessonTree.value)
    {
      if lessonTree.None? {
        return Failure(TypeError("Cannot read property 'filter' of undefined"));
      }
      r := StandardGroupsOf(lessonTree.value);
    }

    /**
     * `getStandardGroups()` as evidently intended: load the tree through the
     * cache first (`fetched` is the server's answer), then project it.
     */
    method GetStandardGroupsLoaded(fetched: seq<Node>) returns (r: Result<seq<StandardGroup>, Error>)
      modifies this`lessonTree
      ensures old(lessonTree).Some? ==>
        lessonTree == old(lessonTree) && r == StandardGroupsOf(old(lessonTree).value)
      ensures old(lessonTree).None? ==>
        lessonTree == Some(fetched) && r == StandardGroupsOf(fetched)
    {
      var tree, _ := GetLessonTree(false, fetched);
      r := StandardGroupsOf(tree);
    }
  }

  /**
   * What a planner read leaves behind: at most `numWeeks` weeks (none when it
   * is not positive), week i parsed from the page for `startDate + 7*i`;
   * success exactly when all of them were read, answering those weeks; on
   * failure, the error of the page for the first week missing.
   */
  ghost predicate WeeksRead(startDate: int, numWeeks: int, fetchPlanner: int -> Page,
                            weeks: seq<Week>, r: Result<seq<Week>, Error>) {
    var count := if numWeeks > 0 then numWeeks else 0;
    && |weeks| <= count
    && (forall i :: 0 <= i < |weeks| ==>
         WeekOf(startDate + 7 * i, fetchPlanner(startDate + 7 * i)) == Success(weeks[i]))
    && (r.Success? <==> |weeks| == count)
    && (r.Success? ==> r.value == weeks)
    && (r.Failure? ==>
         WeekOf(startDate + 7 * |weeks|, fetchPlanner(startDate + 7 * |weeks|)) == Failure(r.error))
  }

  /** Weeks read from a Monday, seven days apart, each start on the Monday they were read for. */
  lemma WeeksReadFromMonday(monday: int, weeks: seq<Week>, fetchPlanner: int -> Page)
    requires Weekday(monday) == 1
    requires forall i :: 0 <= i < |weeks| ==>
      WeekOf(monday + 7 * i, fetchPlanner(monday + 7 * i)) == Success(weeks[i])
    ensures forall i :: 0 <= i < |weeks| ==>
      weeks[i].start == monday + 7 * i && Weekday(weeks[i].start) == 1
  {
    forall i | 0 <= i < |weeks|
      ensures weeks[i].start == monday + 7 * i && Weekday(weeks[i].start) == 1
    {
      WeekOfStart(monday + 7 * i, fetchPlanner(monday + 7 * i));
      WeeksFromMonday(monday, i);
    }
  }

  /**
   * A fresh client whose server tree has a "Standards" branch with one
   * group: as written the groups cannot be read, as intended they are.
   */
  method UnloadedTreeGroups() returns (asWritten: Result<seq<StandardGroup>, Error>,
                                        intended: Result<seq<StandardGroup>, Error>)
    ensures asWritten.Failure?
    ensures intended == Success([StandardGroup("Math", Some(JNumber(7)))])
  {
    var math := Node("Math", [], Some(XConfig(Some(JNumber(7)))));
    var tree := [Node("Standards", [math], None)];
    var c := new Client("teacher", "secret");
    asWritten := c.GetStandardGroups();
    var d := new Client("teacher", "secret");
    intended := d.GetStandardGroupsLoaded(tree);
    assert FirstBranch(tree, "Standards") == 0;
    assert [math][1..] == [];
    var group := StandardGroup("Math", Some(JNumber(7)));
    assert ProjectChildren([]) == Success([]);
    assert [group] + [] == [group];
    assert ProjectChildren([math]) == Success([StandardGroup("Math", Some(JNumber(7)))]);
  }
}
