/** The endpoint table of the client and `buildUrl`. */
module Urls {

  const UrlBase: string := "http://www.oncoursesystems.com/"

  /** The symbolic endpoint keys and their paths below `UrlBase`. */
  const UrlPaths: map<string, string> := map[
    "setPlanner" := "planner/planner_frame.aspx",
    "getPlanner" := "planner/planner.aspx",
    "closePlanner" := "planner/planner_navigation_bar.aspx",
    "getStandardsOld" := "json.axd/LessonPlan/references_linked",
    "getStandardsNew" := "json.axd/standards/lesson_standards",
    "linkStandards" := "json.axd/standards/link_standards",
    "getStandardAreas" := "json.axd/standards/lesson_standard_areas",
    "getStandardFilters" := "json.axd/standards/lesson_standard_filters",
    "getStandardsTree" := "json.axd/standards/lesson_standards_tree",
    "getLesson" := "json.axd/LessonPlan/lesson_record",
    "postLesson" := "json.axd/LessonPlan/lesson_record_save",
    "getLessonTree" := "json.axd/LessonPlan/lesson_tree"
  ]

  /**
   * `buildUrl(key)`: the base followed by the key's path. A key missing from
   * the table reads `undefined`, which string concatenation spells out.
   */
  function BuildUrl(key: string): (url: string)
    ensures |url| > |UrlBase| && url[..|UrlBase|] == UrlBase
    ensures key in UrlPaths ==> url == UrlBase + UrlPaths[key]
    ensures key !in UrlPaths ==> url[|UrlBase|..] == "undefined"
  {
    UrlBase + (if key in UrlPaths then UrlPaths[key] else "undefined")
  }

  /** Distinct known keys lead to distinct URLs, and none of them to the missing-key URL. */
  lemma BuildUrlInjective(k1: string, k2: string)
    requires k1 in UrlPaths && k1 != k2
    ensures BuildUrl(k1) != BuildUrl(k2)
  {
    assert BuildUrl(k1)[|UrlBase|..] == UrlPaths[k1];
  }

  /**
   * As written, the standards-tree request is sent to `BuildUrl("getStandardTree")`,
   * a key the table lacks, so it goes to the base URL followed by `undefined`.
   */
  lemma StandardsTreeUrlAsWritten()
    ensures "getStandardTree" !in UrlPaths
    ensures BuildUrl("getStandardTree") == UrlBase + "undefined"
  {
  }

  /** The URL the standards-tree request evidently means: the table's own entry. */
  function StandardsTreeUrl(): (url: string)
    ensures url == UrlBase + "json.axd/standards/lesson_standards_tree"
    ensures url != BuildUrl("getStandardTree")
  {
    BuildUrl("getStandardsTree")
  }
}
