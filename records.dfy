/**
 * The values the OnCourse client passes around: planner cells, columns and
 * weeks, lesson records, the lesson-navigation tree, and the errors the
 * client throws.
 */
module Records {
  import opened Wrappers

  /** A parsed JSON value as the server returns it (numbers kept integral). */
  datatype Json =
    | JNull
    | JBool(b: bool)
    | JNumber(n: int)
    | JString(s: string)
    | JArray(items: seq<Json>)
    | JObject(members: seq<(string, Json)>)

  /** The errors the client throws or rejects with. */
  datatype Error =
    | EmptyWeeks(message: string)  // enrichment asked for before any week was read
    | TypeError(message: string)   // a property read on `null` / `undefined`

  /**
   * One planner cell. `period` is None where `parseInt` yields NaN;
   * `hasHomework` is either Some(true) or absent, never Some(false);
   * `standards` and `homework` stay absent until an enrichment pass fills them.
   */
  datatype Cell = Cell(
    date: string,
    period: Option<int>,
    html: Option<string>,
    standardsId: Option<string>,
    hasHomework: Option<bool>,
    standards: Option<Json>,
    homework: Option<string>)

  /** A planner column: its header label (`title`, as `label` is a Dafny keyword), 1-based period and its cells. */
  datatype Column = Column(title: string, period: int, cells: seq<Cell>)

  /** One week of the planner, `start` a day number. */
  datatype Week = Week(start: int, columns: seq<Column>)

  /** The inner record of the lesson_record endpoint. */
  datatype LessonRecord = LessonRecord(notes: string, homework: string)

  /** What `xconfig` holds on a node of the lesson tree. */
  datatype XConfig = XConfig(setId: Option<Json>)

  /** A node of the lesson-navigation tree. */
  datatype Node = Node(text: string, children: seq<Node>, xconfig: Option<XConfig>)

  /** A standards group as `getStandardGroups` projects it. */
  datatype StandardGroup = StandardGroup(title: string, setId: Option<Json>)
}
