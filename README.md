# OnCourse planner client — a Dafny model

This project models the decision logic of `lib/oncourse/client.js`, a
scraping client for the OnCourse lesson-planning web application. The
client reads the weekly planner page week by week, rebuilds the planner
grid from it, enriches cells with linked standards and homework, looks for
the last lesson with content, and caches the lesson-navigation tree.

The model keeps the client's own shapes:

- `Records`: the values. Weeks, columns and cells; lesson records; tree
  nodes; standards groups; a small JSON value; the errors the client throws.
  The column and group field `label` is called `title`, because `label` is a
  Dafny keyword.
- `JsText`: the JavaScript built-ins the parser leans on. These are
  `String.prototype.trim`, `parseInt` with no radix and the first match of
  `/[0-9]+/`, with the white-space set and parsing steps of ECMA-262
  (sections 7.2, 7.3 and 15.1.2.2 of the 5.1 edition).
- `Calendar`: dates as integer day numbers. Day 0 is a Sunday. Weekday 0 is
  Sunday and 6 is Saturday, as in moment's default locale. The module also
  holds `weekday(1)` snapping, the week count of a date range and the loop
  that lists week start dates.
- `Urls`: the endpoint table and `buildUrl`.
- `Planner`: the parsing body of `getPlannerHTML`. A page is given as its
  header texts and one record per grid cell: id, preview markup, blue-flag
  `onclick`, house icon. The header loop, the cell loop and the per-column
  filter are methods proved against the functions `Grouped` and `WeekOf`.
- `Enrich`: the traversal shared by `getPlannerStandards` and
  `getPlannerHomework`. It visits every cell of every column of every week
  and applies a pass to the cells that qualify.
- `LastLesson`: `findLastLesson` and `momentIndexOf`. The tail recursion
  becomes a loop.
- `Standards`: the filter/map of `getStandardGroups`.
- `OnCourse`: the class `Client`. It has the fields `weeks` and
  `lessonTree`, and the methods that reset, fill and enrich them.

Requests become inputs. `fetchPlanner(start)` is the page the server
returns after the planner was set to `start`. `linked(date, period)` and
`lesson(date, period)` stand for `getLinkedStandards` and `getLesson`. A
`fetched` tree stands for the answer of the lesson-tree request.

The code behaves as follows where its names or comments suggest otherwise:

- The comment at `lib/oncourse/client.js:221` speaks of the "first empty
  lesson", but `findLastLesson` returns the date it was called with once
  the next eligible day is empty. That is the last day with content, or the
  start date itself. It is not the first empty day.
- `getPlannerHTML` does not snap its start date to a Monday. Only
  `getPlannerHTMLDateRange` does, and a Sunday snaps forward to the next
  day.
- A blue-flag `onclick` that is non-empty but holds no digit does not just
  leave `standardsId` unset. The regex match is `null`, indexing it throws,
  and the whole week read fails with that error.
- `hasHomework` is either `true` or absent, never `false`.

## Model

| member | source | states |
|---|---|---|
| `Urls.BuildUrl` | lib/oncourse/client.js:33-35 | every URL starts with the base; a key of the table yields the base followed by that key's path, and a key missing from the table yields the base followed by `undefined` |
| `Urls.BuildUrlInjective` | lib/oncourse/client.js:14-27 | distinct known endpoint keys never share a URL, nor with the missing-key URL |
| `Urls.StandardsTreeUrlAsWritten` | lib/oncourse/client.js:427 | the key used for the standards-tree request is absent from the table, so the request goes to `.../undefined` |
| `Urls.StandardsTreeUrl` | lib/oncourse/client.js:23 | the intended standards-tree URL is the table's `lesson_standards_tree` entry, different from the as-written one |
| `JsText.TrimKeepsCore` | lib/oncourse/client.js:131 | `Trim` specified: a trimmed label is the piece of the header between its leading and trailing white space, and starts and ends with a non-space |
| `JsText.TrimEmptyIffBlank` | lib/oncourse/client.js:131 | a trimmed label is empty exactly when the header text is all white space |
| `JsText.TrimEdges` | lib/oncourse/client.js:131 | a trimmed label that is not empty starts and ends with a non-space |
| `JsText.TrimIdempotent` | lib/oncourse/client.js:131 | trimming a trimmed label changes nothing |
| `JsText.ParseIntSkipsSpaces` | lib/oncourse/client.js:143 | `ParseInt` specified: `parseInt` skips all leading white space, then reads sign, radix prefix and digits from the first non-space character |
| `JsText.ParseTwoDigits` | lib/oncourse/client.js:143 | two decimal digits parse to ten times the first plus the second |
| `JsText.ParsePad2` | lib/oncourse/client.js:143 | `parseInt` of a zero-padded two-digit period gives back the period, for 0..99 |
| `JsText.DigitRun` | lib/oncourse/client.js:148-149 | the match of `/[0-9]+/`: no digit before it, all digits inside, none right after; empty exactly when the text has no digit |
| `Planner.IdPeriodText` | lib/oncourse/client.js:142-143 | the date slice followed by the period slice is the whole id; the period slice has at most two characters |
| `Planner.CellIdRoundTrip` | lib/oncourse/client.js:142-143 | an id made of a date prefix and a zero-padded period splits back into that prefix and that period |
| `Planner.CellIdRebuild` | lib/oncourse/client.js:142-143 | an id ending in two decimal digits is its date part followed by its zero-padded period |
| `Planner.StandardsIdMatch` | lib/oncourse/client.js:146-150 | `StandardsId` specified: no id without a flag or with an empty `onclick`; a successful read holds an id exactly when the `onclick` is non-empty, and that id is exactly the first maximal digit run; a TypeError exactly when a non-empty `onclick` holds no digit |
| `Planner.ParseCellFields` | lib/oncourse/client.js:140-157 | `ParseCell` specified: a cell fails only on a bad flag, with that error; its date followed by the id's last two characters is the id, and its period is `parseInt` of those characters; its body is the preview markup; `hasHomework` is set, to true, exactly when the house icon shows; no standards or homework yet |
| `Planner.ParsedCellsValues` | lib/oncourse/client.js:140-158 | a page that parses has one cell per grid record, the i-th being the parse of the i-th record |
| `Planner.ParsedCellsAllParse` | lib/oncourse/client.js:140-158 | a page whose every grid record parses, parses |
| `Planner.ParsedCellsFirstError` | lib/oncourse/client.js:140-158 | a page that fails, fails with the error of its first record that fails, all records before it parsing |
| `Planner.ParsedCellsMeaning` | lib/oncourse/client.js:140-158 | `ParsedCells` specified: the page parses exactly when every cell does, one cell per record in order; otherwise with the error of the first bad cell |
| `Planner.CellsWithPeriod` | lib/oncourse/client.js:160 | keeps a cell exactly when its period equals the column's |
| `Planner.CellsWithPeriodCount` | lib/oncourse/client.js:160 | each cell of the period is kept as often as it occurs, every other cell dropped |
| `Planner.CellsWithPeriodAppend` | lib/oncourse/client.js:160 | the filter distributes over concatenation, so document order is kept |
| `Planner.Grouped` | lib/oncourse/client.js:129-134 | header k becomes the column with period k+1 and the trimmed label; its cells are exactly the cells of that period, so a cell matching no column is in none |
| `Planner.WeekOfStart` | lib/oncourse/client.js:89-92 | a week read for a start date carries that start date |
| `Planner.ParseColumns` | lib/oncourse/client.js:129-134 | the header loop: one column per header, in header order, label trimmed, period index+1 |
| `Planner.ParseCells` | lib/oncourse/client.js:140-158 | the cell loop gives exactly the page's parse, stopping at the first bad cell |
| `Planner.FillColumns` | lib/oncourse/client.js:159-161 | the column loop: every column keeps its label and period and gets exactly the cells of its period, in document order |
| `Planner.ParseWeek` | lib/oncourse/client.js:125-161 | header loop, cell loop and per-column filter together give exactly `WeekOf`: the page's parsed cells grouped by `Grouped`, or the error of the first bad cell (`ParsedCellsMeaning`) |
| `Calendar.WeekStarts` | lib/oncourse/client.js:83-87 | `numWeeks` start dates, none when it is not positive, the i-th being `startDate + 7*i` |
| `Calendar.WeeksFromMonday` | lib/oncourse/client.js:86 | whole weeks after a Monday are Mondays |
| `Calendar.SnapToMonday` | lib/oncourse/client.js:175-176 | `weekday(1)` lands on a Monday lying from one day after to five days before the date |
| `Calendar.SnapToMondayUnique` | lib/oncourse/client.js:175-176 | that Monday is the only one with this property |
| `Calendar.WeeksBetween` | lib/oncourse/client.js:180 | `diff(.., 'weeks')`: the whole weeks between two dates, truncated toward zero, with the sign of the difference |
| `Calendar.WeeksBetweenAntisymmetric` | lib/oncourse/client.js:180 | swapping the two dates negates the week difference |
| `Calendar.RangeWeekCountSpan` | lib/oncourse/client.js:175-180 | `RangeWeekCount` specified: the start Monday plus 7 times (count - 1) is the end Monday |
| `Calendar.RangeWeekCountCases` | lib/oncourse/client.js:178-180 | same Monday reads 1 week, Mondays 7 days apart read 2, and the count is at most 0 exactly when the end week precedes the start week |
| `Calendar.RangeCoversDays` | lib/oncourse/client.js:171-181 | every day of the range except a Sunday lies in one of the weeks read |
| `Enrich.ApplyChangesOnlyItsField` | lib/oncourse/client.js:199-203 | `Apply` and `Qualifies` specified (the homework pass at lines 281-285 alike): a pass changes only its own field, only on a qualifying cell, storing the lookup for that cell's date and period |
| `Enrich.EnrichColumn` | lib/oncourse/client.js:198-206 | the cell walk visits every cell of the column in place and keeps label and period |
| `Enrich.EnrichWeek` | lib/oncourse/client.js:197-207 | the column walk visits every column of the week in place and keeps the start |
| `Enrich.MapWeeks` | lib/oncourse/client.js:196-208 | the visited tree has the same weeks, columns and cells, each cell visited |
| `Enrich.WeeksMappedUnique` | lib/oncourse/client.js:196-208 | a visit has only one outcome for a tree and a pass |
| `Enrich.PassIdempotent` | lib/oncourse/client.js:281-285 | running a pass again over its own output changes nothing |
| `Enrich.PassesCommute` | lib/oncourse/client.js:189-212 | the standards pass and the homework pass give the same tree in either order |
| `LastLesson.MomentIndexOf` | lib/oncourse/client.js:215-219 | true exactly when some day of the list is the given day |
| `LastLesson.SkipFrom` | lib/oncourse/client.js:231-233 | the first day from a given day on that is neither a skip date nor a weekend; every day before it is one of those |
| `LastLesson.NextCandidate` | lib/oncourse/client.js:230-233 | the while loop stops at exactly the first such day after the given one |
| `LastLesson.FindLastLesson` | lib/oncourse/client.js:223-241 | answers the start date or an eligible day with content; every eligible day up to it has content; the next eligible day is empty; only eligible days are looked up, each the next after the one before |
| `LastLesson.IsLastLessonUnique` | lib/oncourse/client.js:223-241 | only one day fits that description |
| `LastLesson.ThreeFullDaysThenEmpty` | lib/oncourse/client.js:221-241 | from a Monday D, with lessons on D+1..D+3 and none on D+4, the answer is D+3 |
| `Standards.FirstBranch` | lib/oncourse/client.js:369-371 | the first branch with the given text, with no such branch before it; the tree's length when there is none |
| `Standards.ProjectChildren` | lib/oncourse/client.js:373-378 | one (label, setId) per child in order, or a TypeError when some child lacks `xconfig` |
| `Standards.StandardGroupsOf` | lib/oncourse/client.js:369-378 | fails without a "Standards" branch; with one, succeeds exactly when every child of the first such branch has `xconfig`; the groups are then those children, in order, with their text and `xconfig.setId` |
| `OnCourse.Client.constructor` | lib/oncourse/client.js:9-30 | a new client has its credentials, no weeks and no cached tree |
| `OnCourse.Client.GetPlannerHTML` | lib/oncourse/client.js:79-169 | resets the weeks, then holds the weeks from `startDate + 7*i` in order; all `numWeeks` on success, otherwise those before the first failing week, whose error is returned |
| `OnCourse.Client.GetPlannerHTMLDateRange` | lib/oncourse/client.js:173-182 | reads from the start date's Monday, one week per Monday through the end date's Monday; every week read starts on a Monday |
| `OnCourse.Client.EnrichWeeks` | lib/oncourse/client.js:196-208 | visits every week in place with the pass, keeping the tree's structure |
| `OnCourse.Client.GetPlannerStandards` | lib/oncourse/client.js:189-212 | throws on no weeks; otherwise only cells with a standards id gain `standards`, looked up by date and period; the same weeks are returned |
| `OnCourse.Client.GetPlannerHomework` | lib/oncourse/client.js:271-294 | throws on no weeks; otherwise only cells with `hasHomework` and a date gain `homework` from their lesson; the same weeks are returned |
| `OnCourse.Client.GetLessonTree` | lib/oncourse/client.js:332-355 | a cached tree without `force` is answered without a request; otherwise the tree is requested, cached and answered |
| `OnCourse.Client.GetStandardGroups` | lib/oncourse/client.js:359-380 | the groups of the cached tree; with nothing cached it fails |
| `OnCourse.Client.GetStandardGroupsLoaded` | lib/oncourse/client.js:359-380 | loads the tree through the cache, then gives its groups |
| `OnCourse.UnloadedTreeGroups` | lib/oncourse/client.js:362-369 | a fresh client gets no groups as written and the one group of its server tree as intended |

## Findings

| source | as written | input that shows it | evidently intended | confidence | as-written member | corrected member |
|---|---|---|---|---|---|---|
| lib/oncourse/client.js:362-369 | with no cached tree, the code returns `getLessonTree` without calling it, then reads `filter` of the missing cache and throws | a fresh client whose server tree has a "Standards" branch with one child | fetch the tree through the cache, then project it | not executed | `OnCourse.Client.GetStandardGroups` (shown by `OnCourse.UnloadedTreeGroups`) | `OnCourse.Client.GetStandardGroupsLoaded` |
| lib/oncourse/client.js:427 | the standards-tree request builds its URL from `getStandardTree`, a key missing from the table, so it posts to the base URL followed by `undefined` | any call of `getLessonStandardsTree` | the table's `getStandardsTree` entry | not executed | `Urls.StandardsTreeUrlAsWritten` | `Urls.StandardsTreeUrl` |

## Left out

- `login` is left out: it is one network request plus a regex over the answer, and its only effect is the session cookie and the user id the requests carry.
- HTTP transport is left out: the cookie jar, the user agent, redirect following and transport failures. Every lookup given to the model always answers.
- The `lastResponse` field, which holds the raw planner HTML, is not modelled.
- The promise chains become plain sequential loops. Concurrency is not modelled.
- Cheerio's DOM queries are not modelled. The model receives the header texts and the cell records those queries yield.
- moment's formatting is not modelled. The lookups receive a cell's raw `YYYYMMDD` date where the code passes its `YYYY-MM-DD` or `MM/DD/YYYY` form.
- Week start dates are day numbers, not formatted strings. Time of day, daylight saving and locales other than the Sunday-first default are not modelled.
- The request wrappers `getLinkedStandards`, `getLesson`, `getStandardAreas`, `getLessonStandardFilters`, `getLessonStandardsTree`, `linkStandard`, `unlinkStandard` and `postLesson` are left out. The first two are lookups passed in; the rest hold no decision logic. The one URL defect among them is a finding above.
- The overwrite behaviour of `postLesson` and get/post/get idempotence are properties of the server, not of this client, and are not modelled.
- Aliasing is not modelled. `getPlannerHTML`, `getPlannerStandards` and `getPlannerHomework` return the client's own `weeks` array, and enrichment mutates the cell objects in place. A caller holding an earlier result sees the new `standards` and `homework` fields there. In the model every returned sequence of weeks is a value that later enrichment leaves unchanged.
- Strings are sequences of Unicode scalar values, not UTF-16 code units. `slice(0, -2)`, `slice(-2)` and `trim` on text outside the Basic Multilingual Plane count code units in the code and characters in the model, so an id ending in such a character is split differently.
- `weeks` is `undefined` before the first read in the code. It starts empty here, and both states behave the same in every modelled operation.
- The tree is a list of nodes that each have a `children` list. Parsed JSON that is not an array, or a branch without `children`, is not modelled.
- A grid cell without an `id` attribute is not modelled.
- Periods are integers. `parseInt` of two characters is always exact, so floating point plays no part.
- `buildUrl` with a key inherited from `Object.prototype`, such as `toString`, is not modelled.
- LastLesson.FindLastLesson: requires a day after `date` that is neither skipped nor a weekend and has an empty lesson. Without such a day the code's recursion never ends, so no result can be stated.
