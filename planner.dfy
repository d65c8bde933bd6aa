/**
 * The week parser of `getPlannerHTML`: what one planner page becomes once the
 * DOM queries have been answered. The page is given as the texts of the header
 * cells (the leading label cell excluded) and one record per grid cell.
 */
module Planner {
  import opened Wrappers
  import opened Records
  import opened JsText

  /**
   * One `.sheetCell` element: its `id`, the inner HTML of its `.lessonPreview`
   * (absent when there is none), the `onclick` attribute of its blue-flag icon
   * (absent when there is no such icon or attribute) and whether it shows the
   * house icon.
   */
  datatype RawCell = RawCell(id: string, preview: Option<string>, blueFlagOnclick: Option<string>, houseIcon: bool)

  /** One planner page: header texts in document order and grid cells in document order. */
  datatype Page = Page(headers: seq<string>, cells: seq<RawCell>)

  /** `id.slice(0, -2)`: the id without its last two characters. */
  function IdDate(id: string): string
  {
    if |id| >= 2 then id[..|id| - 2] else []
  }

  /** `id.slice(-2)`: the last two characters of the id (all of it when shorter). */
  function IdPeriodText(id: string): (t: string)
    ensures |t| <= 2 && (|id| >= 2 ==> |t| == 2)
    ensures IdDate(id) + t == id
  {
    if |id| >= 2 then id[|id| - 2..] else id
  }

  /** `parseInt(id.slice(-2))`; None stands for NaN. */
  function CellPeriod(id: string): Option<int>
  {
    ParseInt(IdPeriodText(id))
  }

  /** A date prefix followed by a zero-padded period splits back into the two. */
  lemma CellIdRoundTrip(date: string, p: nat)
    requires p < 100
    ensures IdDate(date + Pad2(p)) == date
    ensures CellPeriod(date + Pad2(p)) == Some(p)
  {
    var id := date + Pad2(p);
    assert id[..|id| - 2] == date;
    assert id[|id| - 2..] == Pad2(p);
    ParsePad2(p);
  }

  /** An id ending in two decimal digits is its date followed by its zero-padded period. */
  lemma CellIdRebuild(id: string)
    requires |id| >= 2 && IsDigit(id[|id| - 2]) && IsDigit(id[|id| - 1])
    ensures CellPeriod(id).Some? && 0 <= CellPeriod(id).value < 100
    ensures IdDate(id) + Pad2(CellPeriod(id).value) == id
  {
    var t := IdPeriodText(id);
    ParseTwoDigits(t);
    var p := CellPeriod(id).value;
    assert Pad2(p) == t;
  }

  /**
   * The standards id of a cell: nothing when the blue-flag `onclick` is
   * absent or empty; otherwise the first match of `/[0-9]+/`, and a
   * TypeError when there is none (the code indexes the null match).
   */
  function StandardsId(onclick: Option<string>): Result<Option<string>, Error>
  {
    match onclick
    case None => Success(None)
    case Some(s) =>
      if s == "" then Success(None)
      else
        var (k, n) := DigitRun(s);
        if n == 0 then Failure(TypeError("Cannot read property '0' of null"))
        else Success(Some(s[k..k + n]))
  }

  /**
   * What the standards id is: nothing when the flag is absent or its
   * `onclick` empty; an id exactly when the `onclick` is non-empty, and then
   * exactly the first maximal run of digits in it; a failure exactly when a
   * non-empty `onclick` holds no digit.
   */
  lemma StandardsIdMatch(onclick: Option<string>)
    ensures var r := StandardsId(onclick);
      && ((onclick.None? || onclick == Some("")) ==> r == Success(None))
      && (r.Success? ==> (r.value.Some? <==> onclick.Some? && onclick.value != ""))
      && (onclick.Some? && onclick.value != "" ==>
           (r.Failure? <==> forall i :: 0 <= i < |onclick.value| ==> !IsDigit(onclick.value[i])))
      && (r.Success? && r.value.Some? ==>
           var s, v, k := onclick.value, r.value.value, DigitRun(onclick.value).0;
           && |v| > 0 && k + |v| <= |s| && s[k..k + |v|] == v
           && (forall i :: 0 <= i < |v| ==> IsDigit(v[i]))
           && (forall i :: 0 <= i < k ==> !IsDigit(s[i]))
           && (k + |v| < |s| ==> !IsDigit(s[k + |v|])))
  {
    if onclick.Some? && onclick.value != "" {
      var s := onclick.value;
      var (k, n) := DigitRun(s);
      if n > 0 { assert IsDigit(s[k]); }
    }
  }

  /** One grid cell parsed: date and period from the id, body, standards id and homework flag. */
  function ParseCell(raw: RawCell): Result<Cell, Error>
  {
    var standardsId :- StandardsId(raw.blueFlagOnclick);
    Success(Cell(
      IdDate(raw.id),
      CellPeriod(raw.id),
      raw.preview,
      standardsId,
      if raw.houseIcon then Some(true) else None,
      None,
      None))
  }

  /**
   * A cell parses unless its blue-flag `onclick` holds no digit. Its date and
   * period rebuild its id, its body is the preview markup, it carries the
   * standards id of its flag, `hasHomework` is set (to true) exactly when the
   * house icon shows, and nothing has been fetched for it yet.
   */
  lemma ParseCellFields(raw: RawCell)
    ensures var r := ParseCell(raw);
      && (r.Success? <==> StandardsId(raw.blueFlagOnclick).Success?)
      && (r.Failure? ==> r.error == StandardsId(raw.blueFlagOnclick).error)
      && (r.Success? ==>
        && r.value.date + IdPeriodText(raw.id) == raw.id
        && r.value.period == ParseInt(IdPeriodText(raw.id))
        && r.value.html == raw.preview
        && r.value.standardsId == StandardsId(raw.blueFlagOnclick).value
        && (r.value.hasHomework.Some? <==> raw.houseIcon)
        && (r.value.hasHomework.Some? ==> r.value.hasHomework.value)
        && r.value.standards.None? && r.value.homework.None?)
  {
  }

  /**
   * All grid cells parsed in document order; the first cell that fails to
   * parse aborts the page with its error.
   */
  function ParsedCells(raws: seq<RawCell>): Result<seq<Cell>, Error>
  {
    if raws == [] then Success([])
    else
      var c :- ParseCell(raws[0]);
      var rest :- ParsedCells(raws[1..]);
      Success([c] + rest)
  }

  /** A page that parses has one cell per record, each the parse of its record. */
  lemma {:induction false} ParsedCellsValues(raws: seq<RawCell>)
    ensures var r := ParsedCells(raws);
      r.Success? ==>
        && |r.value| == |raws|
        && forall i :: 0 <= i < |raws| ==> ParseCell(raws[i]) == Success(r.value[i])
  {
    if raws != [] {
      var c, rest := ParseCell(raws[0]), ParsedCells(raws[1..]);
      if c.Success? && rest.Success? {
        ParsedCellsValues(raws[1..]);
        ConsValues(ParseCell, raws, c.value, rest.value);
      }
    }
  }

  /** The step of the induction: a first result in front of the results of the rest. */
  lemma ConsValues<A, B>(f: A -> Result<B, Error>, xs: seq<A>, y: B, ys: seq<B>)
    requires xs != [] && f(xs[0]) == Success(y)
    requires |ys| == |xs| - 1
    requires forall i :: 0 <= i < |xs| - 1 ==> f(xs[1..][i]) == Success(ys[i])
    ensures forall i :: 0 <= i < |xs| ==> f(xs[i]) == Success(([y] + ys)[i])
  {
    forall i | 1 <= i < |xs|
      ensures f(xs[i]) == Success(([y] + ys)[i])
    {
      assert xs[i] == xs[1..][i - 1];
    }
  }

  /** A page whose every record parses, parses. */
  lemma {:induction false} ParsedCellsAllParse(raws: seq<RawCell>)
    requires forall i :: 0 <= i < |raws| ==> ParseCell(raws[i]).Success?
    ensures ParsedCells(raws).Success?
  {
    if raws != [] {
      assert forall i :: 0 <= i < |raws| - 1 ==> raws[1..][i] == raws[i + 1];
      ParsedCellsAllParse(raws[1..]);
    }
  }

  /** A page that fails, fails with the error of its first record that does. */
  lemma {:induction false} ParsedCellsFirstError(raws: seq<RawCell>)
    ensures var r := ParsedCells(raws);
      r.Failure? ==>
        exists k :: 0 <= k < |raws| && ParseCell(raws[k]) == Failure(r.error)
          && (forall i :: 0 <= i < k ==> ParseCell(raws[i]).Success?)
  {
    if raws != [] {
      var r := ParsedCells(raws);
      if r.Failure? {
        if ParseCell(raws[0]).Success? {
          ParsedCellsFirstError(raws[1..]);
          var k :| 0 <= k < |raws| - 1 && ParseCell(raws[1..][k]) == Failure(r.error)
            && (forall i :: 0 <= i < k ==> ParseCell(raws[1..][i]).Success?);
          assert ParseCell(raws[k + 1]) == Failure(r.error);
          forall i | 0 < i < k + 1
            ensures ParseCell(raws[i]).Success?
          {
            assert raws[i] == raws[1..][i - 1];
          }
        } else {
          assert ParseCell(raws[0]) == Failure(r.error);
        }
      }
    }
  }

  /**
   * The page parses exactly when every cell does, into one cell per record
   * in order; otherwise it fails with the error of the first bad cell.
   */
  lemma ParsedCellsMeaning(raws: seq<RawCell>)
    ensures var r := ParsedCells(raws);
      && (r.Success? <==> forall i :: 0 <= i < |raws| ==> ParseCell(raws[i]).Success?)
      && (r.Success? ==>
        && |r.value| == |raws|
        && (forall i :: 0 <= i < |raws| ==> ParseCell(raws[i]) == Success(r.value[i])))
      && (r.Failure? ==>
        exists k :: 0 <= k < |raws| && ParseCell(raws[k]) == Failure(r.error)
          && (forall i :: 0 <= i < k ==> ParseCell(raws[i]).Success?))
  {
    ParsedCellsValues(raws);
    ParsedCellsFirstError(raws);
    if forall i :: 0 <= i < |raws| ==> ParseCell(raws[i]).Success? {
      ParsedCellsAllParse(raws);
    }
  }

  /** The cells of `cells` whose period is `p`, in document order (the `filter` of line 160). */
  function CellsWithPeriod(cells: seq<Cell>, p: int): (r: seq<Cell>)
    ensures forall c :: c in r <==> c in cells && c.period == Some(p)
  {
    if cells == [] then []
    else (if cells[0].period == Some(p) then [cells[0]] else []) + CellsWithPeriod(cells[1..], p)
  }

  /** Each cell of period `p` is kept as often as it occurs, every other cell dropped. */
  lemma {:induction false} CellsWithPeriodCount(cells: seq<Cell>, p: int, c: Cell)
    ensures multiset(CellsWithPeriod(cells, p))[c] == if c.period == Some(p) then multiset(cells)[c] else 0
  {
    if cells != [] {
      assert cells == [cells[0]] + cells[1..];
      CellsWithPeriodCount(cells[1..], p, c);
    }
  }

  /** Filtering distributes over concatenation, so it keeps the cells' relative order. */
  lemma {:induction false} CellsWithPeriodAppend(a: seq<Cell>, b: seq<Cell>, p: int)
    ensures CellsWithPeriod(a + b, p) == CellsWithPeriod(a, p) + CellsWithPeriod(b, p)
  {
    if a == [] {
      assert a + b == b;
    } else {
      assert (a + b)[0] == a[0];
      assert (a + b)[1..] == a[1..] + b;
      CellsWithPeriodAppend(a[1..], b, p);
    }
  }

  /**
   * The columns of a page: header k becomes the column with period k + 1 and
   * the trimmed header text as its label, holding exactly the cells with
   * that period, in document order. Cells whose period matches no column
   * belong to none.
   */
  function Grouped(headers: seq<string>, cells: seq<Cell>): (cols: seq<Column>)
    ensures |cols| == |headers|
    ensures forall k :: 0 <= k < |cols| ==> cols[k].title == Trim(headers[k]) && cols[k].period == k + 1
    ensures forall k, c :: 0 <= k < |cols| ==> (c in cols[k].cells <==> c in cells && c.period == Some(k + 1))
  {
    seq(|headers|, k requires 0 <= k < |headers| => Column(Trim(headers[k]), k + 1, CellsWithPeriod(cells, k + 1)))
  }

  /** The week `getPlannerHTML` reads for the page fetched for `start`. */
  function WeekOf(start: int, page: Page): Result<Week, Error>
  {
    var cells :- ParsedCells(page.cells);
    Success(Week(start, Grouped(page.headers, cells)))
  }

  /** A week read for a start date starts on that date. */
  lemma WeekOfStart(start: int, page: Page)
    ensures WeekOf(start, page).Success? ==> WeekOf(start, page).value.start == start
  {
  }

  /** The header loop: one column per header, in order, with no cells yet. */
  method ParseColumns(headers: seq<string>) returns (cols: seq<Column>)
    ensures |cols| == |headers|
    ensures forall k :: 0 <= k < |headers| ==> cols[k] == Column(Trim(headers[k]), k + 1, [])
  {
    cols := [];
    var idx := 0;
    while idx < |headers|
      invariant idx <= |headers| && |cols| == idx
      invariant forall k :: 0 <= k < idx ==> cols[k] == Column(Trim(headers[k]), k + 1, [])
    {
      cols := cols + [Column(Trim(headers[idx]), idx + 1, [])];
      idx := idx + 1;
    }
  }

  /** `Prefixed(acc, r)`: the parse result `r` of a suffix, with the cells `acc` parsed before it. */
  function Prefixed(acc: seq<Cell>, r: Result<seq<Cell>, Error>): Result<seq<Cell>, Error>
  {
    if r.Success? then Success(acc + r.value) else r
  }

  /** Parsing a non-empty list of cells: the first cell, then the rest. */
  lemma ParsedCellsUnfold(raws: seq<RawCell>)
    requires raws != []
    ensures ParsedCells(raws) ==
      if ParseCell(raws[0]).Failure? then Failure(ParseCell(raws[0]).error)
      else Prefixed([ParseCell(raws[0]).value], ParsedCells(raws[1..]))
  {
  }

  /** Cells parsed before cells parsed before a suffix are cells parsed before that suffix. */
  lemma PrefixedAppend(a: seq<Cell>, b: seq<Cell>, r: Result<seq<Cell>, Error>)
    ensures Prefixed(a, Prefixed(b, r)) == Prefixed(a + b, r)
  {
    if r.Success? {
      assert a + (b + r.value) == (a + b) + r.value;
    }
  }

  /** No cells parsed before a suffix: the suffix's own result. */
  lemma PrefixedEmpty(r: Result<seq<Cell>, Error>)
    ensures Prefixed([], r) == r
  {
    if r.Success? { assert [] + r.value == r.value; }
  }

  /** The cell loop: parse cell after cell, stopping at the first failure. */
  method ParseCells(raws: seq<RawCell>) returns (r: Result<seq<Cell>, Error>)
    ensures r == ParsedCells(raws)
  {
    var cells := [];
    var i := 0;
    assert raws[0..] == raws;
    PrefixedEmpty(ParsedCells(raws));
    while i < |raws|
      invariant i <= |raws|
      invariant ParsedCells(raws) == Prefixed(cells, ParsedCells(raws[i..]))
    {
      ParsedCellsUnfold(raws[i..]);
      assert raws[i..][1..] == raws[i + 1..];
      var c := ParseCell(raws[i]);
      if c.Failure? {
        return Failure(c.error);
      }
      PrefixedAppend(cells, [c.value], ParsedCells(raws[i + 1..]));
      cells := cells + [c.value];
      i := i + 1;
    }
    assert raws[i..] == [];
    assert cells + [] == cells;
    r := Success(cells);
  }

  /** The column loop: each column is given the cells of its period, in document order. */
  method FillColumns(cols: seq<Column>, cells: seq<Cell>) returns (filled: seq<Column>)
    ensures |filled| == |cols|
    ensures forall j :: 0 <= j < |cols| ==>
      filled[j] == cols[j].(cells := CellsWithPeriod(cells, cols[j].period))
  {
    filled := cols;
    var k := 0;
    while k < |filled|
      invariant k <= |filled| == |cols|
      invariant forall j :: 0 <= j < k ==> filled[j] == cols[j].(cells := CellsWithPeriod(cells, cols[j].period))
      invariant forall j :: k <= j < |cols| ==> filled[j] == cols[j]
    {
      filled := filled[k := filled[k].(cells := CellsWithPeriod(cells, filled[k].period))];
      k := k + 1;
    }
  }

  /**
   * The parse of one page: the header loop, the cell loop, then each column
   * given the cells of its period.
   */
  method ParseWeek(start: int, page: Page) returns (r: Result<Week, Error>)
    ensures r == WeekOf(start, page)
  {
    var cols := ParseColumns(page.headers);
    var parsed := ParseCells(page.cells);
    if parsed.Failure? {
      return Failure(parsed.error);
    }
    var cells := parsed.value;
    cols := FillColumns(cols, cells);
    assert cols == Grouped(page.headers, cells);
    r := Success(Week(start, cols));
  }
}
