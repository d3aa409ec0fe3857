/**
 * The admission-list parsers of abitur/parsers.py. A parser finds the link to its school's
 * list on the school's page, walks the rows of the tables extracted from the document,
 * sorts the numbered rows into category buckets (the numbering restarts at each new
 * category), and finally derives the categories it reports from those buckets.
 */
module Parsers {
  import opened Wrappers
  import opened Text
  import opened Calendar
  import opened Utils
  import opened Models

  /** The three registered parsers: PirogovaParser, SechenovaParser and SechenovaBVIParser. */
  datatype Variant = Pirogova | Sechenova | SechenovaBvi

  function LinkText(v: Variant): string {
    match v
    case Pirogova => "06.03.01 Биология"
    case Sechenova => "Бакалавриат, специалитет - список лиц подавших документы.pdf"
    case SechenovaBvi => "Бакалавриат, специалитет - список лиц подавших документы без ВИ.pdf"
  }

  function BaseUrl(v: Variant): string {
    match v
    case Pirogova => "http://rsmu.ru/"
    case _ => "https://www.sechenov.ru/"
  }

  function SchoolName(v: Variant): string {
    match v
    case Pirogova => PIROGOVA
    case _ => SECHENOVA
  }

  /**
   * The buckets `_raw_categories` holds, in the order the numbering runs through them:
   * Pirogova (bvi, special, general, contract), Sechenova (contract, general),
   * Sechenova BVI (general, contract).
   */
  function BucketCount(v: Variant): nat {
    if v.Pirogova? then 4 else 2
  }

  const PirogovaBvi := 0
  const PirogovaGeneral := 2
  const PirogovaContract := 3

  function GeneralBucket(v: Variant): nat {
    match v
    case Pirogova => PirogovaGeneral
    case Sechenova => 1
    case SechenovaBvi => 0
  }

  function ContractBucket(v: Variant): nat {
    match v
    case Pirogova => PirogovaContract
    case Sechenova => 0
    case SechenovaBvi => 1
  }

  // ------------------------------------------------------------------ register

  /** `parser_registry` and the `@register` decorator that fills it. */
  class Registry {
    var parsers: seq<Variant>

    constructor ()
      ensures parsers == []
    {
      parsers := [];
    }

    /** `register(parser_class)`: appends the class and hands it back unchanged. */
    method Register(v: Variant) returns (r: Variant)
      modifies this
      ensures r == v
      ensures parsers == old(parsers) + [v]
    {
      parsers := parsers + [v];
      r := v;
    }
  }

  /** Importing the module registers the three parsers in the order they are defined. */
  method BuildRegistry() returns (registry: Registry)
    ensures fresh(registry)
    ensures registry.parsers == [Pirogova, Sechenova, SechenovaBvi]
  {
    registry := new Registry();
    var _ := registry.Register(Pirogova);
    var _ := registry.Register(Sechenova);
    var _ := registry.Register(SechenovaBvi);
  }

  // ------------------------------------------------------------------ Category

  /** A (name, application date) pair as read from one row. */
  datatype Entry = Entry(name: string, date: string)

  /** A category: its entries, in the order it iterates them, and the two flags it stamps on them. */
  datatype Category = Category(students: seq<Entry>, bvi: bool, fundedOnly: bool)

  /** What `make_student` builds for the database. */
  datatype StudentRecord = StudentRecord(name: string, bvi: bool, applicationDate: Date, school: School, fundedOnly: bool)

  /** `name.lower().title()` */
  function NormalizeName(name: string): string {
    Title(LowerStr(name))
  }

  /** A normalized name is left alone by normalizing it again. */
  lemma NormalizeNameTwice(name: string)
    ensures NormalizeName(NormalizeName(name)) == NormalizeName(name)
  {
    var t := Title(LowerStr(name));
    TitleOfLower(t, false);
    TitleTwice(LowerStr(name), false);
  }

  /**
   * `category.make_student(name, date, school)`: the record fails exactly when the date
   * does not parse; otherwise it carries the normalized name, the parsed date, the school
   * and the category's two flags.
   */
  function MakeStudent(c: Category, e: Entry, school: School): (r: Result<StudentRecord, Error>)
    ensures r.Err? <==> MakeDate(e.date).None?
    ensures r.Err? ==> r.error == InvalidDate
    ensures r.Ok? ==> IsValid(r.value.applicationDate) && Some(r.value.applicationDate) == MakeDate(e.date)
    ensures r.Ok? ==> NormalizeName(r.value.name) == r.value.name && r.value.name == NormalizeName(e.name)
    ensures r.Ok? ==> r.value.bvi == c.bvi && r.value.fundedOnly == c.fundedOnly && r.value.school == school
  {
    match MakeDate(e.date)
    case None => Err(InvalidDate)
    case Some(d) =>
      NormalizeNameTwice(e.name);
      Ok(StudentRecord(NormalizeName(e.name), c.bvi, d, school, c.fundedOnly))
  }

  /** `for student in category: yield category.make_student(*student, school)`, stopping at the first bad date. */
  function CategoryRecords(c: Category, entries: seq<Entry>, school: School): Stream<StudentRecord> {
    if entries == [] then Stream([], None)
    else
      match MakeStudent(c, entries[0], school)
      case Err(e) => Stream([], Some(e))
      case Ok(record) =>
        var rest := CategoryRecords(c, entries[1..], school);
        Stream([record] + rest.items, rest.failure)
  }

  /**
   * A category yields one record per entry, in order, each `make_student` of its entry; it
   * stops with the strptime ValueError exactly when some entry's date does not parse.
   */
  lemma {:induction false} CategoryRecordsShape(c: Category, entries: seq<Entry>, school: School)
    ensures var s := CategoryRecords(c, entries, school);
      && (s.failure.None? <==> forall k :: 0 <= k < |entries| ==> MakeDate(entries[k].date).Some?)
      && (s.failure.None? || s.failure == Some(InvalidDate))
      && |s.items| <= |entries|
      && (forall k :: 0 <= k < |s.items| ==> MakeStudent(c, entries[k], school) == Ok(s.items[k]))
      && (s.failure.None? ==> |s.items| == |entries|)
  {
    if entries != [] {
      match MakeStudent(c, entries[0], school)
      case Err(e) =>
        assert CategoryRecords(c, entries, school) == Stream([], Some(e));
      case Ok(record) =>
        var rest := CategoryRecords(c, entries[1..], school);
        assert CategoryRecords(c, entries, school) == Stream([record] + rest.items, rest.failure);
        CategoryRecordsShape(c, entries[1..], school);
        assert forall k :: 1 <= k < |entries| ==> entries[k] == entries[1..][k - 1];
    }
  }

  // --------------------------------------------------------------- get_source

  /** An `<a>` element of the school's page: its text and its `href`, if it has one. */
  datatype Anchor = Anchor(text: string, href: Option<string>)

  /** `soup.find('a', text=text)`: the first anchor whose text is `text`. */
  function FindAnchor(page: seq<Anchor>, text: string): (r: Option<nat>)
    ensures r.None? <==> forall k :: 0 <= k < |page| ==> page[k].text != text
    ensures r.Some? ==> r.value < |page| && page[r.value].text == text
    ensures r.Some? ==> forall k :: 0 <= k < r.value ==> page[k].text != text
  {
    if page == [] then None
    else if page[0].text == text then Some(0)
    else match FindAnchor(page[1..], text)
      case None => None
      case Some(i) => Some(i + 1)
  }

  // ------------------------------------------------------------------ clean_rows

  /** Pirogova's `clean_rows` keeps a row whose first cell is neither empty nor "№". */
  predicate PirogovaKeeps(row: Row)
    requires |row| > 0
  {
    row[0] != "" && row[0] != "№"
  }

  /**
   * `PirogovaParser.clean_rows`: the located rows with a numbered first cell, in order; a
   * row with no cells at all raises IndexError, and the rows' own failure is passed on.
   */
  function PirogovaRows(rows: seq<Located>, failure: Option<Error>): (s: Stream<Located>)
    ensures |s.items| <= |rows|
  {
    if rows == [] then Stream([], failure)
    else if |rows[0].row| == 0 then Stream([], Some(IndexError))
    else
      var rest := PirogovaRows(rows[1..], failure);
      if PirogovaKeeps(rows[0].row) then Stream([rows[0]] + rest.items, rest.failure) else rest
  }

  /**
   * Pirogova's filter yields only rows it keeps, and when no row is empty it yields every
   * row it keeps and passes the rows' failure on; an empty row makes it fail with IndexError.
   */
  lemma {:induction false} PirogovaRowsKeep(rows: seq<Located>, failure: Option<Error>)
    ensures forall x :: x in PirogovaRows(rows, failure).items ==> x in rows && |x.row| > 0 && PirogovaKeeps(x.row)
    ensures (forall k :: 0 <= k < |rows| ==> |rows[k].row| > 0) ==>
      PirogovaRows(rows, failure).failure == failure &&
      forall k :: 0 <= k < |rows| && PirogovaKeeps(rows[k].row) ==> rows[k] in PirogovaRows(rows, failure).items
    ensures (exists k :: 0 <= k < |rows| && |rows[k].row| == 0) ==> PirogovaRows(rows, failure).failure == Some(IndexError)
  {
    if rows != [] && |rows[0].row| > 0 {
      PirogovaRowsKeep(rows[1..], failure);
      assert forall k :: 1 <= k < |rows| ==> rows[k] == rows[1..][k - 1];
    }
  }

  /** Pirogova's filter runs through the rows in order: its output on two runs of rows is the two outputs one after the other. */
  lemma {:induction false} PirogovaRowsAppend(front: seq<Located>, back: seq<Located>, failure: Option<Error>)
    requires forall k :: 0 <= k < |front| ==> |front[k].row| > 0
    ensures PirogovaRows(front + back, failure)
         == Stream(PirogovaRows(front, None).items + PirogovaRows(back, failure).items, PirogovaRows(back, failure).failure)
  {
    if front == [] {
      assert front + back == back;
    } else {
      var rows := front + back;
      assert rows[0] == front[0] && rows[1..] == front[1..] + back;
      var head := if PirogovaKeeps(front[0].row) then [front[0]] else [];
      var whole, part := PirogovaRows(rows[1..], failure), PirogovaRows(front[1..], None);
      assert PirogovaRows(rows, failure) == Stream(head + whole.items, whole.failure);
      assert PirogovaRows(front, None).items == head + part.items;
      PirogovaRowsAppend(front[1..], back, failure);
    }
  }

  /** `SechenovaParser.start_predicate`: the list proper starts at the "06.05.01" programme. */
  predicate IsStart(row: Row)
    requires |row| > 0
  {
    Contains(row[0], "06.05.01")
  }

  /** `SechenovaParser.break_predicate`: the "06.05.01 ... особой ..." quota list or the "19.03.01" programme ends it. */
  predicate IsBreak(row: Row)
    requires |row| > 0
  {
    (Contains(row[0], "06.05.01") && Contains(row[0], "особой")) || Contains(row[0], "19.03.01")
  }

  /** A row with a multi-line first cell is replaced by the lines of that cell. */
  function Unfold(row: Row): (r: Row)
    requires |row| > 0
    ensures |r| > 0
  {
    if '\n' in row[0] then Split(row[0], '\n') else row
  }

  /**
   * `SechenovaParser.clean_rows`, from a point where `go` says whether the start row has
   * been seen: rows before the start are skipped, the first break row after it ends the
   * generator normally, and rows whose (unfolded) first cell is not all digits are skipped.
   */
  function SechenovaFrom(rows: seq<Located>, failure: Option<Error>, go: bool): Stream<Located> {
    if rows == [] then Stream([], failure)
    else
      var row := rows[0].row;
      if |row| == 0 then Stream([], Some(IndexError))
      else
        var go' := go || IsStart(row);
        if !go' then SechenovaFrom(rows[1..], failure, false)
        else if IsBreak(row) then Stream([], None)
        else
          var rest := SechenovaFrom(rows[1..], failure, true);
          var cleaned := Unfold(row);
          if IsDigits(cleaned[0]) then Stream([Located(cleaned, rows[0].columns)] + rest.items, rest.failure)
          else rest
  }

  /**
   * Every row the Sechenova filter yields has a first cell of digits, it yields at most one
   * row per input row, and it fails only with IndexError or the rows' own failure.
   */
  lemma {:induction false} SechenovaYieldsNumbers(rows: seq<Located>, failure: Option<Error>, go: bool)
    ensures var s := SechenovaFrom(rows, failure, go);
      && |s.items| <= |rows|
      && (forall k :: 0 <= k < |s.items| ==> |s.items[k].row| > 0 && IsDigits(s.items[k].row[0]))
      && (s.failure.None? || s.failure == failure || s.failure == Some(IndexError))
  {
    if rows != [] && |rows[0].row| > 0 {
      SechenovaYieldsNumbers(rows[1..], failure, go || IsStart(rows[0].row));
    }
  }

  /** The loop of `SechenovaParser.clean_rows`, with its `go` flag. */
  method SechenovaCleanRows(rows: seq<Located>, failure: Option<Error>) returns (s: Stream<Located>)
    ensures s == SechenovaFrom(rows, failure, false)
  {
    var go := false;
    var items: seq<Located> := [];
    var i := 0;
    while i < |rows|
      invariant 0 <= i <= |rows|
      invariant SechenovaFrom(rows, failure, false)
             == var rest := SechenovaFrom(rows[i..], failure, go); Stream(items + rest.items, rest.failure)
    {
      SechenovaFromStep(rows[i..], failure, go);
      assert rows[i..][0] == rows[i] && rows[i..][1..] == rows[i + 1..];
      var row := rows[i].row;
      if |row| == 0 {
        assert items + [] == items;
        return Stream(items, Some(IndexError));
      }
      if IsStart(row) {
        go := true;
      }
      if !go {
        i := i + 1;
        continue;
      }
      if IsBreak(row) {
        assert items + [] == items;
        return Stream(items, None);
      }
      if '\n' in row[0] {
        row := Split(row[0], '\n');
      }
      assert row == Unfold(rows[i].row);
      if !IsDigits(row[0]) {
        i := i + 1;
        continue;
      }
      ghost var rest := SechenovaFrom(rows[i + 1..], failure, true);
      ghost var before := items;
      items := items + [Located(row, rows[i].columns)];
      assert before + ([Located(row, rows[i].columns)] + rest.items) == items + rest.items;
      i := i + 1;
    }
    assert rows[i..] == [];
    return Stream(items, failure);
  }

  /** The first turn of the Sechenova filter, then the rest of the rows. */
  lemma SechenovaFromStep(rows: seq<Located>, failure: Option<Error>, go: bool)
    requires rows != []
    ensures |rows[0].row| == 0 ==> SechenovaFrom(rows, failure, go) == Stream([], Some(IndexError))
    ensures |rows[0].row| > 0 && !(go || IsStart(rows[0].row)) ==>
      SechenovaFrom(rows, failure, go) == SechenovaFrom(rows[1..], failure, false)
    ensures |rows[0].row| > 0 && (go || IsStart(rows[0].row)) && IsBreak(rows[0].row) ==>
      SechenovaFrom(rows, failure, go) == Stream([], None)
    ensures |rows[0].row| > 0 && (go || IsStart(rows[0].row)) && !IsBreak(rows[0].row) ==>
      var rest := SechenovaFrom(rows[1..], failure, true);
      var cleaned := Unfold(rows[0].row);
      SechenovaFrom(rows, failure, go)
      == if IsDigits(cleaned[0]) then Stream([Located(cleaned, rows[0].columns)] + rest.items, rest.failure) else rest
  {
  }

  /** Rows before the start row, none of them empty, yield nothing and are simply passed over. */
  lemma {:induction false} NothingBeforeStart(before: seq<Located>, after: seq<Located>, failure: Option<Error>)
    requires forall k :: 0 <= k < |before| ==> |before[k].row| > 0 && !IsStart(before[k].row)
    ensures SechenovaFrom(before + after, failure, false) == SechenovaFrom(after, failure, false)
  {
    if before == [] {
      assert before + after == after;
    } else {
      assert (before + after)[0] == before[0] && (before + after)[1..] == before[1..] + after;
      NothingBeforeStart(before[1..], after, failure);
    }
  }

  /**
   * Once started, a break row ends the stream: what follows it, a failure included, never
   * shows, and the stream is what the rows before it give.
   */
  lemma {:induction false} NothingFromBreak(before: seq<Located>, stop: Located, after: seq<Located>, failure: Option<Error>)
    requires forall k :: 0 <= k < |before| ==> |before[k].row| > 0 && !IsBreak(before[k].row)
    requires |stop.row| > 0 && IsBreak(stop.row)
    ensures SechenovaFrom(before + [stop] + after, failure, true) == SechenovaFrom(before, None, true)
  {
    if before == [] {
      assert before + [stop] + after == [stop] + after;
      assert ([stop] + after)[1..] == after;
    } else {
      var rows := before + [stop] + after;
      assert rows[0] == before[0] && rows[1..] == before[1..] + [stop] + after;
      NothingFromBreak(before[1..], stop, after, failure);
    }
  }

  /** A break row that is also a start row ("06.05.01 ... особой ...") ends the stream even before it starts. */
  lemma StartingBreakEndsAtOnce(stop: Located, after: seq<Located>, failure: Option<Error>)
    requires |stop.row| > 0 && Contains(stop.row[0], "06.05.01") && Contains(stop.row[0], "особой")
    ensures SechenovaFrom([stop] + after, failure, false) == Stream([], None)
  {
    assert ([stop] + after)[0] == stop;
  }

  /**
   * Once started, Sechenova's filter runs through the rows in order: on rows none of which
   * is empty or a break, then any further rows, it yields the two outputs one after the other.
   */
  lemma {:induction false} SechenovaRowsAppend(front: seq<Located>, back: seq<Located>, failure: Option<Error>)
    requires forall k :: 0 <= k < |front| ==> |front[k].row| > 0 && !IsBreak(front[k].row)
    ensures SechenovaFrom(front + back, failure, true)
         == Stream(SechenovaFrom(front, None, true).items + SechenovaFrom(back, failure, true).items,
                   SechenovaFrom(back, failure, true).failure)
  {
    if front == [] {
      assert front + back == back;
    } else {
      var rows := front + back;
      assert rows[0] == front[0] && rows[1..] == front[1..] + back;
      var cleaned := Unfold(front[0].row);
      var head := if IsDigits(cleaned[0]) then [Located(cleaned, front[0].columns)] else [];
      var whole, part := SechenovaFrom(rows[1..], failure, true), SechenovaFrom(front[1..], None, true);
      assert SechenovaFrom(rows, failure, true) == Stream(head + whole.items, whole.failure);
      assert SechenovaFrom(front, None, true).items == head + part.items;
      SechenovaRowsAppend(front[1..], back, failure);
    }
  }

  /**
   * Once started, a row that is neither empty nor a break is yielded, unfolded, exactly when
   * the first cell of its unfolded form is a number, and otherwise yields nothing.
   */
  lemma StartedRow(row: Located, failure: Option<Error>)
    requires |row.row| > 0 && !IsBreak(row.row)
    ensures SechenovaFrom([row], failure, true).failure == failure
    ensures IsDigits(Unfold(row.row)[0]) ==> SechenovaFrom([row], failure, true).items == [Located(Unfold(row.row), row.columns)]
    ensures !IsDigits(Unfold(row.row)[0]) ==> SechenovaFrom([row], failure, true).items == []
  {
    assert [row][1..] == [];
  }

  /** The start row itself starts the window: from it on, the filter behaves as if already started. */
  lemma StartRowStarts(rows: seq<Located>, failure: Option<Error>)
    requires rows != [] && |rows[0].row| > 0 && IsStart(rows[0].row)
    ensures SechenovaFrom(rows, failure, false) == SechenovaFrom(rows, failure, true)
  {
  }

  /**
   * A row after the start row, with no break before it, yields exactly what it yields on its
   * own, between the output of the rows before it and that of the rows after it.
   */
  lemma NumberedRowYielded(before: seq<Located>, window: seq<Located>, row: Located, after: seq<Located>, failure: Option<Error>)
    requires forall k :: 0 <= k < |before| ==> |before[k].row| > 0 && !IsStart(before[k].row)
    requires window != [] && |window[0].row| > 0 && IsStart(window[0].row)
    requires forall k :: 0 <= k < |window| ==> |window[k].row| > 0 && !IsBreak(window[k].row)
    requires |row.row| > 0 && !IsBreak(row.row)
    ensures SechenovaFrom(before + window + [row] + after, failure, false).items
         == SechenovaFrom(window, None, true).items + SechenovaFrom([row], None, true).items
            + SechenovaFrom(after, failure, true).items
  {
    var rows := window + ([row] + after);
    assert before + window + [row] + after == before + rows by {
      assert window + [row] + after == rows;
    }
    NothingBeforeStart(before, rows, failure);
    WindowRowYielded(window, row, after, failure);
  }

  lemma WindowRowYielded(window: seq<Located>, row: Located, after: seq<Located>, failure: Option<Error>)
    requires window != [] && |window[0].row| > 0 && IsStart(window[0].row)
    requires forall k :: 0 <= k < |window| ==> |window[k].row| > 0 && !IsBreak(window[k].row)
    requires |row.row| > 0 && !IsBreak(row.row)
    ensures SechenovaFrom(window + ([row] + after), failure, false).items
         == SechenovaFrom(window, None, true).items + SechenovaFrom([row], None, true).items
            + SechenovaFrom(after, failure, true).items
  {
    var tail := [row] + after;
    var rows := window + tail;
    assert rows[0] == window[0];
    StartRowStarts(rows, failure);
    SechenovaRowsAppend(window, tail, failure);
    SechenovaRowsAppend([row], after, failure);
    var w, r, a := SechenovaFrom(window, None, true).items, SechenovaFrom([row], None, true).items,
      SechenovaFrom(after, failure, true).items;
    assert SechenovaFrom(rows, failure, false).items == w + SechenovaFrom(tail, failure, true).items;
    assert SechenovaFrom(tail, failure, true).items == r + a;
    assert w + (r + a) == w + r + a;
  }

  /**
   * After the start, a row that is not a break and whose first cell spans several lines
   * comes out as the lines of that cell when the first line is a number, in its place
   * after whatever the rows before it yielded.
   */
  lemma MultiLineCellSplit(before: seq<Located>, row: Located, after: seq<Located>, failure: Option<Error>)
    requires forall k :: 0 <= k < |before| ==> |before[k].row| > 0 && !IsBreak(before[k].row)
    requires |row.row| > 0 && !IsBreak(row.row) && '\n' in row.row[0]
    requires IsDigits(Split(row.row[0], '\n')[0])
    ensures var n := |SechenovaFrom(before, None, true).items|;
      var s := SechenovaFrom(before + [row] + after, failure, true);
      n < |s.items| && s.items[n] == Located(Split(row.row[0], '\n'), row.columns)
  {
    assert before + [row] + after == before + ([row] + after);
    SechenovaRowsAppend(before, [row] + after, failure);
    assert ([row] + after)[0] == row && ([row] + after)[1..] == after;
  }

  // ------------------------------------------------------------------ locators

  /** `find_columns` of each parser: Pirogova looks the headers up, Sechenova always reads columns 1 and 2. */
  function Locate(v: Variant): Locator {
    if v.Pirogova? then FindColumnsIndex else (_ => Ok(Columns(1, 2)))
  }

  /** `self.clean_rows(file)`: the parser's filter over `table_rows(file, self.find_columns)`. */
  function CleanRows(v: Variant, tables: seq<Table>): Stream<Located> {
    var located := TableRows(tables, Locate(v));
    if v.Pirogova? then PirogovaRows(located.items, located.failure)
    else SechenovaFrom(located.items, located.failure, false)
  }

  /** Sechenova's locator never fails, so its rows fail only on an empty row. */
  lemma SechenovaLocatesAll(v: Variant, tables: seq<Table>)
    requires !v.Pirogova?
    ensures TableRows(tables, Locate(v)).failure.None?
    ensures CleanRows(v, tables).failure.None? || CleanRows(v, tables).failure == Some(IndexError)
  {
    TableRowsShape(tables, Locate(v));
    var located := TableRows(tables, Locate(v));
    SechenovaYieldsNumbers(located.items, located.failure, false);
  }

  // --------------------------------------------------------------- parse_tables

  /**
   * The running state of `parse_tables`: the buckets, the index of the current one and
   * `next_student_number`.
   */
  datatype Cursor = Cursor(buckets: seq<seq<Entry>>, index: nat, next: int)

  /** How `parse_tables` ends: the buckets as they then stand, and the exception it raised, if any. */
  datatype Outcome = Outcome(buckets: seq<seq<Entry>>, error: Option<Error>)

  /** The (name, date) pair of a located row, when both columns exist. */
  function EntryOf(l: Located): Option<Entry> {
    if l.columns.name < |l.row| && l.columns.date < |l.row| then Some(Entry(l.row[l.columns.name], l.row[l.columns.date]))
    else None
  }

  /**
   * One turn of the loop of `parse_tables`. A row numbered `next` stays in the current
   * bucket and the count goes on; any other number opens the next bucket and the count
   * restarts at 2. `row[0]` missing or past the last bucket is IndexError, a first cell
   * `int()` rejects is ValueError, and a missing name or date cell is IndexError.
   */
  function Step(l: Located, c: Cursor): (r: Result<Cursor, Error>)
    requires c.index < |c.buckets|
    ensures r.Ok? ==> |r.value.buckets| == |c.buckets| && r.value.index < |c.buckets|
  {
    if |l.row| == 0 then Err(IndexError)
    else match PyInt(l.row[0])
      case None => Err(InvalidNumber)
      case Some(n) =>
        var index := if n == c.next then c.index else c.index + 1;
        var next := if n == c.next then c.next + 1 else 2;
        if index >= |c.buckets| then Err(IndexError)
        else match EntryOf(l)
          case None => Err(IndexError)
          case Some(e) => Ok(Cursor(c.buckets[index := c.buckets[index] + [e]], index, next))
  }

  /**
   * What one turn does: the error cases in the order the loop meets them, and on success
   * the row's pair appended to exactly one bucket, the current one or the next.
   */
  lemma StepRule(l: Located, c: Cursor)
    requires c.index < |c.buckets|
    ensures |l.row| == 0 ==> Step(l, c) == Err(IndexError)
    ensures |l.row| > 0 && PyInt(l.row[0]).None? ==> Step(l, c) == Err(InvalidNumber)
    ensures |l.row| > 0 && PyInt(l.row[0]).Some? && PyInt(l.row[0]).value != c.next && c.index + 1 == |c.buckets|
        ==> Step(l, c) == Err(IndexError)
    ensures |l.row| > 0 && PyInt(l.row[0]).Some? && (PyInt(l.row[0]).value == c.next || c.index + 1 < |c.buckets|)
        ==> (Step(l, c).Ok? <==> EntryOf(l).Some?)
    ensures Step(l, c).Err? ==> Step(l, c).error == IndexError || Step(l, c).error == InvalidNumber
    ensures Step(l, c).Ok? ==>
      var r := Step(l, c).value;
      && |l.row| > 0 && PyInt(l.row[0]).Some? && EntryOf(l).Some?
      && (PyInt(l.row[0]).value == c.next <==> r.index == c.index)
      && (r.index == c.index ==> r.next == c.next + 1)
      && (r.index != c.index ==> r.index == c.index + 1 && r.next == 2)
      && r.buckets == c.buckets[r.index := c.buckets[r.index] + [EntryOf(l).value]]
  {
  }

  /** Every row has a first cell that `int()` reads and both the name and the date cell. */
  predicate WellFormed(rows: seq<Located>) {
    forall k :: 0 <= k < |rows| ==> |rows[k].row| > 0 && PyInt(rows[k].row[0]).Some? && EntryOf(rows[k]).Some?
  }

  /** How many times the numbering of well-formed rows breaks, counting on from `next`. */
  function Breaks(rows: seq<Located>, next: int): nat
    requires WellFormed(rows)
  {
    if rows == [] then 0
    else
      assert WellFormed(rows[1..]) by {
        assert forall k :: 0 <= k < |rows[1..]| ==> rows[1..][k] == rows[k + 1];
      }
      if PyInt(rows[0].row[0]).value == next then Breaks(rows[1..], next + 1)
      else 1 + Breaks(rows[1..], 2)
  }

  /** The turn of a well-formed row: it stays, opens the next bucket, or finds none to open. */
  lemma WellFormedStep(l: Located, c: Cursor)
    requires c.index < |c.buckets| && |l.row| > 0 && PyInt(l.row[0]).Some? && EntryOf(l).Some?
    ensures PyInt(l.row[0]).value == c.next ==>
      Step(l, c).Ok? && Step(l, c).value.index == c.index && Step(l, c).value.next == c.next + 1
    ensures PyInt(l.row[0]).value != c.next && c.index + 1 < |c.buckets| ==>
      Step(l, c).Ok? && Step(l, c).value.index == c.index + 1 && Step(l, c).value.next == 2
    ensures PyInt(l.row[0]).value != c.next && c.index + 1 == |c.buckets| ==> Step(l, c) == Err(IndexError)
  {
  }

  /** The loop of `parse_tables` over the rows, stopping at the first exception. */
  function Classify(rows: seq<Located>, c: Cursor): (o: Outcome)
    requires c.index < |c.buckets|
    ensures |o.buckets| == |c.buckets|
    decreases |rows|
  {
    if rows == [] then Outcome(c.buckets, None)
    else match Step(rows[0], c)
      case Err(e) => Outcome(c.buckets, Some(e))
      case Ok(c') => Classify(rows[1..], c')
  }

  /** `parse_tables(file)` up to its call of `clean_categories`, from the buckets `buckets`. */
  function Parse(v: Variant, tables: seq<Table>, buckets: seq<seq<Entry>>): Outcome
    requires |buckets| >= 1
  {
    var rows := CleanRows(v, tables);
    var o := Classify(rows.items, Cursor(buckets, 0, 1));
    if o.error.Some? then o else Outcome(o.buckets, rows.failure)
  }

  /** All the entries of the buckets, bucket after bucket. */
  function Flatten(buckets: seq<seq<Entry>>): seq<Entry> {
    if buckets == [] then [] else buckets[0] + Flatten(buckets[1..])
  }

  /** The (name, date) pairs of the rows, in order, as long as every row has both cells. */
  function Entries(rows: seq<Located>): seq<Entry> {
    if rows == [] || EntryOf(rows[0]).None? then [] else [EntryOf(rows[0]).value] + Entries(rows[1..])
  }

  /**
   * The numbering matches the buckets: `next` is one more than the size of the current
   * bucket, and no later bucket has been started.
   */
  predicate Inv(c: Cursor) {
    && c.index < |c.buckets|
    && c.next == |c.buckets[c.index]| + 1
    && forall b :: c.index < b < |c.buckets| ==> c.buckets[b] == []
  }

  /** A fresh parser's buckets are all empty, which meets the invariant at the start of `parse_tables`. */
  lemma InvAtStart(buckets: seq<seq<Entry>>)
    requires |buckets| >= 1 && forall b :: 0 <= b < |buckets| ==> buckets[b] == []
    ensures Inv(Cursor(buckets, 0, 1))
  {
  }

  /** Each turn of the loop keeps the invariant. */
  lemma StepKeepsInv(l: Located, c: Cursor)
    requires Inv(c)
    ensures Step(l, c).Ok? ==> Inv(Step(l, c).value)
  {
    StepRule(l, c);
  }

  /**
   * Under the invariant, a row stays in the current bucket exactly when its number is one
   * more than the entries already there: the numbering restarts at 1 in every bucket
   * (a bucket is opened by whatever number breaks the sequence, and then counts on from 2).
   */
  lemma StepByBucketSize(l: Located, c: Cursor)
    requires Inv(c) && Step(l, c).Ok?
    ensures Step(l, c).value.index == c.index <==> PyInt(l.row[0]).value == |c.buckets[c.index]| + 1
    ensures |Step(l, c).value.buckets[Step(l, c).value.index]| + 1 == Step(l, c).value.next
  {
    StepRule(l, c);
  }

  lemma {:induction false} FlattenUpdate(buckets: seq<seq<Entry>>, i: nat, e: Entry)
    requires i < |buckets| && forall b :: i < b < |buckets| ==> buckets[b] == []
    ensures Flatten(buckets[i := buckets[i] + [e]]) == Flatten(buckets) + [e]
  {
    if i == 0 {
      FlattenEmpty(buckets[1..]);
      assert buckets[i := buckets[i] + [e]][1..] == buckets[1..];
    } else {
      FlattenUpdate(buckets[1..], i - 1, e);
      assert buckets[i := buckets[i] + [e]][1..] == buckets[1..][i - 1 := buckets[i] + [e]];
    }
  }

  lemma {:induction false} FlattenEmpty(buckets: seq<seq<Entry>>)
    requires forall b :: 0 <= b < |buckets| ==> buckets[b] == []
    ensures Flatten(buckets) == []
  {
    if buckets != [] {
      FlattenEmpty(buckets[1..]);
    }
  }

  /** One turn of the loop of `parse_tables`, then the rest of the rows. */
  lemma ClassifyUnfold(rows: seq<Located>, c: Cursor)
    requires rows != [] && c.index < |c.buckets|
    ensures Step(rows[0], c).Err? ==> Classify(rows, c) == Outcome(c.buckets, Some(Step(rows[0], c).error))
    ensures Step(rows[0], c).Ok? ==> Classify(rows, c) == Classify(rows[1..], Step(rows[0], c).value)
  {
  }

  /** One row off the front of well-formed rows: the rest are well formed, and the row breaks the numbering or not. */
  lemma BreaksUnfold(rows: seq<Located>, next: int)
    requires rows != [] && WellFormed(rows)
    ensures WellFormed(rows[1..])
    ensures Breaks(rows, next)
         == if PyInt(rows[0].row[0]).value == next then Breaks(rows[1..], next + 1) else 1 + Breaks(rows[1..], 2)
  {
    assert forall k :: 0 <= k < |rows[1..]| ==> rows[1..][k] == rows[k + 1];
  }

  /** A well-formed first row that finds its bucket: the loop goes on with one break fewer to place, or as many. */
  lemma WellFormedTurn(rows: seq<Located>, c: Cursor)
    requires c.index < |c.buckets| && rows != [] && WellFormed(rows)
    requires PyInt(rows[0].row[0]).value == c.next || c.index + 1 < |c.buckets|
    ensures WellFormed(rows[1..]) && Step(rows[0], c).Ok?
    ensures Classify(rows, c) == Classify(rows[1..], Step(rows[0], c).value)
    ensures c.index + Breaks(rows, c.next)
         == Step(rows[0], c).value.index + Breaks(rows[1..], Step(rows[0], c).value.next)
  {
    BreaksUnfold(rows, c.next);
    ClassifyUnfold(rows, c);
    WellFormedStep(rows[0], c);
    if PyInt(rows[0].row[0]).value == c.next {
      assert Breaks(rows, c.next) == Breaks(rows[1..], c.next + 1);
    } else {
      assert Breaks(rows, c.next) == 1 + Breaks(rows[1..], 2);
    }
  }

  /** A well-formed first row that breaks the numbering in the last bucket: the loop raises IndexError. */
  lemma WellFormedOverflow(rows: seq<Located>, c: Cursor)
    requires c.index < |c.buckets| && rows != [] && WellFormed(rows)
    requires PyInt(rows[0].row[0]).value != c.next && c.index + 1 == |c.buckets|
    ensures Classify(rows, c).error == Some(IndexError) && Breaks(rows, c.next) >= 1
  {
    ClassifyUnfold(rows, c);
    WellFormedStep(rows[0], c);
  }

  /**
   * On well-formed rows the loop raises nothing exactly when every break of the numbering
   * finds a bucket to open: otherwise it is the IndexError of `self._raw_categories[i]`.
   */
  lemma {:induction false} ClassifySucceeds(rows: seq<Located>, c: Cursor)
    requires c.index < |c.buckets| && WellFormed(rows)
    ensures Classify(rows, c).error.None? <==> c.index + Breaks(rows, c.next) < |c.buckets|
    ensures Classify(rows, c).error.None? || Classify(rows, c).error == Some(IndexError)
    decreases |rows|
  {
    if rows != [] {
      assert |rows[0].row| > 0 && PyInt(rows[0].row[0]).Some?;
      if PyInt(rows[0].row[0]).value == c.next || c.index + 1 < |c.buckets| {
        WellFormedTurn(rows, c);
        ClassifySucceeds(rows[1..], Step(rows[0], c).value);
      } else {
        WellFormedOverflow(rows, c);
      }
    }
  }

  /**
   * Well-formed rows whose numbering breaks no more often than there are buckets left all
   * land, in order, in the buckets, and nothing is raised.
   */
  lemma EveryRowLands(rows: seq<Located>, c: Cursor)
    requires Inv(c) && WellFormed(rows) && c.index + Breaks(rows, c.next) < |c.buckets|
    ensures Classify(rows, c).error.None?
    ensures Flatten(Classify(rows, c).buckets) == Flatten(c.buckets) + Entries(rows) && |Entries(rows)| == |rows|
  {
    ClassifySucceeds(rows, c);
    ClassifyConcatenates(rows, c);
  }

  /** `parse_tables` only raises IndexError or ValueError. */
  lemma {:induction false} ClassifyErrors(rows: seq<Located>, c: Cursor)
    requires c.index < |c.buckets|
    ensures var o := Classify(rows, c);
      o.error.None? || o.error == Some(IndexError) || o.error == Some(InvalidNumber)
    decreases |rows|
  {
    if rows != [] {
      ClassifyUnfold(rows, c);
      StepRule(rows[0], c);
      if Step(rows[0], c).Ok? {
        ClassifyErrors(rows[1..], Step(rows[0], c).value);
      }
    }
  }

  /** Each bucket only grows at its end, whether or not an exception stops the loop. */
  lemma {:induction false} ClassifyGrows(rows: seq<Located>, c: Cursor)
    requires c.index < |c.buckets|
    ensures var o := Classify(rows, c);
      forall b :: 0 <= b < |c.buckets| ==> c.buckets[b] <= o.buckets[b]
    decreases |rows|
  {
    if rows != [] {
      ClassifyUnfold(rows, c);
      StepRule(rows[0], c);
      if Step(rows[0], c).Ok? {
        var c' := Step(rows[0], c).value;
        ClassifyGrows(rows[1..], c');
        assert forall b :: 0 <= b < |c.buckets| ==> c.buckets[b] <= c'.buckets[b];
      }
    }
  }

  /**
   * Every row is appended to exactly one bucket, in order: the buckets read one after the
   * other are the entries before plus the (name, date) pairs of the rows classified, all of
   * them when nothing was raised.
   */
  lemma {:induction false} ClassifyConcatenates(rows: seq<Located>, c: Cursor)
    requires Inv(c)
    ensures var o := Classify(rows, c);
      o.error.None? ==> Flatten(o.buckets) == Flatten(c.buckets) + Entries(rows) && |Entries(rows)| == |rows|
    decreases |rows|
  {
    if rows != [] && Step(rows[0], c).Ok? {
      var c' := Step(rows[0], c).value;
      var o := Classify(rows, c);
      assert o == Classify(rows[1..], c') by {
        ClassifyUnfold(rows, c);
      }
      assert EntryOf(rows[0]).Some? && Inv(c') && Flatten(c'.buckets) == Flatten(c.buckets) + [EntryOf(rows[0]).value] by {
        StepAppends(rows[0], c);
      }
      var e := EntryOf(rows[0]).value;
      ClassifyConcatenates(rows[1..], c');
      if o.error.None? {
        var before, after := Flatten(c.buckets), Entries(rows[1..]);
        assert Flatten(o.buckets) == before + [e] + after && |after| == |rows[1..]|;
        assert Entries(rows) == [e] + after;
        assert before + [e] + after == before + ([e] + after);
      }
    } else if rows != [] {
      ClassifyUnfold(rows, c);
    }
  }

  /** A turn that raises nothing adds the row's pair after all the entries so far, keeping the invariant. */
  lemma StepAppends(l: Located, c: Cursor)
    requires Inv(c) && Step(l, c).Ok?
    ensures EntryOf(l).Some? && Inv(Step(l, c).value)
    ensures Flatten(Step(l, c).value.buckets) == Flatten(c.buckets) + [EntryOf(l).value]
  {
    StepRule(l, c);
    StepKeepsInv(l, c);
    FlattenUpdate(c.buckets, Step(l, c).value.index, EntryOf(l).value);
  }

  /** A row of a Sechenova table: number, name and date in columns 0, 1 and 2. */
  function Numbered(number: string, name: string): Located {
    Located([number, name, "01.07.2020"], Columns(1, 2))
  }

  lemma SmallNumbers()
    ensures PyInt("1") == Some(1) && PyInt("2") == Some(2)
  {
    assert "1" == ['1'] && "2" == ['2'];
    PyIntOfDigit('1');
    PyIntOfDigit('2');
  }

  lemma StepNumbered(number: string, n: int, name: string, c: Cursor)
    requires PyInt(number) == Some(n) && c.index < |c.buckets|
    ensures var index := if n == c.next then c.index else c.index + 1;
      Step(Numbered(number, name), c)
      == if index >= |c.buckets| then Err(IndexError)
         else Ok(Cursor(c.buckets[index := c.buckets[index] + [Entry(name, "01.07.2020")]], index,
                        if n == c.next then c.next + 1 else 2))
  {
    var l := Numbered(number, name);
    assert l.row[0] == number && EntryOf(l) == Some(Entry(name, "01.07.2020"));
  }

  /** Rows numbered 1, 2, 1 fill the first bucket with two entries and open the second with the third. */
  lemma RestartOpensNextBucket()
    ensures Classify([Numbered("1", "A"), Numbered("2", "B"), Numbered("1", "C")], Cursor([[], []], 0, 1))
         == Outcome([[Entry("A", "01.07.2020"), Entry("B", "01.07.2020")], [Entry("C", "01.07.2020")]], None)
  {
    SmallNumbers();
    var rows := [Numbered("1", "A"), Numbered("2", "B"), Numbered("1", "C")];
    var a, b, c := Entry("A", "01.07.2020"), Entry("B", "01.07.2020"), Entry("C", "01.07.2020");
    var s0: seq<seq<Entry>> := [[], []];
    var s1: seq<seq<Entry>> := [[a], []];
    var s2: seq<seq<Entry>> := [[a, b], []];
    var s3: seq<seq<Entry>> := [[a, b], [c]];
    var t0 := s0[0 := s0[0] + [a]];
    assert |t0| == 2 && t0[0] == [a] && t0[1] == [];
    assert t0 == s1;
    assert s1[0 := s1[0] + [b]] == s2 by { assert s1[0] + [b] == [a, b]; }
    assert s2[1 := s2[1] + [c]] == s3 by { assert s2[1] + [c] == [c]; }
    StepNumbered("1", 1, "A", Cursor(s0, 0, 1));
    StepNumbered("2", 2, "B", Cursor(s1, 0, 2));
    StepNumbered("1", 1, "C", Cursor(s2, 0, 3));
    assert rows[1..] == [Numbered("2", "B"), Numbered("1", "C")] && rows[1..][1..] == [Numbered("1", "C")];
    assert Classify(rows[1..][1..][1..], Cursor(s3, 1, 2)) == Outcome(s3, None);
  }

  /** With two buckets, a third restart of the numbering is IndexError, and the buckets keep what they had. */
  lemma ThirdRestartOverflows()
    ensures Classify([Numbered("1", "A"), Numbered("1", "B"), Numbered("1", "C")], Cursor([[], []], 0, 1))
         == Outcome([[Entry("A", "01.07.2020")], [Entry("B", "01.07.2020")]], Some(IndexError))
  {
    SmallNumbers();
    var rows := [Numbered("1", "A"), Numbered("1", "B"), Numbered("1", "C")];
    var a, b := Entry("A", "01.07.2020"), Entry("B", "01.07.2020");
    var s0: seq<seq<Entry>> := [[], []];
    var s1: seq<seq<Entry>> := [[a], []];
    var s2: seq<seq<Entry>> := [[a], [b]];
    var t0 := s0[0 := s0[0] + [a]];
    assert |t0| == 2 && t0[0] == [a] && t0[1] == [];
    assert t0 == s1;
    assert s1[1 := s1[1] + [b]] == s2 by { assert s1[1] + [b] == [b]; }
    StepNumbered("1", 1, "A", Cursor(s0, 0, 1));
    StepNumbered("1", 1, "B", Cursor(s1, 0, 2));
    StepNumbered("1", 1, "C", Cursor(s2, 1, 2));
    assert rows[1..] == [Numbered("1", "B"), Numbered("1", "C")] && rows[1..][1..] == [Numbered("1", "C")];
  }

  // --------------------------------------------------------- clean_categories

  function SymmetricDifference<T>(a: set<T>, b: set<T>): set<T> {
    (a - b) + (b - a)
  }

  /**
   * The funded-only set and the rest, as each `clean_categories` computes them. Pirogova
   * starts from `set(general) ^ set(bvi)`; both Sechenova parsers from `set(general)`.
   */
  function CategorySets(v: Variant, raw: seq<seq<Entry>>): (r: (set<Entry>, set<Entry>))
    requires |raw| == BucketCount(v)
    ensures r.0 !! r.1
    ensures r.0 + r.1 == GeneralSet(v, raw)
    ensures r.0 == GeneralSet(v, raw) - ToSet(raw[ContractBucket(v)])
    ensures r.1 == GeneralSet(v, raw) * ToSet(raw[ContractBucket(v)])
  {
    FundedSplit(GeneralSet(v, raw), ToSet(raw[ContractBucket(v)]))
  }

  /** The set of applicants the general list is taken to be. */
  function GeneralSet(v: Variant, raw: seq<seq<Entry>>): set<Entry>
    requires |raw| == BucketCount(v)
  {
    if v.Pirogova? then SymmetricDifference(ToSet(raw[PirogovaGeneral]), ToSet(raw[PirogovaBvi]))
    else ToSet(raw[GeneralBucket(v)])
  }

  /** Both Sechenova parsers split exactly as `find_funded` does. */
  lemma SechenovaSplitIsFindFunded(v: Variant, raw: seq<seq<Entry>>)
    requires !v.Pirogova? && |raw| == BucketCount(v)
    ensures CategorySets(v, raw) == FindFunded(raw[GeneralBucket(v)], raw[ContractBucket(v)])
  {
  }

  /** An applicant on both Pirogova's general and bvi lists lands in neither derived category. */
  lemma PirogovaBothListsDropped(raw: seq<seq<Entry>>, e: Entry)
    requires |raw| == 4 && e in raw[PirogovaGeneral] && e in raw[PirogovaBvi]
    ensures e !in CategorySets(Pirogova, raw).0 && e !in CategorySets(Pirogova, raw).1
  {
  }

  /**
   * Because Pirogova takes the symmetric difference, a bvi applicant missing from the
   * general list is added to it: funded only unless it also has a contract entry.
   */
  lemma PirogovaBviOnlyAdded(raw: seq<seq<Entry>>, e: Entry)
    requires |raw| == 4 && e !in raw[PirogovaGeneral] && e in raw[PirogovaBvi]
    ensures e in raw[PirogovaContract] ==> e in CategorySets(Pirogova, raw).1
    ensures e !in raw[PirogovaContract] ==> e in CategorySets(Pirogova, raw).0
  {
  }

  /** When every bvi applicant is also on the general list, the symmetric difference is the plain difference. */
  lemma PirogovaSubsetIsDifference(raw: seq<seq<Entry>>)
    requires |raw| == 4 && ToSet(raw[PirogovaBvi]) <= ToSet(raw[PirogovaGeneral])
    ensures GeneralSet(Pirogova, raw) == ToSet(raw[PirogovaGeneral]) - ToSet(raw[PirogovaBvi])
  {
  }

  predicate NoDuplicates<T(==)>(s: seq<T>) {
    forall i, j :: 0 <= i < j < |s| ==> s[i] != s[j]
  }

  /** A category built from `set` holds exactly the set's members, each once, in some order. */
  predicate Lists(c: (string, Category), key: string, members: set<Entry>, bvi: bool, fundedOnly: bool) {
    && c.0 == key
    && ToSet(c.1.students) == members && NoDuplicates(c.1.students)
    && c.1.bvi == bvi && c.1.fundedOnly == fundedOnly
  }

  /** The `categories` dictionary, in insertion order, that `clean_categories` builds from `raw`. */
  predicate CategoriesFit(v: Variant, raw: seq<seq<Entry>>, cats: seq<(string, Category)>)
    requires |raw| == BucketCount(v)
  {
    var (fundedOnly, rest) := CategorySets(v, raw);
    match v
    case Pirogova =>
      && |cats| == 3
      && cats[0] == ("bvi", Category(raw[PirogovaBvi], true, false))
      && Lists(cats[1], "funded_only", fundedOnly, false, true)
      && Lists(cats[2], "general", rest, false, false)
    case Sechenova =>
      && |cats| == 2
      && Lists(cats[0], "funded_only", fundedOnly, false, true)
      && Lists(cats[1], "general", rest, false, false)
    case SechenovaBvi =>
      && |cats| == 2
      && Lists(cats[0], "funded_only", fundedOnly, true, true)
      && Lists(cats[1], "general", rest, true, false)
  }

  /**
   * Only the funded-only category is flagged funded only; the Sechenova categories are
   * flagged bvi exactly for the BVI parser, and only Pirogova's "bvi" category otherwise.
   */
  lemma CategoryFlags(v: Variant, raw: seq<seq<Entry>>, cats: seq<(string, Category)>)
    requires |raw| == BucketCount(v) && CategoriesFit(v, raw, cats)
    ensures forall k :: 0 <= k < |cats| ==> (cats[k].1.fundedOnly <==> cats[k].0 == "funded_only")
    ensures forall k :: 0 <= k < |cats| ==> (cats[k].1.bvi <==> v.SechenovaBvi? || cats[k].0 == "bvi")
  {
  }

  /** `Parser.__len__`: the number of entries over all categories. */
  function TotalLen(cats: seq<(string, Category)>): nat {
    if cats == [] then 0 else |cats[0].1.students| + TotalLen(cats[1..])
  }

  lemma {:induction false} DistinctCount<T>(s: seq<T>)
    requires NoDuplicates(s)
    ensures |ToSet(s)| == |s|
  {
    if s != [] {
      DistinctCount(s[1..]);
      assert ToSet(s) == ToSet(s[1..]) + {s[0]};
      assert s[0] !in ToSet(s[1..]);
    }
  }

  /**
   * The parser's length after `clean_categories`: Pirogova's bvi list as it is plus the
   * applicants of the general set; for Sechenova, the distinct general applicants.
   */
  lemma LengthAfterCleaning(v: Variant, raw: seq<seq<Entry>>, cats: seq<(string, Category)>)
    requires |raw| == BucketCount(v) && CategoriesFit(v, raw, cats)
    ensures TotalLen(cats) == (if v.Pirogova? then |raw[PirogovaBvi]| else 0) + |GeneralSet(v, raw)|
  {
    var sets := CategorySets(v, raw);
    var n := |cats|;
    var f, g := cats[n - 2].1.students, cats[n - 1].1.students;
    assert |f| + |g| == |GeneralSet(v, raw)| by {
      DistinctCount(f);
      DistinctCount(g);
      assert ToSet(f) == sets.0 && ToSet(g) == sets.1;
      assert |sets.0 + sets.1| == |sets.0| + |sets.1|;
    }
    assert TotalLen(cats[n - 2..]) == |f| + |g| by {
      var last := cats[n - 1..];
      assert last[0] == cats[n - 1] && last[1..] == [];
      assert TotalLen(last) == |g| + TotalLen([]);
      assert cats[n - 2..][0] == cats[n - 2] && cats[n - 2..][1..] == last;
    }
    if v.Pirogova? {
      assert cats[1..] == cats[n - 2..];
    } else {
      assert cats == cats[n - 2..];
    }
  }

  /** `Parser.__iter__`: the records of every category in turn, stopping at the first bad date. */
  function Records(cats: seq<(string, Category)>, school: School): Stream<StudentRecord> {
    if cats == [] then Stream([], None)
    else
      var c := cats[0].1;
      var head := CategoryRecords(c, c.students, school);
      if head.failure.Some? then head
      else
        var rest := Records(cats[1..], school);
        Stream(head.items + rest.items, rest.failure)
  }

  /**
   * Iterating a parser stops with the strptime ValueError exactly when some stored date
   * does not parse; otherwise it yields as many records as the parser's length.
   */
  lemma {:induction false} RecordsCount(cats: seq<(string, Category)>, school: School)
    ensures var s := Records(cats, school);
      && (s.failure.None? <==>
          forall k, j :: 0 <= k < |cats| && 0 <= j < |cats[k].1.students| ==> MakeDate(cats[k].1.students[j].date).Some?)
      && (s.failure.None? || s.failure == Some(InvalidDate))
      && |s.items| <= TotalLen(cats)
      && (s.failure.None? ==> |s.items| == TotalLen(cats))
  {
    if cats != [] {
      var c := cats[0].1;
      CategoryRecordsShape(c, c.students, school);
      RecordsCount(cats[1..], school);
      assert forall k :: 1 <= k < |cats| ==> cats[k] == cats[1..][k - 1];
    }
  }

  /** One entry of a category that raises nothing: its record sits at the entry's own place. */
  lemma CategoryRecordAt(c: Category, entries: seq<Entry>, school: School, j: nat)
    requires CategoryRecords(c, entries, school).failure.None? && j < |entries|
    ensures j < |CategoryRecords(c, entries, school).items|
    ensures MakeStudent(c, entries[j], school) == Ok(CategoryRecords(c, entries, school).items[j])
  {
    CategoryRecordsShape(c, entries, school);
  }

  /** Iterating a parser that raises nothing yields its first category's records, then the rest's. */
  lemma RecordsSplit(cats: seq<(string, Category)>, school: School)
    requires cats != [] && Records(cats, school).failure.None?
    ensures var head := CategoryRecords(cats[0].1, cats[0].1.students, school);
      && head.failure.None? && Records(cats[1..], school).failure.None?
      && |head.items| == |cats[0].1.students|
      && Records(cats, school).items == head.items + Records(cats[1..], school).items
  {
    CategoryRecordsShape(cats[0].1, cats[0].1.students, school);
  }

  /**
   * Iterating the categories of two runs one after the other: the first run's records, and,
   * when the first run raises nothing, the second run's records after them.
   */
  lemma {:induction false} RecordsAppend(a: seq<(string, Category)>, b: seq<(string, Category)>, school: School)
    ensures Records(a + b, school)
         == if Records(a, school).failure.Some? then Records(a, school)
            else Stream(Records(a, school).items + Records(b, school).items, Records(b, school).failure)
  {
    if a == [] {
      assert a + b == b;
    } else {
      assert (a + b)[0] == a[0] && (a + b)[1..] == a[1..] + b;
      RecordsAppend(a[1..], b, school);
      var head := CategoryRecords(a[0].1, a[0].1.students, school);
      if head.failure.None? {
        var ra, rb := Records(a[1..], school), Records(b, school);
        assert head.items + (ra.items + rb.items) == (head.items + ra.items) + rb.items;
      }
    }
  }

  /** A parser that raises nothing, cut before category `k`: the records before it are as many as their entries. */
  lemma RecordsCut(cats: seq<(string, Category)>, school: School, k: nat)
    requires Records(cats, school).failure.None? && k <= |cats|
    ensures Records(cats[..k], school).failure.None? && Records(cats[k..], school).failure.None?
    ensures |Records(cats[..k], school).items| == TotalLen(cats[..k])
    ensures Records(cats, school).items == Records(cats[..k], school).items + Records(cats[k..], school).items
  {
    assert cats == cats[..k] + cats[k..];
    RecordsAppend(cats[..k], cats[k..], school);
    RecordsCount(cats[..k], school);
  }

  /** The item `j` places into the second part of a concatenation. */
  lemma ConcatAt<T>(all: seq<T>, before: seq<T>, after: seq<T>, j: nat)
    requires all == before + after && j < |after|
    ensures |before| + j < |all| && all[|before| + j] == after[j]
  {
  }

  /** A parser that raises nothing yields the records of its first category first. */
  lemma RecordsFirst(cats: seq<(string, Category)>, school: School, j: nat)
    requires cats != [] && Records(cats, school).failure.None? && j < |cats[0].1.students|
    ensures j < |Records(cats, school).items|
    ensures MakeStudent(cats[0].1, cats[0].1.students[j], school) == Ok(Records(cats, school).items[j])
  {
    RecordsSplit(cats, school);
    var c := cats[0].1;
    CategoryRecordAt(c, c.students, school, j);
  }

  /**
   * When iterating a parser raises nothing, the record in the place of entry `j` of category
   * `k`, after the entries of the categories before it, is `make_student` of that entry.
   */
  lemma RecordsContents(cats: seq<(string, Category)>, school: School, k: nat, j: nat)
    requires Records(cats, school).failure.None?
    requires k < |cats| && j < |cats[k].1.students|
    ensures TotalLen(cats[..k]) + j < |Records(cats, school).items|
    ensures MakeStudent(cats[k].1, cats[k].1.students[j], school)
         == Ok(Records(cats, school).items[TotalLen(cats[..k]) + j])
  {
    RecordsCut(cats, school, k);
    assert cats[k..][0] == cats[k];
    RecordsFirst(cats[k..], school, j);
    ConcatAt(Records(cats, school).items, Records(cats[..k], school).items, Records(cats[k..], school).items, j);
  }

  /** A list of the distinct members of `s`, in an order the model leaves open, as iterating a Python set gives. */
  method Enumerate(s: set<Entry>) returns (r: seq<Entry>)
    ensures ToSet(r) == s && NoDuplicates(r) && |r| == |s|
  {
    r := [];
    var left := s;
    while left != {}
      invariant left !! ToSet(r) && left + ToSet(r) == s && NoDuplicates(r)
      decreases |left|
    {
      var x :| x in left;
      r := r + [x];
      left := left - {x};
    }
    DistinctCount(r);
  }

  // ------------------------------------------------------------------- Parser

  /** A parser object: its buckets, the categories derived from them and the document link it found. */
  class Parser {
    const variant: Variant
    var rawCategories: seq<seq<Entry>>
    var categories: seq<(string, Category)>
    var sourceUrl: string

    predicate Valid()
      reads this
    {
      |rawCategories| == BucketCount(variant)
    }

    /**
     * One turn of the loop of `parse_tables`: a row numbered `next` stays in the current
     * bucket, any other number opens the next one, and the row's (name, date) is appended
     * to the bucket; the buckets are untouched when the turn raises.
     */
    method Turn(l: Located, index: nat, next: int) returns (error: Option<Error>, index': nat, next': int)
      requires Valid() && index < |rawCategories|
      modifies this`rawCategories
      ensures Valid() && index' < |rawCategories|
      ensures Step(l, Cursor(old(rawCategories), index, next))
           == if error.Some? then Err(error.value) else Ok(Cursor(rawCategories, index', next'))
      ensures error.Some? ==> rawCategories == old(rawCategories)
    {
      ghost var c := Cursor(rawCategories, index, next);
      index', next' := index, next;
      var row := l.row;
      if |row| == 0 {
        assert Step(l, c) == Err(IndexError);
        return Some(IndexError), index', next';
      }
      var number := PyInt(row[0]);
      if number.None? {
        assert Step(l, c) == Err(InvalidNumber);
        return Some(InvalidNumber), index', next';
      }
      if number.value == next {
        next' := next + 1;
      } else {
        if index + 1 >= |rawCategories| {
          assert Step(l, c) == Err(IndexError);
          return Some(IndexError), index', next';
        }
        index', next' := index + 1, 2;
      }
      var columns := l.columns;
      if columns.name >= |row| || columns.date >= |row| {
        assert EntryOf(l).None? && Step(l, c) == Err(IndexError);
        return Some(IndexError), index, next;
      }
      var entry := Entry(row[columns.name], row[columns.date]);
      assert EntryOf(l) == Some(entry);
      rawCategories := rawCategories[index' := rawCategories[index'] + [entry]];
      assert Step(l, c) == Ok(Cursor(rawCategories, index', next'));
      error := None;
    }

    /** A new parser has empty buckets, no categories and no link yet. */
    constructor (v: Variant)
      ensures variant == v && Valid()
      ensures forall b :: 0 <= b < |rawCategories| ==> rawCategories[b] == []
      ensures categories == [] && sourceUrl == ""
    {
      variant := v;
      rawCategories := seq(BucketCount(v), _ => []);
      categories := [];
      sourceUrl := "";
    }

    /**
     * `get_source()` on the anchors of the fetched page: the link is the base URL followed
     * by the `href` of the first anchor with the parser's link text (nothing when it has no
     * `href`); with no such anchor, ClientConnectionError and no change.
     */
    method GetSource(page: seq<Anchor>) returns (failure: Option<Error>)
      modifies this`sourceUrl
      ensures failure.None? <==> exists k :: 0 <= k < |page| && page[k].text == LinkText(variant)
      ensures failure.Some? ==> failure == Some(LinkNotFound) && sourceUrl == old(sourceUrl)
      ensures failure.None? ==> exists k ::
        && 0 <= k < |page| && page[k].text == LinkText(variant)
        && (forall j :: 0 <= j < k ==> page[j].text != LinkText(variant))
        && sourceUrl == BaseUrl(variant) + page[k].href.GetOr("")
    {
      match FindAnchor(page, LinkText(variant))
      case None =>
        failure := Some(LinkNotFound);
      case Some(k) =>
        sourceUrl := BaseUrl(variant) + page[k].href.GetOr("");
        failure := None;
    }

    /**
     * `parse_tables(file)` on the extracted tables: the buckets end as `Parse` says, and
     * only when nothing was raised are the categories derived from them.
     */
    method ParseTables(tables: seq<Table>) returns (failure: Option<Error>)
      requires Valid()
      modifies this`rawCategories, this`categories
      ensures Valid()
      ensures rawCategories == Parse(variant, tables, old(rawCategories)).buckets
      ensures failure == Parse(variant, tables, old(rawCategories)).error
      ensures failure.None? ==> CategoriesFit(variant, rawCategories, categories)
      ensures failure.Some? ==> categories == old(categories)
    {
      var located := TableRows(tables, Locate(variant));
      var rows: Stream<Located>;
      if variant.Pirogova? {
        rows := PirogovaRows(located.items, located.failure);
      } else {
        rows := SechenovaCleanRows(located.items, located.failure);
      }
      assert rows == CleanRows(variant, tables);
      var next: int, index: nat := 1, 0;
      var i := 0;
      while i < |rows.items|
        invariant 0 <= i <= |rows.items|
        invariant |rawCategories| == BucketCount(variant) && index < |rawCategories|
        invariant categories == old(categories)
        invariant Classify(rows.items, Cursor(old(rawCategories), 0, 1))
               == Classify(rows.items[i..], Cursor(rawCategories, index, next))
      {
        assert rows.items[i..][0] == rows.items[i] && rows.items[i..][1..] == rows.items[i + 1..];
        ClassifyUnfold(rows.items[i..], Cursor(rawCategories, index, next));
        var error;
        error, index, next := Turn(rows.items[i], index, next);
        if error.Some? {
          return error;
        }
        i := i + 1;
      }
      assert rows.items[i..] == [];
      if rows.failure.Some? {
        return rows.failure;
      }
      CleanCategories();
      return None;
    }

    /** `clean_categories()`: replaces `categories` with the ones derived from the buckets. */
    method CleanCategories()
      requires Valid()
      modifies this`categories
      ensures CategoriesFit(variant, rawCategories, categories)
    {
      var sets := CategorySets(variant, rawCategories);
      var fundedOnly := Enumerate(sets.0);
      var rest := Enumerate(sets.1);
      match variant
      case Pirogova =>
        categories := [
          ("bvi", Category(rawCategories[PirogovaBvi], true, false)),
          ("funded_only", Category(fundedOnly, false, true)),
          ("general", Category(rest, false, false))];
      case Sechenova =>
        categories := [("funded_only", Category(fundedOnly, false, true)), ("general", Category(rest, false, false))];
      case SechenovaBvi =>
        categories := [("funded_only", Category(fundedOnly, true, true)), ("general", Category(rest, true, false))];
    }
  }
}
