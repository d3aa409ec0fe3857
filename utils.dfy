/**
 * The helpers of abitur/utils.py: the funded-only inference, the column lookup in a header row,
 * the flattening of extracted tables into rows, date parsing and the link fingerprint.
 */
module Utils {
  import opened Wrappers
  import opened Text
  import opened Calendar
  import Adler32

  /** The exceptions the modelled code raises, by what they mean. */
  datatype Error =
    | ColumnNotFound   // ValueError('Column not found in row')
    | IndexError       // an index past the end of a list or tuple
    | InvalidNumber    // ValueError from int()
    | InvalidDate      // ValueError from strptime()
    | LinkNotFound     // ClientConnectionError('Link not found')

  /** One row of an extracted table, a list of cell texts. */
  type Row = seq<string>

  /** The `data` of one extracted table: row 0 is its header row. */
  type Table = seq<Row>

  /** Where the applicant's name and application date stand in the rows of a table. */
  datatype Columns = Columns(name: nat, date: nat)

  /** A row together with the column indices of the table it came from. */
  datatype Located = Located(row: Row, columns: Columns)

  /**
   * What a generator produces: the items it yields, in order, and the exception it stops
   * with, if it stops with one.
   */
  datatype Stream<T> = Stream(items: seq<T>, failure: Option<Error>)

  /** A rule that finds the name and date columns of a table. */
  type Locator = Table -> Result<Columns, Error>

  // ------------------------------------------------------------ find_funded

  function ToSet<T>(s: seq<T>): set<T> {
    set x | x in s
  }

  /**
   * Splits the general applicants into those absent from the contract list (funded only)
   * and the rest, which is then exactly those on both lists.
   */
  function FundedSplit<T>(general: set<T>, contract: set<T>): (r: (set<T>, set<T>))
    ensures r.0 !! r.1 && r.0 + r.1 == general
    ensures r.0 == general - contract && r.1 == general * contract
  {
    var fundedOnly := general - contract;
    (fundedOnly, general - fundedOnly)
  }

  /** `find_funded(general, contract)`, which works on the sets of its arguments. */
  function FindFunded<T(!new)>(general: seq<T>, contract: seq<T>): (r: (set<T>, set<T>))
    ensures forall x :: x in r.0 <==> x in general && x !in contract
    ensures forall x :: x in r.1 <==> x in general && x in contract
  {
    FundedSplit(ToSet(general), ToSet(contract))
  }

  /** Order and repetition in the two lists do not matter; contract-only entries land nowhere. */
  lemma FindFundedUsesSetsOnly<T(!new)>(g1: seq<T>, c1: seq<T>, g2: seq<T>, c2: seq<T>, x: T)
    requires ToSet(g1) == ToSet(g2) && ToSet(c1) == ToSet(c2)
    ensures FindFunded(g1, c1) == FindFunded(g2, c2)
    ensures x in c1 && x !in g1 ==> x !in FindFunded(g1, c1).0 + FindFunded(g1, c1).1
  {
  }

  // ------------------------------------------------------- find_columns_index

  const NameHeader := "Фамилия, имя, отчество"
  const DateHeader := "Дата подачи \nзаявления"

  /** `xs.index(x)`, with `None` for its ValueError. */
  function IndexOf(xs: seq<string>, x: string): (r: Option<nat>)
    ensures r.None? <==> x !in xs
    ensures r.Some? ==> r.value < |xs| && xs[r.value] == x && x !in xs[..r.value]
  {
    if xs == [] then None
    else if xs[0] == x then Some(0)
    else match IndexOf(xs[1..], x)
      case None => None
      case Some(i) =>
        assert xs[..i + 1] == [xs[0]] + xs[1..][..i];
        Some(i + 1)
  }

  /**
   * `find_columns_index(table)`: the first name column and the first date column of the
   * header row. The date column is looked up first.
   */
  function FindColumnsIndex(table: Table): (r: Result<Columns, Error>)
    ensures |table| == 0 ==> r == Err(IndexError)
    ensures |table| > 0 ==>
      (r.Ok? <==> NameHeader in table[0] && DateHeader in table[0]) &&
      (r.Err? ==> r.error == ColumnNotFound)
    ensures r.Ok? ==>
      && r.value.name < |table[0]| && table[0][r.value.name] == NameHeader
      && NameHeader !in table[0][..r.value.name]
      && r.value.date < |table[0]| && table[0][r.value.date] == DateHeader
      && DateHeader !in table[0][..r.value.date]
  {
    if |table| == 0 then Err(IndexError)
    else
      match IndexOf(table[0], DateHeader)
      case None => Err(ColumnNotFound)
      case Some(date) =>
        match IndexOf(table[0], NameHeader)
        case None => Err(ColumnNotFound)
        case Some(name) => Ok(Columns(name, date))
  }

  // ---------------------------------------------------------------- table_rows

  /** Every row of `table`, header included, paired with `columns`. */
  function Tagged(table: Table, columns: Columns): (r: seq<Located>)
    ensures |r| == |table|
    ensures forall i :: 0 <= i < |table| ==> r[i] == Located(table[i], columns)
  {
    seq(|table|, i requires 0 <= i < |table| => Located(table[i], columns))
  }

  function RowCount(tables: seq<Table>): nat {
    if tables == [] then 0 else |tables[0]| + RowCount(tables[1..])
  }

  /**
   * `table_rows(file, locate)`: the rows of each table in turn, each with the columns
   * `locate` finds in its table. A table whose columns cannot be found stops the generator
   * with that error before any of its rows.
   */
  function TableRows(tables: seq<Table>, locate: Locator): Stream<Located> {
    if tables == [] then Stream([], None)
    else
      match locate(tables[0])
      case Err(e) => Stream([], Some(e))
      case Ok(columns) =>
        var rest := TableRows(tables[1..], locate);
        Stream(Tagged(tables[0], columns) + rest.items, rest.failure)
  }

  /**
   * The generator fails exactly when some table's columns cannot be found, and otherwise
   * yields every row of every table, header rows included; a first table without its
   * columns fails before yielding anything.
   */
  lemma {:induction false} TableRowsShape(tables: seq<Table>, locate: Locator)
    ensures TableRows(tables, locate).failure.None? <==> forall k :: 0 <= k < |tables| ==> locate(tables[k]).Ok?
    ensures TableRows(tables, locate).failure.None? ==> |TableRows(tables, locate).items| == RowCount(tables)
    ensures |tables| > 0 && locate(tables[0]).Err? ==> TableRows(tables, locate) == Stream([], Some(locate(tables[0]).error))
  {
    if tables != [] && locate(tables[0]).Ok? {
      TableRowsShape(tables[1..], locate);
      assert forall k :: 1 <= k < |tables| ==> tables[k] == tables[1..][k - 1];
    }
  }

  /**
   * When every table's columns are found, row `i` of table `k` is yielded at position
   * `RowCount(tables[..k]) + i`, paired with that table's columns.
   */
  lemma {:induction false} TableRowsContents(tables: seq<Table>, locate: Locator, k: nat, i: nat)
    requires forall k :: 0 <= k < |tables| ==> locate(tables[k]).Ok?
    requires k < |tables| && i < |tables[k]|
    ensures RowCount(tables[..k]) + i < |TableRows(tables, locate).items|
    ensures TableRows(tables, locate).items[RowCount(tables[..k]) + i] == Located(tables[k][i], locate(tables[k]).value)
  {
    var rest := tables[1..];
    TableRowsStep(tables, locate);
    var head := Tagged(tables[0], locate(tables[0]).value);
    var items := TableRows(tables, locate).items;
    assert items == head + TableRows(rest, locate).items;
    if k == 0 {
      assert tables[..0] == [];
      assert items[i] == head[i];
    } else {
      assert forall m :: 0 <= m < |rest| ==> rest[m] == tables[m + 1];
      assert tables[..k][0] == tables[0] && tables[..k][1..] == rest[..k - 1];
      assert RowCount(tables[..k]) == |tables[0]| + RowCount(rest[..k - 1]);
      TableRowsContents(rest, locate, k - 1, i);
      var j := RowCount(rest[..k - 1]) + i;
      assert items[|head| + j] == TableRows(rest, locate).items[j];
    }
  }

  /** Tables whose columns are found contribute all their rows before the tables after them are looked at. */
  lemma {:induction false} TableRowsAppend(front: seq<Table>, back: seq<Table>, locate: Locator)
    requires forall k :: 0 <= k < |front| ==> locate(front[k]).Ok?
    ensures TableRows(front + back, locate)
         == Stream(TableRows(front, locate).items + TableRows(back, locate).items, TableRows(back, locate).failure)
  {
    if front == [] {
      assert front + back == back;
    } else {
      var tail := front[1..];
      assert (front + back)[1..] == tail + back;
      TableRowsAppend(tail, back, locate);
      TableRowsStep(front, locate);
      TableRowsStep(front + back, locate);
    }
  }

  lemma TableRowsStep(tables: seq<Table>, locate: Locator)
    requires |tables| > 0 && locate(tables[0]).Ok?
    ensures TableRows(tables, locate)
         == Stream(Tagged(tables[0], locate(tables[0]).value) + TableRows(tables[1..], locate).items,
                   TableRows(tables[1..], locate).failure)
  {
  }

  // ------------------------------------------------------------------ make_date

  predicate IsNonZeroDigit(c: char) { '1' <= c <= '9' }

  /** The text `%d` of strptime accepts: 01..31 with or without a leading 0, or a space and a digit. */
  predicate IsDayField(f: string) {
    || (|f| == 1 && IsNonZeroDigit(f[0]))
    || (|f| == 2 && f[0] == ' ' && IsNonZeroDigit(f[1]))
    || (|f| == 2 && f[0] == '0' && IsNonZeroDigit(f[1]))
    || (|f| == 2 && (f[0] == '1' || f[0] == '2') && IsDigit(f[1]))
    || (|f| == 2 && f[0] == '3' && (f[1] == '0' || f[1] == '1'))
  }

  /** The text `%m` accepts: 01..12 with or without a leading 0. */
  predicate IsMonthField(f: string) {
    || (|f| == 1 && IsNonZeroDigit(f[0]))
    || (|f| == 2 && f[0] == '0' && IsNonZeroDigit(f[1]))
    || (|f| == 2 && f[0] == '1' && '0' <= f[1] <= '2')
  }

  /** The text `%Y` accepts: exactly four digits. */
  predicate IsYearField(f: string) {
    |f| == 4 && IsDigits(f)
  }

  function FieldValue(f: string): nat
    requires IsDayField(f) || IsMonthField(f) || IsYearField(f)
  {
    if f[0] == ' ' then DigitValue(f[1]) else Value(f)
  }

  /**
   * `make_date(s)`, i.e. `datetime.strptime(s, '%d.%m.%Y')`: the whole text must be a day, a
   * month and a year field separated by dots, and they must name a real date.
   */
  function MakeDate(s: string): (r: Option<Date>)
    ensures r.Some? ==> IsValid(r.value)
  {
    var parts := Split(s, '.');
    if |parts| == 3 && IsDayField(parts[0]) && IsMonthField(parts[1]) && IsYearField(parts[2]) then
      var d := Date(FieldValue(parts[2]), FieldValue(parts[1]), FieldValue(parts[0]));
      if IsValid(d) then Some(d) else None
    else None
  }

  /**
   * A date `make_date` returns is read from a text that is a day, a month and a year field
   * joined by dots; any other text is rejected.
   */
  lemma MakeDateReads(s: string)
    ensures MakeDate(s).Some? ==> exists day, month, year ::
      && s == day + "." + month + "." + year
      && IsDayField(day) && IsMonthField(month) && IsYearField(year)
      && MakeDate(s).value == Date(FieldValue(year), FieldValue(month), FieldValue(day))
  {
    var parts := Split(s, '.');
    if MakeDate(s).Some? {
      JoinSplit(s, '.');
      assert parts[1..][0] == parts[1] && parts[1..][1..] == [parts[2]];
      assert Join(parts[1..], '.') == parts[1] + "." + parts[2];
      assert s == parts[0] + "." + parts[1] + "." + parts[2];
    }
  }

  /** `n` as exactly `width` digits, zero-padded on the left. */
  function Padded(n: nat, width: nat): (r: string)
    ensures |r| == width
    ensures forall i :: 0 <= i < |r| ==> IsDigit(r[i])
  {
    if width == 0 then [] else Padded(n / 10, width - 1) + [DigitChar(n % 10)]
  }

  function Pow10(k: nat): nat {
    if k == 0 then 1 else 10 * Pow10(k - 1)
  }

  lemma {:induction false} PaddedValue(n: nat, width: nat)
    requires n < Pow10(width)
    ensures Value(Padded(n, width)) == n
  {
    if width > 0 {
      var r := Padded(n, width);
      assert r[..|r| - 1] == Padded(n / 10, width - 1);
      PaddedValue(n / 10, width - 1);
    }
  }

  /** A date written the way the admission lists write it: `DD.MM.YYYY`. */
  function FormatDate(d: Date): string
    requires IsValid(d)
  {
    Join([Padded(d.day, 2), Padded(d.month, 2), Padded(d.year, 4)], '.')
  }

  lemma TwoDigits(n: nat)
    requires n < 100
    ensures Padded(n, 2) == [DigitChar(n / 10), DigitChar(n % 10)]
    ensures Value(Padded(n, 2)) == n
  {
    assert n / 10 / 10 == 0 && n / 10 % 10 == n / 10;
    assert Padded(n / 10, 1) == [DigitChar(n / 10)];
    assert Pow10(2) == 100;
    PaddedValue(n, 2);
  }

  lemma FourDigits(n: nat)
    requires n < 10000
    ensures IsYearField(Padded(n, 4)) && FieldValue(Padded(n, 4)) == n
  {
    PaddedValue(n, 4);
  }

  /** A day and a month written with two digits are fields strptime accepts. */
  lemma TwoDigitFields(d: Date)
    requires IsValid(d)
    ensures IsDayField(Padded(d.day, 2)) && FieldValue(Padded(d.day, 2)) == d.day
    ensures IsMonthField(Padded(d.month, 2)) && FieldValue(Padded(d.month, 2)) == d.month
  {
    TwoDigits(d.day);
    TwoDigits(d.month);
  }

  /** Parsing a formatted date gives the date back. */
  lemma MakeDateFormatDate(d: Date)
    requires IsValid(d)
    ensures MakeDate(FormatDate(d)) == Some(d)
  {
    var dd, mm, yyyy := Padded(d.day, 2), Padded(d.month, 2), Padded(d.year, 4);
    assert forall i :: 0 <= i < 3 ==> '.' !in [dd, mm, yyyy][i];
    SplitJoin([dd, mm, yyyy], '.');
    TwoDigitFields(d);
    FourDigits(d.year);
  }

  /** The three fields of a `D.M.Y` text whose parts contain no dot. */
  lemma SplitDate(day: string, month: string, year: string)
    requires '.' !in day && '.' !in month && '.' !in year
    ensures Split(day + "." + month + "." + year, '.') == [day, month, year]
  {
    SplitNoSeparator(year, '.');
    SplitPrefix(month, year, '.');
    SplitPrefix(day, month + "." + year, '.');
    assert day + "." + month + "." + year == day + ['.'] + (month + ['.'] + year);
  }

  lemma FourDigitValue(s: string)
    requires |s| == 4 && IsDigits(s)
    ensures Value(s) == 1000 * DigitValue(s[0]) + 100 * DigitValue(s[1]) + 10 * DigitValue(s[2]) + DigitValue(s[3])
  {
    var three, two := s[..3], s[..2];
    assert s[..|s| - 1] == three && three[..|three| - 1] == two;
    TwoDigitValue(two);
  }

  lemma TwoDigitValue(s: string)
    requires |s| == 2 && IsDigits(s)
    ensures Value(s) == 10 * DigitValue(s[0]) + DigitValue(s[1])
  {
    var one := s[..1];
    assert s[..|s| - 1] == one && one[..|one| - 1] == [];
    assert one[|one| - 1] == s[0] && IsDigit(s[0]) && IsDigit(s[1]);
    assert Value(one) == DigitValue(s[0]);
  }

  /** The date a well-formed `D.M.Y` text names, if it is a real one. */
  lemma MakeDateFields(day: string, month: string, year: string)
    requires IsDayField(day) && IsMonthField(month) && IsYearField(year)
    ensures MakeDate(day + "." + month + "." + year)
         == var d := Date(FieldValue(year), FieldValue(month), FieldValue(day)); if IsValid(d) then Some(d) else None
  {
    SplitDate(day, month, year);
  }

  lemma LeapDay()
    ensures MakeDate("29.02.2020") == Some(Date(2020, 2, 29))
  {
    assert "29.02.2020" == "29" + "." + "02" + "." + "2020";
    FourDigitValue("2020");
    TwoDigitValue("29");
    TwoDigitValue("02");
    assert FieldValue("2020") == 2020 && FieldValue("02") == 2 && FieldValue("29") == 29;
    assert IsLeap(2020) && IsValid(Date(2020, 2, 29));
    MakeDateFields("29", "02", "2020");
  }

  lemma NotALeapYear()
    ensures MakeDate("29.02.2019") == None
  {
    assert "29.02.2019" == "29" + "." + "02" + "." + "2019";
    FourDigitValue("2019");
    TwoDigitValue("29");
    TwoDigitValue("02");
    assert FieldValue("2019") == 2019 && FieldValue("02") == 2 && FieldValue("29") == 29;
    assert !IsLeap(2019) && !IsValid(Date(2019, 2, 29));
    MakeDateFields("29", "02", "2019");
  }

  lemma NoThirtyFirstOfFebruary()
    ensures MakeDate("31.02.2020") == None
  {
    assert "31.02.2020" == "31" + "." + "02" + "." + "2020";
    FourDigitValue("2020");
    TwoDigitValue("31");
    TwoDigitValue("02");
    assert FieldValue("2020") == 2020 && FieldValue("02") == 2 && FieldValue("31") == 31;
    assert DaysInMonth(2020, 2) == 29 && !IsValid(Date(2020, 2, 31));
    MakeDateFields("31", "02", "2020");
  }

  /** strptime's `%d` and `%m` also take a single digit. */
  lemma OneDigitFields()
    ensures MakeDate("1.7.2020") == Some(Date(2020, 7, 1))
  {
    assert "1.7.2020" == "1" + "." + "7" + "." + "2020";
    FourDigitValue("2020");
    assert Value("7") == DigitValue('7') by {
      assert "7"[..0] == [];
    }
    assert Value("1") == DigitValue('1') by {
      assert "1"[..0] == [];
    }
    assert FieldValue("2020") == 2020 && FieldValue("7") == 7 && FieldValue("1") == 1;
    assert IsValid(Date(2020, 7, 1));
    MakeDateFields("1", "7", "2020");
  }

  // -------------------------------------------------------------- make_checksum

  /** `make_checksum(link)`: the Adler-32 of the link's UTF-8 bytes, in decimal. */
  function MakeChecksum(link: string): (r: string)
    ensures IsDigits(r) && (r[0] == '0' ==> |r| == 1)
    ensures PyInt(r) == Some(Adler32.Checksum(Utf8(link)))
    ensures Adler32.Checksum(Utf8(link)) < 0x1_0000_0000
  {
    var r := DecimalString(Adler32.Checksum(Utf8(link)));
    PyIntOfDecimal(Adler32.Checksum(Utf8(link)));
    r
  }

  lemma EmptyLinkChecksum()
    ensures MakeChecksum("") == "1"
  {
    assert Utf8("") == [];
    Adler32.EmptyChecksum();
    assert DecimalString(1) == "1";
  }
}
