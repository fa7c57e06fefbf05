/**
 * The roll-band extractor of MoESchools.py (`load_roll_data`) and the list of
 * selectable years (`get_available_years`). A workbook is a list of named
 * sheets; a sheet is its header row and its data rows, as pandas reads them.
 */
module RollData {
  import opened Wrappers
  import opened Text

  /** First column of the "funding year level" band (MoESchools.py:47). */
  const RollStartColumn: string := "AY"
  /** Last column of the band (MoESchools.py:48). */
  const RollEndColumn: string := "BM"
  /** First year offered for selection (MoESchools.py:49). */
  const RollStartYear: int := 2010
  /** The name the identifier column is given for matching (MoESchools.py:248). */
  const SchoolIdName: string := "School_Id"

  /** A spreadsheet cell: empty, a number, or text. */
  datatype Cell = Blank | Num(n: int) | Str(s: string)

  datatype Sheet = Sheet(headers: seq<string>, rows: seq<seq<Cell>>)

  type Workbook = seq<(string, Sheet)>

  /** One school's roll entry: its numeric identifier and its band cells. */
  datatype RollRow = RollRow(id: int, cells: seq<Cell>)

  datatype RollTable = RollTable(columns: seq<string>, rows: seq<RollRow>)

  datatype RollError =
    | SheetNotFound(name: string)  // no sheet is named after the year
    | NoSchoolIdColumn             // no identifier column and nothing to fall back on
    | DuplicateSchoolId            // two columns end up named School_Id

  /** `get_available_years` (MoESchools.py:184-190), with the current year as a parameter. */
  function AvailableYears(currentYear: int): (ys: seq<int>)
    ensures |ys| == if currentYear < RollStartYear then 0 else currentYear - RollStartYear + 1
    ensures forall y :: y in ys <==> RollStartYear <= y <= currentYear
    ensures forall k :: 0 < k < |ys| ==> ys[k] == ys[k - 1] + 1
    ensures currentYear >= RollStartYear ==> ys[0] == RollStartYear && ys[|ys| - 1] == currentYear
  {
    var n := if currentYear < RollStartYear then 0 else currentYear - RollStartYear + 1;
    var ys := seq(n, k requires 0 <= k < n => RollStartYear + k);
    assert forall y :: RollStartYear <= y <= currentYear ==> y in ys by {
      forall y | RollStartYear <= y <= currentYear ensures y in ys {
        assert ys[y - RollStartYear] == y;
      }
    }
    ys
  }

  /** `pd.read_excel(..., sheet_name=name)`: the first sheet whose name is exactly `name`. */
  function FindSheet(book: Workbook, name: string): (r: Option<Sheet>)
    ensures r.None? <==> forall k :: 0 <= k < |book| ==> book[k].0 != name
    ensures r.Some? ==> (name, r.value) in book
  {
    if book == [] then None
    else if book[0].0 == name then Some(book[0].1)
    else FindSheet(book[1..], name)
  }

  /** The identifier-column test of MoESchools.py:211. */
  predicate IsSchoolIdHeader(h: string) {
    Contains(Lower(h), "school") && Contains(Lower(h), "id")
  }

  /** The first header that passes the identifier test. */
  function FirstSchoolIdHeader(headers: seq<string>): (r: Option<nat>)
    ensures r.Some? ==> (r.value < |headers| && IsSchoolIdHeader(headers[r.value])
      && forall j :: 0 <= j < r.value ==> !IsSchoolIdHeader(headers[j]))
    ensures r.None? ==> forall j :: 0 <= j < |headers| ==> !IsSchoolIdHeader(headers[j])
  {
    if headers == [] then None
    else if IsSchoolIdHeader(headers[0]) then Some(0)
    else match FirstSchoolIdHeader(headers[1..])
      case None => None
      case Some(i) => Some(i + 1)
  }

  /** pandas' `df.empty`: no columns or no rows. */
  predicate IsEmpty(sheet: Sheet) {
    sheet.headers == [] || sheet.rows == []
  }

  /** The identifier column of MoESchools.py:209-217: the first match, else the first column of a non-empty sheet. */
  function SchoolIdColumn(sheet: Sheet): (r: Option<nat>)
    ensures r.Some? ==> r.value < |sheet.headers|
  {
    match FirstSchoolIdHeader(sheet.headers)
    case Some(i) => Some(i)
    case None => if IsEmpty(sheet) then None else Some(0)
  }

  /** The identifier column is the first matching header; without one it is column 0 of a non-empty sheet, and missing otherwise. */
  lemma SchoolIdColumnChoice(sheet: Sheet)
    ensures (exists j :: 0 <= j < |sheet.headers| && IsSchoolIdHeader(sheet.headers[j])) ==>
      var c := SchoolIdColumn(sheet);
      c.Some? && IsSchoolIdHeader(sheet.headers[c.value])
      && forall j :: 0 <= j < c.value ==> !IsSchoolIdHeader(sheet.headers[j])
    ensures (forall j :: 0 <= j < |sheet.headers| ==> !IsSchoolIdHeader(sheet.headers[j])) ==>
      SchoolIdColumn(sheet) == if IsEmpty(sheet) then None else Some(0)
  {
  }

  /** The scan of MoESchools.py:209-217, stopping at the first match. */
  method FindSchoolIdColumn(sheet: Sheet) returns (col: Option<nat>)
    ensures col == SchoolIdColumn(sheet)
  {
    col := None;
    var i := 0;
    while i < |sheet.headers|
      invariant 0 <= i <= |sheet.headers|
      invariant forall j :: 0 <= j < i ==> !IsSchoolIdHeader(sheet.headers[j])
    {
      if IsSchoolIdHeader(sheet.headers[i]) {
        col := Some(i);
        break;
      }
      i := i + 1;
    }
    if col.None? && !IsEmpty(sheet) {
      col := Some(0);
    }
  }

  /** MoESchools.py:231-234: the header's letters, upper-cased, equal the target upper-cased. */
  predicate MatchesLabel(h: string, target: string) {
    Upper(Letters(h)) == Upper(target)
  }

  /** The last header that matches `target`. */
  function LastLabelIndex(headers: seq<string>, target: string): (r: Option<nat>)
    ensures r.Some? ==> (r.value < |headers| && MatchesLabel(headers[r.value], target)
      && forall j :: r.value < j < |headers| ==> !MatchesLabel(headers[j], target))
    ensures r.None? ==> forall j :: 0 <= j < |headers| ==> !MatchesLabel(headers[j], target)
  {
    if headers == [] then None
    else if MatchesLabel(headers[|headers| - 1], target) then Some(|headers| - 1)
    else
      var init := headers[..|headers| - 1];
      assert forall j :: 0 <= j < |init| ==> init[j] == headers[j];
      LastLabelIndex(init, target)
  }

  /** A matching header with no match after it is the last match. */
  lemma LastLabelIndexIs(headers: seq<string>, target: string, i: nat)
    requires i < |headers| && MatchesLabel(headers[i], target)
    requires forall j :: i < j < |headers| ==> !MatchesLabel(headers[j], target)
    ensures LastLabelIndex(headers, target) == Some(i)
  {
    var r := LastLabelIndex(headers, target);
    assert r.Some?;
    assert r.value <= i;
  }

  /**
   * The loop of MoESchools.py:230-235. It does not stop at a match, so each
   * boundary ends up at the last header that matches it.
   */
  method LocateBand(headers: seq<string>) returns (start: Option<nat>, end: Option<nat>)
    ensures start == LastLabelIndex(headers, RollStartColumn)
    ensures end == LastLabelIndex(headers, RollEndColumn)
  {
    start, end := None, None;
    for i := 0 to |headers|
      invariant start == LastLabelIndex(headers[..i], RollStartColumn)
      invariant end == LastLabelIndex(headers[..i], RollEndColumn)
    {
      assert headers[..i + 1][..i] == headers[..i];
      if MatchesLabel(headers[i], RollStartColumn) {
        start := Some(i);
      }
      if MatchesLabel(headers[i], RollEndColumn) {
        end := Some(i);
      }
    }
    assert headers[..|headers|] == headers;
  }

  /** The band as the half-open index range `lo..hi`: Python's `all_cols[start:end+1]`. */
  datatype Band = Band(lo: nat, hi: nat) {
    function Width(): nat { if lo < hi then hi - lo else 0 }
    predicate Has(k: int) { lo <= k < hi }
  }

  /** The band of MoESchools.py:237-242: empty unless both boundaries were found. */
  function BandOf(start: Option<nat>, end: Option<nat>): Band {
    if start.Some? && end.Some? then Band(start.value, end.value + 1) else Band(0, 0)
  }

  /** The headers of the band, in sheet order. */
  function BandHeaders(headers: seq<string>, band: Band): (hs: seq<string>)
    requires band.hi <= |headers|
    ensures |hs| == band.Width()
    ensures forall k :: 0 <= k < |hs| ==> hs[k] == headers[band.lo + k]
  {
    if band.lo < band.hi then headers[band.lo..band.hi] else []
  }

  /** A row's cell in column `k`; a short row reads as blank there, as pandas pads it. */
  function CellAt(row: seq<Cell>, k: nat): Cell {
    if k < |row| then row[k] else Blank
  }

  /** `pd.to_numeric(..., errors='coerce')` then `astype(int)`, on integers and digit strings. */
  function ParseId(c: Cell): (r: Option<int>)
    ensures c.Num? ==> r == Some(c.n)
    ensures c.Str? ==> (r.Some? <==> IsDigits(c.s))
    ensures c.Str? && r.Some? ==> r.value >= 0 && r.value == DigitsValue(c.s)
    ensures c.Blank? ==> r.None?
  {
    match c
    case Num(n) => Some(n)
    case Str(s) => if IsDigits(s) then Some(DigitsValue(s)) else None
    case Blank => None
  }

  /** An identifier written out in decimal is read back as itself. */
  lemma ParseIdDecimal(n: nat)
    ensures ParseId(Str(NatToString(n))) == Some(n)
  {
    NatToStringRoundTrip(n);
  }

  /** A data row restricted to the identifier column and the band. */
  function ProjectRow(row: seq<Cell>, id: int, band: Band): (r: RollRow)
    ensures r.id == id && |r.cells| == band.Width()
    ensures forall k :: 0 <= k < |r.cells| ==> r.cells[k] == CellAt(row, band.lo + k)
  {
    RollRow(id, seq(band.Width(), k requires 0 <= k < band.Width() => CellAt(row, band.lo + k)))
  }

  /** MoESchools.py:250-255: the rows whose identifier coerces to an integer, projected, in sheet order. */
  function KeepNumeric(rows: seq<seq<Cell>>, idCol: nat, band: Band): (r: seq<RollRow>)
    ensures |r| <= |rows|
    ensures forall k :: 0 <= k < |r| ==> |r[k].cells| == band.Width()
  {
    if rows == [] then []
    else
      var rest := KeepNumeric(rows[1..], idCol, band);
      match ParseId(CellAt(rows[0], idCol))
      case None => rest
      case Some(id) => [ProjectRow(rows[0], id, band)] + rest
  }

  /** The row filter keeps sheet order: filtering two blocks of rows is filtering each in turn. */
  lemma {:induction false} KeepNumericAppend(a: seq<seq<Cell>>, b: seq<seq<Cell>>, idCol: nat, band: Band)
    ensures KeepNumeric(a + b, idCol, band) == KeepNumeric(a, idCol, band) + KeepNumeric(b, idCol, band)
  {
    if a == [] {
      assert a + b == b;
    } else {
      assert (a + b)[1..] == a[1..] + b;
      KeepNumericAppend(a[1..], b, idCol, band);
    }
  }

  /**
   * A row survives exactly when its identifier coerces, and every surviving
   * row carries that integer identifier and the row's band cells.
   */
  lemma {:induction false} KeepNumericMembers(rows: seq<seq<Cell>>, idCol: nat, band: Band)
    ensures forall row :: row in rows && ParseId(CellAt(row, idCol)).Some? ==>
      ProjectRow(row, ParseId(CellAt(row, idCol)).value, band) in KeepNumeric(rows, idCol, band)
    ensures forall r :: r in KeepNumeric(rows, idCol, band) ==>
      exists row :: row in rows && ParseId(CellAt(row, idCol)) == Some(r.id) && r == ProjectRow(row, r.id, band)
  {
    if rows != [] {
      KeepNumericMembers(rows[1..], idCol, band);
      var rest := KeepNumeric(rows[1..], idCol, band);
      forall r | r in KeepNumeric(rows, idCol, band)
        ensures exists row :: row in rows && ParseId(CellAt(row, idCol)) == Some(r.id) && r == ProjectRow(row, r.id, band)
      {
        if r in rest {
          var row :| row in rows[1..] && ParseId(CellAt(row, idCol)) == Some(r.id) && r == ProjectRow(row, r.id, band);
          assert row in rows;
        } else {
          assert rows[0] in rows;
        }
      }
    }
  }

  /** The projection would hold two columns named School_Id: the identifier column inside the band, or a band header already so named. */
  predicate Collides(headers: seq<string>, idCol: nat, band: Band)
    requires band.hi <= |headers|
  {
    band.Has(idCol) || SchoolIdName in BandHeaders(headers, band)
  }

  /** `load_roll_data` (MoESchools.py:192-261), as a function of the workbook and the year. */
  function LoadRoll(book: Workbook, year: int): Result<RollTable, RollError> {
    var name := IntToString(year);
    match FindSheet(book, name)
    case None => Failure(SheetNotFound(name))
    case Some(sheet) =>
      match SchoolIdColumn(sheet)
      case None => Failure(NoSchoolIdColumn)
      case Some(idCol) =>
        var band := BandOf(LastLabelIndex(sheet.headers, RollStartColumn), LastLabelIndex(sheet.headers, RollEndColumn));
        if Collides(sheet.headers, idCol, band) then Failure(DuplicateSchoolId)
        else Success(RollTable([SchoolIdName] + BandHeaders(sheet.headers, band), KeepNumeric(sheet.rows, idCol, band)))
  }

  /** Every row has one cell per band column and an integer identifier. */
  predicate WellFormed(t: RollTable) {
    |t.columns| >= 1 && t.columns[0] == SchoolIdName
    && forall k :: 0 <= k < |t.rows| ==> |t.rows[k].cells| == |t.columns| - 1
  }

  /** Every row of a loaded roll table has one cell per band column. */
  lemma LoadRollWellFormed(book: Workbook, year: int)
    requires LoadRoll(book, year).Success?
    ensures WellFormed(LoadRoll(book, year).value)
  {
    var sheet := FindSheet(book, IntToString(year)).value;
    var band := BandOf(LastLabelIndex(sheet.headers, RollStartColumn), LastLabelIndex(sheet.headers, RollEndColumn));
    var t := LoadRoll(book, year).value;
    assert t.columns == [SchoolIdName] + BandHeaders(sheet.headers, band);
    assert |t.columns| - 1 == band.Width();
  }

  /**
   * The columns of a loaded roll table: School_Id, then the headers from the
   * last start match to the last end match inclusive when both exist and are
   * in order, and nothing more otherwise.
   */
  lemma LoadRollColumns(book: Workbook, year: int)
    requires LoadRoll(book, year).Success?
    ensures WellFormed(LoadRoll(book, year).value)
    ensures var sheet := FindSheet(book, IntToString(year)).value;
      var s := LastLabelIndex(sheet.headers, RollStartColumn);
      var e := LastLabelIndex(sheet.headers, RollEndColumn);
      LoadRoll(book, year).value.columns ==
        if s.Some? && e.Some? && s.value <= e.value then [SchoolIdName] + sheet.headers[s.value..e.value + 1]
        else [SchoolIdName]
  {
    LoadRollWellFormed(book, year);
    var sheet := FindSheet(book, IntToString(year)).value;
    var band := BandOf(LastLabelIndex(sheet.headers, RollStartColumn), LastLabelIndex(sheet.headers, RollEndColumn));
    assert LoadRoll(book, year).value.columns == [SchoolIdName] + BandHeaders(sheet.headers, band);
  }

  /** A loaded roll table never holds School_Id twice. */
  lemma LoadRollNoDuplicateId(book: Workbook, year: int)
    requires LoadRoll(book, year).Success?
    ensures SchoolIdName !in LoadRoll(book, year).value.columns[1..]
  {
    var t := LoadRoll(book, year).value;
    assert t.columns[1..] == BandHeaders(FindSheet(book, IntToString(year)).value.headers,
      BandOf(LastLabelIndex(FindSheet(book, IntToString(year)).value.headers, RollStartColumn),
             LastLabelIndex(FindSheet(book, IntToString(year)).value.headers, RollEndColumn)));
  }

  /**
   * `load_roll_data` (MoESchools.py:192-261): resolve the year's sheet, choose
   * the identifier column, locate the band, project, rename the identifier
   * column to School_Id and keep the rows whose identifier is numeric.
   */
  method LoadRollData(book: Workbook, year: int) returns (res: Result<RollTable, RollError>)
    ensures res == LoadRoll(book, year)
  {
    var name := IntToString(year);
    var found := FindSheet(book, name);
    if found.None? {
      return Failure(SheetNotFound(name));
    }
    var sheet := found.value;
    var idCol := FindSchoolIdColumn(sheet);
    if idCol.None? {
      return Failure(NoSchoolIdColumn);
    }
    var start, end := LocateBand(sheet.headers);
    var band := BandOf(start, end);
    if Collides(sheet.headers, idCol.value, band) {
      return Failure(DuplicateSchoolId);
    }
    var columns := [sheet.headers[idCol.value]] + BandHeaders(sheet.headers, band);
    columns := columns[0 := SchoolIdName];
    assert columns == [SchoolIdName] + BandHeaders(sheet.headers, band);
    var rows := KeepNumeric(sheet.rows, idCol.value, band);
    return Success(RollTable(columns, rows));
  }

  /** The headers of the worked example below. */
  const ExampleHeaders: seq<string> := ["SchoolID", "AX", "AY", "AZ", "BM", "BN"]

  lemma ExampleYearName()
    ensures IntToString(2024) == "2024"
  {
    assert NatToString(2) == "2";
    assert NatToString(20) == "20";
    assert NatToString(202) == "202";
  }

  lemma ExampleIdColumn()
    ensures FirstSchoolIdHeader(ExampleHeaders) == Some(0)
  {
    var l := Lower("SchoolID");
    assert LowerChar('S') == 's' && LowerChar('I') == 'i' && LowerChar('D') == 'd';
    assert l == "schoolid" by {
      assert l[0] == 's' && l[1] == 'c' && l[2] == 'h' && l[3] == 'o';
      assert l[4] == 'o' && l[5] == 'l' && l[6] == 'i' && l[7] == 'd';
    }
    assert OccursAt(l, "school", 0) by { assert l[0..6] == "school"; }
    assert OccursAt(l, "id", 6) by { assert l[6..8] == "id"; }
    ContainsAt(l, "school");
    ContainsAt(l, "id");
    assert IsSchoolIdHeader(ExampleHeaders[0]);
  }

  /** For headers made of capital letters only, matching a capital label is plain equality. */
  lemma CapitalLabelMatch(h: string, target: string)
    requires IsUpperLetters(h) && IsUpperLetters(target)
    ensures MatchesLabel(h, target) <==> h == target
  {
    assert Letters(h) == h;
    UpperOfCapitals(h);
    UpperOfCapitals(target);
  }

  /** Two capital labels that differ at some position do not match. */
  lemma CapitalMismatch(h: string, target: string, i: nat)
    requires IsUpperLetters(h) && IsUpperLetters(target)
    requires i < |h| && i < |target| && h[i] != target[i]
    ensures !MatchesLabel(h, target)
  {
    CapitalLabelMatch(h, target);
  }

  lemma ExampleStartLabel()
    ensures LastLabelIndex(ExampleHeaders, RollStartColumn) == Some(2)
  {
    var h := ExampleHeaders;
    CapitalLabelMatch(h[2], RollStartColumn);
    assert MatchesLabel(h[2], RollStartColumn);
    CapitalMismatch(h[3], RollStartColumn, 1);
    CapitalMismatch(h[4], RollStartColumn, 0);
    CapitalMismatch(h[5], RollStartColumn, 0);
    forall j | 2 < j < |h| ensures !MatchesLabel(h[j], RollStartColumn) {
      assert j == 3 || j == 4 || j == 5;
    }
    LastLabelIndexIs(h, RollStartColumn, 2);
  }

  lemma ExampleEndLabel()
    ensures LastLabelIndex(ExampleHeaders, RollEndColumn) == Some(4)
  {
    var h := ExampleHeaders;
    CapitalLabelMatch(h[4], RollEndColumn);
    CapitalLabelMatch(h[5], RollEndColumn);
    assert MatchesLabel(h[4], RollEndColumn);
    assert h[5][1] != RollEndColumn[1];
    assert !MatchesLabel(h[5], RollEndColumn);
    LastLabelIndexIs(h, RollEndColumn, 4);
  }

  const ExampleRows: seq<seq<Cell>> := [
    [Num(1), Num(10), Num(11), Num(12), Num(13), Num(14)],
    [Str("n/a"), Num(20), Num(21), Num(22), Num(23), Num(24)]]

  lemma ExampleRowFilter()
    ensures KeepNumeric(ExampleRows, 0, Band(2, 5)) == [RollRow(1, [Num(11), Num(12), Num(13)])]
  {
    var band := Band(2, 5);
    var row1 := ExampleRows[0];
    var row2 := ExampleRows[1];
    assert !IsDigits("n/a") by { assert !IsDigit("n/a"[0]); }
    assert ProjectRow(row1, 1, band) == RollRow(1, [Num(11), Num(12), Num(13)]);
    assert KeepNumeric([row2], 0, band) == [] by {
      assert [row2][1..] == [];
    }
    assert ExampleRows[1..] == [row2];
  }

  const ExampleBandHeaders: seq<string> := ["AY", "AZ", "BM"]

  lemma ExampleBandColumns()
    ensures BandHeaders(ExampleHeaders, Band(2, 5)) == ExampleBandHeaders
  {
    var hs := BandHeaders(ExampleHeaders, Band(2, 5));
    assert hs[0] == "AY" && hs[1] == "AZ" && hs[2] == "BM";
  }

  lemma ExampleNoCollision()
    ensures !Collides(ExampleHeaders, 0, Band(2, 5))
  {
    ExampleBandColumns();
    var hs := ExampleBandHeaders;
    assert |SchoolIdName| == 9 && |hs[0]| == 2 && |hs[1]| == 2 && |hs[2]| == 2;
    assert SchoolIdName !in hs;
  }

  lemma ExampleBand()
    ensures BandOf(LastLabelIndex(ExampleHeaders, RollStartColumn), LastLabelIndex(ExampleHeaders, RollEndColumn)) == Band(2, 5)
  {
    ExampleStartLabel();
    ExampleEndLabel();
  }

  lemma ExampleColumns()
    ensures [SchoolIdName] + BandHeaders(ExampleHeaders, Band(2, 5)) == ["School_Id", "AY", "AZ", "BM"]
  {
    ExampleBandColumns();
  }

  /**
   * Headers SchoolID, AX, AY, AZ, BM, BN with band AY..BM give the columns
   * School_Id, AY, AZ, BM; a row whose identifier is not numeric is dropped.
   */
  lemma BandExample()
    ensures LoadRoll([("2024", Sheet(ExampleHeaders, ExampleRows))], 2024)
      == Success(RollTable(["School_Id", "AY", "AZ", "BM"], [RollRow(1, [Num(11), Num(12), Num(13)])]))
  {
    var sheet := Sheet(ExampleHeaders, ExampleRows);
    ExampleYearName();
    assert FindSheet([("2024", sheet)], IntToString(2024)) == Some(sheet);
    ExampleIdColumn();
    assert SchoolIdColumn(sheet) == Some(0);
    ExampleBand();
    ExampleColumns();
    ExampleNoCollision();
    ExampleRowFilter();
  }
}
