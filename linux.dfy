/**
 The Linux errno page: a table (id "optiontable") whose body starts with a
 header row and a legend row, followed by one row per error with the
 number, the symbolic name and the description in its first three cells.
 */
module Linux {
  import opened Records
  import opened Text

  /** The texts of the `td` cells of one `tr`, in document order. */
  type Row = seq<string>

  /**
   The page as the extraction sees it: no table with the expected id, a
   table without a `tbody`, or the direct `tr` children of that body.
   */
  datatype LinuxPage = NoOptionTable | TableWithoutBody | OptionTable(rows: seq<Row>)

  /**
   The record of one data row. Python reads `int(tds[0])` first, then
   `tds[1]` and `tds[2]`: a row without cells raises IndexError, a first cell
   that is not an integer raises ValueError, and otherwise a row with fewer
   than three cells raises IndexError.
   */
  function RowRecord(cells: Row): (r: Result<ErrorDetail>)
    ensures r.Success? <==> |cells| >= 3 && PyInt(cells[0]).Success?
    ensures r.Success? ==> r.value == ErrorDetail(PyInt(cells[0]).value, cells[1], cells[2])
    ensures cells == [] ==> r == Failure(IndexError)
    ensures cells != [] && PyInt(cells[0]).Failure? ==> r == Failure(ValueError)
    ensures 0 < |cells| < 3 && PyInt(cells[0]).Success? ==> r == Failure(IndexError)
  {
    if |cells| == 0 then Failure(IndexError)
    else
      var code :- PyInt(cells[0]);
      if |cells| < 3 then Failure(IndexError)
      else Success(ErrorDetail(code, cells[1], cells[2]))
  }

  /** The rows after the header and the legend. */
  function DataRows(rows: seq<Row>): seq<Row>
  {
    if |rows| <= 2 then [] else rows[2..]
  }

  /** `parse_linux_doc` on a fetched page. */
  function LinuxRecords(page: LinuxPage): Result<seq<ErrorDetail>>
  {
    match page
    case NoOptionTable => Failure(AttributeError)
    case TableWithoutBody => Failure(AttributeError)
    case OptionTable(rows) => MapAll(DataRows(rows), RowRecord)
  }

  /** The loop of `parse_linux_doc`: rows 0 and 1 are skipped by their index. */
  method ParseLinuxDoc(page: LinuxPage) returns (r: Result<seq<ErrorDetail>>)
    ensures r == LinuxRecords(page)
  {
    if !page.OptionTable? {
      return Failure(AttributeError);
    }
    var rows := page.rows;
    var errorCodes: seq<ErrorDetail> := [];
    for i := 0 to |rows|
      invariant i <= 2 ==> errorCodes == []
      invariant i >= 2 ==> MapAll(rows[2..][..i - 2], RowRecord) == Success(errorCodes)
    {
      if i == 0 || i == 1 {
        continue;
      }
      var record := RowRecord(rows[i]);
      MapAllExtend(rows[2..], i - 2, RowRecord, errorCodes);
      if record.Failure? {
        return Failure(record.error);
      }
      errorCodes := errorCodes + [record.value];
    }
    if |rows| >= 2 {
      assert rows[2..][..|rows| - 2] == rows[2..];
    }
    return Success(errorCodes);
  }

  /**
   A table of n >= 2 rows parses exactly when each of its rows from index 2
   on has three cells and an integer first cell; it then gives n - 2 records,
   the k-th made of the cells of row k + 2. Fewer than two rows give none.
   */
  lemma LinuxRecordsRows(rows: seq<Row>)
    ensures |rows| <= 2 ==> LinuxRecords(OptionTable(rows)) == Success([])
    ensures LinuxRecords(OptionTable(rows)).Success? <==>
      forall i :: 2 <= i < |rows| ==> |rows[i]| >= 3 && PyInt(rows[i][0]).Success?
    ensures LinuxRecords(OptionTable(rows)).Success? && |rows| >= 2 ==>
      var rs := LinuxRecords(OptionTable(rows)).value;
      |rs| == |rows| - 2 &&
      forall k :: 0 <= k < |rs| ==>
        rs[k] == ErrorDetail(PyInt(rows[k + 2][0]).value, rows[k + 2][1], rows[k + 2][2])
  {
    var data := DataRows(rows);
    MapAllSuccess(data, RowRecord);
    if |rows| > 2 {
      assert forall i :: 2 <= i < |rows| ==> rows[i] == data[i - 2];
    }
  }

  /** The first two rows never matter: whatever they hold, they are skipped. */
  lemma HeaderRowsSkipped(header: Row, legend: Row, header': Row, legend': Row, data: seq<Row>)
    ensures LinuxRecords(OptionTable([header, legend] + data)) ==
            LinuxRecords(OptionTable([header', legend'] + data))
  {
    assert ([header, legend] + data)[2..] == data;
    assert ([header', legend'] + data)[2..] == data;
  }

  /**
   A well-formed data row (a decimal number, a name, a description) gives
   back exactly that number, name and description.
   */
  lemma WellFormedRow(n: int, alias: string, description: string, more: seq<string>)
    ensures RowRecord([ShowInt(n), alias, description] + more) == Success(ErrorDetail(n, alias, description))
  {
    ParseShowInt(n);
  }

  /**
   A number cell led by one of the separators U+001C..U+001F raises
   ValueError: `int()` does not skip them, although `str.split()` does.
   */
  lemma SeparatorLedCell(c: char, n: nat, alias: string, description: string)
    requires '\U{1C}' <= c <= '\U{1F}'
    ensures RowRecord([[c] + ShowNat(n), alias, description]) == Failure(ValueError)
  {
    PyIntKeepsSeparator(c, ShowNat(n));
  }
}
