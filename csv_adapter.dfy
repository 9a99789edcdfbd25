/** The CSV adapter: a file with header `PatientID,LabID,TestDate,TestCode,TestName,Value,
    Unit,RefRange`, one test per data row, read through `csv.DictReader`. The model starts
    from the rows the reader yields, each a map from column name to cell. */
module CsvAdapter {
  import opened Wrappers
  import opened Text
  import opened Values
  import opened Dates
  import opened Canonical
  import opened AdapterEvents
  import Seqs

  /** Default used when the `LAB_NAME` environment variable is unset. */
  const DefaultLabName := "Small Lab"
  /** The lab id used when the first row's `LabID` is empty or blank. */
  const FallbackLabId := "SMALL001"

  const MissingMessage := "No CSV found in event"
  const NoRowsMessage := "CSV has no data rows"
  /** The AttributeError of `.strip()` on the `None` of a missing `LabID` cell. */
  const NoneStripMessage := "'NoneType' object has no attribute 'strip'"

  /** A row as `DictReader` yields it: one entry per header column, `None` for the columns a
      short row does not reach. */
  type Row = map<string, Option<string>>

  /** `extract_csv_from_event`: `csv_body` first, then the first S3 record. */
  function ExtractCsvFromEvent(e: AdapterEvent, store: ObjectStore): (r: Result<string>)
    ensures "csv_body" in e.direct ==> r == Ok(e.direct["csv_body"])
    ensures "csv_body" !in e.direct && |e.records| == 0 ==> r == Err(MissingMessage)
  {
    ExtractFromEvent(e, "csv_body", MissingMessage, store)
  }

  /** `row.get(column, default)`. */
  function Cell(row: Row, column: string, default: string): (r: Option<string>)
    ensures column !in row ==> r == Some(default)
    ensures column in row ==> r == row[column]
  {
    if column in row then row[column] else Some(default)
  }

  /** A cell's text for a truth test: a missing cell is as false as an empty one. */
  function Truthy(c: Option<string>): string {
    c.GetOr("")
  }

  /** `"{code} / {name}"` when both are non-empty, else name, else code, else "Unknown". */
  function CsvTestType(code: string, name: string): (r: string)
    ensures r != ""
  {
    if name != "" && code != "" then code + " / " + name else NameOrCode(name, code)
  }

  /** A `%Y-%m-%d` date becomes its midnight in ISO form plus `Z`; any other non-empty text
      is kept as it is; an empty one (or a missing cell) gives the current UTC time plus `Z`. */
  function CsvTestDate(raw: string, now: DateTime): string {
    if raw != "" then
      match ParseDashedDate(raw)
      case Some(dt) => IsoFormat(dt) + "Z"
      case None => raw
    else NowUtc(now)
  }

  /** One data row as a result entry: CSV carries no flag, so every entry is normal. A
      missing `Value` cell is a TypeError for `float`, caught like a ValueError. */
  function RowEntry(row: Row): TestValue {
    var code := Cell(row, "TestCode", "");
    var name := Cell(row, "TestName", "");
    var value := match Cell(row, "Value", "") case Some(t) => ParseFloat(t) case None => None;
    TestValue(code, if Truthy(name) != "" then name else code, value,
              Cell(row, "Unit", ""), Cell(row, "RefRange", ""), false, Normal)
  }

  /** One result per data row, in row order. */
  function CsvResults(rows: seq<Row>): seq<TestValue> {
    Seqs.Map(rows, RowEntry)
  }

  /** The row loop of `parse_csv_to_json`. */
  method CollectCsvResults(rows: seq<Row>) returns (results: seq<TestValue>)
    ensures results == CsvResults(rows)
  {
    results := [];
    var i := 0;
    while i < |rows|
      invariant 0 <= i <= |rows|
      invariant results == CsvResults(rows[..i])
    {
      Seqs.MapSnoc(rows, i, RowEntry);
      results := results + [RowEntry(rows[i])];
      i := i + 1;
    }
    assert rows[..|rows|] == rows;
  }

  /** The record-level fields, all taken from the first row, whose `LabID` cell is present. */
  function CsvHeader(first: Row, now: DateTime, labName: string): LabResult
    requires Cell(first, "LabID", "").Some?
  {
    var labId := Strip(Cell(first, "LabID", "").value);
    LabResult(
      Cell(first, "PatientID", "UNKNOWN"),
      if labId != "" then labId else FallbackLabId,
      labName,
      CsvTestType(Truthy(Cell(first, "TestCode", "")), Truthy(Cell(first, "TestName", ""))),
      CsvTestDate(Truthy(Cell(first, "TestDate", "")), now),
      [])
  }

  /** The record for the rows of a CSV file, `labName` being the configured lab name. */
  function CsvRecord(rows: seq<Row>, now: DateTime, labName: string): Result<LabResult> {
    if |rows| == 0 then Err(NoRowsMessage)
    else if Cell(rows[0], "LabID", "").None? then Err(NoneStripMessage)
    else Ok(CsvHeader(rows[0], now, labName).(results := CsvResults(rows)))
  }

  /** `parse_csv_to_json`. */
  method ParseCsvToJson(rows: seq<Row>, now: DateTime, labName: string) returns (r: Result<LabResult>)
    ensures r == CsvRecord(rows, now, labName)
  {
    if |rows| == 0 {
      return Err(NoRowsMessage);
    }
    if Cell(rows[0], "LabID", "").None? {
      return Err(NoneStripMessage);
    }
    var results := CollectCsvResults(rows);
    r := Ok(CsvHeader(rows[0], now, labName).(results := results));
  }

  // ---------------------------------------------------------------------------------------
  // Properties of the record

  /** No rows is the ValueError and a first row too short to reach `LabID` the AttributeError;
      otherwise the record exists and lists every row. */
  lemma CsvRowsAndErrors(rows: seq<Row>, now: DateTime, labName: string)
    ensures CsvRecord(rows, now, labName).Err? <==> |rows| == 0 || Cell(rows[0], "LabID", "").None?
    ensures |rows| == 0 ==> CsvRecord(rows, now, labName) == Err(NoRowsMessage)
    ensures |rows| > 0 && Cell(rows[0], "LabID", "").None? ==> CsvRecord(rows, now, labName) == Err(NoneStripMessage)
    ensures CsvRecord(rows, now, labName).Ok? ==> |CsvRecord(rows, now, labName).value.results| == |rows|
  {
  }

  /** Every entry is normal and not abnormal; code, unit and range are the row's cells (null
      where a short row leaves them out); the name falls back to the code when it is empty or
      missing; the value is null exactly when the cell is missing or not a float. */
  lemma CsvEntries(rows: seq<Row>, i: nat)
    requires i < |rows|
    ensures |CsvResults(rows)| == |rows|
    ensures var e := CsvResults(rows)[i];
      var code := Cell(rows[i], "TestCode", "");
      var name := Cell(rows[i], "TestName", "");
      !e.isAbnormal && e.severity == Normal
      && e.testCode == code && e.unit == Cell(rows[i], "Unit", "")
      && e.referenceRange == Cell(rows[i], "RefRange", "")
      && (Truthy(name) != "" ==> e.testName == name) && (Truthy(name) == "" ==> e.testName == code)
      && (e.value.Some? <==> IsFloatLiteral(Truthy(Cell(rows[i], "Value", ""))))
  {
  }

  /** Record-level fields come from the first row only: later rows never change them. */
  lemma CsvHeaderFromFirstRow(rows: seq<Row>, others: seq<Row>, now: DateTime, labName: string)
    requires |rows| > 0 && |others| > 0 && others[0] == rows[0]
    ensures CsvRecord(rows, now, labName).Ok? <==> CsvRecord(others, now, labName).Ok?
    ensures CsvRecord(rows, now, labName).Ok? ==>
      var a := CsvRecord(rows, now, labName).value;
      var b := CsvRecord(others, now, labName).value;
      a.patientId == b.patientId && a.labId == b.labId && a.labName == b.labName == labName
      && a.testType == b.testType && a.testDate == b.testDate
  {
  }

  /** patient_id is the first row's PatientID (null when the row is too short to reach it),
      "UNKNOWN" when the column is absent. */
  lemma CsvPatientId(rows: seq<Row>, now: DateTime, labName: string)
    requires |rows| > 0
    ensures CsvRecord(rows, now, labName).Ok? && "PatientID" in rows[0] ==>
      CsvRecord(rows, now, labName).value.patientId == rows[0]["PatientID"]
    ensures CsvRecord(rows, now, labName).Ok? && "PatientID" !in rows[0] ==>
      CsvRecord(rows, now, labName).value.patientId == Some("UNKNOWN")
  {
  }

  /** lab_id is the first row's stripped LabID, or "SMALL001" when that is absent or blank; a
      LabID cell the first row does not reach fails the whole file. */
  lemma CsvLabId(rows: seq<Row>, now: DateTime, labName: string)
    requires |rows| > 0
    ensures Cell(rows[0], "LabID", "").None? ==> CsvRecord(rows, now, labName) == Err(NoneStripMessage)
    ensures Cell(rows[0], "LabID", "").Some? ==>
      var labId := CsvRecord(rows, now, labName).value.labId;
      var cell := Cell(rows[0], "LabID", "").value;
      labId != ""
      && (Strip(cell) == "" ==> labId == FallbackLabId)
      && (Strip(cell) != "" ==> labId == Strip(cell))
      && ("LabID" !in rows[0] ==> labId == FallbackLabId)
  {
    if Cell(rows[0], "LabID", "").Some? {
      var cell := Cell(rows[0], "LabID", "").value;
      HeaderLabId(rows[0], now, labName);
      if "LabID" !in rows[0] {
        assert Strip(cell) == "";
      }
    }
  }

  lemma HeaderLabId(first: Row, now: DateTime, labName: string)
    requires Cell(first, "LabID", "").Some?
    ensures var cell := Cell(first, "LabID", "").value;
      CsvHeader(first, now, labName).labId == if Strip(cell) != "" then Strip(cell) else FallbackLabId
  {
  }

  /** test_type composes `code / name` only when both are present. */
  lemma CsvTestTypeCases(code: string, name: string)
    ensures name != "" && code != "" ==> CsvTestType(code, name) == code + " / " + name
    ensures name != "" && code == "" ==> CsvTestType(code, name) == name
    ensures name == "" && code != "" ==> CsvTestType(code, name) == code
    ensures name == "" && code == "" ==> CsvTestType(code, name) == "Unknown"
  {
  }

  /** A `YYYY-MM-DD` date becomes `YYYY-MM-DDT00:00:00Z`. */
  lemma CsvDateOfIsoDate(raw: string, now: DateTime)
    requires IsIsoDate(raw)
    ensures CsvTestDate(raw, now) == raw + "T00:00:00Z"
  {
    DashedDateOfIsoDate(raw);
    MidnightIsoFormat(raw);
  }

  /** A non-empty date `strptime` rejects is passed through verbatim. */
  lemma CsvDatePassThrough(raw: string, now: DateTime)
    requires raw != "" && ParseDashedDate(raw).None?
    ensures CsvTestDate(raw, now) == raw
  {
  }
}
