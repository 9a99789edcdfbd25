/** The HL7 v2.5 adapter: reads an ORU message (MSH, PID, OBR and OBX segments, one per line,
    fields separated by `|` and components by `^`) and builds the canonical record. */
module Hl7Adapter {
  import opened Wrappers
  import opened Text
  import opened Values
  import opened Dates
  import opened Canonical
  import opened AdapterEvents
  import Seqs

  /** Defaults used when the `LAB_ID` / `LAB_NAME` environment variables are unset. */
  const DefaultLabId := "LAB002"
  const DefaultLabName := "LabCorp"

  const MissingMessage := "No HL7 message found in event"

  /** `extract_hl7_from_event`: `hl7_message` first, then the first S3 record. */
  function ExtractHl7FromEvent(e: AdapterEvent, store: ObjectStore): (r: Result<string>)
    ensures "hl7_message" in e.direct ==> r == Ok(e.direct["hl7_message"])
    ensures "hl7_message" !in e.direct && |e.records| == 0 ==> r == Err(MissingMessage)
  {
    ExtractFromEvent(e, "hl7_message", MissingMessage, store)
  }

  /** A line with text at both ends, as `strip()` leaves a non-blank one. */
  predicate IsTrimmedLine(l: string) {
    l != [] && !IsSpace(l[0]) && !IsSpace(l[|l| - 1])
  }

  /** Stripped pieces, blank ones dropped. */
  function NonBlankStripped(pieces: seq<string>): (r: seq<string>)
    ensures |r| <= |pieces|
  {
    if |pieces| == 0 then []
    else
      var line := Strip(pieces[0]);
      var rest := NonBlankStripped(pieces[1..]);
      if line == [] then rest else [line] + rest
  }

  /** Every kept line is stripped and non-blank. */
  lemma {:induction false} NonBlankStrippedTrimmed(pieces: seq<string>)
    ensures forall i :: 0 <= i < |NonBlankStripped(pieces)| ==> IsTrimmedLine(NonBlankStripped(pieces)[i])
  {
    if |pieces| > 0 {
      NonBlankStrippedTrimmed(pieces[1..]);
      var line := Strip(pieces[0]);
      var rest := NonBlankStripped(pieces[1..]);
      if line != [] {
        assert NonBlankStripped(pieces) == [line] + rest;
        ConsTrimmed(line, rest);
      }
    }
  }

  /** A trimmed line in front of trimmed lines. */
  lemma ConsTrimmed(line: string, rest: seq<string>)
    requires IsTrimmedLine(line)
    requires forall i :: 0 <= i < |rest| ==> IsTrimmedLine(rest[i])
    ensures forall i :: 0 <= i < |[line] + rest| ==> IsTrimmedLine(([line] + rest)[i])
  {
    var r := [line] + rest;
    forall i | 0 <= i < |r| ensures IsTrimmedLine(r[i]) {
      if i > 0 {
        assert r[i] == rest[i - 1];
      }
    }
  }

  /** `[l.strip() for l in text.splitlines() if l.strip()]`. Splitting at every line-boundary
      character separately only adds empty pieces (for `\r\n` and a final newline), and
      those are dropped as blank. */
  function Lines(text: string): (r: seq<string>)
    ensures forall i :: 0 <= i < |r| ==> IsTrimmedLine(r[i])
  {
    NonBlankStrippedTrimmed(SplitOn(text, LineBoundaries));
    NonBlankStripped(SplitOn(text, LineBoundaries))
  }

  /** The segment name: the text before the first `|`. */
  function SegmentType(line: string): string {
    Split(line, '|')[0]
  }

  /** The index of the last line of segment type `name`, or -1: later lines overwrite earlier
      ones in the segment table. */
  function LastIndexOfSegment(lines: seq<string>, name: string): (r: int)
    ensures -1 <= r < |lines|
    ensures r >= 0 ==> SegmentType(lines[r]) == name
    ensures forall j :: r < j < |lines| ==> SegmentType(lines[j]) != name
  {
    if |lines| == 0 then -1
    else if SegmentType(lines[|lines| - 1]) == name then |lines| - 1
    else LastIndexOfSegment(lines[..|lines| - 1], name)
  }

  /** `segments.get(name, [])`: the fields of the last line of that type. */
  function Segment(lines: seq<string>, name: string): seq<string> {
    var i := LastIndexOfSegment(lines, name);
    if i < 0 then [] else Split(lines[i], '|')
  }

  /** `fields[i] if len(fields) > i else default`. */
  function Field(fields: seq<string>, i: nat, default: string): string {
    if |fields| > i then fields[i] else default
  }

  /** MSH-7 (split index 6) as `YYYY-MM-DDTHH:MM:SSZ`, or `None` when absent or unparseable. */
  function MessageTimestamp(msh: seq<string>): Option<string> {
    var ts := Field(msh, 6, "");
    if ts != "" then
      match ParseCompactTimestamp(ts)
      case Some(dt) => Some(IsoFormat(dt) + "Z")
      case None => None
    else None
  }

  /** OBR-4: the universal service id `code^name`, reported as name, else code, else "Unknown". */
  function ReportType(obr: seq<string>): string {
    if |obr| > 4 then
      var parts := Split(obr[4], '^');
      NameOrCode(Field(parts, 1, ""), parts[0])
    else NameOrCode("", "")
  }

  predicate IsObxLine(line: string) {
    StartsWith(line, "OBX|")
  }

  /** One OBX segment as a result entry: OBX-3 `code^name`, OBX-5 value, OBX-6 unit, OBX-7
      reference range, OBX-8 abnormal flag (`N` when the field is missing). */
  function ObxEntry(line: string): TestValue {
    var fields := Split(line, '|');
    var components := Split(Field(fields, 3, ""), '^');
    var code := components[0];
    FlaggedValue(code, Field(components, 1, code), Field(fields, 5, ""), Field(fields, 6, ""),
                 Field(fields, 7, ""), Field(fields, 8, "N"))
  }

  /** The entries of the OBX lines, in line order. */
  function ObxResults(lines: seq<string>): seq<TestValue> {
    Seqs.FilterMap(lines, IsObxLine, ObxEntry)
  }

  /** The OBX loop: one entry appended per line that starts with `OBX|`. */
  method CollectObxResults(lines: seq<string>) returns (results: seq<TestValue>)
    ensures results == ObxResults(lines)
  {
    results := [];
    var i := 0;
    while i < |lines|
      invariant 0 <= i <= |lines|
      invariant results == ObxResults(lines[..i])
    {
      var line := lines[i];
      Seqs.FilterMapSnoc(lines, i, IsObxLine, ObxEntry);
      if IsObxLine(line) {
        results := results + [ObxEntry(line)];
      }
      i := i + 1;
    }
    assert lines[..|lines|] == lines;
  }

  /** The record for an HL7 message, `now` standing for `datetime.utcnow()`. */
  function Hl7Record(text: string, now: DateTime, labIdDefault: string, labNameDefault: string): LabResult {
    var lines := Lines(text);
    Hl7Header(lines, now, labIdDefault, labNameDefault).(results := ObxResults(lines))
  }

  /** The record-level fields, read from the segment table. */
  function Hl7Header(lines: seq<string>, now: DateTime, labIdDefault: string, labNameDefault: string)
    : LabResult
  {
    var msh := Segment(lines, "MSH");
    var pid := Segment(lines, "PID");
    var obr := Segment(lines, "OBR");
    var sendingApp := Field(msh, 2, "");
    var sendingFacility := Field(msh, 3, labIdDefault);
    LabResult(
      Some(Field(pid, 3, "UNKNOWN")),
      if sendingFacility != "" then sendingFacility else labIdDefault,
      if labNameDefault != "" then labNameDefault else sendingApp,
      ReportType(obr),
      MessageTimestamp(msh).GetOr(NowUtc(now)),
      [])
  }

  /** `parse_hl7_to_json`. */
  method ParseHl7ToJson(text: string, now: DateTime, labIdDefault: string, labNameDefault: string)
    returns (r: LabResult)
    ensures r == Hl7Record(text, now, labIdDefault, labNameDefault)
  {
    var lines := Lines(text);
    var results := CollectObxResults(lines);
    r := Hl7Header(lines, now, labIdDefault, labNameDefault).(results := results);
  }

  // ---------------------------------------------------------------------------------------
  // Properties of the record

  /** Results keep line order: the entries for two blocks of lines are those of the first
      block followed by those of the second. */
  lemma ObxResultsAppend(a: seq<string>, b: seq<string>)
    ensures ObxResults(a + b) == ObxResults(a) + ObxResults(b)
  {
    Seqs.FilterMapAppend(a, b, IsObxLine, ObxEntry);
  }

  /** Number of lines that start with `OBX|`. */
  function CountObx(lines: seq<string>): nat {
    Seqs.Count(lines, IsObxLine)
  }

  /** There is exactly one result per OBX line, and the `k`-th result is built from the
      `k`-th OBX line. */
  lemma ObxResultsOnePerLine(lines: seq<string>, i: nat)
    requires i < |lines| && IsObxLine(lines[i])
    ensures |ObxResults(lines)| == CountObx(lines)
    ensures CountObx(lines[..i]) < CountObx(lines)
    ensures ObxResults(lines)[CountObx(lines[..i])] == ObxEntry(lines[i])
  {
    Seqs.FilterMapAt(lines, i, IsObxLine, ObxEntry);
  }

  /** OBX-3 split: the test code is the text before the first `^`; the test name is the
      second component, or the code itself when OBX-3 has no `^`. */
  lemma ObxCodeAndName(line: string)
    ensures var fields := Split(line, '|');
      var id := Field(fields, 3, "");
      var e := ObxEntry(line);
      e.testCode.Some? && e.testName.Some?
      && var code, name := e.testCode.value, e.testName.value;
      StartsWith(id, code)
      && (forall j :: 0 <= j < |code| ==> code[j] != '^')
      && (|code| == |id| ==> name == id)
      && (|code| < |id| ==> id[|code|] == '^' && name == Split(id[|code| + 1..], '^')[0])
  {
    var fields := Split(line, '|');
    var id := Field(fields, 3, "");
    SplitOnHead(id, {'^'});
    var p := Split(id, '^');
    if |p[0]| < |id| {
      assert p[1..] == Split(id[|p[0]| + 1..], '^');
      assert p[1] == p[1..][0];
    }
  }

  /** OBX-8 decides abnormality and severity; a segment with no field 8 is normal. */
  lemma ObxFlag(line: string)
    ensures var fields := Split(line, '|');
      var e := ObxEntry(line);
      (|fields| <= 8 ==> !e.isAbnormal && e.severity == Normal)
      && (|fields| > 8 ==>
            (e.isAbnormal <==> fields[8] != "N" && fields[8] != "")
            && (e.severity == High <==> fields[8] == "H" || fields[8] == "HH")
            && (e.severity == Low <==> fields[8] == "L" || fields[8] == "LL"))
  {
  }

  /** A flag outside the table, such as `A`, is abnormal yet of normal severity. */
  lemma UntabledFlag(line: string)
    requires var fields := Split(line, '|'); |fields| > 8 && fields[8] == "A"
    ensures ObxEntry(line).isAbnormal && ObxEntry(line).severity == Normal
  {
  }

  /** The record's results are the OBX entries of the message's non-blank lines. */
  lemma Hl7Results(text: string, now: DateTime, labIdDefault: string, labNameDefault: string)
    ensures Hl7Record(text, now, labIdDefault, labNameDefault).results == ObxResults(Lines(text))
    ensures |Hl7Record(text, now, labIdDefault, labNameDefault).results| == CountObx(Lines(text))
  {
    Seqs.FilterMapCount(Lines(text), IsObxLine, ObxEntry);
  }

  /** patient_id is PID-3 of the last PID line, or "UNKNOWN" when there is no PID line or
      it has no field 3. */
  lemma Hl7PatientId(text: string, now: DateTime, labIdDefault: string, labNameDefault: string)
    ensures var lines := Lines(text);
      var i := LastIndexOfSegment(lines, "PID");
      var r := Hl7Record(text, now, labIdDefault, labNameDefault);
      (i >= 0 && |Split(lines[i], '|')| > 3 ==> r.patientId == Some(Split(lines[i], '|')[3]))
      && (i < 0 || |Split(lines[i], '|')| <= 3 ==> r.patientId == Some("UNKNOWN"))
  {
  }

  /** lab_id is MSH-4 (split index 3) when present and non-empty, else the configured
      default; lab_name is the configured default, or MSH-3 when the default is empty. */
  lemma Hl7LabIdentity(text: string, now: DateTime, labIdDefault: string, labNameDefault: string)
    ensures var msh := Segment(Lines(text), "MSH");
      var r := Hl7Record(text, now, labIdDefault, labNameDefault);
      (|msh| > 3 && msh[3] != "" ==> r.labId == msh[3])
      && (|msh| <= 3 || msh[3] == "" ==> r.labId == labIdDefault)
      && (labNameDefault != "" ==> r.labName == labNameDefault)
      && (labNameDefault == "" ==> r.labName == Field(msh, 2, ""))
  {
  }

  /** test_type is the OBR-4 name, else its code, else "Unknown". */
  lemma Hl7TestType(text: string, now: DateTime, labIdDefault: string, labNameDefault: string)
    ensures var obr := Segment(Lines(text), "OBR");
      var r := Hl7Record(text, now, labIdDefault, labNameDefault);
      (|obr| <= 4 ==> r.testType == "Unknown")
      && (|obr| > 4 ==>
            var parts := Split(obr[4], '^');
            (|parts| > 1 && parts[1] != "" ==> r.testType == parts[1])
            && ((|parts| == 1 || parts[1] == "") && parts[0] != "" ==> r.testType == parts[0])
            && ((|parts| == 1 || parts[1] == "") && parts[0] == "" ==> r.testType == "Unknown"))
  {
  }

  /** An MSH-7 that `strptime` reads becomes its `isoformat` plus `Z`, and a fourteen-digit
      `YYYYMMDDHHMMSS` naming a real instant becomes `YYYY-MM-DDTHH:MM:SSZ` with the same digits;
      a missing or unparseable one gives the current UTC time plus `Z`. */
  lemma Hl7TestDate(text: string, now: DateTime, labIdDefault: string, labNameDefault: string)
    ensures var ts := Field(Segment(Lines(text), "MSH"), 6, "");
      var r := Hl7Record(text, now, labIdDefault, labNameDefault);
      (ParseCompactTimestamp(ts).Some? ==> r.testDate == IsoFormat(ParseCompactTimestamp(ts).value) + "Z")
      && (ParseCompactTimestamp(ts).Some? && |ts| == 14 && AllDigits(ts) ==>
         r.testDate == ts[0..4] + "-" + ts[4..6] + "-" + ts[6..8] + "T"
                       + ts[8..10] + ":" + ts[10..12] + ":" + ts[12..14] + "Z")
      && (ParseCompactTimestamp(ts).None? ==> r.testDate == NowUtc(now))
  {
    var msh := Segment(Lines(text), "MSH");
    var ts := Field(msh, 6, "");
    assert Hl7Record(text, now, labIdDefault, labNameDefault).testDate
           == MessageTimestamp(msh).GetOr(NowUtc(now));
    MessageTimestampOfParse(msh);
    if ParseCompactTimestamp(ts).Some? && |ts| == 14 && AllDigits(ts) {
      CompactTimestampIso(ts);
    }
  }

  /** MSH-7 is reported exactly when `strptime` reads it. */
  lemma MessageTimestampOfParse(msh: seq<string>)
    ensures var p := ParseCompactTimestamp(Field(msh, 6, ""));
      MessageTimestamp(msh) == if p.Some? then Some(IsoFormat(p.value) + "Z") else None
  {
  }

  /** A message written one segment per line, each segment stripped, non-blank and free of
      line breaks, reads back as exactly those segments. */
  lemma {:induction false} LinesOfSegments(segments: seq<string>)
    requires |segments| >= 1
    requires forall i :: 0 <= i < |segments| ==> segments[i] != [] && Strip(segments[i]) == segments[i]
    requires forall i, j :: 0 <= i < |segments| && 0 <= j < |segments[i]| ==> segments[i][j] !in LineBoundaries
    ensures Lines(Join(segments, "\n")) == segments
  {
    assert "\n" == ['\n'];
    SplitOnJoin(segments, '\n', LineBoundaries);
    NonBlankOfStripped(segments);
  }

  lemma {:induction false} NonBlankOfStripped(pieces: seq<string>)
    requires forall p :: p in pieces ==> p != [] && Strip(p) == p
    ensures NonBlankStripped(pieces) == pieces
  {
    if |pieces| > 0 {
      assert forall p :: p in pieces[1..] ==> p in pieces;
      NonBlankOfStripped(pieces[1..]);
      assert pieces[0] in pieces;
      StrippedHead(pieces);
    }
  }

  /** A non-blank stripped first piece is kept as it is. */
  lemma StrippedHead(pieces: seq<string>)
    requires |pieces| > 0 && pieces[0] != [] && Strip(pieces[0]) == pieces[0]
    ensures NonBlankStripped(pieces) == [pieces[0]] + NonBlankStripped(pieces[1..])
  {
  }
}
