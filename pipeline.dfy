/** How the parts fit together: what the format adapters hand to the gateway, what the
    gateway's verdict and the worker's verdict make of the same record, and where the worker
    moves the object the gateway stored. */
module Pipeline {
  import opened Wrappers
  import opened Text
  import opened Values
  import opened Canonical
  import Dates
  import Ingest
  import LegacyIngest
  import Worker
  import Hl7Adapter
  import CsvAdapter

  // ---------------------------------------------------------------------------------------
  // Adapter records at the gateway

  /** The gateway never raises on an adapter's record: it is an object, its `results` is a
      list of objects and every other field is text (or `null`). */
  lemma GatewayJudgesCanonical(r: LabResult)
    ensures Ingest.ValidateLabResult(ToJson(r)).Ok?
  {
    var m := ToJson(r).fields;
    assert ToJson(r) == JObj(m);
    Ingest.RequiredFieldsDistinct();
    Ingest.FieldErrorsOfObject(m, Ingest.RequiredFields, "");
    ResultsOfAdapterRecord(r);
    assert Ingest.PatientErrors(ToJson(r)).Ok? && Ingest.DateErrors(ToJson(r)).Ok?;
  }

  /** The `results` checks of an adapter's record do not raise. */
  lemma ResultsOfAdapterRecord(r: LabResult)
    ensures Ingest.ResultsErrors(ToJson(r)).Ok?
  {
    var m := ToJson(r).fields;
    var items := ResultsJson(r.results);
    assert m["results"] == JList(items);
    Ingest.EntriesRaise(items, 0);
    assert forall i :: 0 <= i < |items| ==> !IsScalar(items[i]);
  }

  /** An entry whose value text is not a number (the adapters then emit `null`) makes the
      gateway reject the adapter's record with "results[i]: 'value' must be numeric". */
  lemma UnparsedValueRejected(r: LabResult, i: nat)
    requires i < |r.results| && r.results[i].value.None?
    ensures Ingest.ValidateLabResult(ToJson(r)).Ok?
    ensures Ingest.EntryNumericMessage(i) in Ingest.ValidateLabResult(ToJson(r)).value.errors
    ensures !Ingest.ValidateLabResult(ToJson(r)).value.valid
  {
    GatewayJudgesCanonical(r);
    var m := ToJson(r).fields;
    assert ToJson(r) == JObj(m);
    assert m["results"].items[i] == TestValueJson(r.results[i]);
    Ingest.NullValueRejected(m, i);
  }

  /** An OBX line whose OBX-5 is not a number gets the HL7 record rejected by the gateway,
      under the index of that line among the OBX lines. */
  lemma Hl7UnparsedValueRejected(text: string, now: Dates.DateTime, labId: string, labName: string, i: nat)
    requires i < |Hl7Adapter.Lines(text)| && Hl7Adapter.IsObxLine(Hl7Adapter.Lines(text)[i])
    requires !IsFloatLiteral(Hl7Adapter.Field(Split(Hl7Adapter.Lines(text)[i], '|'), 5, ""))
    ensures var verdict := Ingest.ValidateLabResult(ToJson(Hl7Adapter.Hl7Record(text, now, labId, labName)));
      verdict.Ok? && !verdict.value.valid
      && Ingest.EntryNumericMessage(Hl7Adapter.CountObx(Hl7Adapter.Lines(text)[..i])) in verdict.value.errors
  {
    var lines := Hl7Adapter.Lines(text);
    Hl7Adapter.ObxResultsOnePerLine(lines, i);
    var r := Hl7Adapter.Hl7Record(text, now, labId, labName);
    var k := Hl7Adapter.CountObx(lines[..i]);
    assert r.results == Hl7Adapter.ObxResults(lines);
    assert r.results[k] == Hl7Adapter.ObxEntry(lines[i]);
    UnparsedValueRejected(r, k);
  }

  /** A CSV row whose `Value` cell is missing or not a number gets the CSV record, when there
      is one, rejected by the gateway under the index of that row. */
  lemma CsvUnparsedValueRejected(rows: seq<CsvAdapter.Row>, now: Dates.DateTime, labName: string, i: nat)
    requires i < |rows| && !IsFloatLiteral(CsvAdapter.Truthy(CsvAdapter.Cell(rows[i], "Value", "")))
    ensures CsvAdapter.CsvRecord(rows, now, labName).Ok? ==>
      var verdict := Ingest.ValidateLabResult(ToJson(CsvAdapter.CsvRecord(rows, now, labName).value));
      verdict.Ok? && !verdict.value.valid && Ingest.EntryNumericMessage(i) in verdict.value.errors
  {
    if CsvAdapter.CsvRecord(rows, now, labName).Ok? {
      var r := CsvAdapter.CsvRecord(rows, now, labName).value;
      assert r.results == CsvAdapter.CsvResults(rows);
      assert r.results[i] == CsvAdapter.RowEntry(rows[i]);
      UnparsedValueRejected(r, i);
    }
  }

  // ---------------------------------------------------------------------------------------
  // The worker's verdict

  /** Every entry an adapter builds carries the five fields the worker asks for, so the
      worker accepts an adapter's record exactly when it has at least one result. */
  lemma WorkerAcceptsCanonical(r: LabResult)
    ensures Worker.ValidateLabResult(ToJson(r)) == Ok(|r.results| > 0)
  {
    var m := ToJson(r).fields;
    assert ToJson(r) == JObj(m);
    var items := ResultsJson(r.results);
    assert m["results"] == JList(items);
    forall i | 0 <= i < |items| ensures Worker.HasResultFields(items[i]) {
      assert items[i] == TestValueJson(r.results[i]);
    }
    Worker.WorkerAcceptsWellFormed(m);
  }

  /** The gateway does not look at `reference_range`; the worker requires it in every entry.
      Adding or leaving out an entry's range never changes the gateway's messages for that
      entry, while a record with an entry lacking it is refused by the worker. */
  lemma ReferenceRangeOnlyInWorker(m: map<string, Json>, i: nat, range: Json)
    requires "results" in m && m["results"].JList? && i < |m["results"].items|
    requires forall j :: 0 <= j < |m["results"].items| ==> m["results"].items[j].JObj?
    requires "reference_range" !in m["results"].items[i].fields
    ensures Worker.ValidateLabResult(JObj(m)) == Ok(false)
    ensures var fs := m["results"].items[i].fields;
      Ingest.EntryErrors(JObj(fs["reference_range" := range]), i) == Ingest.EntryErrors(JObj(fs), i)
  {
    var items := m["results"].items;
    Worker.WorkerAcceptsWellFormed(m);
    assert Worker.ResultFields[4] == "reference_range";
    assert !Worker.HasResultFields(items[i]);
    EntryIgnoresOtherKeys(items[i].fields, "reference_range", range, i);
  }

  /** An entry's messages depend only on its four required keys: setting any other key
      leaves them as they are. */
  lemma EntryIgnoresOtherKeys(fs: map<string, Json>, k: string, v: Json, index: nat)
    requires k !in Ingest.EntryFields
    ensures Ingest.EntryErrors(JObj(fs[k := v]), index) == Ingest.EntryErrors(JObj(fs), index)
  {
    EntryFieldErrorsIgnore(fs, k, v, index, Ingest.EntryFields);
    assert Ingest.EntryFields[2] == "value";
  }

  lemma {:induction false} EntryFieldErrorsIgnore(fs: map<string, Json>, k: string, v: Json, index: nat,
                                                  fields: seq<string>)
    requires k !in fields
    ensures Ingest.EntryFieldErrors(JObj(fs[k := v]), index, fields) == Ingest.EntryFieldErrors(JObj(fs), index, fields)
  {
    if |fields| > 0 {
      assert fields[0] != k;
      EntryFieldErrorsIgnore(fs, k, v, index, fields[1..]);
    }
  }

  // ---------------------------------------------------------------------------------------
  // Where the record's name and object go

  /** Only the CSV adapter writes "code / name": with both present it reports a test type the
      HL7 and XML rule (name, else code) never gives for the same pair. */
  lemma CsvTestTypeDiffers(code: string, name: string)
    requires code != "" && name != ""
    ensures NameOrCode(name, code) == name
    ensures CsvAdapter.CsvTestType(code, name) != NameOrCode(name, code)
  {
    assert |CsvAdapter.CsvTestType(code, name)| == |code| + 3 + |name|;
  }

  /** The worker moves the gateway's `incoming/json/…` object to `processed/json/…`, and the
      earlier gateway's `incoming/…` object to `processed/…`, keeping the rest of the path. */
  lemma ProcessedKeys(now: Dates.DateTime, resultId: string)
    ensures Worker.ProcessedKey(Ingest.ObjectKey(now, resultId))
         == "processed/json/" + Dates.DatePath(now) + "/" + resultId + ".json"
    ensures Worker.ProcessedKey(LegacyIngest.ObjectKey(now, resultId))
         == "processed/" + Dates.DatePath(now) + "/" + resultId + ".json"
  {
    var path := Dates.DatePath(now);
    Ingest.ObjectKeyShape(now, resultId);
    assert "incoming/" + "json/" == "incoming/json/";
    assert "processed/" + "json/" == "processed/json/";
    MovedKey(Ingest.ObjectKey(now, resultId), "json/", path, resultId);
    assert "incoming/" + "" == "incoming/" && "processed/" + "" == "processed/";
    MovedKey(LegacyIngest.ObjectKey(now, resultId), "", path, resultId);
  }

  /** `incoming/<sub><path>/<id>.json` moves to `processed/<sub><path>/<id>.json`. */
  lemma MovedKey(key: string, sub: string, path: string, resultId: string)
    requires key == "incoming/" + sub + path + "/" + resultId + ".json"
    ensures Worker.ProcessedKey(key) == "processed/" + sub + path + "/" + resultId + ".json"
  {
    var rest := sub + path + "/" + resultId + ".json";
    assert key == Worker.IncomingPrefix + rest;
    Worker.OnlyFirstOccurrence(rest);
    assert "processed/" + sub + path + "/" + resultId + ".json" == Worker.ProcessedPrefix + rest;
  }
}
