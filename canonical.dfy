/** The canonical lab-result record every format adapter produces and the gateway accepts:
    `{patient_id, lab_id, lab_name, test_type, test_date, results[]}` with result entries
    `{test_code, test_name, value, unit, reference_range, is_abnormal, severity}`. */
module Canonical {
  import opened Wrappers
  import opened Values

  datatype Severity = Normal | High | Low

  function SeverityName(s: Severity): string {
    match s
    case Normal => "normal"
    case High => "high"
    case Low => "low"
  }

  /** The abnormal-flag table shared by the HL7 and XML adapters (a subset of HL7 table
      0078): `H`/`HH` are high, `L`/`LL` are low, every other flag is normal. */
  function FlagSeverity(flag: string): Severity {
    if flag == "H" || flag == "HH" then High
    else if flag == "L" || flag == "LL" then Low
    else Normal
  }

  /** A flag marks the result abnormal unless it is `N` or empty. */
  predicate FlagIsAbnormal(flag: string) {
    flag != "N" && flag != ""
  }

  /** Python's `name or code or "Unknown"`. */
  function NameOrCode(name: string, code: string): (r: string)
    ensures r != ""
    ensures r == name || r == code || (r == "Unknown" && name == "" && code == "")
  {
    if name != "" then name else if code != "" then code else "Unknown"
  }

  /** One entry of `results`. The text fields are `None` (JSON null) only where a short CSV
      row leaves the cell out. */
  datatype TestValue = TestValue(
    testCode: Option<string>,
    testName: Option<string>,
    value: Option<Number>,
    unit: Option<string>,
    referenceRange: Option<string>,
    isAbnormal: bool,
    severity: Severity)

  /** `patientId` is `None` only where an XML `Patient` element has no `ID` attribute. */
  datatype LabResult = LabResult(
    patientId: Option<string>,
    labId: string,
    labName: string,
    testType: string,
    testDate: string,
    results: seq<TestValue>)

  /** A result entry whose abnormality and severity come from a flag; `value` is the number
      when the text parses as a float and null otherwise. */
  function FlaggedValue(code: string, name: string, valueText: string, unit: string,
                        referenceRange: string, flag: string): (t: TestValue)
    ensures t.isAbnormal <==> flag != "N" && flag != ""
    ensures t.severity == High <==> flag == "H" || flag == "HH"
    ensures t.severity == Low <==> flag == "L" || flag == "LL"
    ensures t.value.Some? <==> IsFloatLiteral(valueText)
  {
    TestValue(Some(code), Some(name), ParseFloat(valueText), Some(unit), Some(referenceRange),
              FlagIsAbnormal(flag), FlagSeverity(flag))
  }

  /** A text, or null. */
  function TextJson(t: Option<string>): Json {
    match t
    case Some(x) => JStr(x)
    case None => JNull
  }

  function ValueJson(v: Option<Number>): Json {
    match v
    case Some(n) => JNum(n)
    case None => JNull
  }

  function TestValueJson(t: TestValue): Json {
    JObj(map[
      "test_code" := TextJson(t.testCode),
      "test_name" := TextJson(t.testName),
      "value" := ValueJson(t.value),
      "unit" := TextJson(t.unit),
      "reference_range" := TextJson(t.referenceRange),
      "is_abnormal" := JBool(t.isAbnormal),
      "severity" := JStr(SeverityName(t.severity))])
  }

  function ResultsJson(ts: seq<TestValue>): (r: seq<Json>)
    ensures |r| == |ts|
    ensures forall i :: 0 <= i < |ts| ==> r[i] == TestValueJson(ts[i])
  {
    seq(|ts|, i requires 0 <= i < |ts| => TestValueJson(ts[i]))
  }

  /** The keys of one result entry. */
  const ResultKeys: set<string> :=
    {"test_code", "test_name", "value", "unit", "reference_range", "is_abnormal", "severity"}

  /** Every entry of the results, in order, is an object with exactly the seven keys of a
      result: the texts (null where absent), a `value` that is null exactly when the value text
      was not a number and the number otherwise, and the flag's reading in `is_abnormal` and
      `severity`. */
  lemma ResultsJsonShape(ts: seq<TestValue>)
    ensures |ResultsJson(ts)| == |ts|
    ensures forall i :: 0 <= i < |ts| ==>
      var j := ResultsJson(ts)[i];
      j.JObj? && j.fields.Keys == ResultKeys
      && j.fields["test_code"] == TextJson(ts[i].testCode) && j.fields["test_name"] == TextJson(ts[i].testName)
      && j.fields["unit"] == TextJson(ts[i].unit) && j.fields["reference_range"] == TextJson(ts[i].referenceRange)
      && (j.fields["value"] == JNull <==> ts[i].value.None?)
      && (ts[i].value.Some? ==> j.fields["value"] == JNum(ts[i].value.value))
      && j.fields["is_abnormal"] == JBool(ts[i].isAbnormal)
      && j.fields["severity"] == JStr(SeverityName(ts[i].severity))
  {
    forall i | 0 <= i < |ts| ensures ResultsJson(ts)[i].fields.Keys == ResultKeys {
      TestValueKeys(ts[i]);
    }
  }

  /** The keys of one result entry. */
  lemma TestValueKeys(t: TestValue)
    ensures TestValueJson(t).fields.Keys == ResultKeys
  {
  }

  /** The dictionary an adapter hands to the gateway. */
  function ToJson(r: LabResult): Json {
    JObj(map[
      "patient_id" := TextJson(r.patientId),
      "lab_id" := JStr(r.labId),
      "lab_name" := JStr(r.labName),
      "test_type" := JStr(r.testType),
      "test_date" := JStr(r.testDate),
      "results" := JList(ResultsJson(r.results))])
  }
}
