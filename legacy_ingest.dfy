/** The earlier version of the ingest gateway. It shares the required-field, `results` and
    per-entry checks with the current one, but runs the patient_id and test_date checks
    whenever the key exists, names results `{patient_id}-{timestamp}`, keys objects without a
    format segment and returns the error list unjoined. */
module LegacyIngest {
  import opened Wrappers
  import opened Text
  import opened Values
  import opened Dates
  import I = Ingest

  /** `data['patient_id'].startswith('P')` for any present key; a value that is not a string
      has no `startswith`, and the AttributeError escapes the validator. */
  function PatientErrors(data: Json): (r: Result<seq<string>>)
    ensures r.Ok? ==> forall k :: 0 <= k < |r.value| ==> r.value[k] == I.PatientPrefixMessage
  {
    match I.Lookup(data, "patient_id")
    case Err(e) => Err(e)
    case Ok(None) => Ok([])
    case Ok(Some(JStr(s))) => Ok(if StartsWith(s, "P") then [] else [I.PatientPrefixMessage])
    case Ok(Some(v)) => Err("'" + TypeName(v) + "' object has no attribute 'startswith'")
  }

  /** `fromisoformat(data['test_date'].replace('Z', '+00:00'))` for any present key; a value
      without `replace` raises AttributeError, which is caught like a ValueError. */
  function DateErrors(data: Json): (r: Result<seq<string>>)
    ensures r.Ok? ==> forall k :: 0 <= k < |r.value| ==> r.value[k] == I.DateFormatMessage
  {
    match I.Lookup(data, "test_date")
    case Err(e) => Err(e)
    case Ok(None) => Ok([])
    case Ok(Some(JStr(s))) =>
      Ok(if IsIsoAccepted(ReplaceAll(s, "Z", "+00:00")) then [] else [I.DateFormatMessage])
    case Ok(Some(_)) => Ok([I.DateFormatMessage])
  }

  /** `validate_lab_result` of the earlier version. */
  function ValidateLabResult(data: Json): (r: Result<I.Validation>)
    ensures r.Ok? ==> (r.value.valid <==> r.value.errors == [])
    ensures r.Ok? <==> I.FieldErrors(data, I.RequiredFields).Ok? && I.ResultsErrors(data).Ok?
                       && PatientErrors(data).Ok? && DateErrors(data).Ok?
    ensures r.Ok? ==>
      r.value.errors == I.FieldErrors(data, I.RequiredFields).value + I.ResultsErrors(data).value
                        + PatientErrors(data).value + DateErrors(data).value
  {
    var fieldErrs := I.FieldErrors(data, I.RequiredFields);
    var resultsErrs := I.ResultsErrors(data);
    var patientErrs := PatientErrors(data);
    var dateErrs := DateErrors(data);
    if fieldErrs.Err? then Err(fieldErrs.error)
    else if resultsErrs.Err? then Err(resultsErrs.error)
    else if patientErrs.Err? then Err(patientErrs.error)
    else if dateErrs.Err? then Err(dateErrs.error)
    else
      var errors := fieldErrs.value + resultsErrs.value + patientErrs.value + dateErrs.value;
      Ok(I.Validation(|errors| == 0, errors))
  }

  /** `generate_result_id`: `{patient_id}-{%Y%m%d%H%M%S%f}`. */
  function GenerateResultId(fields: map<string, Json>, now: DateTime): string {
    Str(Get(fields, "patient_id", JStr("UNKNOWN"))) + "-" + CompactTimestamp(now)
  }

  /** The object key `incoming/{%Y/%m/%d}/{result_id}.json`. */
  function ObjectKey(now: DateTime, resultId: string): string {
    "incoming/" + DatePath(now) + "/" + resultId + ".json"
  }

  /** The stored body: the record plus three added keys. */
  function StoredPayload(fields: map<string, Json>, resultId: string, now: DateTime, environment: string)
    : map<string, Json>
  {
    fields["ingested_at" := JStr(IsoFormat(now))]["result_id" := JStr(resultId)]["environment" := JStr(environment)]
  }

  /** Object metadata; the record's own values are passed as they are. */
  function StoredMetadata(fields: map<string, Json>, resultId: string, now: DateTime): map<string, Json> {
    map[
      "result-id" := JStr(resultId),
      "patient-id" := Get(fields, "patient_id", JStr("")),
      "test-type" := Get(fields, "test_type", JStr("")),
      "ingested-at" := JStr(IsoFormat(now))]
  }

  datatype StoredObject = StoredObject(bucket: string, key: string, body: Json, metadata: map<string, Json>)
  datatype QueueMessage = QueueMessage(queueUrl: string, body: Json, attributes: map<string, Json>)

  function QueueBody(key: string, resultId: string, fields: map<string, Json>, now: DateTime, dep: I.Deployment)
    : Json
  {
    JObj(map[
      "result_id" := JStr(resultId),
      "s3_bucket" := JStr(dep.bucket),
      "s3_key" := JStr(key),
      "patient_id" := Get(fields, "patient_id", JNull),
      "test_type" := Get(fields, "test_type", JNull),
      "timestamp" := JStr(IsoFormat(now)),
      "environment" := JStr(dep.environment)])
  }

  function QueueAttributes(resultId: string, fields: map<string, Json>): map<string, Json> {
    map[
      "result_id" := JStr(resultId),
      "patient_id" := Get(fields, "patient_id", JStr("")),
      "test_type" := Get(fields, "test_type", JStr(""))]
  }

  /** `error_response`: the message is put in the body as given, a list staying a list. */
  function ErrorResponse(statusCode: nat, message: Json, now: DateTime): I.Response {
    I.Response(statusCode, JObj(map["error" := message, "timestamp" := JStr(IsoFormat(now))]))
  }

  function ErrorList(errors: seq<string>): (r: Json)
    ensures r.JList? && |r.items| == |errors|
    ensures forall k :: 0 <= k < |errors| ==> r.items[k] == JStr(errors[k])
  {
    JList(seq(|errors|, k requires 0 <= k < |errors| => JStr(errors[k])))
  }

  datatype HandlerResult = HandlerResult(response: I.Response, stored: Option<StoredObject>, sent: Option<QueueMessage>)

  function InternalError(e: string, now: DateTime): I.Response {
    ErrorResponse(500, JStr("Internal server error: " + e), now)
  }

  lemma ValidIsObject(data: Json)
    requires ValidateLabResult(data).Ok? && ValidateLabResult(data).value.valid
    ensures data.JObj?
  {
  }

  /** `lambda_handler` of the earlier version. */
  function LambdaHandler(event: map<string, Json>, decode: string -> Result<Json>, now: DateTime,
                         dep: I.Deployment, outcomes: I.WriteOutcomes): (h: HandlerResult)
    ensures h.response.statusCode in {202, 400, 500}
    ensures h.sent.Some? ==> h.stored.Some?
    ensures h.response.statusCode == 202 <==> h.sent.Some?
  {
    match I.ParseBody(event, decode)
    case Err(e) => HandlerResult(InternalError(e, now), None, None)
    case Ok(data) =>
      match ValidateLabResult(data)
      case Err(e) => HandlerResult(InternalError(e, now), None, None)
      case Ok(v) =>
        if !v.valid then HandlerResult(ErrorResponse(400, ErrorList(v.errors), now), None, None)
        else
          ValidIsObject(data);
          var fields := data.fields;
          var resultId := GenerateResultId(fields, now);
          var key := ObjectKey(now, resultId);
          var obj := StoredObject(dep.bucket, key, JObj(StoredPayload(fields, resultId, now, dep.environment)),
                                  StoredMetadata(fields, resultId, now));
          match outcomes.putError
          case Some(e) => HandlerResult(InternalError(e, now), None, None)
          case None =>
            match outcomes.send
            case Err(e) => HandlerResult(InternalError(e, now), Some(obj), None)
            case Ok(messageId) =>
              HandlerResult(I.SuccessResponse(resultId, messageId, key), Some(obj),
                            Some(QueueMessage(dep.queueUrl, QueueBody(key, resultId, fields, now, dep),
                                              QueueAttributes(resultId, fields))))
  }

  // ---------------------------------------------------------------------------------------
  // Properties of the earlier validator and how it differs from the current one

  /** The patient_id rule: the message is reported exactly when the patient_id is a string
      not starting with `P`, the empty string included. */
  lemma PatientPrefixRule(m: map<string, Json>)
    requires ValidateLabResult(JObj(m)).Ok?
    ensures I.PatientPrefixMessage in ValidateLabResult(JObj(m)).value.errors
        <==> "patient_id" in m && m["patient_id"].JStr? && !StartsWith(m["patient_id"].s, "P")
  {
    var data := JObj(m);
    var f := I.FieldErrors(data, I.RequiredFields).value;
    var r := I.ResultsErrors(data).value;
    assert I.PatientPrefixMessage[0] == 'p';
    I.NotIn(f, I.PatientPrefixMessage, {'M', 'F'});
    I.NotIn(r, I.PatientPrefixMessage, {'F', 'r'});
    assert I.DateFormatMessage != I.PatientPrefixMessage by { assert I.DateFormatMessage[0] == 't'; }
  }

  /** A patient_id that is not a string makes the validator raise, whatever else the record
      holds: the handler answers 500 where the current gateway reports a field error. */
  lemma NonStringPatientRaises(m: map<string, Json>)
    requires "patient_id" in m && !m["patient_id"].JStr?
    ensures PatientErrors(JObj(m)) == Err("'" + TypeName(m["patient_id"]) + "' object has no attribute 'startswith'")
    ensures ValidateLabResult(JObj(m)).Err?
  {
  }

  /** An empty patient_id is reported twice: as empty and as not starting with `P`. */
  lemma EmptyPatientTwice(m: map<string, Json>)
    requires "patient_id" in m && m["patient_id"] == JStr("")
    requires ValidateLabResult(JObj(m)).Ok?
    ensures I.EmptyMessage("patient_id") in ValidateLabResult(JObj(m)).value.errors
    ensures I.PatientPrefixMessage in ValidateLabResult(JObj(m)).value.errors
  {
    I.RequiredFieldsDistinct();
    I.FieldErrorsOfObject(m, I.RequiredFields, "patient_id");
    PatientPrefixRule(m);
  }

  /** An empty test_date is reported twice: as empty and as not in ISO 8601 format. */
  lemma EmptyDateTwice(m: map<string, Json>)
    requires "test_date" in m && m["test_date"] == JStr("")
    requires ValidateLabResult(JObj(m)).Ok?
    ensures I.EmptyMessage("test_date") in ValidateLabResult(JObj(m)).value.errors
    ensures I.DateFormatMessage in ValidateLabResult(JObj(m)).value.errors
  {
    I.RequiredFieldsDistinct();
    I.FieldErrorsOfObject(m, I.RequiredFields, "test_date");
    assert ReplaceAll("", "Z", "+00:00") == "";
    assert DateErrors(JObj(m)) == Ok([I.DateFormatMessage]);
  }

  /** Where the patient_id and the test_date are absent or non-empty strings, the earlier and
      the current validator give the same verdict with the same messages. */
  lemma AgreesOnNonEmptyStrings(m: map<string, Json>)
    requires "patient_id" in m ==> m["patient_id"].JStr? && m["patient_id"].s != ""
    requires "test_date" in m ==> m["test_date"].JStr? && m["test_date"].s != ""
    ensures ValidateLabResult(JObj(m)) == I.ValidateLabResult(JObj(m))
  {
    assert PatientErrors(JObj(m)) == I.PatientErrors(JObj(m));
    assert DateErrors(JObj(m)) == I.DateErrors(JObj(m));
  }

  /** The result id is the patient_id, a dash and the timestamp: no lab_id. */
  lemma ResultIdShape(fields: map<string, Json>, now: DateTime, patient: string)
    requires "patient_id" in fields && fields["patient_id"] == JStr(patient)
    requires now.year <= 9999 && now.month <= 12 && now.day <= 31
    requires now.hour <= 23 && now.minute <= 59 && now.second <= 59 && now.micro <= 999999
    ensures var id := GenerateResultId(fields, now);
      StartsWith(id, patient + "-") && |id| == |patient| + 21 && AllDigits(id[|patient| + 1..])
  {
    CompactTimestampWidth(now);
    var id := GenerateResultId(fields, now);
    assert id[|patient| + 1..] == CompactTimestamp(now);
  }

  /** The earlier key sits directly under `incoming/` and is never the key the current
      gateway builds for the same id. */
  lemma ObjectKeyShape(now: DateTime, resultId: string)
    ensures StartsWith(ObjectKey(now, resultId), "incoming/")
    ensures ObjectKey(now, resultId) != I.ObjectKey(now, resultId)
  {
    var key := ObjectKey(now, resultId);
    assert key[..9] == "incoming/";
    I.ObjectKeyShape(now, resultId);
    assert |I.ObjectKey(now, resultId)| == |key| + 5;
  }

  /** An invalid record is answered 400 with the messages as a list, one string per message
      in order, and nothing is written. */
  lemma HandlerRejectsInvalid(event: map<string, Json>, decode: string -> Result<Json>, now: DateTime,
                              dep: I.Deployment, outcomes: I.WriteOutcomes, data: Json)
    requires I.ParseBody(event, decode) == Ok(data)
    requires ValidateLabResult(data).Ok? && !ValidateLabResult(data).value.valid
    ensures var h := LambdaHandler(event, decode, now, dep, outcomes);
      h.stored.None? && h.sent.None? && h.response.statusCode == 400
      && h.response.body.fields["error"] == ErrorList(ValidateLabResult(data).value.errors)
  {
  }

  /** A valid record with both writes succeeding is stored under the earlier key and queued
      with a message pointing at it. */
  lemma HandlerAccepts(event: map<string, Json>, decode: string -> Result<Json>, now: DateTime,
                       dep: I.Deployment, messageId: string, m: map<string, Json>)
    requires I.ParseBody(event, decode) == Ok(JObj(m))
    requires ValidateLabResult(JObj(m)).Ok? && ValidateLabResult(JObj(m)).value.valid
    ensures var h := LambdaHandler(event, decode, now, dep, I.WriteOutcomes(None, Ok(messageId)));
      var id := GenerateResultId(m, now);
      var key := ObjectKey(now, id);
      h.response == I.SuccessResponse(id, messageId, key)
      && h.stored == Some(StoredObject(dep.bucket, key, JObj(StoredPayload(m, id, now, dep.environment)),
                                       StoredMetadata(m, id, now)))
      && h.sent == Some(QueueMessage(dep.queueUrl, QueueBody(key, id, m, now, dep), QueueAttributes(id, m)))
  {
  }

  /** For a non-string patient_id the two gateways answer differently: the earlier one 500
      with nothing written, the current one (when it validates the record at all) 400 with
      the prefix message whenever the value is truthy and its text does not start with `P`. */
  lemma NonStringPatientDiverges(event: map<string, Json>, decode: string -> Result<Json>, now: DateTime,
                                 dep: I.Deployment, outcomes: I.WriteOutcomes, m: map<string, Json>)
    requires I.ParseBody(event, decode) == Ok(JObj(m))
    requires "patient_id" in m && !m["patient_id"].JStr?
    requires Truthy(m["patient_id"]) && !StartsWith(Str(m["patient_id"]), "P")
    requires I.ValidateLabResult(JObj(m)).Ok?
    ensures LambdaHandler(event, decode, now, dep, outcomes).response.statusCode == 500
    ensures I.LambdaHandler(event, decode, now, dep, outcomes).response.statusCode == 400
  {
    NonStringPatientRaises(m);
    I.PatientPrefixRule(m);
  }
}
