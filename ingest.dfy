/** The ingest gateway (the JSON adapter Lambda behind the API): parses the request body,
    validates it into an itemised error list, and only for a valid record builds a result
    id, stores the raw JSON under `incoming/json/…` and queues a message for the worker. */
module Ingest {
  import opened Wrappers
  import opened Text
  import opened Values
  import opened Dates

  const RequiredFields: seq<string> := ["patient_id", "lab_id", "lab_name", "test_type", "test_date", "results"]
  const EntryFields: seq<string> := ["test_code", "test_name", "value", "unit"]

  const SourceFormat := "JSON"
  const PayloadSchemaVersion := "1.0"
  /** Used when the `ENVIRONMENT` variable is unset. */
  const DefaultEnvironment := "dev"

  const NotAListMessage := "Field 'results' must be a list"
  const PatientPrefixMessage := "patient_id must start with 'P'"
  const DateFormatMessage := "test_date must be in ISO 8601 format"

  function MissingMessage(field: string): string { "Missing required field: " + field }
  function EmptyMessage(field: string): string { "Field '" + field + "' cannot be empty" }

  /** `{"valid": len(errors) == 0, "errors": errors}`. */
  datatype Validation = Validation(valid: bool, errors: seq<string>)

  // ---------------------------------------------------------------------------------------
  // Reading the decoded body the way Python does

  /** `key in data` followed by `data[key]`: `Ok(None)` when the key is absent; `Err` with
      the TypeError text where Python raises one (membership on `None`, a bool or a number;
      indexing a string or a list by a string). */
  function Lookup(data: Json, key: string): (r: Result<Option<Json>>)
    ensures data.JObj? ==> r == Ok(if key in data.fields then Some(data.fields[key]) else None)
    ensures r.Err? <==> Contains(data, key) != Some(false) && !data.JObj?
  {
    match Contains(data, key)
    case None => Err("argument of type '" + TypeName(data) + "' is not iterable")
    case Some(false) => Ok(None)
    case Some(true) =>
      match data
      case JObj(fields) => Ok(Some(fields[key]))
      case JStr(_) => Err("string indices must be integers")
      case _ => Err("list indices must be integers or slices, not str")
  }

  /** The error list `prefix + r`, passing an exception through. */
  function Prepend(prefix: seq<string>, r: Result<seq<string>>): Result<seq<string>> {
    match r
    case Ok(rest) => Ok(prefix + rest)
    case Err(e) => Err(e)
  }

  // ---------------------------------------------------------------------------------------
  // validate_lab_result and validate_test_result

  /** The required-field loop: a missing field or a falsy value gives one message. */
  function FieldErrors(data: Json, fields: seq<string>): (r: Result<seq<string>>)
    ensures r.Ok? ==> forall k :: 0 <= k < |r.value| ==> |r.value[k]| > 0 && r.value[k][0] in {'M', 'F'}
  {
    if |fields| == 0 then Ok([])
    else
      match Lookup(data, fields[0])
      case Err(e) => Err(e)
      case Ok(None) => Prepend([MissingMessage(fields[0])], FieldErrors(data, fields[1..]))
      case Ok(Some(v)) =>
        Prepend(if Truthy(v) then [] else [EmptyMessage(fields[0])], FieldErrors(data, fields[1..]))
  }

  function EntryPrefix(index: nat): string {
    "results[" + NatToString(index) + "]"
  }

  function EntryMissingMessage(index: nat, field: string): string {
    EntryPrefix(index) + ": Missing field '" + field + "'"
  }

  function EntryNumericMessage(index: nat): string {
    EntryPrefix(index) + ": 'value' must be numeric"
  }

  /** The missing-field loop of `validate_test_result`; membership on a scalar entry raises. */
  function EntryFieldErrors(entry: Json, index: nat, fields: seq<string>): (r: Result<seq<string>>)
    ensures r.Ok? ==> forall k :: 0 <= k < |r.value| ==> StartsWith(r.value[k], "results[")
  {
    if |fields| == 0 then Ok([])
    else
      match Contains(entry, fields[0])
      case None => Err("argument of type '" + TypeName(entry) + "' is not iterable")
      case Some(present) =>
        Prepend(if present then [] else [EntryMissingMessage(index, fields[0])],
                EntryFieldErrors(entry, index, fields[1..]))
  }

  /** `validate_test_result(result, index)`: one message per missing field, then one when
      `float(result["value"])` fails (the lookup itself sits inside the `try`). */
  function EntryErrors(entry: Json, index: nat): (r: Result<seq<string>>)
    ensures r.Ok? ==> forall k :: 0 <= k < |r.value| ==> StartsWith(r.value[k], "results[")
  {
    match EntryFieldErrors(entry, index, EntryFields)
    case Err(e) => Err(e)
    case Ok(missing) =>
      var hasValue := Contains(entry, "value") == Some(true);
      var numeric := entry.JObj? && "value" in entry.fields && FloatConvertible(entry.fields["value"]);
      Ok(missing + (if hasValue && !numeric then [EntryNumericMessage(index)] else []))
  }

  /** The entries' messages in index order, numbering from `start`. */
  function EntriesErrors(items: seq<Json>, start: nat): (r: Result<seq<string>>)
    ensures r.Ok? ==> forall k :: 0 <= k < |r.value| ==> StartsWith(r.value[k], "results[")
  {
    if |items| == 0 then Ok([])
    else
      match EntryErrors(items[0], start)
      case Err(e) => Err(e)
      case Ok(errs) => Prepend(errs, EntriesErrors(items[1..], start + 1))
  }

  /** The `results` checks: not a list, an empty list, or the entries' own messages. */
  function ResultsErrors(data: Json): (r: Result<seq<string>>)
    ensures r.Ok? ==> forall k :: 0 <= k < |r.value| ==> |r.value[k]| > 0 && r.value[k][0] in {'F', 'r'}
  {
    match Lookup(data, "results")
    case Err(e) => Err(e)
    case Ok(None) => Ok([])
    case Ok(Some(JList(items))) =>
      if |items| == 0 then Ok([EmptyMessage("results")]) else EntriesErrors(items, 0)
    case Ok(Some(_)) => Ok([NotAListMessage])
  }

  /** A non-empty patient_id whose text does not start with `P`. */
  function PatientErrors(data: Json): (r: Result<seq<string>>)
    ensures r.Ok? ==> forall k :: 0 <= k < |r.value| ==> r.value[k] == PatientPrefixMessage
  {
    match Lookup(data, "patient_id")
    case Err(e) => Err(e)
    case Ok(Some(v)) =>
      Ok(if Truthy(v) && !StartsWith(Str(v), "P") then [PatientPrefixMessage] else [])
    case Ok(None) => Ok([])
  }

  /** A non-empty test_date that `fromisoformat` rejects once `Z` is spelled `+00:00`. */
  function DateErrors(data: Json): (r: Result<seq<string>>)
    ensures r.Ok? ==> forall k :: 0 <= k < |r.value| ==> r.value[k] == DateFormatMessage
  {
    match Lookup(data, "test_date")
    case Err(e) => Err(e)
    case Ok(Some(v)) =>
      Ok(if Truthy(v) && !IsIsoAccepted(ReplaceAll(Str(v), "Z", "+00:00")) then [DateFormatMessage] else [])
    case Ok(None) => Ok([])
  }

  /** `validate_lab_result`: the four groups of messages in order; `Err` when Python raises. */
  function ValidateLabResult(data: Json): (r: Result<Validation>)
    ensures r.Ok? ==> (r.value.valid <==> r.value.errors == [])
    ensures r.Ok? <==> FieldErrors(data, RequiredFields).Ok? && ResultsErrors(data).Ok?
                       && PatientErrors(data).Ok? && DateErrors(data).Ok?
    ensures r.Ok? ==>
      r.value.errors == FieldErrors(data, RequiredFields).value + ResultsErrors(data).value
                        + PatientErrors(data).value + DateErrors(data).value
  {
    var fieldErrs := FieldErrors(data, RequiredFields);
    var resultsErrs := ResultsErrors(data);
    var patientErrs := PatientErrors(data);
    var dateErrs := DateErrors(data);
    if fieldErrs.Err? then Err(fieldErrs.error)
    else if resultsErrs.Err? then Err(resultsErrs.error)
    else if patientErrs.Err? then Err(patientErrs.error)
    else if dateErrs.Err? then Err(dateErrs.error)
    else
      var errors := fieldErrs.value + resultsErrs.value + patientErrs.value + dateErrs.value;
      Ok(Validation(|errors| == 0, errors))
  }

  // ---------------------------------------------------------------------------------------
  // Identifiers, stored object, queue message and responses

  /** `generate_result_id`: `{lab_id}-{patient_id}-{%Y%m%d%H%M%S%f}`. */
  function GenerateResultId(fields: map<string, Json>, now: DateTime): string {
    Str(Get(fields, "lab_id", JStr("LAB"))) + "-" + Str(Get(fields, "patient_id", JStr("UNKNOWN")))
    + "-" + CompactTimestamp(now)
  }

  /** The object key `incoming/json/{%Y/%m/%d}/{result_id}.json`. */
  function ObjectKey(now: DateTime, resultId: string): string {
    "incoming/" + AsciiLower(SourceFormat) + "/" + DatePath(now) + "/" + resultId + ".json"
  }

  /** The body `save_to_s3` stores: the record plus five added keys. */
  function StoredPayload(fields: map<string, Json>, resultId: string, now: DateTime, environment: string)
    : map<string, Json>
  {
    fields["ingested_at" := JStr(IsoFormat(now))]["result_id" := JStr(resultId)]
          ["environment" := JStr(environment)]["source_format" := JStr(SourceFormat)]
          ["payload_schema_version" := JStr(PayloadSchemaVersion)]
  }

  function StoredMetadata(fields: map<string, Json>, resultId: string, now: DateTime): map<string, string> {
    map[
      "result-id" := resultId,
      "patient-id" := Str(Get(fields, "patient_id", JStr(""))),
      "lab-id" := Str(Get(fields, "lab_id", JStr(""))),
      "test-type" := Str(Get(fields, "test_type", JStr(""))),
      "source-format" := SourceFormat,
      "ingested-at" := IsoFormat(now)]
  }

  /** Where the gateway writes: the bucket, the queue and the deployment environment. */
  datatype Deployment = Deployment(bucket: string, queueUrl: string, environment: string)

  datatype StoredObject = StoredObject(bucket: string, key: string, body: Json, metadata: map<string, string>)
  datatype QueueMessage = QueueMessage(queueUrl: string, body: Json, attributes: map<string, string>)

  function QueueBody(key: string, resultId: string, fields: map<string, Json>, now: DateTime, dep: Deployment)
    : Json
  {
    JObj(map[
      "result_id" := JStr(resultId),
      "s3_bucket" := JStr(dep.bucket),
      "s3_key" := JStr(key),
      "patient_id" := Get(fields, "patient_id", JNull),
      "test_type" := Get(fields, "test_type", JNull),
      "lab_id" := Get(fields, "lab_id", JNull),
      "lab_name" := Get(fields, "lab_name", JNull),
      "source_format" := JStr(SourceFormat),
      "payload_schema_version" := JStr(PayloadSchemaVersion),
      "timestamp" := JStr(IsoFormat(now)),
      "environment" := JStr(dep.environment)])
  }

  function QueueAttributes(resultId: string, fields: map<string, Json>): map<string, string> {
    map[
      "result_id" := resultId,
      "patient_id" := Str(Get(fields, "patient_id", JStr(""))),
      "test_type" := Str(Get(fields, "test_type", JStr(""))),
      "lab_id" := Str(Get(fields, "lab_id", JStr(""))),
      "source_format" := SourceFormat]
  }

  datatype Response = Response(statusCode: nat, body: Json)

  const JsonHeaders: map<string, string> :=
    map["Content-Type" := "application/json", "Access-Control-Allow-Origin" := "*"]

  /** `error_response` given a list: the messages joined with `"; "`. */
  function ErrorResponse(statusCode: nat, message: string, now: DateTime): Response {
    Response(statusCode, JObj(map["error" := JStr(message), "timestamp" := JStr(IsoFormat(now))]))
  }

  function JoinErrors(errors: seq<string>): (r: string)
    ensures |errors| == 1 ==> r == errors[0]
    ensures |errors| == 0 ==> r == ""
    ensures |errors| >= 2 ==> r == JoinErrors(errors[..|errors| - 1]) + "; " + errors[|errors| - 1]
  {
    if |errors| >= 2 then
      JoinSnoc(errors, "; ");
      Join(errors, "; ")
    else Join(errors, "; ")
  }

  function SuccessResponse(resultId: string, messageId: string, key: string): Response {
    Response(202, JObj(map[
      "result_id" := JStr(resultId),
      "message_id" := JStr(messageId),
      "s3_key" := JStr(key),
      "status" := JStr("accepted"),
      "message" := JStr("Lab result received and queued for processing")]))
  }

  /** `parse_body`: a string `body` is decoded (a decoding failure becomes a ValueError),
      another `body` is taken as it is, and without `body` the event itself is the record. */
  function ParseBody(event: map<string, Json>, decode: string -> Result<Json>): (r: Result<Json>)
    ensures "body" !in event ==> r == Ok(JObj(event))
    ensures "body" in event && !event["body"].JStr? ==> r == Ok(event["body"])
  {
    if "body" in event then
      match event["body"]
      case JStr(text) =>
        (match decode(text)
         case Ok(v) => Ok(v)
         case Err(e) => Err("Invalid JSON in request body: " + e))
      case other => Ok(other)
    else Ok(JObj(event))
  }

  /** What one invocation produced: the response, and the object and message it wrote. */
  datatype HandlerResult = HandlerResult(response: Response, stored: Option<StoredObject>, sent: Option<QueueMessage>)

  /** The outcomes of the two writes: `putError` is the text of a failed `put_object`,
      `send` the message id or the text of a failed `send_message`. */
  datatype WriteOutcomes = WriteOutcomes(putError: Option<string>, send: Result<string>)

  function InternalError(e: string, now: DateTime): Response {
    ErrorResponse(500, "Internal server error: " + e, now)
  }

  /** A valid record is an object: every required field was looked up successfully. */
  lemma ValidIsObject(data: Json)
    requires ValidateLabResult(data).Ok? && ValidateLabResult(data).value.valid
    ensures data.JObj?
  {
  }

  /** `lambda_handler`, `now` standing for every `datetime.utcnow()` of the invocation. */
  function LambdaHandler(event: map<string, Json>, decode: string -> Result<Json>, now: DateTime,
                         dep: Deployment, outcomes: WriteOutcomes): (h: HandlerResult)
    ensures h.response.statusCode in {202, 400, 500}
    ensures h.sent.Some? ==> h.stored.Some?
    ensures h.response.statusCode == 202 <==> h.sent.Some?
  {
    match ParseBody(event, decode)
    case Err(e) => HandlerResult(InternalError(e, now), None, None)
    case Ok(data) =>
      match ValidateLabResult(data)
      case Err(e) => HandlerResult(InternalError(e, now), None, None)
      case Ok(v) =>
        if !v.valid then HandlerResult(ErrorResponse(400, JoinErrors(v.errors), now), None, None)
        else
          ValidIsObject(data);
          var fields := data.fields;
          var resultId := GenerateResultId(fields, now);
          var key := ObjectKey(now, resultId);
          var obj := StoredObject(dep.bucket, key, JObj(StoredPayload(fields, resultId, now, dep.environment)),
                                  StoredMetadata(fields, resultId, now));
          match outcomes.putError
          case Some(e) => HandlerResult(InternalError(e, now), None, None)
          case None =>
            match outcomes.send
            case Err(e) => HandlerResult(InternalError(e, now), Some(obj), None)
            case Ok(messageId) =>
              HandlerResult(SuccessResponse(resultId, messageId, key), Some(obj),
                            Some(QueueMessage(dep.queueUrl, QueueBody(key, resultId, fields, now, dep),
                                              QueueAttributes(resultId, fields))))
  }

  // ---------------------------------------------------------------------------------------
  // Properties of the validator

  lemma MessageShapes(f: string, g: string)
    ensures MissingMessage(f) == MissingMessage(g) ==> f == g
    ensures EmptyMessage(f) == EmptyMessage(g) ==> f == g
    ensures MissingMessage(f) != EmptyMessage(g)
    ensures EmptyMessage(g) != NotAListMessage
  {
    MissingMessageInjective(f, g);
    EmptyMessageInjective(f, g);
    assert MissingMessage(f)[0] == 'M' && EmptyMessage(g)[0] == 'F';
    EmptyIsNotNotAList(g);
  }

  lemma MissingMessageInjective(f: string, g: string)
    ensures MissingMessage(f) == MissingMessage(g) ==> f == g
  {
    var pm := "Missing required field: ";
    if MissingMessage(f) == MissingMessage(g) {
      assert f == MissingMessage(f)[|pm|..];
      assert g == MissingMessage(g)[|pm|..];
    }
  }

  lemma EmptyMessageInjective(f: string, g: string)
    ensures EmptyMessage(f) == EmptyMessage(g) ==> f == g
  {
    var pe := "Field '";
    if EmptyMessage(f) == EmptyMessage(g) {
      assert |f| == |g|;
      assert f == EmptyMessage(f)[|pe|..|pe| + |f|];
      assert g == EmptyMessage(g)[|pe|..|pe| + |g|];
    }
  }

  lemma EmptyIsNotNotAList(g: string)
    ensures EmptyMessage(g) != NotAListMessage
  {
    var e := EmptyMessage(g);
    assert e[|e| - 1] == 'y';
    assert NotAListMessage[|NotAListMessage| - 1] == 't';
  }

  function Count(s: seq<string>, x: string): nat {
    multiset(s)[x]
  }

  /** On an object the required-field loop never raises, and over distinct fields each field
      contributes its missing message once when absent and its empty message once when
      present but falsy. */
  lemma {:induction false} FieldErrorsOfObject(m: map<string, Json>, fields: seq<string>, g: string)
    requires forall i, j :: 0 <= i < j < |fields| ==> fields[i] != fields[j]
    ensures FieldErrors(JObj(m), fields).Ok?
    ensures Count(FieldErrors(JObj(m), fields).value, MissingMessage(g)) == if g in fields && g !in m then 1 else 0
    ensures Count(FieldErrors(JObj(m), fields).value, EmptyMessage(g))
         == if g in fields && g in m && !Truthy(m[g]) then 1 else 0
  {
    if |fields| > 0 {
      var f := fields[0];
      FieldErrorsOfObject(m, fields[1..], g);
      MissingMessageInjective(f, g);
      EmptyMessageInjective(f, g);
      assert MissingMessage(f)[0] == 'M' && EmptyMessage(f)[0] == 'F';
      assert MissingMessage(g)[0] == 'M' && EmptyMessage(g)[0] == 'F';
      assert g in fields <==> g == f || g in fields[1..];
      if g == f {
        assert g !in fields[1..];
      }
    }
  }

  lemma NotIn(s: seq<string>, x: string, cs: set<char>)
    requires forall k :: 0 <= k < |s| ==> |s[k]| > 0 && s[k][0] in cs
    requires |x| > 0 && x[0] !in cs
    ensures Count(s, x) == 0
  {
    assert x !in s;
  }

  lemma CountConcat(f: seq<string>, r: seq<string>, p: seq<string>, d: seq<string>, x: string)
    ensures Count(f + r + p + d, x) == Count(f, x) + Count(r, x) + Count(p, x) + Count(d, x)
  {
    assert multiset(f + r + p + d) == multiset(f) + multiset(r) + multiset(p) + multiset(d);
  }

  /** The `results` checks on an object contribute the second empty message of an empty list
      and no other missing or empty message. */
  lemma ResultsFieldCount(m: map<string, Json>, g: string)
    requires ResultsErrors(JObj(m)).Ok?
    ensures Count(ResultsErrors(JObj(m)).value, MissingMessage(g)) == 0
    ensures Count(ResultsErrors(JObj(m)).value, EmptyMessage(g))
         == if g == "results" && "results" in m && m["results"] == JList([]) then 1 else 0
  {
    var r := ResultsErrors(JObj(m)).value;
    assert MissingMessage(g)[0] == 'M';
    NotIn(r, MissingMessage(g), {'F', 'r'});
    if "results" in m && m["results"].JList? && |m["results"].items| > 0 {
      EntriesHaveNoEmpty(m["results"].items, g);
    } else if "results" in m && m["results"].JList? {
      assert r == [EmptyMessage("results")];
      EmptyMessageInjective(g, "results");
    } else if "results" in m {
      assert r == [NotAListMessage];
      EmptyIsNotNotAList(g);
    }
  }

  lemma EntriesHaveNoEmpty(items: seq<Json>, g: string)
    requires EntriesErrors(items, 0).Ok?
    ensures Count(EntriesErrors(items, 0).value, EmptyMessage(g)) == 0
  {
    assert EmptyMessage(g)[0] == 'F';
    NotIn(EntriesErrors(items, 0).value, EmptyMessage(g), {'r'});
  }

  lemma RequiredFieldsDistinct()
    ensures forall i, j :: 0 <= i < j < |RequiredFields| ==> RequiredFields[i] != RequiredFields[j]
  {
    var fs := RequiredFields;
    assert fs[0][0] == 'p' && fs[1][0] == 'l' && fs[2][0] == 'l' && fs[3][0] == 't' && fs[4][0] == 't'
        && fs[5][0] == 'r';
    assert fs[1][4] == 'i' && fs[2][4] == 'n';
    assert fs[3][5] == 't' && fs[4][5] == 'd';
  }

  /** A missing or empty message can only come from the field loop or the `results` checks. */
  lemma FieldKindCount(m: map<string, Json>, x: string)
    requires ValidateLabResult(JObj(m)).Ok?
    requires |x| > 0 && x[0] in {'M', 'F'}
    ensures Count(ValidateLabResult(JObj(m)).value.errors, x)
         == Count(FieldErrors(JObj(m), RequiredFields).value, x) + Count(ResultsErrors(JObj(m)).value, x)
  {
    var data := JObj(m);
    var f := FieldErrors(data, RequiredFields).value;
    var r := ResultsErrors(data).value;
    var p := PatientErrors(data).value;
    var d := DateErrors(data).value;
    CountConcat(f, r, p, d, x);
    assert PatientPrefixMessage[0] == 'p' && DateFormatMessage[0] == 't';
    NotIn(p, x, {'p'});
    NotIn(d, x, {'t'});
  }

  /** Each required field yields at most one message: "Missing required field: f" exactly when
      it is absent and "Field 'f' cannot be empty" exactly when it is present but falsy, except
      that an empty `results` list is reported as empty a second time. */
  lemma RequiredFieldMessages(m: map<string, Json>, g: string)
    requires g in RequiredFields
    requires ValidateLabResult(JObj(m)).Ok?
    ensures var errors := ValidateLabResult(JObj(m)).value.errors;
      Count(errors, MissingMessage(g)) == (if g !in m then 1 else 0)
      && Count(errors, EmptyMessage(g))
         == (if g in m && !Truthy(m[g]) then 1 else 0)
            + (if g == "results" && g in m && m[g] == JList([]) then 1 else 0)
  {
    RequiredFieldsDistinct();
    FieldErrorsOfObject(m, RequiredFields, g);
    ResultsFieldCount(m, g);
    assert MissingMessage(g)[0] == 'M' && EmptyMessage(g)[0] == 'F';
    FieldKindCount(m, MissingMessage(g));
    FieldKindCount(m, EmptyMessage(g));
  }

  /** The patient_id rule: "patient_id must start with 'P'" is reported exactly when a
      non-empty patient_id's text does not start with `P`, whatever the other fields hold. */
  lemma PatientPrefixRule(m: map<string, Json>)
    requires ValidateLabResult(JObj(m)).Ok?
    ensures PatientPrefixMessage in ValidateLabResult(JObj(m)).value.errors
        <==> "patient_id" in m && Truthy(m["patient_id"]) && !StartsWith(Str(m["patient_id"]), "P")
  {
    var data := JObj(m);
    var f := FieldErrors(data, RequiredFields).value;
    var r := ResultsErrors(data).value;
    var d := DateErrors(data).value;
    assert PatientPrefixMessage[0] == 'p';
    NotIn(f, PatientPrefixMessage, {'M', 'F'});
    NotIn(r, PatientPrefixMessage, {'F', 'r'});
    assert DateFormatMessage != PatientPrefixMessage by { assert DateFormatMessage[0] == 't'; }
  }

  /** The test_date rule: "test_date must be in ISO 8601 format" is reported exactly when a
      non-empty test_date, with `Z` spelled `+00:00`, is not accepted by `fromisoformat`. */
  lemma TestDateRule(m: map<string, Json>)
    requires ValidateLabResult(JObj(m)).Ok?
    ensures DateFormatMessage in ValidateLabResult(JObj(m)).value.errors
        <==> "test_date" in m && Truthy(m["test_date"])
             && !IsIsoAccepted(ReplaceAll(Str(m["test_date"]), "Z", "+00:00"))
  {
    var data := JObj(m);
    var f := FieldErrors(data, RequiredFields).value;
    var r := ResultsErrors(data).value;
    var p := PatientErrors(data).value;
    assert DateFormatMessage[0] == 't';
    NotIn(f, DateFormatMessage, {'M', 'F'});
    NotIn(r, DateFormatMessage, {'F', 'r'});
    assert DateFormatMessage != PatientPrefixMessage by { assert PatientPrefixMessage[0] == 'p'; }
  }

  /** A `results` value that is present but not a list is reported as such. */
  lemma ResultsNotAList(m: map<string, Json>)
    requires ValidateLabResult(JObj(m)).Ok?
    ensures NotAListMessage in ValidateLabResult(JObj(m)).value.errors
        <==> "results" in m && !m["results"].JList?
  {
    var data := JObj(m);
    var f := FieldErrors(data, RequiredFields).value;
    var r := ResultsErrors(data).value;
    var p := PatientErrors(data).value;
    var d := DateErrors(data).value;
    FieldErrorsNotNotAList(m);
    ResultsErrorsNotAList(m);
    assert NotAListMessage[0] == 'F' && PatientPrefixMessage[0] == 'p' && DateFormatMessage[0] == 't';
    NotIn(p, NotAListMessage, {'p'});
    NotIn(d, NotAListMessage, {'t'});
    assert ValidateLabResult(data).value.errors == f + r + p + d;
  }

  lemma FieldErrorsNotNotAList(m: map<string, Json>)
    requires FieldErrors(JObj(m), RequiredFields).Ok?
    ensures NotAListMessage !in FieldErrors(JObj(m), RequiredFields).value
  {
    var f := FieldErrors(JObj(m), RequiredFields).value;
    forall k | 0 <= k < |f| ensures f[k] != NotAListMessage {
      FieldMessageForm(m, RequiredFields, f[k]);
      var g :| g in RequiredFields && (f[k] == MissingMessage(g) || f[k] == EmptyMessage(g));
      assert MissingMessage(g)[0] == 'M' && NotAListMessage[0] == 'F';
      EmptyIsNotNotAList(g);
    }
  }

  lemma ResultsErrorsNotAList(m: map<string, Json>)
    requires ResultsErrors(JObj(m)).Ok?
    ensures NotAListMessage in ResultsErrors(JObj(m)).value <==> "results" in m && !m["results"].JList?
  {
    if "results" in m && m["results"].JList? {
      var items := m["results"].items;
      if |items| == 0 {
        EmptyIsNotNotAList("results");
      } else {
        assert NotAListMessage[0] == 'F';
        NotIn(EntriesErrors(items, 0).value, NotAListMessage, {'r'});
      }
    }
  }

  /** Every message of the field loop is a missing or an empty message. */
  lemma {:induction false} FieldMessageForm(m: map<string, Json>, fields: seq<string>, x: string)
    requires FieldErrors(JObj(m), fields).Ok? && x in FieldErrors(JObj(m), fields).value
    ensures exists f :: f in fields && (x == MissingMessage(f) || x == EmptyMessage(f))
  {
    if |fields| > 0 {
      var f := fields[0];
      if x != MissingMessage(f) && x != EmptyMessage(f) {
        FieldMessageForm(m, fields[1..], x);
        var g :| g in fields[1..] && (x == MissingMessage(g) || x == EmptyMessage(g));
        assert g in fields;
      }
    }
  }

  // ---------------------------------------------------------------------------------------
  // Properties of the per-entry checks

  /** Entry messages name their field and are told apart from the numeric message. */
  lemma EntryMessageShapes(index: nat, f: string, g: string)
    ensures EntryMissingMessage(index, f) == EntryMissingMessage(index, g) ==> f == g
    ensures EntryMissingMessage(index, f) != EntryNumericMessage(index)
  {
    var p := EntryPrefix(index);
    var x := EntryMissingMessage(index, f);
    var y := EntryMissingMessage(index, g);
    assert x[|p| + 17..|x| - 1] == f;
    assert y[|p| + 17..|y| - 1] == g;
    assert x[|p| + 2] == 'M';
    assert EntryNumericMessage(index)[|p| + 2] == '\'';
  }

  /** On an object entry the missing-field loop never raises and reports exactly the fields
      the object lacks. */
  lemma {:induction false} EntryFieldErrorsOfObject(fs: map<string, Json>, index: nat, fields: seq<string>, g: string)
    ensures EntryFieldErrors(JObj(fs), index, fields).Ok?
    ensures EntryNumericMessage(index) !in EntryFieldErrors(JObj(fs), index, fields).value
    ensures EntryMissingMessage(index, g) in EntryFieldErrors(JObj(fs), index, fields).value
        <==> g in fields && g !in fs
  {
    if |fields| > 0 {
      var f := fields[0];
      EntryFieldErrorsOfObject(fs, index, fields[1..], g);
      EntryMessageShapes(index, f, g);
      EntryMessageShapes(index, f, f);
      assert g in fields <==> g == f || g in fields[1..];
    }
  }

  /** `validate_test_result` on an object: "Missing field 'f'" exactly for each of the four
      fields it lacks, and "'value' must be numeric" exactly when `value` is present but
      `float` rejects it. */
  lemma EntryOfObject(fs: map<string, Json>, index: nat, g: string)
    ensures EntryErrors(JObj(fs), index).Ok?
    ensures EntryMissingMessage(index, g) in EntryErrors(JObj(fs), index).value
        <==> g in EntryFields && g !in fs
    ensures EntryNumericMessage(index) in EntryErrors(JObj(fs), index).value
        <==> "value" in fs && !FloatConvertible(fs["value"])
  {
    EntryFieldErrorsOfObject(fs, index, EntryFields, g);
    EntryMessageShapes(index, g, g);
  }

  /** An entry raises exactly when it is `null`, a boolean or a number (the membership test
      on it raises TypeError). */
  lemma EntryRaises(entry: Json, index: nat)
    ensures EntryErrors(entry, index).Err? <==> IsScalar(entry)
  {
    var first := EntryFieldErrors(entry, index, EntryFields);
    if !IsScalar(entry) {
      EntryFieldsSucceed(entry, index, EntryFields);
    }
  }

  lemma {:induction false} EntryFieldsSucceed(entry: Json, index: nat, fields: seq<string>)
    requires !IsScalar(entry)
    ensures EntryFieldErrors(entry, index, fields).Ok?
  {
    if |fields| > 0 {
      EntryFieldsSucceed(entry, index, fields[1..]);
    }
  }

  /** The entries loop raises exactly when some entry is a scalar. */
  lemma {:induction false} EntriesRaise(items: seq<Json>, start: nat)
    ensures EntriesErrors(items, start).Err? <==> exists i :: 0 <= i < |items| && IsScalar(items[i])
  {
    if |items| > 0 {
      EntryRaises(items[0], start);
      EntriesRaise(items[1..], start + 1);
      if exists i :: 1 <= i < |items| && IsScalar(items[i]) {
        var i :| 1 <= i < |items| && IsScalar(items[i]);
        assert items[1..][i - 1] == items[i];
      }
      if exists i :: 0 <= i < |items[1..]| && IsScalar(items[1..][i]) {
        var i :| 0 <= i < |items[1..]| && IsScalar(items[1..][i]);
        assert items[i + 1] == items[1..][i];
      }
    }
  }

  /** Every message of entry `i` appears in the entries' messages, numbered `start + i`. */
  lemma {:induction false} EntriesContain(items: seq<Json>, start: nat, i: nat, x: string)
    requires i < |items|
    requires EntriesErrors(items, start).Ok?
    ensures EntryErrors(items[i], start + i).Ok?
    ensures x in EntryErrors(items[i], start + i).value ==> x in EntriesErrors(items, start).value
  {
    EntriesErrorsCons(items, start);
    var head, tail := EntryErrors(items[0], start).value, EntriesErrors(items[1..], start + 1).value;
    if i > 0 {
      assert items[1..][i - 1] == items[i];
      EntriesContain(items[1..], start + 1, i - 1, x);
      InTail(head, tail, x);
    } else {
      InHead(head, tail, x);
    }
  }

  /** A message of the first list is a message of the two lists together. */
  lemma InHead(head: seq<string>, tail: seq<string>, x: string)
    ensures x in head ==> x in head + tail
  {
  }

  /** A message of the second list is a message of the two lists together. */
  lemma InTail(head: seq<string>, tail: seq<string>, x: string)
    ensures x in tail ==> x in head + tail
  {
  }

  /** The entries' messages are the first entry's followed by the rest's. */
  lemma EntriesErrorsCons(items: seq<Json>, start: nat)
    requires |items| > 0 && EntriesErrors(items, start).Ok?
    ensures EntryErrors(items[0], start).Ok? && EntriesErrors(items[1..], start + 1).Ok?
    ensures EntriesErrors(items, start).value
         == EntryErrors(items[0], start).value + EntriesErrors(items[1..], start + 1).value
  {
  }

  /** A result entry whose `value` is `null` is rejected: `float(None)` raises TypeError,
      so the record is invalid with "results[i]: 'value' must be numeric". */
  lemma NullValueRejected(m: map<string, Json>, i: nat)
    requires "results" in m && m["results"].JList? && i < |m["results"].items|
    requires m["results"].items[i].JObj? && "value" in m["results"].items[i].fields
    requires m["results"].items[i].fields["value"] == JNull
    requires ValidateLabResult(JObj(m)).Ok?
    ensures EntryNumericMessage(i) in ValidateLabResult(JObj(m)).value.errors
    ensures !ValidateLabResult(JObj(m)).value.valid
  {
    var items := m["results"].items;
    EntryOfObject(items[i].fields, i, "value");
    EntriesContain(items, 0, i, EntryNumericMessage(i));
    assert ResultsErrors(JObj(m)) == EntriesErrors(items, 0);
  }

  // ---------------------------------------------------------------------------------------
  // Properties of the handler

  /** An invalid record is answered 400 with the messages joined by "; ", and nothing is
      stored or queued, whatever the writes would have done. */
  lemma HandlerRejectsInvalid(event: map<string, Json>, decode: string -> Result<Json>, now: DateTime,
                              dep: Deployment, outcomes: WriteOutcomes, data: Json)
    requires ParseBody(event, decode) == Ok(data)
    requires ValidateLabResult(data).Ok? && !ValidateLabResult(data).value.valid
    ensures LambdaHandler(event, decode, now, dep, outcomes)
         == HandlerResult(ErrorResponse(400, JoinErrors(ValidateLabResult(data).value.errors), now), None, None)
  {
  }

  /** A body that cannot be read or a record the validator raises on is answered 500 with
      "Internal server error: …", and nothing is written. */
  lemma HandlerInternalErrors(event: map<string, Json>, decode: string -> Result<Json>, now: DateTime,
                              dep: Deployment, outcomes: WriteOutcomes)
    requires ParseBody(event, decode).Err? || ValidateLabResult(ParseBody(event, decode).value).Err?
    ensures var h := LambdaHandler(event, decode, now, dep, outcomes);
      h.response.statusCode == 500 && h.stored.None? && h.sent.None?
      && h.response.body.fields["error"].JStr?
      && StartsWith(h.response.body.fields["error"].s, "Internal server error: ")
  {
  }

  /** A valid record with both writes succeeding: the object goes to the bucket under
      `ObjectKey`, the queued message points at that bucket and key and carries the same
      result id as the 202 response. */
  lemma HandlerAccepts(event: map<string, Json>, decode: string -> Result<Json>, now: DateTime,
                       dep: Deployment, messageId: string, m: map<string, Json>)
    requires ParseBody(event, decode) == Ok(JObj(m))
    requires ValidateLabResult(JObj(m)).Ok? && ValidateLabResult(JObj(m)).value.valid
    ensures var h := LambdaHandler(event, decode, now, dep, WriteOutcomes(None, Ok(messageId)));
      var id := GenerateResultId(m, now);
      var key := ObjectKey(now, id);
      h.response == SuccessResponse(id, messageId, key)
      && h.stored == Some(StoredObject(dep.bucket, key, JObj(StoredPayload(m, id, now, dep.environment)),
                                       StoredMetadata(m, id, now)))
      && h.sent == Some(QueueMessage(dep.queueUrl, QueueBody(key, id, m, now, dep), QueueAttributes(id, m)))
  {
  }

  /** The queued body names the bucket, the key and the result id it was given. */
  lemma QueueBodyPoints(key: string, resultId: string, fields: map<string, Json>, now: DateTime, dep: Deployment)
    ensures var b := QueueBody(key, resultId, fields, now, dep);
      b.JObj? && b.fields["s3_bucket"] == JStr(dep.bucket) && b.fields["s3_key"] == JStr(key)
      && b.fields["result_id"] == JStr(resultId)
  {
  }

  /** A failed `put_object` leaves nothing behind; a failed `send_message` after a stored
      object leaves that object without a message. Both answer 500. */
  lemma HandlerWriteFailures(event: map<string, Json>, decode: string -> Result<Json>, now: DateTime,
                             dep: Deployment, outcomes: WriteOutcomes, m: map<string, Json>)
    requires ParseBody(event, decode) == Ok(JObj(m))
    requires ValidateLabResult(JObj(m)).Ok? && ValidateLabResult(JObj(m)).value.valid
    requires outcomes.putError.Some? || outcomes.send.Err?
    ensures var h := LambdaHandler(event, decode, now, dep, outcomes);
      h.response.statusCode == 500 && h.sent.None?
      && (h.stored.Some? <==> outcomes.putError.None?)
  {
  }

  /** Keys of the gateway live under `incoming/json/`, then the date, and end in `.json`. */
  lemma ObjectKeyShape(now: DateTime, resultId: string)
    ensures StartsWith(ObjectKey(now, resultId), "incoming/json/")
    ensures ObjectKey(now, resultId) == "incoming/json/" + DatePath(now) + "/" + resultId + ".json"
  {
    SourceFormatLower();
    var key := ObjectKey(now, resultId);
    assert key[..14] == "incoming/json/";
  }

  lemma SourceFormatLower()
    ensures AsciiLower(SourceFormat) == "json"
  {
    var s := SourceFormat;
    assert s[1..] == "SON" && s[2..] == "ON" && s[3..] == "N" && s[4..] == "";
    assert AsciiLower("N") == "n";
    assert AsciiLower("ON") == "on";
    assert AsciiLower("SON") == "son";
  }

  /** The stored body keeps every submitted key except the five it adds, and records the
      result id, the environment and the payload provenance. */
  lemma StoredPayloadKeeps(fields: map<string, Json>, resultId: string, now: DateTime, environment: string)
    ensures var p := StoredPayload(fields, resultId, now, environment);
      p.Keys == fields.Keys + {"ingested_at", "result_id", "environment", "source_format", "payload_schema_version"}
      && p["result_id"] == JStr(resultId) && p["environment"] == JStr(environment)
      && p["source_format"] == JStr("JSON") && p["payload_schema_version"] == JStr("1.0")
      && (forall k :: k in fields && k !in {"ingested_at", "result_id", "environment", "source_format", "payload_schema_version"}
            ==> p[k] == fields[k])
  {
  }

  /** For string lab and patient ids the result id is `lab-patient-` followed by a
      twenty-digit timestamp. */
  lemma ResultIdShape(fields: map<string, Json>, now: DateTime, lab: string, patient: string)
    requires "lab_id" in fields && fields["lab_id"] == JStr(lab)
    requires "patient_id" in fields && fields["patient_id"] == JStr(patient)
    requires now.year <= 9999 && now.month <= 12 && now.day <= 31
    requires now.hour <= 23 && now.minute <= 59 && now.second <= 59 && now.micro <= 999999
    ensures var id := GenerateResultId(fields, now);
      StartsWith(id, lab + "-" + patient + "-")
      && |id| == |lab| + |patient| + 22
      && AllDigits(id[|lab| + |patient| + 2..])
  {
    CompactTimestampWidth(now);
    var id := GenerateResultId(fields, now);
    assert id == lab + "-" + patient + "-" + CompactTimestamp(now);
    assert id[|lab| + |patient| + 2..] == CompactTimestamp(now);
  }
}
