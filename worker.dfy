/** The queue worker (`LabResultsProcessor`): it polls the queue, downloads each referenced
    record from the bucket, checks it, stores it in three tables in one transaction, moves
    the object from `incoming/` to `processed/`, announces it and only then deletes the
    message. Bucket, queue, topic and database are in-memory state; every call to them takes
    its success or failure as a parameter. */
module Worker {
  import opened Wrappers
  import opened Text
  import opened Values
  import Ingest

  const MaxRetries: nat := 5
  /** Seconds slept between two connection attempts. */
  const RetryDelay: nat := 5
  const MaxMessages: nat := 10
  const ResultFields: seq<string> := ["test_code", "test_name", "value", "unit", "reference_range"]
  const IncomingPrefix := "incoming/"
  const ProcessedPrefix := "processed/"

  // ---------------------------------------------------------------------------------------
  // validate_lab_result: presence checks only

  /** `for field in fields: if field not in container: return False`; the membership test
      raises on `null`, booleans and numbers. */
  function AllPresent(container: Json, fields: seq<string>): (r: Result<bool>)
    ensures r.Err? <==> IsScalar(container) && |fields| > 0
    ensures container.JObj? ==> r == Ok(forall k :: 0 <= k < |fields| ==> fields[k] in container.fields)
    ensures r == Ok(true) <==> forall k :: 0 <= k < |fields| ==> Contains(container, fields[k]) == Some(true)
  {
    if |fields| == 0 then Ok(true)
    else
      match Contains(container, fields[0])
      case None => Err("argument of type '" + TypeName(container) + "' is not iterable")
      case Some(false) => Ok(false)
      case Some(true) =>
        var rest := AllPresent(container, fields[1..]);
        assert forall k :: 1 <= k < |fields| ==> fields[k] == fields[1..][k - 1];
        rest
  }

  /** The entries loop: the first entry lacking a field ends it with `False`. */
  function EntriesPresent(items: seq<Json>): (r: Result<bool>)
  {
    if |items| == 0 then Ok(true)
    else
      match AllPresent(items[0], ResultFields)
      case Err(e) => Err(e)
      case Ok(false) => Ok(false)
      case Ok(true) => EntriesPresent(items[1..])
  }

  /** `validate_lab_result`: the six keys, a non-empty `results` list, and the five fields
      in every entry; `Err` where Python raises (a scalar record or entry, or a string or
      list record that happens to contain every key). */
  function ValidateLabResult(data: Json): (r: Result<bool>)
  {
    match AllPresent(data, Ingest.RequiredFields)
    case Err(e) => Err(e)
    case Ok(false) => Ok(false)
    case Ok(true) =>
      match data
      case JObj(m) =>
        assert Ingest.RequiredFields[5] == "results";
        if !m["results"].JList? || |m["results"].items| == 0 then Ok(false)
        else EntriesPresent(m["results"].items)
      case JStr(_) => Err("string indices must be integers")
      case _ => Err("list indices must be integers or slices, not str")
  }

  /** What the worker accepts, stated on its own. */
  predicate HasResultFields(entry: Json) {
    entry.JObj? && forall k :: 0 <= k < |ResultFields| ==> ResultFields[k] in entry.fields
  }

  predicate WellFormed(m: map<string, Json>) {
    (forall k :: 0 <= k < |Ingest.RequiredFields| ==> Ingest.RequiredFields[k] in m)
    && "results" in m && m["results"].JList? && |m["results"].items| > 0
    && forall i :: 0 <= i < |m["results"].items| ==> HasResultFields(m["results"].items[i])
  }

  lemma {:induction false} EntriesPresentOfObjects(items: seq<Json>)
    requires forall i :: 0 <= i < |items| ==> items[i].JObj?
    ensures EntriesPresent(items) == Ok(forall i :: 0 <= i < |items| ==> HasResultFields(items[i]))
  {
    if |items| > 0 {
      EntriesPresentOfObjects(items[1..]);
      assert forall i :: 1 <= i < |items| ==> items[i] == items[1..][i - 1];
      assert AllPresent(items[0], ResultFields) == Ok(HasResultFields(items[0]));
    }
  }

  /** On an object whose entries are objects the worker never raises, and it accepts exactly
      the well-formed records. */
  lemma WorkerAcceptsWellFormed(m: map<string, Json>)
    requires "results" in m && m["results"].JList? ==>
             forall i :: 0 <= i < |m["results"].items| ==> m["results"].items[i].JObj?
    ensures ValidateLabResult(JObj(m)) == Ok(WellFormed(m))
  {
    var fs := Ingest.RequiredFields;
    assert AllPresent(JObj(m), fs) == Ok(forall k :: 0 <= k < |fs| ==> fs[k] in m);
    if (forall k :: 0 <= k < |fs| ==> fs[k] in m) {
      assert "results" == fs[5];
      var v := m["results"];
      if v.JList? && |v.items| > 0 {
        EntriesPresentOfObjects(v.items);
      }
    }
  }

  /** The worker checks presence only: replacing the value of any present key other than
      `results` never changes its verdict, so empty ids, any patient prefix and any date
      text pass. */
  lemma PresenceOnly(m: map<string, Json>, k: string, v: Json)
    requires k in m && k != "results"
    ensures ValidateLabResult(JObj(m[k := v])) == ValidateLabResult(JObj(m))
  {
    assert m[k := v].Keys == m.Keys;
  }

  // ---------------------------------------------------------------------------------------
  // Rows of the three tables

  datatype LabRow = LabRow(
    resultId: nat, patientId: Json, labId: Json, labName: Json, testType: Json, testDate: Json,
    physicianName: Json, physicianNpi: Json, status: string, s3RawKey: string, notes: Json,
    s3ProcessedKey: Option<string>)

  datatype TestRow = TestRow(
    resultId: nat, testCode: Json, testName: Json, value: Json, unit: Json, referenceRange: Json,
    isAbnormal: Json)

  datatype AuditRow = AuditRow(tableName: string, recordId: nat, eventType: string, userId: string, changes: Json)

  const CompletedStatus := "completed"

  /** `data.get("physician", {}).get(key)`: a present physician that is not an object has no
      `get`. */
  function PhysicianField(fields: map<string, Json>, key: string): (r: Result<Json>)
    ensures "physician" !in fields ==> r == Ok(JNull)
    ensures r.Ok? <==> "physician" !in fields || fields["physician"].JObj?
  {
    if "physician" !in fields then Ok(JNull)
    else match fields["physician"]
      case JObj(p) => Ok(Get(p, key, JNull))
      case other => Err("'" + TypeName(other) + "' object has no attribute 'get'")
  }

  /** The parameters of the `lab_results` insert; a missing key raises KeyError. */
  function LabRowOf(fields: map<string, Json>, key: string, id: nat): (r: Result<LabRow>)
    ensures r.Ok? ==> r.value.resultId == id && r.value.status == CompletedStatus && r.value.s3RawKey == key
                      && r.value.s3ProcessedKey.None?
  {
    if "patient_id" !in fields || "lab_id" !in fields || "lab_name" !in fields || "test_type" !in fields
       || "test_date" !in fields then Err("KeyError")
    else
      match (PhysicianField(fields, "name"), PhysicianField(fields, "npi"))
      case (Ok(name), Ok(npi)) =>
        Ok(LabRow(id, fields["patient_id"], fields["lab_id"], fields["lab_name"], fields["test_type"],
                  fields["test_date"], name, npi, CompletedStatus, key, Get(fields, "notes", JNull), None))
      case (Err(e), _) => Err(e)
      case (_, Err(e)) => Err(e)
  }

  lemma ResultFieldsListed(fs: map<string, Json>)
    ensures (forall k :: 0 <= k < |ResultFields| ==> ResultFields[k] in fs)
        <==> "test_code" in fs && "test_name" in fs && "value" in fs && "unit" in fs && "reference_range" in fs
  {
    var r := ResultFields;
    assert r[0] == "test_code" && r[1] == "test_name" && r[2] == "value" && r[3] == "unit" && r[4] == "reference_range";
  }

  /** The parameters of one `test_values` insert; `is_abnormal` defaults to false. */
  function TestRowOf(id: nat, entry: Json): (r: Result<TestRow>)
    ensures r.Ok? <==> HasResultFields(entry)
    ensures r.Ok? ==> r.value.resultId == id
  {
    match entry
    case JObj(t) =>
      ResultFieldsListed(t);
      if "test_code" in t && "test_name" in t && "value" in t && "unit" in t && "reference_range" in t then
        Ok(TestRow(id, t["test_code"], t["test_name"], t["value"], t["unit"], t["reference_range"],
                   Get(t, "is_abnormal", JBool(false))))
      else Err("KeyError")
    case _ => Err("TypeError")
  }

  /** A row copies the five listed fields of its entry; `is_abnormal` is copied when present
      and is false otherwise. */
  lemma TestRowFields(id: nat, entry: Json)
    ensures var r := TestRowOf(id, entry);
      r.Ok? ==>
      entry.JObj? && var t := entry.fields;
      "test_code" in t && "test_name" in t && "value" in t && "unit" in t && "reference_range" in t
      && r.value.testCode == t["test_code"] && r.value.testName == t["test_name"] && r.value.value == t["value"]
      && r.value.unit == t["unit"] && r.value.referenceRange == t["reference_range"]
      && r.value.isAbnormal == (if "is_abnormal" in t then t["is_abnormal"] else JBool(false))
  {
  }

  /** The rows of the entries, in order; the first malformed entry raises. */
  function TestRows(id: nat, items: seq<Json>): (r: Result<seq<TestRow>>)
    ensures r.Ok? ==> |r.value| == |items|
  {
    if |items| == 0 then Ok([])
    else
      match TestRows(id, items[..|items| - 1])
      case Err(e) => Err(e)
      case Ok(rows) =>
        match TestRowOf(id, items[|items| - 1])
        case Err(e) => Err(e)
        case Ok(row) => Ok(rows + [row])
  }

  lemma TestRowsSnoc(id: nat, items: seq<Json>, i: nat)
    requires i < |items|
    ensures TestRows(id, items[..i + 1]) ==
      match TestRows(id, items[..i])
      case Err(e) => Err(e)
      case Ok(rows) =>
        (match TestRowOf(id, items[i])
         case Err(e) => Err(e)
         case Ok(row) => Ok(rows + [row]))
  {
    assert items[..i + 1][..i] == items[..i];
  }

  /** One row per entry, in order, each pointing at the new result and carrying the entry's
      own values. */
  lemma {:induction false} TestRowsPerEntry(id: nat, items: seq<Json>)
    ensures TestRows(id, items).Ok? <==> forall i :: 0 <= i < |items| ==> HasResultFields(items[i])
    ensures TestRows(id, items).Ok? ==> forall i :: 0 <= i < |items| ==> TestRows(id, items).value[i] == TestRowOf(id, items[i]).value
  {
    if |items| > 0 {
      var init := items[..|items| - 1];
      TestRowsPerEntry(id, init);
      assert forall i :: 0 <= i < |init| ==> init[i] == items[i];
    }
  }

  function AuditRowOf(id: nat): AuditRow {
    AuditRow("lab_results", id, "INSERT", "worker", JObj(map["source" := JStr("sqs_processor")]))
  }

  datatype StorePlan = StorePlan(row: LabRow, tests: seq<TestRow>, audit: AuditRow)

  /** Everything `store_lab_result` inserts for `data` under a new id, or the exception its
      parameters raise. */
  function PlanStore(data: Json, key: string, id: nat): (r: Result<StorePlan>)
    ensures r.Ok? ==> r.value.row.resultId == id && r.value.audit.recordId == id
                      && forall i :: 0 <= i < |r.value.tests| ==> r.value.tests[i].resultId == id
  {
    match data
    case JObj(fields) =>
      (match LabRowOf(fields, key, id)
       case Err(e) => Err(e)
       case Ok(row) =>
         if "results" !in fields || !fields["results"].JList? then Err("TypeError")
         else
           match TestRows(id, fields["results"].items)
           case Err(e) => Err(e)
           case Ok(tests) =>
             TestRowsPerEntry(id, fields["results"].items);
             Ok(StorePlan(row, tests, AuditRowOf(id))))
    case _ => Err("TypeError")
  }

  /** The plan of an object record, step by step. */
  lemma PlanStoreOfObject(fields: map<string, Json>, key: string, id: nat)
    ensures PlanStore(JObj(fields), key, id).Ok? <==>
      LabRowOf(fields, key, id).Ok? && "results" in fields && fields["results"].JList?
      && TestRows(id, fields["results"].items).Ok?
    ensures PlanStore(JObj(fields), key, id).Ok? ==>
      PlanStore(JObj(fields), key, id).value
        == StorePlan(LabRowOf(fields, key, id).value, TestRows(id, fields["results"].items).value, AuditRowOf(id))
  {
  }

  /** Whether an object record stores, and what it stores, in terms of its parts. */
  lemma StoreOfObject(fields: map<string, Json>, key: string, id: nat, failAt: Option<nat>)
    ensures PlanStore(JObj(fields), key, id).Ok? && StatementsCommit(JObj(fields), failAt) <==>
      LabRowOf(fields, key, id).Ok? && failAt != Some(0) && "results" in fields && fields["results"].JList?
      && TestRows(id, fields["results"].items).Ok?
      && (failAt.None? || failAt.value >= |fields["results"].items| + 3)
    ensures PlanStore(JObj(fields), key, id).Ok? ==>
      PlanStore(JObj(fields), key, id).value
        == StorePlan(LabRowOf(fields, key, id).value, TestRows(id, fields["results"].items).value, AuditRowOf(id))
  {
    PlanStoreOfObject(fields, key, id);
  }

  lemma {:induction false} EntriesPresentTrue(items: seq<Json>)
    requires EntriesPresent(items) == Ok(true)
    ensures forall i :: 0 <= i < |items| ==> items[i].JObj? ==> HasResultFields(items[i])
  {
    if |items| > 0 {
      EntriesPresentTrue(items[1..]);
      assert forall i :: 1 <= i < |items| ==> items[i] == items[1..][i - 1];
    }
  }

  /** A record the worker accepts can still fail to store: the store needs every entry to be
      an object and `physician`, when present, to be an object, which the check does not ask. */
  lemma AcceptedRecordStores(m: map<string, Json>, key: string, id: nat)
    requires ValidateLabResult(JObj(m)) == Ok(true)
    ensures "results" in m && m["results"].JList?
    ensures PlanStore(JObj(m), key, id).Ok? <==>
      ("physician" !in m || m["physician"].JObj?)
      && forall i :: 0 <= i < |m["results"].items| ==> m["results"].items[i].JObj?
  {
    var fs := Ingest.RequiredFields;
    assert AllPresent(JObj(m), fs) == Ok(true);
    assert forall k :: 0 <= k < |fs| ==> fs[k] in m;
    assert fs[0] in m && fs[1] in m && fs[2] in m && fs[3] in m && fs[4] in m && fs[5] in m;
    var items := m["results"].items;
    EntriesPresentTrue(items);
    PlanStoreOfObject(m, key, id);
    TestRowsPerEntry(id, items);
  }

  /** The number of statements a store runs: the parent insert, one per entry, the audit
      insert and the commit. */
  function StatementCount(data: Json): nat {
    if data.JObj? && "results" in data.fields && data.fields["results"].JList? then |data.fields["results"].items| + 3
    else 3
  }

  // ---------------------------------------------------------------------------------------
  // Connecting

  /** Whether connection attempt `i` succeeds; attempts past the given outcomes fail. */
  predicate Attempt(outcomes: seq<bool>, i: nat) {
    i < |outcomes| && outcomes[i]
  }

  /** The attempts one call of `connect_database` makes, counting from attempt `i`. */
  function AttemptsFrom(outcomes: seq<bool>, i: nat): nat
    decreases MaxRetries - i
  {
    if i >= MaxRetries then MaxRetries
    else if Attempt(outcomes, i) then i + 1
    else AttemptsFrom(outcomes, i + 1)
  }

  predicate RoundSucceeds(outcomes: seq<bool>) {
    exists i :: 0 <= i < MaxRetries && Attempt(outcomes, i)
  }

  /** One round makes between one and five attempts, stops at the first success, and uses
      all five exactly when none of them succeeds. */
  lemma {:induction false} AttemptsBounds(outcomes: seq<bool>, i: nat)
    requires i <= MaxRetries
    ensures i < AttemptsFrom(outcomes, i) || i == MaxRetries
    ensures AttemptsFrom(outcomes, i) <= MaxRetries
    ensures forall j :: i <= j < AttemptsFrom(outcomes, i) - 1 ==> !Attempt(outcomes, j)
    decreases MaxRetries - i
  {
    if i < MaxRetries && !Attempt(outcomes, i) {
      AttemptsBounds(outcomes, i + 1);
    }
  }

  function Drop(outcomes: seq<bool>, n: nat): seq<bool> {
    if n <= |outcomes| then outcomes[n..] else []
  }

  /** `ensure_database_connection`: a live connection that answers `SELECT 1` is kept; a live
      one that does not gets one round of attempts (the round's exception escapes); a missing
      one gets a round inside the `try` and, when that round raises, a second round in the
      handler. */
  predicate ConnectionUsable(connected: bool, ping: bool, outcomes: seq<bool>) {
    if connected && ping then true
    else if connected then RoundSucceeds(outcomes)
    else RoundSucceeds(outcomes) || RoundSucceeds(Drop(outcomes, MaxRetries))
  }

  // ---------------------------------------------------------------------------------------
  // Bucket keys

  /** `s3_key.replace("incoming/", "processed/", 1)`. */
  function ProcessedKey(key: string): string {
    ReplaceFirst(key, IncomingPrefix, ProcessedPrefix)
  }

  /** A key under `incoming/` moves to the same path under `processed/`. */
  lemma ProcessedKeyOfIncoming(key: string)
    requires StartsWith(key, IncomingPrefix)
    ensures ProcessedKey(key) == ProcessedPrefix + key[|IncomingPrefix|..]
    ensures ProcessedKey(key) != key
  {
    ReplaceFirstOfPrefix(key, IncomingPrefix, ProcessedPrefix);
    assert ProcessedKey(key)[0] == 'p' && key[0] == 'i';
  }

  /** Only the first `incoming/` is rewritten: a later one stays. */
  lemma OnlyFirstOccurrence(rest: string)
    ensures ProcessedKey(IncomingPrefix + rest) == ProcessedPrefix + rest
  {
    var key := IncomingPrefix + rest;
    assert key[..|IncomingPrefix|] == IncomingPrefix;
    ProcessedKeyOfIncoming(key);
    assert key[|IncomingPrefix|..] == rest;
  }

  /** A key without `incoming/` is left as it is, so the copy lands on the object itself. */
  lemma ProcessedKeyWithoutIncoming(key: string)
    requires !IsSubstring(IncomingPrefix, key)
    ensures ProcessedKey(key) == key
  {
  }

  // ---------------------------------------------------------------------------------------
  // Reading a message and moving an object

  datatype Message = Message(receiptHandle: string, body: string)

  /** `download_from_s3`: the object's text decoded as JSON, `None` when the read fails, the
      key is absent or the text is not JSON. */
  function DownloadFromS3(objects: map<string, string>, key: string, getOk: bool,
                          decode: string -> Result<Json>): (r: Option<Json>)
    ensures r.Some? <==> getOk && key in objects && decode(objects[key]).Ok?
    ensures r.Some? ==> decode(objects[key]) == Ok(r.value)
  {
    if !getOk || key !in objects then None
    else match decode(objects[key])
      case Ok(v) => Some(v)
      case Err(_) => None
  }

  /** What `process_message` works on once the message has been read, the object downloaded
      and the record checked. */
  datatype Job = Job(key: string, patientId: Json, data: Json)

  /** The steps before the store: the body must decode to an object with a string `s3_key`
      and a `patient_id`, the download must give a truthy value, and the worker must accept
      it; any other outcome ends the message with `False`. */
  function ReadJob(msg: Message, decode: string -> Result<Json>, objects: map<string, string>, getOk: bool)
    : (r: Result<Job>)
    ensures r.Ok? ==> r.value.key in objects && ValidateLabResult(r.value.data) == Ok(true)
  {
    match decode(msg.body)
    case Err(e) => Err(e)
    case Ok(body) =>
      if !body.JObj? || "s3_key" !in body.fields || "patient_id" !in body.fields || !body.fields["s3_key"].JStr? then
        Err("malformed message body")
      else
        var key := body.fields["s3_key"].s;
        match DownloadFromS3(objects, key, getOk, decode)
        case None => Err("Failed to download data from S3")
        case Some(data) =>
          if !Truthy(data) then Err("Failed to download data from S3")
          else if ValidateLabResult(data) != Ok(true) then Err("Lab result validation failed")
          else Ok(Job(key, body.fields["patient_id"], data))
  }

  /** `move_to_processed` on the bucket: copy to the processed key, then delete the original;
      the new bucket and the key returned (`None` when either call fails). */
  function Relocate(objects: map<string, string>, key: string, copyOk: bool, deleteOk: bool)
    : (map<string, string>, Option<string>)
  {
    var target := ProcessedKey(key);
    if key !in objects || !copyOk then (objects, None)
    else if !deleteOk then (objects[target := objects[key]], None)
    else (objects[target := objects[key]] - {key}, Some(target))
  }

  /** A relocated `incoming/` object keeps its content under the processed key, the original
      is gone and no other object changes; when the delete fails both copies remain. */
  lemma RelocationMovesContent(objects: map<string, string>, key: string, copyOk: bool, deleteOk: bool)
    requires key in objects && StartsWith(key, IncomingPrefix)
    ensures var (after, moved) := Relocate(objects, key, copyOk, deleteOk);
      var target := ProcessedKey(key);
      (moved.Some? <==> copyOk && deleteOk)
      && (moved.Some? ==> moved.value == target && key !in after && after[target] == objects[key])
      && (copyOk && !deleteOk ==> key in after && after[key] == objects[key] && after[target] == objects[key])
      && (forall k :: k in objects && k != key && k != target ==> k in after && after[k] == objects[k])
      && (forall k :: k in after ==> k in objects || k == target)
  {
    ProcessedKeyOfIncoming(key);
  }

  /** A key without `incoming/` is copied onto itself and then deleted: after a "successful"
      relocation the record is no longer in the bucket. */
  lemma RelocationWithoutIncomingLosesObject(objects: map<string, string>, key: string)
    requires key in objects && !IsSubstring(IncomingPrefix, key)
    ensures Relocate(objects, key, true, true) == (objects - {key}, Some(key))
  {
    ProcessedKeyWithoutIncoming(key);
    assert objects[key := objects[key]] == objects;
  }

  // ---------------------------------------------------------------------------------------
  // The database tables

  /** The result ids in use. */
  function Ids(rows: seq<LabRow>): set<nat> {
    if |rows| == 0 then {} else Ids(rows[..|rows| - 1]) + {rows[|rows| - 1].resultId}
  }

  lemma IdsAppend(rows: seq<LabRow>, row: LabRow)
    ensures Ids(rows + [row]) == Ids(rows) + {row.resultId}
  {
    assert (rows + [row])[..|rows|] == rows;
  }

  /** Result ids are positive and strictly increase along `rows`, all of them below `bound`. */
  predicate Ascending(rows: seq<LabRow>, bound: nat) {
    if |rows| == 0 then true
    else
      var last := rows[|rows| - 1].resultId;
      1 <= last < bound && Ascending(rows[..|rows| - 1], last)
  }

  /** Every test value refers to one of `ids`. */
  predicate TestsReferTo(tests: seq<TestRow>, ids: set<nat>) {
    |tests| == 0 || (tests[|tests| - 1].resultId in ids && TestsReferTo(tests[..|tests| - 1], ids))
  }

  /** Every audit row refers to one of `ids`. */
  predicate AuditsReferTo(audits: seq<AuditRow>, ids: set<nat>) {
    |audits| == 0 || (audits[|audits| - 1].recordId in ids && AuditsReferTo(audits[..|audits| - 1], ids))
  }

  /** The tables' integrity: result ids are positive, strictly increasing in insertion order
      and below the next id the sequence hands out, and every test value and audit row refers
      to an existing result. */
  predicate TablesConsistent(rows: seq<LabRow>, tests: seq<TestRow>, audits: seq<AuditRow>, nextId: nat) {
    nextId >= 1 && Ascending(rows, nextId) && TestsReferTo(tests, Ids(rows)) && AuditsReferTo(audits, Ids(rows))
  }

  lemma {:induction false} AscendingMeans(rows: seq<LabRow>, bound: nat)
    ensures Ascending(rows, bound) <==>
      (forall i :: 0 <= i < |rows| ==> 1 <= rows[i].resultId < bound)
      && (forall i, j :: 0 <= i < j < |rows| ==> rows[i].resultId < rows[j].resultId)
  {
    if |rows| > 0 {
      var init := rows[..|rows| - 1];
      AscendingMeans(init, rows[|rows| - 1].resultId);
      assert forall i :: 0 <= i < |init| ==> init[i] == rows[i];
    }
  }

  lemma {:induction false} TestsReferToMeans(tests: seq<TestRow>, ids: set<nat>)
    ensures TestsReferTo(tests, ids) <==> forall t :: t in tests ==> t.resultId in ids
  {
    if |tests| > 0 {
      var init := tests[..|tests| - 1];
      TestsReferToMeans(init, ids);
      assert tests == init + [tests[|tests| - 1]];
    }
  }

  lemma {:induction false} AuditsReferToMeans(audits: seq<AuditRow>, ids: set<nat>)
    ensures AuditsReferTo(audits, ids) <==> forall a :: a in audits ==> a.recordId in ids
  {
    if |audits| > 0 {
      var init := audits[..|audits| - 1];
      AuditsReferToMeans(init, ids);
      assert audits == init + [audits[|audits| - 1]];
    }
  }

  /** The integrity of the tables, stated element by element. */
  lemma TablesConsistentMeans(rows: seq<LabRow>, tests: seq<TestRow>, audits: seq<AuditRow>, nextId: nat)
    ensures TablesConsistent(rows, tests, audits, nextId) <==>
      nextId >= 1
      && (forall i :: 0 <= i < |rows| ==> 1 <= rows[i].resultId < nextId)
      && (forall i, j :: 0 <= i < j < |rows| ==> rows[i].resultId < rows[j].resultId)
      && (forall t :: t in tests ==> t.resultId in Ids(rows))
      && (forall a :: a in audits ==> a.recordId in Ids(rows))
  {
    AscendingMeans(rows, nextId);
    TestsReferToMeans(tests, Ids(rows));
    AuditsReferToMeans(audits, Ids(rows));
  }

  /** Committing a planned store under the next id keeps the tables consistent and moves the
      sequence on. */
  lemma CommitKeepsConsistent(rows: seq<LabRow>, tests: seq<TestRow>, audits: seq<AuditRow>, nextId: nat,
                              plan: StorePlan)
    requires TablesConsistent(rows, tests, audits, nextId)
    requires plan.row.resultId == nextId && plan.audit.recordId == nextId
    requires forall i :: 0 <= i < |plan.tests| ==> plan.tests[i].resultId == nextId
    ensures TablesConsistent(rows + [plan.row], tests + plan.tests, audits + [plan.audit], nextId + 1)
  {
    var rows' := rows + [plan.row];
    assert rows'[..|rows|] == rows;
    IdsAppend(rows, plan.row);
    TestsReferToMeans(tests, Ids(rows));
    TestsReferToMeans(tests + plan.tests, Ids(rows'));
    AuditsReferToMeans(audits, Ids(rows));
    AuditsReferToMeans(audits + [plan.audit], Ids(rows'));
    forall t | t in tests + plan.tests ensures t.resultId in Ids(rows') {
      if t !in tests {
        var i :| 0 <= i < |plan.tests| && plan.tests[i] == t;
      }
    }
  }

  /** The sequence handing out a value no row uses keeps the tables consistent. */
  lemma SequenceMovesOn(rows: seq<LabRow>, tests: seq<TestRow>, audits: seq<AuditRow>, nextId: nat)
    requires TablesConsistent(rows, tests, audits, nextId)
    ensures TablesConsistent(rows, tests, audits, nextId + 1)
  {
  }

  /** `UPDATE lab_results SET s3_processed_key = … WHERE result_id = …`. */
  function SetProcessedKey(rows: seq<LabRow>, id: nat, key: string): (r: seq<LabRow>)
    ensures |r| == |rows|
    ensures forall i :: 0 <= i < |rows| ==> r[i].resultId == rows[i].resultId
    ensures forall i :: 0 <= i < |rows| ==>
      r[i] == if rows[i].resultId == id then rows[i].(s3ProcessedKey := Some(key)) else rows[i]
  {
    seq(|rows|, i requires 0 <= i < |rows| =>
      if rows[i].resultId == id then rows[i].(s3ProcessedKey := Some(key)) else rows[i])
  }

  /** Recording the processed key changes no id, so the tables stay consistent. */
  lemma SetProcessedKeyKeeps(rows: seq<LabRow>, tests: seq<TestRow>, audits: seq<AuditRow>, nextId: nat,
                             id: nat, key: string)
    requires TablesConsistent(rows, tests, audits, nextId)
    ensures TablesConsistent(SetProcessedKey(rows, id, key), tests, audits, nextId)
  {
    SameIds(rows, SetProcessedKey(rows, id, key), nextId);
  }

  /** Ids and their order are all the integrity looks at in `lab_results`. */
  lemma {:induction false} SameIds(a: seq<LabRow>, b: seq<LabRow>, bound: nat)
    requires |a| == |b| && forall i :: 0 <= i < |a| ==> a[i].resultId == b[i].resultId
    ensures Ids(a) == Ids(b)
    ensures Ascending(a, bound) == Ascending(b, bound)
  {
    if |a| > 0 {
      SameIds(a[..|a| - 1], b[..|b| - 1], a[|a| - 1].resultId);
    }
  }

  /** The number of statements of a store that succeed before `failAt`, if any, fails. */
  predicate StatementsCommit(data: Json, failAt: Option<nat>) {
    failAt.None? || failAt.value >= StatementCount(data)
  }

  /** What the database calls of one store do: whether the open connection answers, the
      outcomes of the connection attempts, and the statement (0 the parent insert, then one
      per entry, the audit insert, the commit) that fails, if one does. */
  datatype StoreOutcomes = StoreOutcomes(ping: bool, attempts: seq<bool>, failAt: Option<nat>)

  /** `store_lab_result` returns an id exactly when the connection is usable, the record's
      parameters can be built and no statement fails. */
  predicate Stores(connected: bool, out: StoreOutcomes, data: Json, key: string, id: nat) {
    ConnectionUsable(connected, out.ping, out.attempts) && PlanStore(data, key, id).Ok?
    && StatementsCommit(data, out.failAt)
  }

  // ---------------------------------------------------------------------------------------
  // The processor

  datatype Notification = Notification(resultId: nat, patientId: Json)

  /** The order of events that matters for shutdown: a signal, or the start of a message. */
  datatype Event = Signalled | Started(receiptHandle: string)

  /** No message starts after a shutdown signal. */
  predicate NoStartAfterSignal(trace: seq<Event>) {
    forall i, j :: 0 <= i < j < |trace| && trace[i].Signalled? ==> !trace[j].Started?
  }

  /** The outcomes of every external call one message makes. */
  datatype MessageOutcomes = MessageOutcomes(
    getOk: bool, store: StoreOutcomes, copyOk: bool, deleteObjectOk: bool, updateOk: bool,
    publishOk: bool, ackOk: bool)

  /** One pass of the main loop: whether the poll succeeds, the outcomes of the messages it
      returns (a message without outcomes fails to download) and where a signal arrives: just
      before the shutdown check of message `k`, or after the batch when `k` is past its end. */
  datatype Round = Round(pollOk: bool, outcomes: seq<MessageOutcomes>, signalAt: Option<nat>)

  const DownloadFails := MessageOutcomes(false, StoreOutcomes(false, [], Some(0)), false, false, false, false, false)

  /** The queue without the messages of one receipt. */
  function Without(queue: seq<Message>, receipt: string): (r: seq<Message>)
    ensures forall m :: m in r <==> m in queue && m.receiptHandle != receipt
  {
    if |queue| == 0 then []
    else (if queue[0].receiptHandle == receipt then [] else [queue[0]]) + Without(queue[1..], receipt)
  }

  class LabResultsProcessor {
    /** The bucket: object key to object text. */
    var objects: map<string, string>
    /** The queue's messages, oldest first. */
    var queue: seq<Message>
    var deleted: set<string>
    var snsConfigured: bool
    var notifications: seq<Notification>
    var connected: bool
    /** Committed rows of `lab_results`, `test_values` and `audit_log`. */
    var labResults: seq<LabRow>
    var testValues: seq<TestRow>
    var auditLog: seq<AuditRow>
    /** Rows inserted by the open transaction. */
    var pendingResults: seq<LabRow>
    var pendingTests: seq<TestRow>
    var pendingAudit: seq<AuditRow>
    /** The next value of the `result_id` sequence; a rolled-back insert does not return it. */
    var nextId: nat
    var shutdownFlag: bool
    /** The signals and message starts so far, in order. */
    ghost var trace: seq<Event>

    /** Between calls no transaction is open, the tables are consistent and the flag is set
        exactly when a signal has arrived. */
    ghost predicate Valid()
      reads this`pendingResults, this`pendingTests, this`pendingAudit, this`labResults, this`testValues,
            this`auditLog, this`nextId, this`shutdownFlag, this`trace
    {
      pendingResults == [] && pendingTests == [] && pendingAudit == []
      && TablesConsistent(labResults, testValues, auditLog, nextId)
      && (shutdownFlag <==> Signalled in trace)
    }

    /** `__init__`: empty tables, no signal yet, and a first connection round. */
    constructor(objects0: map<string, string>, queue0: seq<Message>, snsConfigured0: bool, attempts: seq<bool>)
      ensures Valid()
      ensures objects == objects0 && queue == queue0 && deleted == {} && snsConfigured == snsConfigured0
      ensures notifications == [] && labResults == [] && testValues == [] && auditLog == [] && trace == []
      ensures connected <==> RoundSucceeds(attempts)
    {
      objects, queue, deleted, snsConfigured := objects0, queue0, {}, snsConfigured0;
      notifications, labResults, testValues, auditLog := [], [], [], [];
      pendingResults, pendingTests, pendingAudit := [], [], [];
      nextId, shutdownFlag, trace, connected := 1, false, [], false;
      new;
      var _, _, _ := ConnectDatabase(attempts);
    }

    /** `connect_database`: up to five attempts, a pause after each failed one but the last,
        the last failure re-raised (here: `ok` false). */
    method ConnectDatabase(attempts: seq<bool>) returns (ok: bool, tries: nat, sleeps: nat)
      modifies this`connected
      ensures ok <==> RoundSucceeds(attempts)
      ensures tries == AttemptsFrom(attempts, 0) && 1 <= tries <= MaxRetries && sleeps == tries - 1
      ensures forall j :: 0 <= j < tries - 1 ==> !Attempt(attempts, j)
      ensures connected == ok
    {
      var attempt := 0;
      ok, tries, sleeps := false, 0, 0;
      while attempt < MaxRetries && !ok
        invariant 0 <= attempt <= MaxRetries && tries == attempt
        invariant ok ==> 1 <= attempt && Attempt(attempts, attempt - 1) && AttemptsFrom(attempts, 0) == attempt
        invariant ok ==> sleeps == attempt - 1
        invariant !ok ==> sleeps == (if attempt == MaxRetries then MaxRetries - 1 else attempt)
        invariant forall j :: 0 <= j < attempt - 1 ==> !Attempt(attempts, j)
        invariant !ok ==> (forall j :: 0 <= j < attempt ==> !Attempt(attempts, j))
                          && AttemptsFrom(attempts, 0) == AttemptsFrom(attempts, attempt)
      {
        tries := tries + 1;
        if Attempt(attempts, attempt) {
          ok := true;
        } else if attempt < MaxRetries - 1 {
          sleeps := sleeps + 1;
        }
        attempt := attempt + 1;
      }
      connected := ok;
    }

    /** `ensure_database_connection`. */
    method EnsureDatabaseConnection(ping: bool, attempts: seq<bool>) returns (ok: bool)
      modifies this`connected
      ensures ok <==> ConnectionUsable(old(connected), ping, attempts)
      ensures connected == ok
    {
      if connected && ping {
        ok := true;
      } else if connected {
        var tries, sleeps;
        ok, tries, sleeps := ConnectDatabase(attempts);
      } else {
        var tries, sleeps;
        ok, tries, sleeps := ConnectDatabase(attempts);
        if !ok {
          ok, tries, sleeps := ConnectDatabase(Drop(attempts, MaxRetries));
        }
      }
    }

    method Rollback()
      modifies this`pendingResults, this`pendingTests, this`pendingAudit
      ensures pendingResults == [] && pendingTests == [] && pendingAudit == []
    {
      pendingResults, pendingTests, pendingAudit := [], [], [];
    }

    method Commit()
      modifies this`pendingResults, this`pendingTests, this`pendingAudit, this`labResults, this`testValues,
               this`auditLog
      ensures labResults == old(labResults) + old(pendingResults)
      ensures testValues == old(testValues) + old(pendingTests)
      ensures auditLog == old(auditLog) + old(pendingAudit)
      ensures pendingResults == [] && pendingTests == [] && pendingAudit == []
    {
      labResults, testValues, auditLog := labResults + pendingResults, testValues + pendingTests, auditLog + pendingAudit;
      pendingResults, pendingTests, pendingAudit := [], [], [];
    }

    /** `store_lab_result`: the parent row, one row per entry and the audit row in one
        transaction, committed together or rolled back together. */
    method StoreLabResult(data: Json, key: string, out: StoreOutcomes) returns (id: Option<nat>)
      requires Valid()
      modifies this`connected, this`labResults, this`testValues, this`auditLog, this`pendingResults,
               this`pendingTests, this`pendingAudit, this`nextId
      ensures Valid()
      ensures id.Some? <==> Stores(old(connected), out, data, key, old(nextId))
      ensures id.Some? ==>
        var plan := PlanStore(data, key, old(nextId)).value;
        id.value == old(nextId) && labResults == old(labResults) + [plan.row]
        && testValues == old(testValues) + plan.tests && auditLog == old(auditLog) + [plan.audit]
      ensures id.None? ==> labResults == old(labResults) && testValues == old(testValues) && auditLog == old(auditLog)
    {
      var usable := EnsureDatabaseConnection(out.ping, out.attempts);
      if !usable {
        Rollback();
        return None;
      }
      id := InsertRecord(data, key, out.failAt);
    }

    /** The statements of one store on a usable connection, then the commit; any failure
        rolls the transaction back. */
    method InsertRecord(data: Json, key: string, failAt: Option<nat>) returns (id: Option<nat>)
      requires Valid()
      modifies this`labResults, this`testValues, this`auditLog, this`pendingResults, this`pendingTests,
               this`pendingAudit, this`nextId
      ensures Valid()
      ensures id.Some? <==> PlanStore(data, key, old(nextId)).Ok? && StatementsCommit(data, failAt)
      ensures id.Some? ==>
        var plan := PlanStore(data, key, old(nextId)).value;
        id.value == old(nextId) && labResults == old(labResults) + [plan.row]
        && testValues == old(testValues) + plan.tests && auditLog == old(auditLog) + [plan.audit]
      ensures id.None? ==> labResults == old(labResults) && testValues == old(testValues) && auditLog == old(auditLog)
    {
      if !data.JObj? {
        Rollback();
        return None;
      }
      StoreOfObject(data.fields, key, nextId, failAt);
      id := InsertObject(data.fields, key, failAt);
    }

    /** The store of an object record: the parent row, then the details. */
    method InsertObject(fields: map<string, Json>, key: string, failAt: Option<nat>) returns (id: Option<nat>)
      requires Valid()
      modifies this`labResults, this`testValues, this`auditLog, this`pendingResults, this`pendingTests,
               this`pendingAudit, this`nextId
      ensures Valid()
      ensures id.Some? <==>
        LabRowOf(fields, key, old(nextId)).Ok? && failAt != Some(0)
        && "results" in fields && fields["results"].JList?
        && TestRows(old(nextId), fields["results"].items).Ok?
        && (failAt.None? || failAt.value >= |fields["results"].items| + 3)
      ensures id.Some? ==>
        id.value == old(nextId) && labResults == old(labResults) + [LabRowOf(fields, key, old(nextId)).value]
        && testValues == old(testValues) + TestRows(old(nextId), fields["results"].items).value
        && auditLog == old(auditLog) + [AuditRowOf(old(nextId))]
      ensures id.None? ==> labResults == old(labResults) && testValues == old(testValues) && auditLog == old(auditLog)
    {
      var row := LabRowOf(fields, key, nextId);
      if row.Err? || failAt == Some(0) {
        Rollback();
        return None;
      }
      pendingResults := pendingResults + [row.value];
      nextId := nextId + 1;
      id := InsertDetails(fields, row.value, failAt);
    }

    /** The rest of a store once the parent row is pending: the `test_values` rows, the audit
        row, then the commit; any failure rolls all of them back. */
    method InsertDetails(fields: map<string, Json>, row: LabRow, failAt: Option<nat>) returns (id: Option<nat>)
      requires pendingResults == [row] && pendingTests == [] && pendingAudit == []
      requires TablesConsistent(labResults, testValues, auditLog, row.resultId) && nextId == row.resultId + 1
      requires failAt != Some(0)
      modifies this`labResults, this`testValues, this`auditLog, this`pendingResults, this`pendingTests,
               this`pendingAudit
      ensures pendingResults == [] && pendingTests == [] && pendingAudit == []
      ensures TablesConsistent(labResults, testValues, auditLog, nextId)
      ensures id.Some? <==> "results" in fields && fields["results"].JList?
                            && TestRows(row.resultId, fields["results"].items).Ok?
                            && (failAt.None? || failAt.value >= |fields["results"].items| + 3)
      ensures id.Some? ==>
        id.value == row.resultId && labResults == old(labResults) + [row]
        && testValues == old(testValues) + TestRows(row.resultId, fields["results"].items).value
        && auditLog == old(auditLog) + [AuditRowOf(row.resultId)]
      ensures id.None? ==> labResults == old(labResults) && testValues == old(testValues) && auditLog == old(auditLog)
    {
      var rid := row.resultId;
      if "results" !in fields || !fields["results"].JList? {
        SequenceMovesOn(labResults, testValues, auditLog, rid);
        Rollback();
        return None;
      }
      var items := fields["results"].items;
      var inserted := InsertTestValues(rid, items, failAt);
      if !inserted {
        SequenceMovesOn(labResults, testValues, auditLog, rid);
        Rollback();
        return None;
      }
      TestRowsPerEntry(rid, items);
      id := FinishStore(row, |items|, failAt);
    }

    /** The audit row and the commit, once the parent row and its `test_values` rows (the
        statements before the audit insert number `statements`) are pending. */
    method FinishStore(row: LabRow, entries: nat, failAt: Option<nat>) returns (id: Option<nat>)
      requires pendingResults == [row] && pendingAudit == []
      requires forall i :: 0 <= i < |pendingTests| ==> pendingTests[i].resultId == row.resultId
      requires TablesConsistent(labResults, testValues, auditLog, row.resultId) && nextId == row.resultId + 1
      modifies this`labResults, this`testValues, this`auditLog, this`pendingResults, this`pendingTests,
               this`pendingAudit
      ensures pendingResults == [] && pendingTests == [] && pendingAudit == []
      ensures TablesConsistent(labResults, testValues, auditLog, nextId)
      ensures id.Some? <==> failAt != Some(entries + 1) && failAt != Some(entries + 2)
      ensures id.Some? ==>
        id.value == row.resultId && labResults == old(labResults) + [row]
        && testValues == old(testValues) + old(pendingTests) && auditLog == old(auditLog) + [AuditRowOf(row.resultId)]
      ensures id.None? ==> labResults == old(labResults) && testValues == old(testValues) && auditLog == old(auditLog)
    {
      var rid := row.resultId;
      if failAt == Some(entries + 1) {
        SequenceMovesOn(labResults, testValues, auditLog, rid);
        Rollback();
        return None;
      }
      pendingAudit := pendingAudit + [AuditRowOf(rid)];
      if failAt == Some(entries + 2) {
        SequenceMovesOn(labResults, testValues, auditLog, rid);
        Rollback();
        return None;
      }
      CommitKeepsConsistent(labResults, testValues, auditLog, rid, StorePlan(row, pendingTests, AuditRowOf(rid)));
      Commit();
      id := Some(rid);
    }

    /** The `test_values` inserts of one store, in entry order; the first malformed entry or
        failing statement (numbered from 1) stops them. */
    method InsertTestValues(rid: nat, items: seq<Json>, failAt: Option<nat>) returns (ok: bool)
      requires pendingTests == []
      modifies this`pendingTests
      ensures ok <==> TestRows(rid, items).Ok? && (failAt.None? || failAt.value == 0 || failAt.value > |items|)
      ensures ok ==> pendingTests == TestRows(rid, items).value
    {
      TestRowsPerEntry(rid, items);
      var i := 0;
      while i < |items|
        invariant 0 <= i <= |items|
        invariant TestRows(rid, items[..i]).Ok? && pendingTests == TestRows(rid, items[..i]).value
        invariant failAt.None? || failAt.value == 0 || failAt.value > i
      {
        TestRowsSnoc(rid, items, i);
        var t := TestRowOf(rid, items[i]);
        if t.Err? || failAt == Some(i + 1) {
          return false;
        }
        pendingTests := pendingTests + [t.value];
        i := i + 1;
      }
      assert items[..|items|] == items;
      ok := true;
    }

    /** `move_to_processed`: the copy, then the delete; the processed key only when both
        succeed. */
    method MoveToProcessed(key: string, copyOk: bool, deleteOk: bool) returns (processed: Option<string>)
      modifies this`objects
      ensures (objects, processed) == Relocate(old(objects), key, copyOk, deleteOk)
    {
      var target := ProcessedKey(key);
      if key !in objects || !copyOk {
        return None;
      }
      objects := objects[target := objects[key]];
      if !deleteOk {
        return None;
      }
      objects := objects - {key};
      processed := Some(target);
    }

    /** The `UPDATE … SET s3_processed_key` of `process_message` and its commit; a failing
        statement leaves the rows as they were. */
    method RecordProcessedKey(rid: nat, key: string, ok: bool)
      requires Valid()
      modifies this`labResults
      ensures Valid()
      ensures labResults == if ok then SetProcessedKey(old(labResults), rid, key) else old(labResults)
    {
      if ok {
        SetProcessedKeyKeeps(labResults, testValues, auditLog, nextId, rid, key);
        labResults := SetProcessedKey(labResults, rid, key);
      }
    }

    /** `publish_notification`: nothing without a topic; a failed publish is only logged. */
    method PublishNotification(rid: nat, patientId: Json, ok: bool)
      modifies this`notifications
      ensures notifications == old(notifications) + if snsConfigured && ok then [Notification(rid, patientId)] else []
    {
      if snsConfigured && ok {
        notifications := notifications + [Notification(rid, patientId)];
      }
    }

    /** `delete_message`: the receipt's message leaves the queue; a failed call is only
        logged. */
    method DeleteMessage(receipt: string, ok: bool)
      modifies this`deleted, this`queue
      ensures deleted == if ok then old(deleted) + {receipt} else old(deleted)
      ensures queue == if ok then Without(old(queue), receipt) else old(queue)
      ensures forall m :: m in queue ==> m in old(queue)
      ensures ok ==> forall m :: m in queue ==> m.receiptHandle != receipt
    {
      if ok {
        deleted := deleted + {receipt};
        queue := Without(queue, receipt);
      }
    }

    /** `poll_queue`: at most ten messages, the oldest first; a failed call gives none. */
    method PollQueue(ok: bool) returns (batch: seq<Message>)
      ensures |batch| <= MaxMessages
      ensures batch <= queue
      ensures ok && |queue| > 0 ==> |batch| > 0
      ensures !ok ==> batch == []
    {
      if !ok {
        return [];
      }
      batch := if |queue| <= MaxMessages then queue else queue[..MaxMessages];
    }

    /** `signal_handler`: the shutdown flag is set. */
    method SignalHandler()
      requires Valid()
      modifies this`shutdownFlag, this`trace
      ensures Valid()
      ensures shutdownFlag && trace == old(trace) + [Signalled]
      ensures NoStartAfterSignal(old(trace)) ==> NoStartAfterSignal(trace)
    {
      shutdownFlag := true;
      trace := trace + [Signalled];
    }

    /** `process_message`: read the body, download and check the record, store it; then move
        the object, record its new key, notify and acknowledge. `False` exactly when a step up
        to the commit fails, and then nothing outside the database connection and the id
        sequence has changed; a message is acknowledged only after its rows are committed. */
    method ProcessMessage(msg: Message, decode: string -> Result<Json>, out: MessageOutcomes) returns (ok: bool)
      requires Valid()
      modifies this`trace, this`connected, this`labResults, this`testValues, this`auditLog, this`pendingResults,
               this`pendingTests, this`pendingAudit, this`nextId, this`objects, this`notifications,
               this`deleted, this`queue
      ensures Valid()
      ensures trace == old(trace) + [Started(msg.receiptHandle)]
      ensures ok <==> var job := ReadJob(msg, decode, old(objects), out.getOk);
                      job.Ok? && Stores(old(connected), out.store, job.value.data, job.value.key, old(nextId))
      ensures !ok ==> labResults == old(labResults) && testValues == old(testValues) && auditLog == old(auditLog)
                      && objects == old(objects) && notifications == old(notifications)
                      && deleted == old(deleted) && queue == old(queue)
      ensures ok ==>
        var job := ReadJob(msg, decode, old(objects), out.getOk).value;
        var plan := PlanStore(job.data, job.key, old(nextId)).value;
        var moved := Relocate(old(objects), job.key, out.copyOk, out.deleteObjectOk);
        testValues == old(testValues) + plan.tests && auditLog == old(auditLog) + [plan.audit]
        && labResults == (if moved.1.Some? && out.updateOk
                          then SetProcessedKey(old(labResults) + [plan.row], old(nextId), moved.1.value)
                          else old(labResults) + [plan.row])
        && objects == moved.0
        && notifications == old(notifications)
                            + (if snsConfigured && out.publishOk then [Notification(old(nextId), job.patientId)] else [])
        && deleted == (if out.ackOk then old(deleted) + {msg.receiptHandle} else old(deleted))
        && queue == (if out.ackOk then Without(old(queue), msg.receiptHandle) else old(queue))
    {
      trace := trace + [Started(msg.receiptHandle)];
      var job := ReadJob(msg, decode, objects, out.getOk);
      if job.Err? {
        return false;
      }
      ok := HandleJob(job.value, msg.receiptHandle, out);
    }

    /** `process_message` from the store on. */
    method HandleJob(job: Job, receipt: string, out: MessageOutcomes) returns (ok: bool)
      requires Valid()
      modifies this`connected, this`labResults, this`testValues, this`auditLog, this`pendingResults,
               this`pendingTests, this`pendingAudit, this`nextId, this`objects, this`notifications,
               this`deleted, this`queue
      ensures Valid()
      ensures ok <==> Stores(old(connected), out.store, job.data, job.key, old(nextId))
      ensures !ok ==> labResults == old(labResults) && testValues == old(testValues) && auditLog == old(auditLog)
                      && objects == old(objects) && notifications == old(notifications)
                      && deleted == old(deleted) && queue == old(queue)
      ensures ok ==>
        var plan := PlanStore(job.data, job.key, old(nextId)).value;
        var moved := Relocate(old(objects), job.key, out.copyOk, out.deleteObjectOk);
        testValues == old(testValues) + plan.tests && auditLog == old(auditLog) + [plan.audit]
        && labResults == (if moved.1.Some? && out.updateOk
                          then SetProcessedKey(old(labResults) + [plan.row], old(nextId), moved.1.value)
                          else old(labResults) + [plan.row])
        && objects == moved.0
        && notifications == old(notifications)
                            + (if snsConfigured && out.publishOk then [Notification(old(nextId), job.patientId)] else [])
        && deleted == (if out.ackOk then old(deleted) + {receipt} else old(deleted))
        && queue == (if out.ackOk then Without(old(queue), receipt) else old(queue))
    {
      var rid := StoreLabResult(job.data, job.key, out.store);
      if rid.None? {
        return false;
      }
      CompleteMessage(job, rid.value, receipt, out);
      ok := true;
    }

    /** The steps of `process_message` after the commit; none of them can undo the store. */
    method CompleteMessage(job: Job, rid: nat, receipt: string, out: MessageOutcomes)
      requires Valid()
      modifies this`objects, this`labResults, this`notifications, this`deleted, this`queue
      ensures Valid()
      ensures var moved := Relocate(old(objects), job.key, out.copyOk, out.deleteObjectOk);
        objects == moved.0
        && labResults == if moved.1.Some? && out.updateOk then SetProcessedKey(old(labResults), rid, moved.1.value)
                         else old(labResults)
      ensures notifications == old(notifications)
                               + if snsConfigured && out.publishOk then [Notification(rid, job.patientId)] else []
      ensures deleted == (if out.ackOk then old(deleted) + {receipt} else old(deleted))
      ensures queue == (if out.ackOk then Without(old(queue), receipt) else old(queue))
    {
      MoveAndRecord(job.key, rid, out.copyOk, out.deleteObjectOk, out.updateOk);
      PublishNotification(rid, job.patientId, out.publishOk);
      DeleteMessage(receipt, out.ackOk);
    }

    /** The move to `processed/` and, when it succeeds, the update of the row's processed key. */
    method MoveAndRecord(key: string, rid: nat, copyOk: bool, deleteOk: bool, updateOk: bool)
      requires Valid()
      modifies this`objects, this`labResults
      ensures Valid()
      ensures var moved := Relocate(old(objects), key, copyOk, deleteOk);
        objects == moved.0
        && labResults == if moved.1.Some? && updateOk then SetProcessedKey(old(labResults), rid, moved.1.value)
                         else old(labResults)
    {
      var processed := MoveToProcessed(key, copyOk, deleteOk);
      if processed.Some? {
        RecordProcessedKey(rid, processed.value, updateOk);
      }
    }

    /** `run`: poll and process until the flag is set, then close the connection. The rounds
        given bound the loop. A message is started only while no signal has arrived, and
        committed rows are only ever added to. */
    method Run(rounds: seq<Round>, decode: string -> Result<Json>) returns (roundsRun: nat)
      requires Valid()
      modifies this`trace, this`shutdownFlag, this`connected, this`labResults, this`testValues, this`auditLog,
               this`pendingResults, this`pendingTests, this`pendingAudit, this`nextId, this`objects,
               this`notifications, this`deleted, this`queue
      ensures Valid() && !connected
      ensures roundsRun <= |rounds| && (shutdownFlag || roundsRun == |rounds|)
      ensures old(shutdownFlag) ==> roundsRun == 0 && trace == old(trace) && labResults == old(labResults)
                                    && deleted == old(deleted) && queue == old(queue)
      ensures NoStartAfterSignal(old(trace)) ==> NoStartAfterSignal(trace)
      ensures |old(labResults)| <= |labResults| && old(testValues) <= testValues && old(auditLog) <= auditLog
      ensures old(deleted) <= deleted
    {
      roundsRun := 0;
      while !shutdownFlag && roundsRun < |rounds|
        invariant Valid() && roundsRun <= |rounds|
        invariant old(shutdownFlag) ==> shutdownFlag && roundsRun == 0 && trace == old(trace)
                                        && labResults == old(labResults) && deleted == old(deleted) && queue == old(queue)
        invariant NoStartAfterSignal(old(trace)) ==> NoStartAfterSignal(trace)
        invariant |old(labResults)| <= |labResults| && old(testValues) <= testValues && old(auditLog) <= auditLog
        invariant old(deleted) <= deleted
      {
        RunRound(rounds[roundsRun], decode);
        roundsRun := roundsRun + 1;
      }
      connected := false;
    }

    /** One pass of the `while not shutdown_flag` loop: the poll, then each message after
        checking the flag. */
    method RunRound(round: Round, decode: string -> Result<Json>)
      requires Valid() && !shutdownFlag
      modifies this`trace, this`shutdownFlag, this`connected, this`labResults, this`testValues, this`auditLog,
               this`pendingResults, this`pendingTests, this`pendingAudit, this`nextId, this`objects,
               this`notifications, this`deleted, this`queue
      ensures Valid()
      ensures NoStartAfterSignal(old(trace)) ==> NoStartAfterSignal(trace)
      ensures |old(labResults)| <= |labResults| && old(testValues) <= testValues && old(auditLog) <= auditLog
      ensures old(deleted) <= deleted
    {
      var batch := PollQueue(round.pollOk);
      var i := 0;
      while i < |batch|
        invariant Valid() && i <= |batch|
        invariant NoStartAfterSignal(old(trace)) ==> NoStartAfterSignal(trace)
        invariant |old(labResults)| <= |labResults| && old(testValues) <= testValues && old(auditLog) <= auditLog
        invariant old(deleted) <= deleted
      {
        if round.signalAt == Some(i) {
          SignalHandler();
        }
        if shutdownFlag {
          break;
        }
        var out := if i < |round.outcomes| then round.outcomes[i] else DownloadFails;
        var done := ProcessMessage(batch[i], decode, out);
        i := i + 1;
      }
      if round.signalAt.Some? && round.signalAt.value >= |batch| {
        SignalHandler();
      }
    }
  }
}
