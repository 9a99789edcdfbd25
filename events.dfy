/** How each adapter finds its input document: a direct-invocation key in the event, else
    the object named by the first S3 record, else an error. */
module AdapterEvents {
  import opened Wrappers

  datatype S3Record = S3Record(bucket: string, key: string)

  /** `direct` holds the event's string-valued keys; `records` is its `Records` list. */
  datatype AdapterEvent = AdapterEvent(direct: map<string, string>, records: seq<S3Record>)

  /** The text of the objects S3 holds, by bucket and key. */
  type ObjectStore = map<(string, string), string>

  /** The stand-in text of the error `get_object` raises for a key that does not exist. */
  const NoSuchKey := "NoSuchKey"

  /** `extract_*_from_event`: the direct key wins; otherwise the first record's object is
      read; with neither, a ValueError carrying `missing`. */
  function ExtractFromEvent(e: AdapterEvent, directKey: string, missing: string, store: ObjectStore)
    : (r: Result<string>)
    ensures directKey in e.direct ==> r == Ok(e.direct[directKey])
    ensures directKey !in e.direct && |e.records| == 0 ==> r == Err(missing)
    ensures directKey !in e.direct && |e.records| > 0 ==>
      (r.Ok? <==> (e.records[0].bucket, e.records[0].key) in store)
    ensures directKey !in e.direct && |e.records| > 0 && (e.records[0].bucket, e.records[0].key) in store ==>
      r == Ok(store[(e.records[0].bucket, e.records[0].key)])
    ensures directKey !in e.direct && |e.records| > 0 && (e.records[0].bucket, e.records[0].key) !in store ==>
      r == Err(NoSuchKey)
  {
    if directKey in e.direct then Ok(e.direct[directKey])
    else if |e.records| > 0 then
      var loc := (e.records[0].bucket, e.records[0].key);
      if loc in store then Ok(store[loc]) else Err(NoSuchKey)
    else Err(missing)
  }

  /** When the direct key is present, neither the records nor the bucket contents matter. */
  lemma DirectKeyPrecedence(e: AdapterEvent, directKey: string, missing: string,
                            store: ObjectStore, records: seq<S3Record>, other: ObjectStore)
    requires directKey in e.direct
    ensures ExtractFromEvent(e, directKey, missing, store)
         == ExtractFromEvent(e.(records := records), directKey, missing, other)
  {
  }

  /** Only the first S3 record is ever read. */
  lemma OnlyFirstRecordRead(e: AdapterEvent, directKey: string, missing: string,
                            store: ObjectStore, more: seq<S3Record>)
    requires |e.records| > 0
    ensures ExtractFromEvent(e, directKey, missing, store)
         == ExtractFromEvent(e.(records := [e.records[0]] + more), directKey, missing, store)
  {
  }
}
