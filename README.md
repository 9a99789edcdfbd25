# Lab-result ingestion pipeline, modelled in Dafny

Laboratories send results to this system in three formats: HL7 v2.5 ORU messages, CSV files and XML documents. Each format has an
**adapter** Lambda. The adapter reads one document and normalises it into the canonical record
`{patient_id, lab_id, lab_name, test_type, test_date, results[]}`. Each result entry in that record is
`{test_code, test_name, value, unit, reference_range, is_abnormal, severity}`.

The **ingest gateway** checks a record and returns an itemised error list. A valid record gets a result id, is
stored under `incoming/json/YYYY/MM/DD/<id>.json` and is announced on a queue. `original.py` is an earlier
version of the gateway. It is modelled as a second gateway so the two can be compared.

The **queue worker** (`LabResultsProcessor`) runs the following steps for each message:
1. It downloads the referenced record and checks it again with its own, presence-only rules.
2. It stores the record in three tables in one transaction.
3. It moves the object to `processed/`.
4. It publishes a notification.
5. Only then does it delete the message.

The project has these modules:

- `Wrappers` holds `Option` and `Result`.
- `Text` holds the parts of Python's `str` that the code uses: `strip`, `split`, `splitlines`, `replace`, `find`, `startswith` and decimal rendering.
- `Values` holds decoded JSON values, Python truthiness, `in`, `str()` and the `float()` recogniser.
- `Dates` holds `strptime` with `%Y%m%d%H%M%S` (its regular expression and backtracking included) and `%Y-%m-%d`, `fromisoformat` as the C implementation of Python 3.7–3.10 reads text, `isoformat` and `strftime`.
- `Seqs` holds map, filter-map and concat-map over element functions.
- `Canonical` holds the canonical record and the flag table.
- `AdapterEvents` holds the input selection that all three adapters share.
- `Hl7Adapter`, `CsvAdapter` and `XmlAdapter` model the three adapters.
- `Ingest` models the gateway and `LegacyIngest` models `original.py`.
- `Worker` models the worker, as the class `LabResultsProcessor` over in-memory state.
- `Pipeline` holds the lemmas that connect the components.

The outside world becomes parameters:
- The clock is a `DateTime` argument, one instant per invocation.
- JSON decoding is a function argument.
- The bucket, queue, topic and database are fields of the worker class.
- Every call to AWS or Postgres takes its success or failure as a parameter.

The gateway checks a result value with `float(result["value"])`. That raises TypeError on `None`, so the gateway rejects a
`null` value. Every adapter emits `null` for a value it cannot parse. `Pipeline.UnparsedValueRejected` and its HL7/CSV
variants state the consequence: such a record never gets past the gateway.

The HL7 adapter reads MSH-7 with `strptime("%Y%m%d%H%M%S")`. Its month, day, hour, minute and second fields each take one
or two digits, so an HL7 timestamp of less than second precision is usually misread rather than rejected: `202401151030` becomes 10:03:00
and `2024011510` becomes 05:01:00 on 1 January. `Dates.MinutePrecisionMisread` states the minute-precision case, and
`Hl7Adapter.Hl7TestDate` reports whatever `strptime` reads.

## Model

| member | source | states |
|---|---|---|
| AdapterEvents.ExtractFromEvent | modules/lambda/functions/hl7_adapter/lambda_function.py:52-74 | The direct key's value wins; otherwise the first S3 record's object is read and its contents returned, and a missing object is the NoSuchKey error; with neither, the ValueError message |
| AdapterEvents.DirectKeyPrecedence | modules/lambda/functions/hl7_adapter/lambda_function.py:59-60 | With the direct key present, neither the `Records` list nor the bucket contents change the result |
| AdapterEvents.OnlyFirstRecordRead | modules/lambda/functions/csv_adapter/lambda_function.py:70-79 | Records after the first never affect the document read |
| Hl7Adapter.ExtractHl7FromEvent | modules/lambda/functions/hl7_adapter/lambda_function.py:52-74 | `hl7_message` is returned when present; without it and without records, "No HL7 message found in event" |
| CsvAdapter.ExtractCsvFromEvent | modules/lambda/functions/csv_adapter/lambda_function.py:62-81 | `csv_body` is returned when present; without it and without records, "No CSV found in event" |
| XmlAdapter.ExtractXmlFromEvent | modules/lambda/functions/xml_adapter/lambda_function.py:58-79 | `xml_body` is returned when present; without it and without records, "No XML found in event" |
| Canonical.NameOrCode | modules/lambda/functions/hl7_adapter/lambda_function.py:124 | `name or code or "Unknown"`: never empty, and "Unknown" only when both are empty |
| Canonical.FlaggedValue | modules/lambda/functions/hl7_adapter/lambda_function.py:143-163 | Abnormal iff the flag is neither `N` nor empty; `H`/`HH` high and `L`/`LL` low exactly; the value is present iff the text parses as a float |
| Canonical.ResultsJsonShape | modules/lambda/functions/hl7_adapter/lambda_function.py:155-163 | One JSON entry per result, in order. Each is an object with exactly the seven keys: the texts (null where absent), `value` null exactly when the value text was not a number and the number otherwise, and `is_abnormal` and `severity` from the flag |
| Values.ParseFloat | modules/lambda/functions/hl7_adapter/lambda_function.py:150-153 | `float(s)` succeeds exactly on the decimal / inf / nan literal grammar, surrounding white space allowed |
| Values.Contains | modules/lambda/functions/ingest/lambda_function.py:139 | `key in x` raises exactly on `null`, booleans and numbers, and is key membership on an object |
| Values.AsciiLower | modules/lambda/functions/ingest/lambda_function.py:173 | `lower()` keeps the length |
| Values.AsciiLowerChars | modules/lambda/functions/ingest/lambda_function.py:173 | `lower()` turns each ASCII capital into its small letter and keeps every other character |
| Text.Strip | modules/lambda/functions/hl7_adapter/lambda_function.py:87 | `strip()` is empty iff the text is all white space, and otherwise starts and ends with non-space |
| Text.StripSlice | modules/lambda/functions/hl7_adapter/lambda_function.py:87 | `strip()` is one slice of the text, with only white space before it and after it |
| Text.StripIdempotent | modules/lambda/functions/csv_adapter/lambda_function.py:104 | Stripping twice equals stripping once |
| Text.Split | modules/lambda/functions/hl7_adapter/lambda_function.py:88 | `split(d)` gives at least one piece and no piece contains `d` |
| Text.JoinSplit | modules/lambda/functions/hl7_adapter/lambda_function.py:131 | Joining the pieces of `split(d)` with `d` gives the text back |
| Text.SplitJoin | modules/lambda/functions/hl7_adapter/lambda_function.py:131 | Splitting a join of `d`-free pieces gives the pieces back |
| Text.SplitOnHead | modules/lambda/functions/hl7_adapter/lambda_function.py:139-141 | The first piece is the text before the first separator, and the rest is the split of what follows it |
| Text.Find | services/processor/worker.py:273 | `find` gives the first occurrence, or -1 when there is none |
| Text.ReplaceFirstOfPrefix | services/processor/worker.py:273 | `replace(p, q, 1)` on a text starting with `p` rewrites only that prefix |
| Text.ReplaceAllAbsent | modules/lambda/functions/ingest/lambda_function.py:125 | `replace` leaves a text without the pattern unchanged |
| Text.ReplaceAllAppend | modules/lambda/functions/ingest/lambda_function.py:125 | `replace` distributes over a prefix that cannot start an occurrence |
| Text.NatToString | modules/lambda/functions/ingest/lambda_function.py:135 | `str(n)` is a non-empty digit string; from `10` on it has two digits or more and does not start with zero |
| Text.NatToStringOneDigit | modules/lambda/functions/ingest/lambda_function.py:135 | `str(n)` has a single digit exactly when `n < 10` |
| Text.NatToStringValue | modules/lambda/functions/ingest/lambda_function.py:135 | The digits of `str(n)` are worth `n` |
| Text.PadNat | modules/lambda/functions/ingest/lambda_function.py:153 | `%0wd` gives digits, and exactly `w` of them when the number fits |
| Dates.PadNatOfDigits | modules/lambda/functions/hl7_adapter/lambda_function.py:99-100 | Re-padding the value of a digit string to its own width gives the string back |
| Dates.MatchFields | modules/lambda/functions/hl7_adapter/lambda_function.py:99 | The first regular-expression match of the one- or two-character fields reads one in-range value per field and ends between one and two characters per field further on |
| Dates.ParseCompactTimestamp | modules/lambda/functions/hl7_adapter/lambda_function.py:99 | `strptime("%Y%m%d%H%M%S")` accepts only texts of 9 to 14 characters starting with four digits, yields no microseconds, and yields only a valid date and time |
| Dates.FirstMatchTwoChar | modules/lambda/functions/hl7_adapter/lambda_function.py:99 | When every field can take two characters, the first match takes two for each |
| Dates.FullWidthMatch | modules/lambda/functions/hl7_adapter/lambda_function.py:99 | A match two characters per field wide took every field's two-character branch |
| Dates.CompactTimestampIso | modules/lambda/functions/hl7_adapter/lambda_function.py:97-100 | Fourteen digits are accepted exactly when they name a valid date and time, and then render as `YYYY-MM-DDTHH:MM:SS` with the same digits |
| Dates.MinutePrecisionMisread | modules/lambda/functions/hl7_adapter/lambda_function.py:97-100 | A twelve-digit `YYYYMMDDHHMM` is accepted with the minute digits split into a one-digit minute and a one-digit second (`202401151030` is 10:03:00) |
| Dates.ParseDashedDate | modules/lambda/functions/csv_adapter/lambda_function.py:118 | `strptime("%Y-%m-%d")` gives a real calendar date at midnight |
| Dates.DashedDateOfIsoDate | modules/lambda/functions/csv_adapter/lambda_function.py:116-119 | A well-formed `YYYY-MM-DD` is read as that date at midnight |
| Dates.MidnightIsoFormat | modules/lambda/functions/csv_adapter/lambda_function.py:119 | Midnight of such a date is written back as the date plus `T00:00:00` |
| Dates.ReadClock | modules/lambda/functions/ingest/lambda_function.py:125 | The clock reader yields at most six fraction digits' worth of microseconds |
| Dates.ParseTimePart | modules/lambda/functions/ingest/lambda_function.py:125 | An offset that is accepted is strictly less than a day either way |
| Dates.ParseIsoFormat | modules/lambda/functions/ingest/lambda_function.py:125 | An accepted text starts with a well-formed calendar date, its clock is a valid time of day with at most 999999 microseconds, and its offset is less than a day |
| Dates.HourOnlyTime | modules/lambda/functions/ingest/lambda_function.py:125 | `YYYY-MM-DDTHH` with a valid hour is accepted, as that hour with no offset |
| Dates.OffsetOfHourMinute | modules/lambda/functions/ingest/lambda_function.py:125 | A `±HH:MM` offset is accepted whatever its two-digit minutes when it is less than a day, as the signed count of seconds, and rejected otherwise |
| Dates.OffsetWithSeconds | modules/lambda/functions/ingest/lambda_function.py:125 | A `±HH:MM:SS` offset is accepted when it is less than a day, seconds included, and rejected otherwise |
| Dates.IsoFormatOfParsed | modules/lambda/functions/xml_adapter/lambda_function.py:133-134 | A parsed date and time written back by `isoformat` are the text they were read from |
| Dates.IsoTextHasNoZoneMarks | modules/lambda/functions/xml_adapter/lambda_function.py:133 | An ISO date and time contain no `Z` and no `+`, so `replace("Z", …)` cannot touch them |
| Dates.ParseOfUtcText | modules/lambda/functions/xml_adapter/lambda_function.py:133 | `D` + `T` + `HH:MM:SS` + `+00:00` is read as that instant at offset zero |
| Dates.IsoRoundTripOfZulu | modules/lambda/functions/xml_adapter/lambda_function.py:129-134 | A `YYYY-MM-DDTHH:MM:SSZ` date survives the XML date normalisation unchanged |
| Dates.ZoneSuffixReplaced | modules/lambda/functions/xml_adapter/lambda_function.py:133-134 | `replace("Z", "+00:00")` and `replace("+00:00", "Z")` rewrite only the final zone mark of a UTC timestamp |
| Dates.UtcStampFormat | modules/lambda/functions/xml_adapter/lambda_function.py:134 | `isoformat` of the parsed UTC instant is the date, `T`, the time and `+00:00` |
| Dates.NatToStringWidth | modules/lambda/functions/ingest/lambda_function.py:153 | A number below `10^w` needs at most `w` digits |
| Dates.CompactTimestampWidth | modules/lambda/functions/ingest/lambda_function.py:153 | `%Y%m%d%H%M%S%f` of an in-range clock is exactly 20 digits |
| Hl7Adapter.NonBlankStrippedTrimmed | modules/lambda/functions/hl7_adapter/lambda_function.py:87 | Every kept line is stripped and non-blank |
| Hl7Adapter.Lines | modules/lambda/functions/hl7_adapter/lambda_function.py:87 | The lines the parser works on are all stripped and non-blank |
| Hl7Adapter.LinesOfSegments | modules/lambda/functions/hl7_adapter/lambda_function.py:87 | A message written one stripped segment per line reads back as exactly those segments |
| Hl7Adapter.LastIndexOfSegment | modules/lambda/functions/hl7_adapter/lambda_function.py:88 | The segment table keeps the last line of each type: no later line has that type |
| Hl7Adapter.CollectObxResults | modules/lambda/functions/hl7_adapter/lambda_function.py:127-163 | The OBX loop builds the entries of the `OBX|` lines, in order |
| Hl7Adapter.ParseHl7ToJson | modules/lambda/functions/hl7_adapter/lambda_function.py:77-175 | The parser returns the HL7 record of the message |
| Hl7Adapter.ObxResultsAppend | modules/lambda/functions/hl7_adapter/lambda_function.py:128-163 | Results keep line order across any split of the lines |
| Hl7Adapter.ObxResultsOnePerLine | modules/lambda/functions/hl7_adapter/lambda_function.py:128-131 | One result per OBX line, the k-th result built from the k-th OBX line |
| Hl7Adapter.Hl7Results | modules/lambda/functions/hl7_adapter/lambda_function.py:127-163 | The record's results are the OBX entries of the non-blank lines, as many as there are OBX lines |
| Hl7Adapter.ObxCodeAndName | modules/lambda/functions/hl7_adapter/lambda_function.py:133-141 | test_code is the OBX-3 text before the first `^`; test_name is the second component, or the whole OBX-3 without `^` |
| Hl7Adapter.ObxFlag | modules/lambda/functions/hl7_adapter/lambda_function.py:137-148 | Without OBX-8 the entry is normal; otherwise abnormal iff OBX-8 is neither `N` nor empty, high iff `H`/`HH`, low iff `L`/`LL` |
| Hl7Adapter.UntabledFlag | modules/lambda/functions/hl7_adapter/lambda_function.py:143-148 | Flag `A` is abnormal with normal severity |
| Hl7Adapter.Hl7PatientId | modules/lambda/functions/hl7_adapter/lambda_function.py:105-106 | patient_id is PID-3 of the last PID line, "UNKNOWN" without one |
| Hl7Adapter.Hl7LabIdentity | modules/lambda/functions/hl7_adapter/lambda_function.py:91-93 | lab_id is MSH-4 (index 3) when non-empty, else the default; lab_name is the default unless empty, then MSH-3 |
| Hl7Adapter.Hl7TestType | modules/lambda/functions/hl7_adapter/lambda_function.py:115-124 | test_type is the OBR-4 name, else its code, else "Unknown" |
| Hl7Adapter.Hl7TestDate | modules/lambda/functions/hl7_adapter/lambda_function.py:94-102 | An accepted MSH-7 becomes its `isoformat` plus `Z`, which for fourteen digits is `YYYY-MM-DDTHH:MM:SSZ` with the same digits; otherwise the current UTC time plus `Z` |
| CsvAdapter.CsvTestType | modules/lambda/functions/csv_adapter/lambda_function.py:110-113 | The test type is never empty |
| CsvAdapter.CsvTestTypeCases | modules/lambda/functions/csv_adapter/lambda_function.py:110-113 | `code / name` when both are present, else name, else code, else "Unknown" |
| CsvAdapter.CollectCsvResults | modules/lambda/functions/csv_adapter/lambda_function.py:128-154 | The row loop builds one entry per row, in order |
| CsvAdapter.ParseCsvToJson | modules/lambda/functions/csv_adapter/lambda_function.py:84-166 | The parser returns the CSV record of the rows, or the no-rows error |
| CsvAdapter.CsvRowsAndErrors | modules/lambda/functions/csv_adapter/lambda_function.py:98-104 | An error iff there are no rows ("CSV has no data rows") or the first row is too short to reach LabID (the AttributeError of `.strip()` on `None`); otherwise one result per row |
| CsvAdapter.CsvEntries | modules/lambda/functions/csv_adapter/lambda_function.py:129-152 | Every entry is normal and not abnormal; code, unit and range are the row's cells, null where a short row leaves them out; the name falls back to the code when empty or missing; the value is present iff the cell is there and parses |
| CsvAdapter.CsvHeaderFromFirstRow | modules/lambda/functions/csv_adapter/lambda_function.py:101-107 | Whether there is a record, and its record-level fields, depend on the first row only; lab_name is the configured name |
| CsvAdapter.CsvPatientId | modules/lambda/functions/csv_adapter/lambda_function.py:103 | patient_id is the first row's PatientID cell (null when the row is too short), "UNKNOWN" without the column |
| CsvAdapter.CsvLabId | modules/lambda/functions/csv_adapter/lambda_function.py:104 | lab_id is the stripped LabID, "SMALL001" when the column is absent or the cell blank; a first row too short to reach LabID fails with the AttributeError |
| CsvAdapter.CsvDateOfIsoDate | modules/lambda/functions/csv_adapter/lambda_function.py:116-119 | `YYYY-MM-DD` becomes `YYYY-MM-DDT00:00:00Z` |
| CsvAdapter.CsvDatePassThrough | modules/lambda/functions/csv_adapter/lambda_function.py:120-122 | A non-empty date `strptime` rejects is kept verbatim |
| XmlAdapter.FirstIndex | modules/lambda/functions/xml_adapter/lambda_function.py:104 | `find` picks the first child with the tag: none before it has that tag |
| XmlAdapter.FindAll | modules/lambda/functions/xml_adapter/lambda_function.py:145-146 | `findall` returns the children at the tagged positions, one for one and in document order. The positions ascend, and every child with the tag has its position among them |
| XmlAdapter.CollectXmlResults | modules/lambda/functions/xml_adapter/lambda_function.py:144-176 | The nested loops build every Component entry of every Test, in document order |
| XmlAdapter.AppendComponents | modules/lambda/functions/xml_adapter/lambda_function.py:146-176 | The inner loop appends one entry per Component, in order |
| XmlAdapter.ParseXmlToJson | modules/lambda/functions/xml_adapter/lambda_function.py:82-188 | The parser returns the XML record of the tree, or the error of an empty LabID/Name element |
| XmlAdapter.XmlResultsFlatten | modules/lambda/functions/xml_adapter/lambda_function.py:144-176 | Results of consecutive tests are concatenated; one test gives one entry per Component, in order |
| XmlAdapter.XmlWithoutTests | modules/lambda/functions/xml_adapter/lambda_function.py:115-144 | Without `Tests`: no results, test_type "Unknown", the current time as date |
| XmlAdapter.XmlTestTypeFromFirstTest | modules/lambda/functions/xml_adapter/lambda_function.py:124-138 | test_type is the first Test's name, else its code, else "Unknown" |
| XmlAdapter.XmlDateCases | modules/lambda/functions/xml_adapter/lambda_function.py:127-139 | A `…Z` UTC date is kept unchanged, an unparseable one passed through, an absent one replaced by the current time plus `Z` |
| XmlAdapter.XmlLabId | modules/lambda/functions/xml_adapter/lambda_function.py:104-105 | lab_id is the stripped LabID text, else the default; an empty LabID element raises; lab_name is the configured name |
| XmlAdapter.XmlPatientId | modules/lambda/functions/xml_adapter/lambda_function.py:108-109 | patient_id is `Patient@ID` (null without the attribute), "UNKNOWN" without `Patient` |
| XmlAdapter.XmlComponent | modules/lambda/functions/xml_adapter/lambda_function.py:147-164 | The code is the attribute; the name is its attribute, or the code when that is empty; a missing flag is normal; the value is null iff it does not parse |
| Ingest.Lookup | modules/lambda/functions/ingest/lambda_function.py:102-104 | On an object, absent or the value; raises exactly where `in`/indexing raise in Python |
| Ingest.FieldErrors | modules/lambda/functions/ingest/lambda_function.py:101-105 | Every field-loop message is a Missing or an Empty message |
| Ingest.FieldErrorsOfObject | modules/lambda/functions/ingest/lambda_function.py:101-105 | On an object, each distinct field gives "Missing…" exactly once when absent and "cannot be empty" exactly once when falsy |
| Ingest.FieldMessageForm | modules/lambda/functions/ingest/lambda_function.py:101-105 | Every field-loop message names one of the fields checked |
| Ingest.EntryFieldErrors | modules/lambda/functions/ingest/lambda_function.py:137-140 | Every missing-field message carries the `results[i]` prefix |
| Ingest.EntryFieldErrorsOfObject | modules/lambda/functions/ingest/lambda_function.py:137-140 | On an object entry, "Missing field 'f'" iff f is checked and absent |
| Ingest.EntryErrors | modules/lambda/functions/ingest/lambda_function.py:132-148 | Every entry message carries the `results[i]` prefix |
| Ingest.EntryOfObject | modules/lambda/functions/ingest/lambda_function.py:132-148 | "Missing field 'f'" iff f is one of the four and absent; "'value' must be numeric" iff value is present and `float` fails |
| Ingest.EntryRaises | modules/lambda/functions/ingest/lambda_function.py:139 | `validate_test_result` raises exactly on a `null`, boolean or number entry |
| Ingest.EntriesErrors | modules/lambda/functions/ingest/lambda_function.py:114-115 | All entry messages carry the `results[` prefix |
| Ingest.EntriesRaise | modules/lambda/functions/ingest/lambda_function.py:114-115 | The entries loop raises exactly when some entry is a scalar |
| Ingest.EntriesContain | modules/lambda/functions/ingest/lambda_function.py:114-115 | Every message of entry i appears in the list, numbered i |
| Ingest.EntriesErrorsCons | modules/lambda/functions/ingest/lambda_function.py:114-115 | The messages are the first entry's, then the rest's, in index order |
| Ingest.ResultsErrors | modules/lambda/functions/ingest/lambda_function.py:108-115 | The `results` messages are "Field…" messages or `results[` messages |
| Ingest.ResultsFieldCount | modules/lambda/functions/ingest/lambda_function.py:104-112 | The `results` block adds a second "Field 'results' cannot be empty" exactly for an empty list, and no other field message |
| Ingest.ResultsErrorsNotAList | modules/lambda/functions/ingest/lambda_function.py:108-110 | The `results` block says "must be a list" iff results is present and not a list |
| Ingest.ResultsNotAList | modules/lambda/functions/ingest/lambda_function.py:108-110 | The verdict says "must be a list" iff results is present and not a list |
| Ingest.PatientErrors | modules/lambda/functions/ingest/lambda_function.py:118-120 | Its only message is the patient prefix message |
| Ingest.PatientPrefixRule | modules/lambda/functions/ingest/lambda_function.py:118-120 | The prefix message appears iff patient_id is present, truthy and its text does not start with `P` |
| Ingest.DateErrors | modules/lambda/functions/ingest/lambda_function.py:123-127 | Its only message is the ISO 8601 message |
| Ingest.TestDateRule | modules/lambda/functions/ingest/lambda_function.py:123-127 | The ISO message appears iff test_date is present, truthy and rejected once `Z` becomes `+00:00` |
| Ingest.ValidateLabResult | modules/lambda/functions/ingest/lambda_function.py:86-129 | valid iff no errors; the errors are the field, results, patient and date messages in that order; raises iff one group raises |
| Ingest.RequiredFieldMessages | modules/lambda/functions/ingest/lambda_function.py:101-112 | Per required field: one "Missing…" iff absent; one "cannot be empty" iff falsy, two for an empty results list |
| Ingest.ValidIsObject | modules/lambda/functions/ingest/lambda_function.py:101-105 | Only an object can be valid |
| Ingest.NullValueRejected | modules/lambda/functions/ingest/lambda_function.py:142-146 | An entry whose value is `null` gets "'value' must be numeric" and the record is invalid |
| Ingest.ParseBody | modules/lambda/functions/ingest/lambda_function.py:74-83 | No body: the event is the record; a non-string body is taken as it is |
| Ingest.JoinErrors | modules/lambda/functions/ingest/lambda_function.py:262-265 | One message is returned alone; none gives the empty text; more are the join of all but the last, then `; ` and the last |
| Ingest.LambdaHandler | modules/lambda/functions/ingest/lambda_function.py:31-71 | Status is 202, 400 or 500; a message is sent only after the object is stored; 202 iff a message was sent |
| Ingest.HandlerRejectsInvalid | modules/lambda/functions/ingest/lambda_function.py:43-45 | An invalid record is answered 400 with the messages joined by "; ", and nothing is written |
| Ingest.HandlerInternalErrors | modules/lambda/functions/ingest/lambda_function.py:69-71 | An unreadable body or a validator exception is answered 500 "Internal server error: …" with nothing written |
| Ingest.HandlerAccepts | modules/lambda/functions/ingest/lambda_function.py:47-67 | A valid record is stored under its key with the enriched body and metadata, queued with a message pointing at it, and answered 202 |
| Ingest.HandlerWriteFailures | modules/lambda/functions/ingest/lambda_function.py:50-54 | A failed write is answered 500 with no message; the object remains exactly when the put succeeded |
| Ingest.QueueBodyPoints | modules/lambda/functions/ingest/lambda_function.py:204-216 | The queued body names the bucket, key and result id |
| Ingest.ObjectKeyShape | modules/lambda/functions/ingest/lambda_function.py:172-173 | The key is `incoming/json/` + date path + `/` + id + `.json` |
| Ingest.StoredPayloadKeeps | modules/lambda/functions/ingest/lambda_function.py:164-170 | The stored body adds exactly five keys with their values and keeps every other submitted key |
| Ingest.ResultIdShape | modules/lambda/functions/ingest/lambda_function.py:151-156 | The id is `lab-patient-` followed by 20 digits |
| LegacyIngest.PatientErrors | original.py:129-131 | Its only message is the patient prefix message |
| LegacyIngest.DateErrors | original.py:134-138 | Its only message is the ISO 8601 message |
| LegacyIngest.ValidateLabResult | original.py:91-143 | valid iff no errors; the four groups in order; raises iff one group raises |
| LegacyIngest.PatientPrefixRule | original.py:129-131 | The prefix message appears iff patient_id is a string not starting with `P`, the empty string included |
| LegacyIngest.NonStringPatientRaises | original.py:129-131 | A non-string patient_id makes the validator raise |
| LegacyIngest.EmptyPatientTwice | original.py:129-131 | An empty patient_id is reported as empty and as not starting with `P` |
| LegacyIngest.EmptyDateTwice | original.py:133-138 | An empty test_date is reported as empty and as not ISO 8601 |
| LegacyIngest.AgreesOnNonEmptyStrings | original.py:91-143 | With patient_id and test_date absent or non-empty strings, both validators give the same verdict |
| LegacyIngest.ResultIdShape | original.py:166-170 | The id is `patient-` followed by 20 digits, with no lab_id |
| LegacyIngest.ObjectKeyShape | original.py:187-188 | The key sits directly under `incoming/` and differs from the current gateway's key |
| LegacyIngest.LambdaHandler | original.py:27-72 | Status is 202, 400 or 500; a message only after a stored object; 202 iff a message was sent |
| LegacyIngest.HandlerRejectsInvalid | original.py:46-48 | An invalid record is answered 400 with the unjoined list, and nothing is written |
| LegacyIngest.HandlerAccepts | original.py:50-68 | A valid record is stored under the earlier key and queued with a message pointing at it |
| LegacyIngest.NonStringPatientDiverges | original.py:129-131 | A truthy non-string patient_id is a 500 here and a 400 at the current gateway |
| Worker.AllPresent | services/processor/worker.py:162-165 | The presence loop is true iff every field is in the container, and raises on scalars |
| Worker.WorkerAcceptsWellFormed | services/processor/worker.py:151-184 | With object entries, accepted iff all six keys are present, results is a non-empty list and every entry has the five fields |
| Worker.PresenceOnly | services/processor/worker.py:151-184 | Replacing any present key other than results never changes the verdict |
| Worker.PhysicianField | services/processor/worker.py:208-209 | No physician gives null; a physician that is not an object raises |
| Worker.LabRowOf | services/processor/worker.py:193-214 | The parent row has the new id, status "completed" and the raw key |
| Worker.TestRowOf | services/processor/worker.py:220-237 | A test row exists iff the entry has all five fields, and it points at the new id |
| Worker.TestRowFields | services/processor/worker.py:220-237 | A test row copies the five fields and takes `is_abnormal` from the entry, or `false` when absent |
| Worker.TestRows | services/processor/worker.py:220-237 | One row per entry |
| Worker.TestRowsPerEntry | services/processor/worker.py:220-237 | Rows exist iff every entry has its five fields, and row i is entry i's |
| Worker.PlanStoreOfObject | services/processor/worker.py:191-255 | A store plan exists iff the parent row builds, results is a list and every entry builds; then the three parts |
| Worker.StoreOfObject | services/processor/worker.py:191-261 | A store succeeds iff the plan exists and no statement up to the commit fails |
| Worker.AcceptedRecordStores | services/processor/worker.py:171-237 | An accepted record stores exactly when its parent parameters build and its entries are objects |
| Worker.AttemptsBounds | services/processor/worker.py:77-91 | One round makes 1 to 5 attempts and stops at the first success |
| Worker.ProcessedKeyOfIncoming | services/processor/worker.py:273 | An `incoming/` key moves to the same path under `processed/`, never onto itself |
| Worker.OnlyFirstOccurrence | services/processor/worker.py:273 | Only the leading `incoming/` is rewritten |
| Worker.ProcessedKeyWithoutIncoming | services/processor/worker.py:273 | A key without `incoming/` is left as it is |
| Worker.DownloadFromS3 | services/processor/worker.py:128-149 | A record iff the read succeeds, the key exists and the text decodes |
| Worker.ReadJob | services/processor/worker.py:341-358 | A job only for an existing key and a record the worker accepts |
| Worker.RelocationMovesContent | services/processor/worker.py:269-295 | The new key only after copy and delete both succeed; then the content sits under the new key and the old one is gone; nothing else changes |
| Worker.RelocationWithoutIncomingLosesObject | services/processor/worker.py:273-288 | A key without `incoming/` is copied onto itself and deleted, so the object is lost |
| Worker.TablesConsistentMeans | services/processor/worker.py:191-255 | Integrity: ids positive, strictly increasing, below the sequence, and every test and audit row refers to one |
| Worker.CommitKeepsConsistent | services/processor/worker.py:191-258 | Committing a store under the next id keeps integrity |
| Worker.SequenceMovesOn | services/processor/worker.py:263-266 | A rolled-back insert that consumed an id keeps integrity |
| Worker.SetProcessedKey | services/processor/worker.py:371-379 | The update keeps every row's id and changes only the row with that id |
| Worker.SetProcessedKeyKeeps | services/processor/worker.py:371-380 | Recording the processed key keeps integrity |
| Worker.Without | services/processor/worker.py:331-334 | The queue keeps exactly the messages of other receipts |
| Worker.LabResultsProcessor.constructor | services/processor/worker.py:48-73 | Empty tables and outbox, the given bucket and queue, connected iff a connection round succeeds |
| Worker.LabResultsProcessor.ConnectDatabase | services/processor/worker.py:75-91 | Connected iff some attempt of the round succeeds; 1 to 5 tries, a pause after each failed try but the last |
| Worker.LabResultsProcessor.EnsureDatabaseConnection | services/processor/worker.py:93-105 | A live connection that answers the ping is kept; a live one that does not gets one reconnect round; a missing one gets a second round when the first fails; the connection is usable exactly when one of those succeeds |
| Worker.LabResultsProcessor.Rollback | services/processor/worker.py:263-266 | The open transaction's rows are dropped |
| Worker.LabResultsProcessor.Commit | services/processor/worker.py:257-258 | The open transaction's rows are appended to the tables |
| Worker.LabResultsProcessor.StoreLabResult | services/processor/worker.py:186-267 | An id iff the connection is usable, the parameters build and no statement fails; then exactly the planned rows are added; otherwise no rows |
| Worker.LabResultsProcessor.InsertRecord | services/processor/worker.py:191-267 | An id iff the plan exists and no statement fails; a failed store leaves the tables as they were |
| Worker.LabResultsProcessor.InsertObject | services/processor/worker.py:193-261 | The same for an object record, in terms of its parent row, test rows and audit row |
| Worker.LabResultsProcessor.InsertDetails | services/processor/worker.py:219-261 | After the parent row: the test rows, the audit row and the commit, or a rollback |
| Worker.LabResultsProcessor.FinishStore | services/processor/worker.py:241-261 | The audit row and the commit, or a rollback when either fails |
| Worker.LabResultsProcessor.InsertTestValues | services/processor/worker.py:219-239 | Pending rows are the entries' rows iff every entry builds and no insert fails |
| Worker.LabResultsProcessor.MoveToProcessed | services/processor/worker.py:269-295 | The bucket and the returned key are those of the relocation |
| Worker.LabResultsProcessor.RecordProcessedKey | services/processor/worker.py:368-382 | A successful update sets the processed key; a failed one changes nothing |
| Worker.LabResultsProcessor.PublishNotification | services/processor/worker.py:297-326 | A notification only with a topic configured and a successful publish |
| Worker.LabResultsProcessor.DeleteMessage | services/processor/worker.py:328-337 | A successful delete removes the receipt's messages; a failed one changes nothing |
| Worker.LabResultsProcessor.PollQueue | services/processor/worker.py:107-126 | At most ten of the oldest messages; none on failure |
| Worker.LabResultsProcessor.SignalHandler | services/processor/worker.py:33-37 | The flag is set and the signal recorded |
| Worker.LabResultsProcessor.ProcessMessage | services/processor/worker.py:339-395 | True iff the job is read and stored. On True the rows are committed first, and the move, update, notification and ack follow their outcomes. On False, when the read or the store fails, nothing changes and no ack is sent. The model has no False after a commit |
| Worker.LabResultsProcessor.HandleJob | services/processor/worker.py:360-391 | True iff the store commits; the steps after it follow their own outcomes |
| Worker.LabResultsProcessor.CompleteMessage | services/processor/worker.py:366-391 | Relocation, notification and ack each follow only their own outcome |
| Worker.LabResultsProcessor.MoveAndRecord | services/processor/worker.py:366-382 | The processed key is recorded only when the relocation returned one |
| Worker.LabResultsProcessor.Run | services/processor/worker.py:397-424 | Stops once the flag is set; no message starts after a signal; committed rows and acks only grow; the connection is closed |
| Worker.LabResultsProcessor.RunRound | services/processor/worker.py:401-420 | The flag is checked before each message; integrity holds; rows and acks only grow |
| Pipeline.GatewayJudgesCanonical | modules/lambda/functions/ingest/lambda_function.py:101-127 | The gateway never raises on an adapter's record |
| Pipeline.UnparsedValueRejected | modules/lambda/functions/ingest/lambda_function.py:142-146 | An entry with a null value gets the adapter's record rejected with "'value' must be numeric" |
| Pipeline.Hl7UnparsedValueRejected | modules/lambda/functions/hl7_adapter/lambda_function.py:150-153 | A non-numeric OBX-5 gets the HL7 record rejected, under that OBX line's index |
| Pipeline.CsvUnparsedValueRejected | modules/lambda/functions/csv_adapter/lambda_function.py:135-138 | A missing or non-numeric Value cell gets the CSV record, when there is one, rejected under that row's index |
| Pipeline.WorkerAcceptsCanonical | services/processor/worker.py:151-184 | The worker accepts an adapter's record iff it has a result |
| Pipeline.ReferenceRangeOnlyInWorker | services/processor/worker.py:172-182 | A missing reference_range is refused by the worker, while the gateway's messages for that entry are the same either way |
| Pipeline.EntryIgnoresOtherKeys | modules/lambda/functions/ingest/lambda_function.py:137-146 | Setting a key outside the four checked ones never changes an entry's gateway messages |
| Pipeline.CsvTestTypeDiffers | modules/lambda/functions/csv_adapter/lambda_function.py:110-111 | With both code and name, the CSV test type differs from the HL7/XML rule's |
| Pipeline.ProcessedKeys | services/processor/worker.py:273 | The gateway's `incoming/json/…` and the earlier `incoming/…` keys move to `processed/json/…` and `processed/…` |

## Left out

- Lambda invocation, S3, SQS, SNS, Postgres, logging and `json.dumps`/`json.loads`: the adapters' `lambda_handler` (HL7 lines 17-49, CSV 20-59, XML 19-55) only invokes the gateway asynchronously, so it is not modelled. Decoding is a function parameter. The AWS and database calls are in-memory state with success/failure outcomes.
- `float()` is a recogniser of the literal grammar without underscores. A parsed number is kept as its literal, and IEEE values and arithmetic are not modelled.
- Values.FloatConvertible: a JSON integer too large for a double (`1` followed by 400 zeros) makes `float()` raise OverflowError. The gateway does not catch that, so it answers 500, while the model counts every JSON number as convertible and calls the record valid.
- Values.IsFloatLiteral: `float()` also accepts decimal digits of other scripts (`"٣.٥"`), which the model rejects, so such a value is reported as not numeric.
- Worker.LabResultsProcessor.ProcessMessage: the move, notification and delete steps catch only `ClientError` (services/processor/worker.py lines 293, 325 and 336). Any other exception there, such as a lost connection, reaches the outer handler after the rows are committed: the call returns False and skips the remaining steps. The model treats every failure of these steps as caught, so it has no False-after-commit outcome. The loop in `run` ignores the return value (line 412).
- `fromisoformat` is modelled as the C implementation of Python 3.7–3.10 reads text: the date, one separator character of any kind, a clock of one to three fields with an optional three- or six-digit fraction, and an offset of six, nine or sixteen characters. Python 3.11 reads far more forms (`Z`, compact dates, week dates). The Python version the functions run on is not stated in the source, and the `replace("Z", "+00:00")` before every call points to a version before 3.11.
- Dates.ParseCompactTimestamp: `\d` in the `strptime` expression matches any Unicode decimal digit, and `int()` reads those too. The model accepts ASCII digits only.
- Dates.ReadClock: the C reader works on UTF-8 bytes, the model on characters. They disagree in one place, a non-ASCII character that closes a clock span, and there the model gives the bytes' outcome, an error.
- `%f`, microseconds in `isoformat`, and clock values outside their ranges are modelled only as far as the formats need them.
- `csv.DictReader` tokenising and `ET.fromstring` are not modelled. The CSV model starts from the reader's rows, the XML model from the element tree, and a malformed XML document (ParseError) is not modelled. A short row's missing cells are `None` in the model as they are in the reader's rows. The extra cells of a long row, which the reader puts under the key `None`, are never read by the adapter and are not modelled.
- Values.Str: `str()` of a JSON list or object is rendered as a placeholder (`[...]`, `{...}`), and a number as its literal rather than Python's float rendering. Where the gateway builds a result id, an object key or metadata from such a value, the model's text differs from Python's.
- AdapterEvents.ExtractFromEvent: the direct keys of an event (`hl7_message`, `csv_body`, `xml_body`) are modelled as text. A direct value of another JSON type, which Python would pass on as it is, is not representable.
- The HL7 and XML patient names (HL7 lines 107-112, XML 111-112) are computed but not emitted. Only the exception from an empty XML `Name` element is kept.
- The copy of the object onto itself is modelled as a map update. S3's refusal of a same-key copy without metadata changes is not modelled.
- After a failed `UPDATE … s3_processed_key`, the model keeps the connection usable. In Postgres the transaction would be aborted until a rollback.
- The poll's visibility timeout and redelivery, the 20-second long poll, and competition between several workers are not modelled. A message stays in the queue until it is deleted.
- Worker.LabResultsProcessor.Run: bounded by the sequence of rounds it is given. The unbounded `while` ends when the flag is set or the rounds run out.
- The `time.sleep(5)` after an unexpected exception in the main loop is not modelled, because no modelled step raises there. The exception `connect_database` re-raises after five failures is reported as a failed round, and the constructor's re-raise is not modelled.
- The worker does not check the types of the metadata it inserts, and neither does the model. What Postgres does with a wrongly typed parameter is folded into the statement that fails.
- Signal delivery is modelled as a call of `SignalHandler` at chosen points of a round. `main` and its environment checks are not modelled.
- The portal, PDF generator, notifier, browser script and integration scripts are not part of this model.
