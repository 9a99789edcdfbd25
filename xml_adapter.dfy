/** The XML adapter: a `LabResult` document with `LabID`, `Patient ID=…` and `Tests/Test`
    elements whose `Component` children carry the individual results. The model starts
    from the element tree `xml.etree.ElementTree` builds. */
module XmlAdapter {
  import opened Wrappers
  import opened Text
  import opened Values
  import opened Dates
  import opened Canonical
  import opened AdapterEvents
  import opened Seqs

  /** Defaults used when the `LAB_ID` / `LAB_NAME` environment variables are unset. */
  const DefaultLabId := "HOSP001"
  const DefaultLabName := "Hospital Lab"

  const MissingMessage := "No XML found in event"
  /** The error raised when `.strip()` is applied to the text of an empty element. */
  const NoTextMessage := "'NoneType' object has no attribute 'strip'"

  /** An element: its tag, attributes, text (`None` for an element without text) and
      child elements in document order. */
  datatype Element = Element(tag: string, attributes: map<string, string>, text: Option<string>,
                             children: seq<Element>)

  /** `extract_xml_from_event`: `xml_body` first, then the first S3 record. */
  function ExtractXmlFromEvent(e: AdapterEvent, store: ObjectStore): (r: Result<string>)
    ensures "xml_body" in e.direct ==> r == Ok(e.direct["xml_body"])
    ensures "xml_body" !in e.direct && |e.records| == 0 ==> r == Err(MissingMessage)
  {
    ExtractFromEvent(e, "xml_body", MissingMessage, store)
  }

  /** `element.get(name, default)`. */
  function Attr(e: Element, name: string, default: string): string {
    if name in e.attributes then e.attributes[name] else default
  }

  /** Index of the first child with the tag, or -1. */
  function FirstIndex(children: seq<Element>, tag: string): (r: int)
    ensures -1 <= r < |children|
    ensures r >= 0 ==> children[r].tag == tag
    ensures forall j :: 0 <= j < |children| && (r < 0 || j < r) ==> children[j].tag != tag
  {
    if |children| == 0 then -1
    else if children[0].tag == tag then 0
    else
      var i := FirstIndex(children[1..], tag);
      if i < 0 then -1 else i + 1
  }

  /** `element.find(tag)`: the first child with that tag. */
  function Find(e: Element, tag: string): Option<Element> {
    var i := FirstIndex(e.children, tag);
    if i < 0 then None else Some(e.children[i])
  }

  /** The positions of the children with the tag: ascending, and each tagged child's
      position is among them. */
  function TaggedPositions(children: seq<Element>, tag: string): (r: seq<nat>)
    ensures forall k :: 0 <= k < |r| ==> r[k] < |children| && children[r[k]].tag == tag
    ensures forall k, l :: 0 <= k < l < |r| ==> r[k] < r[l]
    ensures forall j :: 0 <= j < |children| && children[j].tag == tag ==> j in r
  {
    if |children| == 0 then []
    else
      var n := |children| - 1;
      var init := TaggedPositions(children[..n], tag);
      assert forall j :: 0 <= j < n ==> children[..n][j] == children[j];
      if children[n].tag == tag then init + [n] else init
  }

  /** `element.findall(tag)`: every child with that tag and no other, in document order. */
  function FindAll(children: seq<Element>, tag: string): (r: seq<Element>)
    ensures forall k :: 0 <= k < |r| ==> r[k].tag == tag
    ensures |r| <= |children|
    ensures var p := TaggedPositions(children, tag);
      |r| == |p| && forall k :: 0 <= k < |r| ==> r[k] == children[p[k]]
  {
    if |children| == 0 then []
    else
      var n := |children| - 1;
      var init := FindAll(children[..n], tag);
      assert forall j :: 0 <= j < n ==> children[..n][j] == children[j];
      if children[n].tag == tag then init + [children[n]] else init
  }

  /** One `Component` as a result entry; its `flag` attribute defaults to `N`. */
  function ComponentEntry(c: Element): TestValue {
    var code := Attr(c, "code", "");
    var name := Attr(c, "name", "");
    FlaggedValue(code, if name != "" then name else code, Attr(c, "value", ""),
                 Attr(c, "unit", ""), Attr(c, "refRange", ""), Attr(c, "flag", "N"))
  }

  /** The entries of one test's `Component` children, in document order. */
  function TestEntries(t: Element): seq<TestValue> {
    Map(FindAll(t.children, "Component"), ComponentEntry)
  }

  /** The entries of every `Component` of every test, tests in order and components in
      order within each test. */
  function TestsResults(tests: seq<Element>): seq<TestValue> {
    ConcatMap(tests, TestEntries)
  }

  /** The nested Test/Component loops of `parse_xml_to_json`. */
  method CollectXmlResults(tests: seq<Element>) returns (results: seq<TestValue>)
    ensures results == TestsResults(tests)
  {
    results := [];
    var i := 0;
    while i < |tests|
      invariant 0 <= i <= |tests|
      invariant results == TestsResults(tests[..i])
    {
      results := AppendComponents(results, FindAll(tests[i].children, "Component"));
      ConcatMapSnoc(tests, i, TestEntries);
      i := i + 1;
    }
    assert tests[..|tests|] == tests;
  }

  /** The inner loop: one entry appended per `Component` of a test. */
  method AppendComponents(results: seq<TestValue>, components: seq<Element>)
    returns (r: seq<TestValue>)
    ensures r == results + Map(components, ComponentEntry)
  {
    r := results;
    var j := 0;
    while j < |components|
      invariant 0 <= j <= |components|
      invariant r == results + Map(components[..j], ComponentEntry)
    {
      AppendMapSnoc(results, components, j, ComponentEntry);
      r := r + [ComponentEntry(components[j])];
      j := j + 1;
    }
    assert components[..|components|] == components;
  }

  /** The first test's date: a parseable ISO date is normalised, an unparseable one kept,
      an absent or empty one replaced by the current UTC time plus `Z`. */
  function XmlTestDate(first: Option<Element>, now: DateTime): string {
    if first.Some? && "date" in first.value.attributes && first.value.attributes["date"] != "" then
      var raw := first.value.attributes["date"];
      IsoRoundTrip(raw).GetOr(raw)
    else NowUtc(now)
  }

  /** The `Tests` element's tests, none when it is absent. */
  function TestElements(root: Element): seq<Element> {
    match Find(root, "Tests")
    case Some(tests) => FindAll(tests.children, "Test")
    case None => []
  }

  /** The record-level fields: `Err` where the code dereferences the missing text of an
      empty `LabID` or `Patient/Name` element. */
  function XmlHeader(root: Element, now: DateTime, labIdDefault: string, labName: string)
    : Result<LabResult>
  {
    var labIdText := match Find(root, "LabID") case Some(n) => n.text case None => Some(labIdDefault);
    var patient := Find(root, "Patient");
    var nameNode := match patient case Some(p) => Find(p, "Name") case None => None;
    if labIdText.None? || (nameNode.Some? && nameNode.value.text.None?) then Err(NoTextMessage)
    else
      var first := match Find(root, "Tests") case Some(t) => Find(t, "Test") case None => None;
      var code := match first case Some(t) => Attr(t, "code", "") case None => "";
      var name := match first case Some(t) => Attr(t, "name", "") case None => "";
      Ok(LabResult(
        match patient
        case Some(p) => (if "ID" in p.attributes then Some(p.attributes["ID"]) else None)
        case None => Some("UNKNOWN"),
        Strip(labIdText.value),
        labName,
        NameOrCode(name, code),
        XmlTestDate(first, now),
        []))
  }

  /** The record for a document tree. */
  function XmlRecord(root: Element, now: DateTime, labIdDefault: string, labName: string)
    : Result<LabResult>
  {
    match XmlHeader(root, now, labIdDefault, labName)
    case Ok(h) => Ok(h.(results := TestsResults(TestElements(root))))
    case Err(msg) => Err(msg)
  }

  /** `parse_xml_to_json`. */
  method ParseXmlToJson(root: Element, now: DateTime, labIdDefault: string, labName: string)
    returns (r: Result<LabResult>)
    ensures r == XmlRecord(root, now, labIdDefault, labName)
  {
    var header := XmlHeader(root, now, labIdDefault, labName);
    if header.Err? {
      return Err(header.error);
    }
    var results := CollectXmlResults(TestElements(root));
    r := Ok(header.value.(results := results));
  }

  // ---------------------------------------------------------------------------------------
  // Properties of the record

  /** Results are flattened in document order: the results of consecutive blocks of tests
      are concatenated, a single test contributing one entry per `Component` child, in order. */
  lemma XmlResultsFlatten(a: seq<Element>, b: seq<Element>, t: Element)
    ensures TestsResults(a + b) == TestsResults(a) + TestsResults(b)
    ensures |TestsResults([t])| == |FindAll(t.children, "Component")|
    ensures forall k :: 0 <= k < |FindAll(t.children, "Component")| ==>
      TestsResults([t])[k] == ComponentEntry(FindAll(t.children, "Component")[k])
  {
    ConcatMapAppend(a, b, TestEntries);
    ConcatMapSingle(t, TestEntries);
  }

  /** Without a `Tests` element the record has no results, test_type "Unknown" and the
      current time as its date. */
  lemma XmlWithoutTests(root: Element, now: DateTime, labIdDefault: string, labName: string)
    requires Find(root, "Tests").None?
    requires XmlRecord(root, now, labIdDefault, labName).Ok?
    ensures var r := XmlRecord(root, now, labIdDefault, labName).value;
      r.results == [] && r.testType == "Unknown" && r.testDate == NowUtc(now)
  {
  }

  /** test_type comes from the first `Test` only: its name, else its code, else "Unknown". */
  lemma XmlTestTypeFromFirstTest(root: Element, now: DateTime, labIdDefault: string, labName: string)
    requires XmlRecord(root, now, labIdDefault, labName).Ok?
    requires Find(root, "Tests").Some? && Find(Find(root, "Tests").value, "Test").Some?
    ensures var t := Find(Find(root, "Tests").value, "Test").value;
      XmlRecord(root, now, labIdDefault, labName).value.testType
        == NameOrCode(Attr(t, "name", ""), Attr(t, "code", ""))
  {
  }

  /** A first-test date already in `YYYY-MM-DDTHH:MM:SSZ` form is kept unchanged; an
      unparseable one is passed through. */
  lemma XmlDateCases(t: Element, now: DateTime, d: string, time: string)
    requires IsIsoDate(d) && IsIsoTime(time)
    ensures "date" in t.attributes && t.attributes["date"] == d + "T" + time + "Z" ==>
      XmlTestDate(Some(t), now) == d + "T" + time + "Z"
    ensures "date" in t.attributes && t.attributes["date"] != "" && IsoRoundTrip(t.attributes["date"]).None? ==>
      XmlTestDate(Some(t), now) == t.attributes["date"]
    ensures "date" !in t.attributes ==> XmlTestDate(Some(t), now) == NowUtc(now)
  {
    IsoRoundTripOfZulu(d, time);
  }

  /** lab_id is the stripped `LabID` text, or the default when there is no `LabID`; an
      empty `LabID` element is an error. */
  lemma XmlLabId(root: Element, now: DateTime, labIdDefault: string, labName: string)
    ensures Find(root, "LabID").Some? && Find(root, "LabID").value.text.None? ==>
      XmlRecord(root, now, labIdDefault, labName).Err?
    ensures XmlRecord(root, now, labIdDefault, labName).Ok? ==>
      var r := XmlRecord(root, now, labIdDefault, labName).value;
      r.labName == labName
      && (Find(root, "LabID").None? ==> r.labId == Strip(labIdDefault))
      && (Find(root, "LabID").Some? ==> r.labId == Strip(Find(root, "LabID").value.text.value))
  {
  }

  /** patient_id is the `ID` attribute of the first `Patient` (null when it has none), or
      "UNKNOWN" without a `Patient`. */
  lemma XmlPatientId(root: Element, now: DateTime, labIdDefault: string, labName: string)
    requires XmlRecord(root, now, labIdDefault, labName).Ok?
    ensures var r := XmlRecord(root, now, labIdDefault, labName).value;
      var p := Find(root, "Patient");
      (p.None? ==> r.patientId == Some("UNKNOWN"))
      && (p.Some? && "ID" in p.value.attributes ==> r.patientId == Some(p.value.attributes["ID"]))
      && (p.Some? && "ID" !in p.value.attributes ==> r.patientId.None?)
  {
  }

  /** A component's name falls back to its code; a missing flag reads as `N` (normal, not
      abnormal); the value is null exactly when it does not parse as a float. */
  lemma XmlComponent(c: Element)
    ensures var e := ComponentEntry(c);
      var code := Attr(c, "code", "");
      e.testCode == Some(code)
      && (Attr(c, "name", "") == "" ==> e.testName == Some(code))
      && (Attr(c, "name", "") != "" ==> e.testName == Some(Attr(c, "name", "")))
      && ("flag" !in c.attributes ==> !e.isAbnormal && e.severity == Normal)
      && (e.value.None? <==> !IsFloatLiteral(Attr(c, "value", "")))
  {
  }
}
