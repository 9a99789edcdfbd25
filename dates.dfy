/** Date handling used by the adapters and the gateway: the two fixed `strptime` formats
    (`%Y%m%d%H%M%S` for HL7, `%Y-%m-%d` for CSV), `datetime.fromisoformat` and
    `datetime.isoformat`, and the `strftime` renderings of the clock. */
module Dates {
  import opened Wrappers
  import opened Text
  import opened Values

  predicate IsLeapYear(y: nat) {
    y % 4 == 0 && (y % 100 != 0 || y % 400 == 0)
  }

  function DaysInMonth(y: nat, m: nat): nat
    requires 1 <= m <= 12
  {
    if m == 2 then (if IsLeapYear(y) then 29 else 28)
    else if m == 4 || m == 6 || m == 9 || m == 11 then 30
    else 31
  }

  /** What Python's `datetime` constructor accepts (MINYEAR 1, MAXYEAR 9999). */
  predicate IsValidDate(y: nat, m: nat, d: nat) {
    1 <= y <= 9999 && 1 <= m <= 12 && 1 <= d <= DaysInMonth(y, m)
  }

  predicate IsValidTime(h: nat, mi: nat, s: nat) {
    h <= 23 && mi <= 59 && s <= 59
  }

  /** A naive `datetime` (also the shape of `datetime.utcnow()`). */
  datatype DateTime = DateTime(year: nat, month: nat, day: nat, hour: nat, minute: nat, second: nat, micro: nat)

  /** A fixed UTC offset, in microseconds east of UTC. */
  datatype Offset = Offset(micros: int)

  /** The result of `fromisoformat`: a datetime and, when the text had one, its offset. */
  datatype Stamp = Stamp(dt: DateTime, offset: Option<Offset>)

  /** `dt.isoformat()` of a naive datetime; microseconds appear only when non-zero. */
  function IsoFormat(dt: DateTime): string {
    PadNat(dt.year, 4) + "-" + PadNat(dt.month, 2) + "-" + PadNat(dt.day, 2) + "T"
    + PadNat(dt.hour, 2) + ":" + PadNat(dt.minute, 2) + ":" + PadNat(dt.second, 2)
    + (if dt.micro != 0 then "." + PadNat(dt.micro, 6) else "")
  }

  /** The offset suffix `isoformat` writes: the sign (`+` for zero), `HH:MM`, then `:SS` when
      the seconds or microseconds are not zero, then `.ffffff` when the microseconds are not. */
  function OffsetFormat(o: Offset): string {
    var a := if o.micros < 0 then -o.micros else o.micros;
    var us, secs := a % 1000000, a / 1000000;
    (if o.micros < 0 then "-" else "+")
    + PadNat(secs / 3600, 2) + ":" + PadNat(secs / 60 % 60, 2)
    + (if secs % 60 != 0 || us != 0 then ":" + PadNat(secs % 60, 2) else "")
    + (if us != 0 then "." + PadNat(us, 6) else "")
  }

  function StampFormat(st: Stamp): string {
    IsoFormat(st.dt) + (match st.offset case Some(o) => OffsetFormat(o) case None => "")
  }

  /** `datetime.utcnow().isoformat() + "Z"`, the fallback date of every adapter. */
  function NowUtc(now: DateTime): string {
    IsoFormat(now) + "Z"
  }

  /** `strftime("%Y%m%d%H%M%S%f")`, the timestamp in result ids. */
  function CompactTimestamp(now: DateTime): string {
    PadNat(now.year, 4) + PadNat(now.month, 2) + PadNat(now.day, 2)
    + PadNat(now.hour, 2) + PadNat(now.minute, 2) + PadNat(now.second, 2) + PadNat(now.micro, 6)
  }

  /** `strftime("%Y/%m/%d")`, the date part of object keys. */
  function DatePath(now: DateTime): string {
    PadNat(now.year, 4) + "/" + PadNat(now.month, 2) + "/" + PadNat(now.day, 2)
  }

  /** Zero-padding the value of a digit string to its own width gives the string back. */
  lemma {:induction false} PadNatOfDigits(t: string)
    requires |t| >= 1 && AllDigits(t)
    ensures PadNat(DigitsValue(t), |t|) == t
  {
    var n := |t|;
    var head := t[..n - 1];
    assert AllDigits(head);
    if n == 1 {
      PadNatOfOneDigit(t);
    } else {
      PadNatOfDigits(head);
      PadNatOfDigitsLast(t);
    }
  }

  lemma PadNatOfDigitsLast(t: string)
    requires |t| >= 2 && AllDigits(t)
    requires PadNat(DigitsValue(t[..|t| - 1]), |t| - 1) == t[..|t| - 1]
    ensures PadNat(DigitsValue(t), |t|) == t
  {
    var head, c := t[..|t| - 1], t[|t| - 1];
    assert AllDigits(head) && IsDigit(c);
    SplitLast(t);
    PadNatAppendDigit(DigitsValue(head), DigitsValue(t), |head|, c, head);
  }

  lemma SplitLast(t: string)
    requires |t| >= 1
    ensures t == t[..|t| - 1] + [t[|t| - 1]]
  {
  }

  lemma PadNatOfOneDigit(t: string)
    requires |t| == 1 && AllDigits(t)
    ensures PadNat(DigitsValue(t), 1) == t
  {
    assert t[..0] == [];
    assert DigitsValue(t) == t[0] as int - '0' as int;
    PadNatOneDigit(t[0]);
  }

  lemma PadNatOfDigitsSnoc(head: string, c: char)
    requires |head| >= 1 && AllDigits(head) && IsDigit(c)
    requires PadNat(DigitsValue(head), |head|) == head
    ensures AllDigits(head + [c]) && PadNat(DigitsValue(head + [c]), |head| + 1) == head + [c]
  {
    DigitsValueSnoc(head, c);
    PadNatAppendDigit(DigitsValue(head), DigitsValue(head + [c]), |head|, c, head);
  }

  lemma DigitsValueSnoc(head: string, c: char)
    requires AllDigits(head) && IsDigit(c)
    ensures AllDigits(head + [c])
    ensures DigitsValue(head + [c]) == DigitsValue(head) * 10 + (c as int - '0' as int)
  {
    var t := head + [c];
    assert t[..|t| - 1] == head;
  }

  /** Appending a digit `c` to the zero-padded rendering `s` of `w` renders `v = 10 * w + c`,
      one column wider. */
  lemma PadNatAppendDigit(w: nat, v: nat, width: nat, c: char, s: string)
    requires width >= 1 && IsDigit(c) && v == w * 10 + (c as int - '0' as int)
    requires PadNat(w, width) == s && |s| == width
    ensures PadNat(v, width + 1) == s + [c]
  {
    if w == 0 {
      PadNatAppendToZero(v, width, c);
    } else {
      NatToStringSnoc(w, v, c);
      PadNatSnoc(v, w, width, c);
    }
  }

  lemma PadNatSnoc(v: nat, w: nat, width: nat, c: char)
    requires NatToString(v) == NatToString(w) + [c] && |NatToString(w)| <= width
    ensures PadNat(v, width + 1) == PadNat(w, width) + [c]
  {
    var sw := NatToString(w);
    if |sw| < width {
      var zeros := seq(width - |sw|, _ => '0');
      assert zeros + (sw + [c]) == (zeros + sw) + [c];
    }
  }

  /** The rendering of `10 * w` plus a digit is that of `w` followed by the digit. */
  lemma NatToStringSnoc(w: nat, v: nat, c: char)
    requires w >= 1 && IsDigit(c) && v == w * 10 + (c as int - '0' as int)
    ensures NatToString(v) == NatToString(w) + [c]
  {
    var d := c as int - '0' as int;
    assert v / 10 == w && v % 10 == d;
    assert DigitChar(d) == c;
  }

  lemma PadNatOneDigit(c: char)
    requires IsDigit(c)
    ensures PadNat(c as int - '0' as int, 1) == [c]
  {
    assert DigitChar(c as int - '0' as int) == c;
  }

  lemma PadNatAppendToZero(v: nat, width: nat, c: char)
    requires width >= 1 && IsDigit(c) && v == c as int - '0' as int
    ensures PadNat(v, width + 1) == PadNat(0, width) + [c]
  {
    assert DigitChar(v) == c;
    assert NatToString(v) == [c];
    assert NatToString(0) == "0";
    assert seq(width - 1, _ => '0') + "0" == seq(width, _ => '0');
  }

  // ---------------------------------------------------------------------------------------
  // `datetime.strptime(s, "%Y%m%d%H%M%S")`
  //
  // `strptime` turns the format into a regular expression: `%Y` is four digits and each later
  // field is an alternation whose two-character branches come before its one-character branch.
  // The expression is matched from the start of the text with backtracking; when the first
  // match found does not reach the end of the text, "unconverted data remains" is raised.

  /** The fields after the year, in format order. */
  datatype Field = Month | Day | Hour | Minute | Second

  const CompactFields: seq<Field> := [Month, Day, Hour, Minute, Second]

  /** The two-character branches: `1[0-2]|0[1-9]` (month), `3[01]|[12]\d|0[1-9]| [1-9]` (day),
      `2[0-3]|[01]\d` (hour), `[0-5]\d` (minute), `6[01]|[0-5]\d` (second). */
  predicate TwoCharField(f: Field, a: char, b: char) {
    match f
    case Month => (a == '1' && '0' <= b <= '2') || (a == '0' && '1' <= b <= '9')
    case Day => (a == '3' && '0' <= b <= '1') || ('1' <= a <= '2' && IsDigit(b))
                || (a == '0' && '1' <= b <= '9') || (a == ' ' && '1' <= b <= '9')
    case Hour => (a == '2' && '0' <= b <= '3') || ('0' <= a <= '1' && IsDigit(b))
    case Minute => '0' <= a <= '5' && IsDigit(b)
    case Second => (a == '6' && '0' <= b <= '1') || ('0' <= a <= '5' && IsDigit(b))
  }

  /** The one-character branch: `[1-9]` for month and day, `\d` for the others. */
  predicate OneCharField(f: Field, a: char) {
    match f
    case Month => '1' <= a <= '9'
    case Day => '1' <= a <= '9'
    case _ => IsDigit(a)
  }

  function Digit(c: char): nat
    requires IsDigit(c)
  {
    c as int - '0' as int
  }

  /** `int()` of a two-character field: two digits, or a space and a digit. */
  function TwoCharValue(a: char, b: char): nat
    requires (IsDigit(a) || a == ' ') && IsDigit(b)
  {
    if a == ' ' then Digit(b) else Digit(a) * 10 + Digit(b)
  }

  /** The values a field's branches can read. */
  predicate InFieldRange(f: Field, v: nat) {
    match f
    case Month => 1 <= v <= 12
    case Day => 1 <= v <= 31
    case Hour => v <= 23
    case Minute => v <= 59
    case Second => v <= 61
  }

  /** The first match of the fields `fs` at position `i`, in backtracking order: the values
      read and the position where the match ends. */
  function MatchFields(s: string, i: nat, fs: seq<Field>): (r: Option<(seq<nat>, nat)>)
    requires i <= |s|
    ensures r.Some? ==> |r.value.0| == |fs| && i + |fs| <= r.value.1 <= i + 2 * |fs| && r.value.1 <= |s|
    ensures r.Some? ==> forall k :: 0 <= k < |fs| ==> InFieldRange(fs[k], r.value.0[k])
    decreases |fs|
  {
    if fs == [] then Some(([], i))
    else
      var two := if i + 2 <= |s| && TwoCharField(fs[0], s[i], s[i + 1]) then
          match MatchFields(s, i + 2, fs[1..])
          case Some(m) => Some(([TwoCharValue(s[i], s[i + 1])] + m.0, m.1))
          case None => None
        else None;
      if two.Some? then two
      else if i + 1 <= |s| && OneCharField(fs[0], s[i]) then
        match MatchFields(s, i + 1, fs[1..])
        case Some(m) => Some(([Digit(s[i])] + m.0, m.1))
        case None => None
      else None
  }

  /** `datetime.strptime(s, "%Y%m%d%H%M%S")`: the first match must end at the end of the text,
      and its fields must name a date and time `datetime` accepts (no day 30 of February, no
      second 60 or 61). */
  function ParseCompactTimestamp(s: string): (r: Option<DateTime>)
    ensures r.Some? ==> 9 <= |s| <= 14 && AllDigits(s[..4]) && r.value.micro == 0
    ensures r.Some? ==> IsValidDate(r.value.year, r.value.month, r.value.day)
                        && IsValidTime(r.value.hour, r.value.minute, r.value.second)
  {
    if |s| < 4 || !AllDigits(s[..4]) then None
    else
      match MatchFields(s, 4, CompactFields)
      case None => None
      case Some(m) =>
        if m.1 != |s| then None
        else
          assert |CompactFields| == 5;
          var dt := DateTime(DigitsValue(s[..4]), m.0[0], m.0[1], m.0[2], m.0[3], m.0[4], 0);
          if IsValidDate(dt.year, dt.month, dt.day) && IsValidTime(dt.hour, dt.minute, dt.second)
          then Some(dt) else None
  }

  /** Every field takes its two-character branch from position `i` on. */
  predicate AllTwoChar(s: string, i: nat, fs: seq<Field>)
    decreases |fs|
  {
    fs == [] || (i + 2 <= |s| && TwoCharField(fs[0], s[i], s[i + 1]) && AllTwoChar(s, i + 2, fs[1..]))
  }

  /** The values of the two-character reading from position `i` on. */
  function TwoCharValues(s: string, i: nat, fs: seq<Field>): seq<nat>
    requires AllTwoChar(s, i, fs)
    decreases |fs|
  {
    if fs == [] then [] else [TwoCharValue(s[i], s[i + 1])] + TwoCharValues(s, i + 2, fs[1..])
  }

  /** When every field can take two characters, the first match does so. */
  lemma {:induction false} FirstMatchTwoChar(s: string, i: nat, fs: seq<Field>)
    requires i <= |s| && AllTwoChar(s, i, fs)
    ensures MatchFields(s, i, fs) == Some((TwoCharValues(s, i, fs), i + 2 * |fs|))
    decreases |fs|
  {
    if fs != [] {
      FirstMatchTwoChar(s, i + 2, fs[1..]);
    }
  }

  /** A match as wide as it can be took the two-character branch of every field. */
  lemma {:induction false} FullWidthMatch(s: string, i: nat, fs: seq<Field>)
    requires i <= |s| && MatchFields(s, i, fs).Some? && MatchFields(s, i, fs).value.1 == i + 2 * |fs|
    ensures AllTwoChar(s, i, fs) && MatchFields(s, i, fs).value.0 == TwoCharValues(s, i, fs)
    decreases |fs|
  {
    if fs != [] {
      if i + 2 <= |s| && TwoCharField(fs[0], s[i], s[i + 1]) && MatchFields(s, i + 2, fs[1..]).Some? {
        var m := MatchFields(s, i + 2, fs[1..]).value;
        assert MatchFields(s, i, fs) == Some(([TwoCharValue(s[i], s[i + 1])] + m.0, m.1));
        FullWidthMatch(s, i + 2, fs[1..]);
      } else {
        assert false;
      }
    }
  }

  /** Two ASCII digits in a field's range are matched by its two-character branch. */
  lemma TwoDigitField(f: Field, a: char, b: char)
    requires IsDigit(a) && IsDigit(b) && InFieldRange(f, TwoCharValue(a, b))
    requires f != Day || TwoCharValue(a, b) != 0
    ensures TwoCharField(f, a, b)
  {
  }

  /** Fourteen digits `YYYYMMDDHHMMSS` are read field by field exactly when they name a valid
      date and time; the result then renders as `YYYY-MM-DDTHH:MM:SS` with the same digits. */
  lemma CompactTimestampIso(s: string)
    requires |s| == 14 && AllDigits(s)
    ensures var dt := DateTime(DigitsValue(s[0..4]), DigitsValue(s[4..6]), DigitsValue(s[6..8]),
                               DigitsValue(s[8..10]), DigitsValue(s[10..12]), DigitsValue(s[12..14]), 0);
      ParseCompactTimestamp(s)
      == if IsValidDate(dt.year, dt.month, dt.day) && IsValidTime(dt.hour, dt.minute, dt.second)
         then Some(dt) else None
    ensures ParseCompactTimestamp(s).Some? ==>
      IsoFormat(ParseCompactTimestamp(s).value)
      == s[0..4] + "-" + s[4..6] + "-" + s[6..8] + "T" + s[8..10] + ":" + s[10..12] + ":" + s[12..14]
  {
    var dt := CompactDateTime(s);
    if IsValidDate(dt.year, dt.month, dt.day) && IsValidTime(dt.hour, dt.minute, dt.second) {
      CompactValidRead(s);
      CompactDigitsFormat(s);
    } else {
      CompactInvalidRead(s);
    }
  }

  /** The date and time a fourteen-digit timestamp spells, field by field. */
  function CompactDateTime(s: string): DateTime
    requires |s| == 14 && AllDigits(s)
  {
    DateTime(DigitsValue(s[0..4]), DigitsValue(s[4..6]), DigitsValue(s[6..8]),
             DigitsValue(s[8..10]), DigitsValue(s[10..12]), DigitsValue(s[12..14]), 0)
  }

  /** The two-digit fields of a fourteen-digit timestamp, as the two-character branches read them. */
  lemma CompactFieldValues(s: string)
    requires |s| == 14 && AllDigits(s)
    ensures var dt := CompactDateTime(s);
      dt.month == TwoCharValue(s[4], s[5]) && dt.day == TwoCharValue(s[6], s[7])
      && dt.hour == TwoCharValue(s[8], s[9]) && dt.minute == TwoCharValue(s[10], s[11])
      && dt.second == TwoCharValue(s[12], s[13])
  {
    TwoDigitsValue(s[4..6]);
    TwoDigitsValue(s[6..8]);
    TwoDigitsValue(s[8..10]);
    TwoDigitsValue(s[10..12]);
    TwoDigitsValue(s[12..14]);
  }

  /** A valid fourteen-digit timestamp is read field by field. */
  lemma CompactValidRead(s: string)
    requires |s| == 14 && AllDigits(s)
    requires var dt := CompactDateTime(s);
      IsValidDate(dt.year, dt.month, dt.day) && IsValidTime(dt.hour, dt.minute, dt.second)
    ensures ParseCompactTimestamp(s) == Some(CompactDateTime(s))
  {
    CompactFieldValues(s);
    assert s[..4] == s[0..4];
    TwoDigitField(Month, s[4], s[5]);
    TwoDigitField(Day, s[6], s[7]);
    TwoDigitField(Hour, s[8], s[9]);
    TwoDigitField(Minute, s[10], s[11]);
    TwoDigitField(Second, s[12], s[13]);
    assert AllTwoChar(s, 4, CompactFields) by {
      var f := CompactFields;
      assert f[1..] == [Day, Hour, Minute, Second] && f[1..][1..] == [Hour, Minute, Second];
      assert f[1..][1..][1..] == [Minute, Second] && f[1..][1..][1..][1..] == [Second];
    }
    FirstMatchTwoChar(s, 4, CompactFields);
    CompactTwoCharValues(s);
  }

  /** An invalid fourteen-digit timestamp is rejected. */
  lemma CompactInvalidRead(s: string)
    requires |s| == 14 && AllDigits(s)
    requires var dt := CompactDateTime(s);
      !(IsValidDate(dt.year, dt.month, dt.day) && IsValidTime(dt.hour, dt.minute, dt.second))
    ensures ParseCompactTimestamp(s).None?
  {
    if ParseCompactTimestamp(s).Some? {
      CompactFieldValues(s);
      assert s[..4] == s[0..4];
      FullWidthMatch(s, 4, CompactFields);
      CompactTwoCharValues(s);
      assert false;
    }
  }

  /** The fields of fourteen digits render as those digits. */
  lemma CompactDigitsFormat(s: string)
    requires |s| == 14 && AllDigits(s)
    ensures IsoFormat(CompactDateTime(s))
      == s[0..4] + "-" + s[4..6] + "-" + s[6..8] + "T" + s[8..10] + ":" + s[10..12] + ":" + s[12..14]
  {
    PadNatOfDigits(s[0..4]);
    PadNatOfDigits(s[4..6]);
    PadNatOfDigits(s[6..8]);
    PadNatOfDigits(s[8..10]);
    PadNatOfDigits(s[10..12]);
    PadNatOfDigits(s[12..14]);
  }

  lemma TwoDigitsValue(p: string)
    requires |p| == 2 && AllDigits(p)
    ensures DigitsValue(p) == TwoCharValue(p[0], p[1])
  {
    var q := p[..1];
    assert q[..0] == [] && q[0] == p[0];
    assert DigitsValue(q) == Digit(p[0]);
  }

  /** The two-character values of a fourteen-digit timestamp, field by field. */
  lemma CompactTwoCharValues(s: string)
    requires |s| == 14 && AllDigits(s) && AllTwoChar(s, 4, CompactFields)
    ensures TwoCharValues(s, 4, CompactFields)
         == [TwoCharValue(s[4], s[5]), TwoCharValue(s[6], s[7]), TwoCharValue(s[8], s[9]),
             TwoCharValue(s[10], s[11]), TwoCharValue(s[12], s[13])]
  {
    var f := CompactFields;
    assert f[1..] == [Day, Hour, Minute, Second] && f[1..][1..] == [Hour, Minute, Second];
    assert f[1..][1..][1..] == [Minute, Second] && f[1..][1..][1..][1..] == [Second];
  }

  /** An HL7 timestamp of minute precision, `YYYYMMDDHHMM`, is misread: after the hour, the two
      minute digits become a one-digit minute and a one-digit second, so "202401151030" reads
      as 10:03:00. */
  lemma MinutePrecisionMisread(s: string)
    requires |s| == 12 && AllDigits(s)
    requires IsValidDate(DigitsValue(s[0..4]), DigitsValue(s[4..6]), DigitsValue(s[6..8]))
    requires DigitsValue(s[8..10]) <= 23
    ensures ParseCompactTimestamp(s)
         == Some(DateTime(DigitsValue(s[0..4]), DigitsValue(s[4..6]), DigitsValue(s[6..8]),
                          DigitsValue(s[8..10]), Digit(s[10]), Digit(s[11]), 0))
  {
    TwoDigitsValue(s[4..6]);
    TwoDigitsValue(s[6..8]);
    TwoDigitsValue(s[8..10]);
    TwoDigitField(Month, s[4], s[5]);
    TwoDigitField(Day, s[6], s[7]);
    TwoDigitField(Hour, s[8], s[9]);
    assert MatchFields(s, 11, [Second]) == Some(([Digit(s[11])], 12)) by {
      assert [Second][1..] == [];
      assert MatchFields(s, 12, []) == Some(([], 12));
      assert OneCharField(Second, s[11]);
      assert !(11 + 2 <= |s|);
      var r := MatchFields(s, 11, [Second]);
      assert r.Some?;
      assert r.value.1 == 12;
      assert r.value.0 == [Digit(s[11])];
    }
    assert MatchFields(s, 10, [Minute, Second]) == Some(([Digit(s[10]), Digit(s[11])], 12)) by {
      assert MatchFields(s, 12, [Second]) == None;
      assert [Minute, Second][1..] == [Second];
      assert OneCharField(Minute, s[10]);
      assert [Digit(s[10])] + [Digit(s[11])] == [Digit(s[10]), Digit(s[11])];
      var r := MatchFields(s, 10, [Minute, Second]);
      assert r.Some?;
      assert r.value.1 == 12;
    }
    assert [Hour, Minute, Second][1..] == [Minute, Second];
    assert [Day, Hour, Minute, Second][1..] == [Hour, Minute, Second];
    assert CompactFields[1..] == [Day, Hour, Minute, Second];
    assert s[..4] == s[0..4];
  }

  /** A `%m` or `%d` field of `strptime`: one or two digits. */
  predicate IsShortNumber(p: string) {
    1 <= |p| <= 2 && AllDigits(p)
  }

  /** The value `strptime`'s `%d` reads: one or two digits, or a space and one digit. */
  function DayField(p: string): Option<nat> {
    if IsShortNumber(p) then Some(DigitsValue(p))
    else if |p| == 2 && p[0] == ' ' && '1' <= p[1] <= '9' then Some(DigitsValue(p[1..]))
    else None
  }

  /** `datetime.strptime(s, "%Y-%m-%d")`: a four-digit year, a one- or two-digit month, a
      one- or two-digit (or space-padded) day, naming a valid date; the time is midnight. */
  function ParseDashedDate(s: string): (r: Option<DateTime>)
    ensures r.Some? ==> r.value.hour == 0 && r.value.minute == 0 && r.value.second == 0 && r.value.micro == 0
    ensures r.Some? ==> IsValidDate(r.value.year, r.value.month, r.value.day)
  {
    var parts := Split(s, '-');
    if |parts| == 3 && |parts[0]| == 4 && AllDigits(parts[0]) && IsShortNumber(parts[1])
       && DayField(parts[2]).Some? then
      var y, m, d := DigitsValue(parts[0]), DigitsValue(parts[1]), DayField(parts[2]).value;
      if IsValidDate(y, m, d) then Some(DateTime(y, m, d, 0, 0, 0, 0)) else None
    else None
  }

  /** A well-formed `YYYY-MM-DD` date with a valid calendar value. */
  predicate IsIsoDate(s: string) {
    |s| == 10 && s[4] == '-' && s[7] == '-'
    && AllDigits(s[0..4]) && AllDigits(s[5..7]) && AllDigits(s[8..10])
    && IsValidDate(DigitsValue(s[0..4]), DigitsValue(s[5..7]), DigitsValue(s[8..10]))
  }

  /** A well-formed `HH:MM:SS` time of day. */
  predicate IsIsoTime(s: string) {
    |s| == 8 && s[2] == ':' && s[5] == ':'
    && AllDigits(s[0..2]) && AllDigits(s[3..5]) && AllDigits(s[6..8])
    && IsValidTime(DigitsValue(s[0..2]), DigitsValue(s[3..5]), DigitsValue(s[6..8]))
  }

  // ---------------------------------------------------------------------------------------
  // `datetime.fromisoformat(s)` as CPython 3.7 to 3.10 implement it: a `YYYY-MM-DD` date, then,
  // when the text is longer, any one separator character and a time part. The time part is
  // split at its first `+` or `-`; what comes before is read as a clock, what comes after as
  // the offset.

  /** What the clock reader makes of a span: the fields it read (those absent are zero) and
      whether it reported that the span does not end the text (its non-zero success return). */
  datatype ClockRead = ClockRead(hour: nat, minute: nat, second: nat, micro: nat, more: bool)

  function ClockOf(vals: seq<nat>, micro: nat, more: bool): ClockRead
    requires 1 <= |vals| <= 3
  {
    ClockRead(vals[0], if |vals| > 1 then vals[1] else 0, if |vals| > 2 then vals[2] else 0, micro, more)
  }

  /** The clock reader on the span `v[..end]` from position `p`, with `vals` the fields read so
      far; `v[end]` is the character after the span (the offset sign, or `'\0'` for the end of
      the text). Up to three two-digit fields separated by `:`; after the third field, or after
      a `.`, exactly three or six fraction digits. A field that closes the span succeeds, and
      reports `more` when the character after it is not the end of the text. `None` where the
      reader returns an error code; a closing character outside ASCII is one, since the reader
      works on UTF-8 bytes. */
  function ReadClock(v: string, end: nat, p: nat, vals: seq<nat>): (r: Option<ClockRead>)
    requires end < |v| && !IsDigit(v[end]) && p <= end && |vals| < 3
    ensures r.Some? ==> r.value.micro <= 999999
    decreases 3 - |vals|
  {
    if !(p < end && IsDigit(v[p]) && IsDigit(v[p + 1])) then None
    else
      var read := vals + [TwoCharValue(v[p], v[p + 1])];
      var c := v[p + 2];
      if p + 3 >= end then
        if p + 3 == end && c as int >= 0x80 then None
        else Some(ClockOf(read, 0, c != '\0'))
      else if c == ':' && |read| < 3 then ReadClock(v, end, p + 3, read)
      else if c == ':' || c == '.' then ReadFraction(v, end, p + 3, read)
      else None
  }

  /** The fraction after the clock fields: three digits (milliseconds) or six (microseconds)
      running to the end of the span. */
  function ReadFraction(v: string, end: nat, p: nat, vals: seq<nat>): (r: Option<ClockRead>)
    requires end < |v| && p < end && 1 <= |vals| <= 3
    ensures r.Some? ==> r.value.micro <= 999999
  {
    var n := end - p;
    if (n == 3 || n == 6) && AllDigits(v[p..end]) then
      var digits := DigitsValue(v[p..end]);
      DigitsValueBound(v[p..end]);
      assert Pow10(3) == 1000 && Pow10(6) == 1000000 by {
        assert Pow10(1) == 10 && Pow10(2) == 100 && Pow10(4) == 10000 && Pow10(5) == 100000;
      }
      Some(ClockOf(vals, if n == 3 then digits * 1000 else digits, v[end] != '\0'))
    else None
  }

  /** The largest offset magnitude a `timezone` takes, exclusive: one day. */
  const DayMicros: int := 86_400_000_000

  /** The time part after the separator: the clock and, when the part has a `+` or `-`, the
      offset. An offset is `HH:MM`, `HH:MM:SS` or `HH:MM:SS.ffffff` (six, nine or sixteen
      characters with the sign) whose fields are not range-checked; a zero count of seconds is
      UTC whatever the microseconds, and otherwise the offset must be less than a day. Without
      an offset the clock must end the text. */
  function ParseTimePart(t: string): (r: Option<(ClockRead, Option<Offset>)>)
    ensures r.Some? && r.value.1.Some? ==> -DayMicros < r.value.1.value.micros < DayMicros
  {
    var z := IndexOfAny(t, {'+', '-'});
    var v := if z < |t| then t[..z + 1] else t + ['\0'];
    match ReadClock(v, z, 0, [])
    case None => None
    case Some(clock) =>
      if z == |t| then (if clock.more then None else Some((clock, None)))
      else if |t| - z != 6 && |t| - z != 9 && |t| - z != 16 then None
      else
        match ReadClock(t[z + 1..] + ['\0'], |t| - z - 1, 0, [])
        case None => None
        case Some(tz) =>
          var sign := if t[z] == '-' then -1 else 1;
          var seconds := tz.hour * 3600 + tz.minute * 60 + tz.second;
          var micros := sign * (seconds * 1000000 + tz.micro);
          if tz.more then None
          else if seconds == 0 then Some((clock, Some(Offset(0))))
          else if -DayMicros < micros < DayMicros then Some((clock, Some(Offset(micros))))
          else None
  }

  /** `datetime.fromisoformat(s)`: `None` where Python raises ValueError, including a date or
      clock `datetime` rejects (hour 24, day 30 of February, year 0). */
  function ParseIsoFormat(s: string): (r: Option<Stamp>)
    ensures r.Some? ==> |s| >= 10 && IsIsoDate(s[..10])
    ensures r.Some? ==> IsValidTime(r.value.dt.hour, r.value.dt.minute, r.value.dt.second)
                        && r.value.dt.micro <= 999999
    ensures r.Some? && r.value.offset.Some? ==> -DayMicros < r.value.offset.value.micros < DayMicros
  {
    if |s| < 10 || !IsIsoDate(s[..10]) then None
    else
      var d := s[..10];
      var time := if |s| == 10 then Some((ClockRead(0, 0, 0, 0, false), None)) else ParseTimePart(s[11..]);
      match time
      case None => None
      case Some(read) =>
        var (c, o) := read;
        if IsValidTime(c.hour, c.minute, c.second) then
          Some(Stamp(DateTime(DigitsValue(d[0..4]), DigitsValue(d[5..7]), DigitsValue(d[8..10]),
                              c.hour, c.minute, c.second, c.micro), o))
        else None
  }

  /** `fromisoformat` accepts the text. */
  predicate IsIsoAccepted(s: string) {
    ParseIsoFormat(s).Some?
  }

  /** `fromisoformat(raw.replace("Z", "+00:00")).isoformat().replace("+00:00", "Z")`, the
      normalisation of an XML collection date; `None` where `fromisoformat` raises. */
  function IsoRoundTrip(raw: string): Option<string> {
    match ParseIsoFormat(ReplaceAll(raw, "Z", "+00:00"))
    case Some(st) => Some(ReplaceAll(StampFormat(st), "+00:00", "Z"))
    case None => None
  }

  /** A date and a time written back in ISO form are the text they were read from. */
  lemma IsoFormatOfParsed(d: string, t: string)
    requires IsIsoDate(d) && IsIsoTime(t)
    ensures IsoFormat(DateTime(DigitsValue(d[0..4]), DigitsValue(d[5..7]), DigitsValue(d[8..10]),
                               DigitsValue(t[0..2]), DigitsValue(t[3..5]), DigitsValue(t[6..8]), 0))
         == d + "T" + t
  {
    var dt := DateTime(DigitsValue(d[0..4]), DigitsValue(d[5..7]), DigitsValue(d[8..10]),
                       DigitsValue(t[0..2]), DigitsValue(t[3..5]), DigitsValue(t[6..8]), 0);
    var date := PadNat(dt.year, 4) + "-" + PadNat(dt.month, 2) + "-" + PadNat(dt.day, 2);
    var time := PadNat(dt.hour, 2) + ":" + PadNat(dt.minute, 2) + ":" + PadNat(dt.second, 2);
    IsoDateText(d);
    IsoTimeText(t);
    assert IsoFormat(dt) == date + "T" + time;
  }

  lemma IsoDateText(d: string)
    requires IsIsoDate(d)
    ensures PadNat(DigitsValue(d[0..4]), 4) + "-" + PadNat(DigitsValue(d[5..7]), 2) + "-"
            + PadNat(DigitsValue(d[8..10]), 2) == d
  {
    PadNatOfDigits(d[0..4]);
    PadNatOfDigits(d[5..7]);
    PadNatOfDigits(d[8..10]);
    assert d == d[0..4] + "-" + d[5..7] + "-" + d[8..10];
  }

  lemma IsoTimeText(t: string)
    requires IsIsoTime(t)
    ensures PadNat(DigitsValue(t[0..2]), 2) + ":" + PadNat(DigitsValue(t[3..5]), 2) + ":"
            + PadNat(DigitsValue(t[6..8]), 2) == t
  {
    PadNatOfDigits(t[0..2]);
    PadNatOfDigits(t[3..5]);
    PadNatOfDigits(t[6..8]);
    assert t == t[0..2] + ":" + t[3..5] + ":" + t[6..8];
  }

  /** The characters of an ISO date and time: digits, `-`, `T` and `:`, never `Z` or `+`. */
  lemma IsoTextHasNoZoneMarks(d: string, t: string)
    requires IsIsoDate(d) && IsIsoTime(t)
    ensures forall i :: 0 <= i < |d + "T" + t| ==> (d + "T" + t)[i] != 'Z' && (d + "T" + t)[i] != '+'
    ensures forall k :: 0 <= k < |t| ==> t[k] !in {'+', '-'}
  {
    var a := d + "T" + t;
    forall i | 0 <= i < |a| ensures a[i] != 'Z' && a[i] != '+' {
      if i < 10 { assert a[i] == d[i]; if i < 4 { assert d[i] == d[0..4][i]; }
                  else if 5 <= i < 7 { assert d[i] == d[5..7][i - 5]; }
                  else if 8 <= i { assert d[i] == d[8..10][i - 8]; } }
      else if i > 10 { assert a[i] == t[i - 11]; }
    }
    forall k | 0 <= k < |t| ensures t[k] !in {'+', '-'} {
      if k < 2 { assert t[k] == t[0..2][k]; }
      else if 3 <= k < 5 { assert t[k] == t[3..5][k - 3]; }
      else if 6 <= k { assert t[k] == t[6..8][k - 6]; }
    }
  }

  /** The instant a well-formed date and time of day name. */
  function TextDateTime(d: string, t: string): DateTime
    requires IsIsoDate(d) && IsIsoTime(t)
  {
    DateTime(DigitsValue(d[0..4]), DigitsValue(d[5..7]), DigitsValue(d[8..10]),
             DigitsValue(t[0..2]), DigitsValue(t[3..5]), DigitsValue(t[6..8]), 0)
  }

  /** One two-digit field followed by a non-digit. */
  lemma ReadOneField(v: string)
    requires |v| == 3 && AllDigits(v[0..2]) && !IsDigit(v[2])
    ensures ReadClock(v, 2, 0, []) == Some(ClockRead(DigitsValue(v[0..2]), 0, 0, 0, v[2] != '\0'))
  {
    TwoDigitsValue(v[0..2]);
  }

  /** `HH:MM` followed by a non-digit. */
  lemma ReadTwoFields(v: string)
    requires |v| == 6 && v[2] == ':' && AllDigits(v[0..2]) && AllDigits(v[3..5]) && !IsDigit(v[5])
    ensures ReadClock(v, 5, 0, [])
         == Some(ClockRead(DigitsValue(v[0..2]), DigitsValue(v[3..5]), 0, 0, v[5] != '\0'))
  {
    TwoDigitsValue(v[0..2]);
    TwoDigitsValue(v[3..5]);
    var h, m := DigitsValue(v[0..2]), DigitsValue(v[3..5]);
    assert ReadClock(v, 5, 3, [h]) == Some(ClockRead(h, m, 0, 0, v[5] != '\0'));
  }

  /** `HH:MM:SS` followed by a non-digit. */
  lemma ReadThreeFields(v: string)
    requires |v| == 9 && v[2] == ':' && v[5] == ':' && !IsDigit(v[8])
    requires AllDigits(v[0..2]) && AllDigits(v[3..5]) && AllDigits(v[6..8])
    ensures ReadClock(v, 8, 0, [])
         == Some(ClockRead(DigitsValue(v[0..2]), DigitsValue(v[3..5]), DigitsValue(v[6..8]), 0, v[8] != '\0'))
  {
    TwoDigitsValue(v[0..2]);
    TwoDigitsValue(v[3..5]);
    TwoDigitsValue(v[6..8]);
    var h, m, sec := DigitsValue(v[0..2]), DigitsValue(v[3..5]), DigitsValue(v[6..8]);
    assert ReadClock(v, 8, 6, [h, m]) == Some(ClockRead(h, m, sec, 0, v[8] != '\0'));
    assert ReadClock(v, 8, 3, [h]) == ReadClock(v, 8, 6, [h, m]);
  }

  /** A time of day, a sign and an offset text of five or eight characters: the time part is
      split at the sign and the offset read from the rest. */
  lemma TimePartWithOffset(d: string, t: string, sign: char, o: string, tz: ClockRead)
    requires IsIsoDate(d) && IsIsoTime(t) && (sign == '+' || sign == '-')
    requires (|o| == 5 || |o| == 8) && ReadClock(o + ['\0'], |o|, 0, []) == Some(tz) && !tz.more
    ensures var secs := tz.hour * 3600 + tz.minute * 60 + tz.second;
      var micros := (if sign == '-' then -1 else 1) * (secs * 1000000 + tz.micro);
      var clock := ClockRead(DigitsValue(t[0..2]), DigitsValue(t[3..5]), DigitsValue(t[6..8]), 0, true);
      ParseTimePart(t + [sign] + o)
      == if secs == 0 then Some((clock, Some(Offset(0))))
         else if -DayMicros < micros < DayMicros then Some((clock, Some(Offset(micros))))
         else None
  {
    SignAfterTime(d, t, sign, o);
    ClockBeforeSign(t, sign, o);
  }

  /** The time of day before the sign is read as its three fields, the offset text follows
      the sign. */
  lemma ClockBeforeSign(t: string, sign: char, o: string)
    requires IsIsoTime(t) && (sign == '+' || sign == '-')
    ensures var x := t + [sign] + o;
      ReadClock(x[..9], 8, 0, [])
      == Some(ClockRead(DigitsValue(t[0..2]), DigitsValue(t[3..5]), DigitsValue(t[6..8]), 0, true))
      && x[9..] == o
  {
    var x := t + [sign] + o;
    var v := x[..9];
    assert v == t + [sign];
    assert v[0..2] == t[0..2] && v[3..5] == t[3..5] && v[6..8] == t[6..8];
    ReadThreeFields(v);
    assert x[9..] == o;
  }

  /** The first sign in a time of day followed by a sign is that sign. */
  lemma SignAfterTime(d: string, t: string, sign: char, o: string)
    requires IsIsoDate(d) && IsIsoTime(t) && (sign == '+' || sign == '-')
    ensures IndexOfAny(t + [sign] + o, {'+', '-'}) == 8
  {
    var x := t + [sign] + o;
    IsoTextHasNoZoneMarks(d, t);
    assert x[8] in {'+', '-'};
    assert forall k :: 0 <= k < 8 ==> x[k] == t[k];
  }

  /** The whole text from the time part's reading: an offset with no microseconds is the signed
      count of seconds, and one of a day or more is rejected. */
  lemma OffsetParsed(d: string, t: string, sign: char, o: string, tz: ClockRead)
    requires IsIsoDate(d) && IsIsoTime(t) && (sign == '+' || sign == '-')
    requires (|o| == 5 || |o| == 8) && ReadClock(o + ['\0'], |o|, 0, []) == Some(tz) && !tz.more && tz.micro == 0
    ensures var secs := tz.hour * 3600 + tz.minute * 60 + tz.second;
      ParseIsoFormat(d + "T" + t + [sign] + o)
      == if secs < 86400
         then Some(Stamp(TextDateTime(d, t), Some(Offset((if sign == '-' then -1 else 1) * secs * 1000000))))
         else None
  {
    var x := t + [sign] + o;
    assert d + "T" + t + [sign] + o == d + "T" + x;
    TimePartWithOffset(d, t, sign, o, tz);
    var secs := tz.hour * 3600 + tz.minute * 60 + tz.second;
    var factor := if sign == '-' then -1 else 1;
    var micros := factor * (secs * 1000000 + tz.micro);
    OffsetWithinDay(factor, secs, micros);
    var clock := ClockRead(DigitsValue(t[0..2]), DigitsValue(t[3..5]), DigitsValue(t[6..8]), 0, true);
    if secs < 86400 {
      IsoWithTimePart(d, x, clock, Some(Offset(factor * secs * 1000000)));
    } else {
      IsoWithoutTimePart(d, x);
    }
  }

  /** A signed whole number of seconds, in microseconds, is within a day exactly when the
      seconds are. */
  lemma OffsetWithinDay(factor: int, secs: nat, micros: int)
    requires (factor == 1 || factor == -1) && micros == factor * (secs * 1000000 + 0)
    ensures micros == factor * secs * 1000000
    ensures (secs == 0 || -DayMicros < micros < DayMicros) == (secs < 86400)
  {
  }

  /** A date, a separator and a time part `fromisoformat` reads to a valid clock. */
  lemma IsoWithTimePart(d: string, x: string, c: ClockRead, o: Option<Offset>)
    requires IsIsoDate(d) && ParseTimePart(x) == Some((c, o)) && IsValidTime(c.hour, c.minute, c.second)
    ensures ParseIsoFormat(d + "T" + x)
      == Some(Stamp(DateTime(DigitsValue(d[0..4]), DigitsValue(d[5..7]), DigitsValue(d[8..10]),
                             c.hour, c.minute, c.second, c.micro), o))
  {
    var w := d + "T" + x;
    assert w[..10] == d && w[11..] == x;
  }

  /** A date, a separator and a time part `fromisoformat` rejects. */
  lemma IsoWithoutTimePart(d: string, x: string)
    requires IsIsoDate(d) && ParseTimePart(x).None?
    ensures ParseIsoFormat(d + "T" + x).None?
  {
    var w := d + "T" + x;
    assert w[..10] == d && w[11..] == x;
  }

  /** `fromisoformat` reads a `HH:MM` offset of any two-digit minutes (`+00:99` is 99 minutes)
      as long as it is less than a day. */
  lemma OffsetOfHourMinute(d: string, t: string, sign: char, o: string)
    requires IsIsoDate(d) && IsIsoTime(t) && (sign == '+' || sign == '-')
    requires |o| == 5 && o[2] == ':' && AllDigits(o[0..2]) && AllDigits(o[3..5])
    ensures var secs := DigitsValue(o[0..2]) * 3600 + DigitsValue(o[3..5]) * 60;
      ParseIsoFormat(d + "T" + t + [sign] + o)
      == if secs < 86400
         then Some(Stamp(TextDateTime(d, t), Some(Offset((if sign == '-' then -1 else 1) * secs * 1000000))))
         else None
  {
    HourMinuteOffsetRead(o);
    OffsetParsed(d, t, sign, o, ClockRead(DigitsValue(o[0..2]), DigitsValue(o[3..5]), 0, 0, false));
  }

  /** An `HH:MM` offset text is read as those two fields. */
  lemma HourMinuteOffsetRead(o: string)
    requires |o| == 5 && o[2] == ':' && AllDigits(o[0..2]) && AllDigits(o[3..5])
    ensures ReadClock(o + ['\0'], 5, 0, []) == Some(ClockRead(DigitsValue(o[0..2]), DigitsValue(o[3..5]), 0, 0, false))
  {
    var v := o + ['\0'];
    assert v[0..2] == o[0..2] && v[3..5] == o[3..5];
    ReadTwoFields(v);
  }

  /** `fromisoformat` reads a `HH:MM:SS` offset, seconds included, as long as it is less than
      a day. */
  lemma OffsetWithSeconds(d: string, t: string, sign: char, o: string)
    requires IsIsoDate(d) && IsIsoTime(t) && (sign == '+' || sign == '-')
    requires |o| == 8 && o[2] == ':' && o[5] == ':'
    requires AllDigits(o[0..2]) && AllDigits(o[3..5]) && AllDigits(o[6..8])
    ensures var secs := DigitsValue(o[0..2]) * 3600 + DigitsValue(o[3..5]) * 60 + DigitsValue(o[6..8]);
      ParseIsoFormat(d + "T" + t + [sign] + o)
      == if secs < 86400
         then Some(Stamp(TextDateTime(d, t), Some(Offset((if sign == '-' then -1 else 1) * secs * 1000000))))
         else None
  {
    FullOffsetRead(o);
    OffsetParsed(d, t, sign, o, ClockRead(DigitsValue(o[0..2]), DigitsValue(o[3..5]), DigitsValue(o[6..8]), 0, false));
  }

  /** An `HH:MM:SS` offset text is read as those three fields. */
  lemma FullOffsetRead(o: string)
    requires |o| == 8 && o[2] == ':' && o[5] == ':'
    requires AllDigits(o[0..2]) && AllDigits(o[3..5]) && AllDigits(o[6..8])
    ensures ReadClock(o + ['\0'], 8, 0, [])
         == Some(ClockRead(DigitsValue(o[0..2]), DigitsValue(o[3..5]), DigitsValue(o[6..8]), 0, false))
  {
    var v := o + ['\0'];
    assert v[0..2] == o[0..2] && v[3..5] == o[3..5] && v[6..8] == o[6..8];
    ReadThreeFields(v);
  }

  /** `fromisoformat` accepts a time of just the hour, `YYYY-MM-DDTHH`. */
  lemma HourOnlyTime(d: string, h: string)
    requires IsIsoDate(d) && |h| == 2 && AllDigits(h) && DigitsValue(h) <= 23
    ensures ParseIsoFormat(d + "T" + h)
         == Some(Stamp(DateTime(DigitsValue(d[0..4]), DigitsValue(d[5..7]), DigitsValue(d[8..10]),
                                DigitsValue(h), 0, 0, 0), None))
  {
    var x := d + "T" + h;
    assert x[..10] == d && x[11..] == h;
    assert IndexOfAny(h, {'+', '-'}) == 2 by {
      assert IsDigit(h[0]) && IsDigit(h[1]);
    }
    var v := h + ['\0'];
    assert v[0..2] == h;
    ReadOneField(v);
  }

  /** `fromisoformat` reads `D` + `T` + `HH:MM:SS` + `+00:00` as that instant at offset zero. */
  lemma ParseOfUtcText(d: string, t: string)
    requires IsIsoDate(d) && IsIsoTime(t)
    ensures ParseIsoFormat(d + "T" + t + "+00:00") == Some(Stamp(TextDateTime(d, t), Some(Offset(0))))
  {
    var zero := "00:00";
    ZeroFieldsOfZeroOffset();
    OffsetOfHourMinute(d, t, '+', zero);
    assert d + "T" + t + "+00:00" == d + "T" + t + ['+'] + zero;
  }

  /** The fields of the offset `00:00`. */
  lemma ZeroFieldsOfZeroOffset()
    ensures var zero := "00:00";
      zero[0..2] == "00" && zero[3..5] == "00" && AllDigits("00") && DigitsValue("00") == 0
  {
    var zero := "00:00";
    assert zero[0..2] == "00" && zero[3..5] == "00";
    assert "00"[..1] == "0" && "0"[..0] == [];
  }

  /** A UTC timestamp `YYYY-MM-DDTHH:MM:SSZ` survives the XML date normalisation unchanged. */
  lemma IsoRoundTripOfZulu(d: string, t: string)
    requires IsIsoDate(d) && IsIsoTime(t)
    ensures IsoRoundTrip(d + "T" + t + "Z") == Some(d + "T" + t + "Z")
  {
    var a := d + "T" + t;
    ZoneSuffixReplaced(d, t, "Z", "+00:00");
    ParseOfUtcText(d, t);
    UtcStampFormat(d, t);
    ZoneSuffixReplaced(d, t, "+00:00", "Z");
  }

  /** `replace` of the zone mark, either way round between `Z` and `+00:00`, rewrites only the
      suffix: the date and time before it contain neither. */
  lemma ZoneSuffixReplaced(d: string, t: string, mark: string, spelled: string)
    requires IsIsoDate(d) && IsIsoTime(t)
    requires (mark, spelled) == ("Z", "+00:00") || (mark, spelled) == ("+00:00", "Z")
    ensures ReplaceAll(d + "T" + t + mark, mark, spelled) == d + "T" + t + spelled
  {
    var a := d + "T" + t;
    IsoTextHasNoZoneMarks(d, t);
    ReplaceAllAppend(a, mark, mark, spelled);
    ReplaceAllWhole(mark, spelled);
  }

  lemma UtcStampFormat(d: string, t: string)
    requires IsIsoDate(d) && IsIsoTime(t)
    ensures StampFormat(Stamp(TextDateTime(d, t), Some(Offset(0)))) == d + "T" + t + "+00:00"
  {
    IsoFormatOfParsed(d, t);
    ZeroOffsetFormat();
  }

  /** UTC is written `+00:00`. */
  lemma ZeroOffsetFormat()
    ensures OffsetFormat(Offset(0)) == "+00:00"
  {
    assert NatToString(0) == "0";
    assert PadNat(0, 2) == "00";
  }

  /** `strptime(s, "%Y-%m-%d")` reads a well-formed `YYYY-MM-DD` as that date at midnight. */
  lemma DashedDateOfIsoDate(raw: string)
    requires IsIsoDate(raw)
    ensures ParseDashedDate(raw)
         == Some(DateTime(DigitsValue(raw[0..4]), DigitsValue(raw[5..7]), DigitsValue(raw[8..10]), 0, 0, 0, 0))
  {
    var parts := [raw[0..4], raw[5..7], raw[8..10]];
    assert raw == Join(parts, "-") by {
      assert Join(parts[2..], "-") == raw[8..10];
      assert Join(parts[1..], "-") == raw[5..7] + "-" + raw[8..10];
    }
    forall i, j | 0 <= i < 3 && 0 <= j < |parts[i]| ensures parts[i][j] != '-' {
      assert IsDigit(parts[i][j]);
    }
    assert "-" == ['-'];
    SplitJoin(parts, '-');
    assert Split(raw, '-') == parts;
    assert DayField(raw[8..10]) == Some(DigitsValue(raw[8..10]));
  }

  /** Midnight of a well-formed date is written back as the date plus `T00:00:00`. */
  lemma MidnightIsoFormat(raw: string)
    requires IsIsoDate(raw)
    ensures IsoFormat(DateTime(DigitsValue(raw[0..4]), DigitsValue(raw[5..7]), DigitsValue(raw[8..10]), 0, 0, 0, 0))
         == raw + "T00:00:00"
  {
    var t := "00:00:00";
    assert t[0..2] == "00" && t[3..5] == "00" && t[6..8] == "00";
    assert "00"[..1] == "0" && "0"[..0] == [];
    assert DigitsValue("00") == 0;
    assert IsIsoTime(t);
    IsoFormatOfParsed(raw, t);
  }

  function Pow10(w: nat): nat {
    if w == 0 then 1 else 10 * Pow10(w - 1)
  }

  /** `w` digits are worth less than `10^w`. */
  lemma {:induction false} DigitsValueBound(t: string)
    requires AllDigits(t)
    ensures DigitsValue(t) < Pow10(|t|)
  {
    if |t| > 0 {
      DigitsValueBound(t[..|t| - 1]);
    }
  }

  /** A number below `10^w` needs at most `w` digits. */
  lemma {:induction false} NatToStringWidth(n: nat, w: nat)
    requires 1 <= w && n < Pow10(w)
    ensures |NatToString(n)| <= w
  {
    if n >= 10 {
      NatToStringWidth(n / 10, w - 1);
    }
  }

  /** With every field of the clock in range, the `%Y%m%d%H%M%S%f` timestamp is exactly
      twenty digits. */
  lemma CompactTimestampWidth(now: DateTime)
    requires now.year <= 9999 && now.month <= 99 && now.day <= 99
    requires now.hour <= 99 && now.minute <= 99 && now.second <= 99 && now.micro <= 999999
    ensures |CompactTimestamp(now)| == 20 && AllDigits(CompactTimestamp(now))
  {
    assert Pow10(2) == 100 && Pow10(4) == 10000 && Pow10(6) == 1000000 by {
      assert Pow10(1) == 10;
      assert Pow10(3) == 1000;
      assert Pow10(5) == 100000;
    }
    NatToStringWidth(now.year, 4);
    NatToStringWidth(now.month, 2);
    NatToStringWidth(now.day, 2);
    NatToStringWidth(now.hour, 2);
    NatToStringWidth(now.minute, 2);
    NatToStringWidth(now.second, 2);
    NatToStringWidth(now.micro, 6);
    var t := CompactTimestamp(now);
    forall i | 0 <= i < |t| ensures IsDigit(t[i]) {
    }
  }
}
