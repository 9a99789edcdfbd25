/** The pieces of Python's `str` API that the lab-result code relies on:
    `strip`, `split`, `splitlines`, `join`, `startswith`, `replace`, `in`,
    and the decimal rendering of integers used in f-strings and `strftime`. */
module Text {

  /** `str.isspace()` for one character (the full Unicode White_Space set Python uses,
      plus the four ASCII information separators that Python also treats as space). */
  predicate IsSpace(c: char) {
    c == ' ' || ('\t' <= c <= '\r') || ('\U{1c}' <= c <= '\U{1f}')
    || c == '\U{85}' || c == '\U{a0}' || c == '\U{1680}'
    || ('\U{2000}' <= c <= '\U{200a}') || c == '\U{2028}' || c == '\U{2029}'
    || c == '\U{202f}' || c == '\U{205f}' || c == '\U{3000}'
  }

  /** Every character is white space. */
  predicate AllSpace(t: string) { forall i :: 0 <= i < |t| ==> IsSpace(t[i]) }

  /** The characters at which `str.splitlines()` breaks a line. */
  const LineBoundaries: set<char> :=
    {'\n', '\U{0b}', '\U{0c}', '\r', '\U{1c}', '\U{1d}', '\U{1e}', '\U{85}', '\U{2028}', '\U{2029}'}

  predicate IsDigit(c: char) { '0' <= c <= '9' }

  predicate AllDigits(s: string) { forall i :: 0 <= i < |s| ==> IsDigit(s[i]) }

  /** Drops leading white space. */
  function TrimStart(s: string): (r: string)
    ensures |r| <= |s| && r == s[|s| - |r|..]
    ensures r == [] || !IsSpace(r[0])
    ensures forall i :: 0 <= i < |s| - |r| ==> IsSpace(s[i])
  {
    if |s| > 0 && IsSpace(s[0]) then TrimStart(s[1..]) else s
  }

  /** Drops trailing white space. */
  function TrimEnd(s: string): (r: string)
    ensures |r| <= |s| && r == s[..|r|]
    ensures r == [] || !IsSpace(r[|r| - 1])
    ensures forall i :: |r| <= i < |s| ==> IsSpace(s[i])
  {
    if |s| > 0 && IsSpace(s[|s| - 1]) then TrimEnd(s[..|s| - 1]) else s
  }

  /** `s.strip()`: what is left after dropping white space at both ends; it is empty
      exactly when `s` is all white space. */
  function Strip(s: string): (r: string)
    ensures |r| <= |s|
    ensures r == [] <==> forall i :: 0 <= i < |s| ==> IsSpace(s[i])
    ensures r != [] ==> !IsSpace(r[0]) && !IsSpace(r[|r| - 1])
  {
    StripShape(s);
    TrimEnd(TrimStart(s))
  }

  /** `str.strip()` keeps one slice of `s`, with only white space before and after it. */
  lemma StripSlice(s: string)
    ensures exists a, b :: 0 <= a <= b <= |s| && Strip(s) == s[a..b] && AllSpace(s[..a]) && AllSpace(s[b..])
  {
    SliceBetween(s, TrimStart(s), TrimEnd(TrimStart(s)));
  }

  /** A suffix of `s` with white space before it, and a prefix of that with white space after
      it, is a slice of `s` between white space. */
  lemma SliceBetween(s: string, t: string, r: string)
    requires |t| <= |s| && t == s[|s| - |t|..] && forall i :: 0 <= i < |s| - |t| ==> IsSpace(s[i])
    requires |r| <= |t| && r == t[..|r|] && forall i :: |r| <= i < |t| ==> IsSpace(t[i])
    ensures exists a, b :: 0 <= a <= b <= |s| && r == s[a..b] && AllSpace(s[..a]) && AllSpace(s[b..])
  {
    var a := |s| - |t|;
    var b := a + |r|;
    assert t[..|r|] == s[a..b];
    assert AllSpace(s[..a]) by {
      forall i | 0 <= i < a ensures IsSpace(s[..a][i]) {
        assert s[..a][i] == s[i];
      }
    }
    assert AllSpace(s[b..]) by {
      forall i | 0 <= i < |s| - b ensures IsSpace(s[b..][i]) {
        assert s[b..][i] == t[|r| + i];
      }
    }
    assert 0 <= a <= b <= |s| && r == s[a..b];
  }

  lemma StripShape(s: string)
    ensures var r := TrimEnd(TrimStart(s));
      (r == [] <==> forall i :: 0 <= i < |s| ==> IsSpace(s[i]))
      && (r != [] ==> !IsSpace(r[0]) && !IsSpace(r[|r| - 1]))
  {
    var t := TrimStart(s);
    var r := TrimEnd(t);
    var k := |s| - |t|;
    if r != [] {
      assert r[0] == t[0];
      assert r[|r| - 1] == s[k + |r| - 1];
    } else {
      assert t == [];
    }
  }

  /** A text that neither starts nor ends with white space is its own strip. */
  lemma StripOfTrimmed(s: string)
    requires s != [] ==> !IsSpace(s[0]) && !IsSpace(s[|s| - 1])
    ensures Strip(s) == s
  {
  }

  /** Stripping twice is stripping once. */
  lemma StripIdempotent(s: string)
    ensures Strip(Strip(s)) == Strip(s)
  {
    StripOfTrimmed(Strip(s));
  }

  /** Splits `s` at every character of `seps`; the pieces never contain a separator and
      there is always one more piece than there are separators. */
  function SplitOn(s: string, seps: set<char>): (parts: seq<string>)
    ensures |parts| >= 1
    ensures forall i, j :: 0 <= i < |parts| && 0 <= j < |parts[i]| ==> parts[i][j] !in seps
  {
    if |s| == 0 then [""]
    else
      var rest := SplitOn(s[1..], seps);
      if s[0] in seps then [""] + rest
      else [[s[0]] + rest[0]] + rest[1..]
  }

  /** `s.split(d)` for a one-character separator `d`. */
  function Split(s: string, d: char): (parts: seq<string>)
    ensures |parts| >= 1
    ensures forall i, j :: 0 <= i < |parts| && 0 <= j < |parts[i]| ==> parts[i][j] != d
  {
    SplitOn(s, {d})
  }

  /** `sep.join(parts)`. */
  function Join(parts: seq<string>, sep: string): string
  {
    if |parts| == 0 then ""
    else if |parts| == 1 then parts[0]
    else parts[0] + sep + Join(parts[1..], sep)
  }

  /** Joining is appending the last part to the join of the others. */
  lemma {:induction false} JoinSnoc(parts: seq<string>, sep: string)
    requires |parts| >= 2
    ensures Join(parts, sep) == Join(parts[..|parts| - 1], sep) + sep + parts[|parts| - 1]
  {
    var n := |parts|;
    if n > 2 {
      JoinSnoc(parts[1..], sep);
      assert parts[1..][..n - 2] == parts[..n - 1][1..];
    }
  }

  /** Joining the pieces of a split with the separator gives back the text. */
  lemma {:induction false} JoinSplit(s: string, d: char)
    ensures Join(Split(s, d), [d]) == s
  {
    if |s| > 0 {
      JoinSplit(s[1..], d);
      var rest := SplitOn(s[1..], {d});
      assert Join(rest, [d]) == s[1..];
      if s[0] == d {
        JoinEmptyHead(rest, [d]);
      } else {
        JoinConsHead(s[0], rest, [d]);
      }
      assert s == [s[0]] + s[1..];
    }
  }

  /** Joining after an empty first part starts with the separator. */
  lemma JoinEmptyHead(rest: seq<string>, sep: string)
    requires |rest| >= 1
    ensures Join([""] + rest, sep) == sep + Join(rest, sep)
  {
    assert ([""] + rest)[1..] == rest;
  }

  /** Joining after a character put in front of the first part starts with that character. */
  lemma JoinConsHead(c: char, rest: seq<string>, sep: string)
    requires |rest| >= 1
    ensures Join([[c] + rest[0]] + rest[1..], sep) == [c] + Join(rest, sep)
  {
    var parts := [[c] + rest[0]] + rest[1..];
    if |rest| > 1 {
      assert parts[1..] == rest[1..];
      assert Join(parts, sep) == [c] + rest[0] + sep + Join(rest[1..], sep);
    }
  }

  /** Splitting a join of separator-free pieces gives back the pieces. */
  lemma SplitJoin(parts: seq<string>, d: char)
    requires |parts| >= 1
    requires forall i, j :: 0 <= i < |parts| && 0 <= j < |parts[i]| ==> parts[i][j] != d
    ensures Split(Join(parts, [d]), d) == parts
  {
    SplitOnJoin(parts, d, {d});
  }

  /** The same for any separator set: pieces joined with one of the separators split back. */
  lemma {:induction false} SplitOnJoin(parts: seq<string>, c: char, seps: set<char>)
    requires |parts| >= 1 && c in seps
    requires forall i, j :: 0 <= i < |parts| && 0 <= j < |parts[i]| ==> parts[i][j] !in seps
    ensures SplitOn(Join(parts, [c]), seps) == parts
  {
    if |parts| == 1 {
      SplitOnOfPlain(parts[0], seps);
    } else {
      SplitOnJoin(parts[1..], c, seps);
      SplitOnThroughSeparator(parts[0], c, Join(parts[1..], [c]), seps);
    }
  }

  /** A text without any separator splits into itself. */
  lemma {:induction false} SplitOnOfPlain(s: string, seps: set<char>)
    requires forall j :: 0 <= j < |s| ==> s[j] !in seps
    ensures SplitOn(s, seps) == [s]
  {
    if |s| > 0 {
      SplitOnOfPlain(s[1..], seps);
      assert [s[0]] + s[1..] == s;
    }
  }

  /** A separator-free head followed by a separator starts a new piece. */
  lemma {:induction false} SplitOnThroughSeparator(head: string, c: char, tail: string, seps: set<char>)
    requires c in seps
    requires forall j :: 0 <= j < |head| ==> head[j] !in seps
    ensures SplitOn(head + [c] + tail, seps) == [head] + SplitOn(tail, seps)
  {
    if |head| == 0 {
      assert head + [c] + tail == [c] + tail;
      assert ([c] + tail)[1..] == tail;
    } else {
      var s := head + [c] + tail;
      assert s[0] == head[0];
      assert s[1..] == head[1..] + [c] + tail;
      SplitOnThroughSeparator(head[1..], c, tail, seps);
      assert [head[0]] + head[1..] == head;
    }
  }

  /** The first piece is the text before the first separator; when a separator follows it,
      the remaining pieces are the split of what comes after that separator. */
  lemma {:induction false} SplitOnHead(s: string, seps: set<char>)
    ensures var p := SplitOn(s, seps);
      |p[0]| <= |s| && p[0] == s[..|p[0]|]
      && (|p[0]| == |s| ==> |p| == 1)
      && (|p[0]| < |s| ==> s[|p[0]|] in seps && p[1..] == SplitOn(s[|p[0]| + 1..], seps))
  {
    if |s| > 0 {
      SplitOnHead(s[1..], seps);
      var rest := SplitOn(s[1..], seps);
      if s[0] !in seps {
        var p := SplitOn(s, seps);
        assert p == [[s[0]] + rest[0]] + rest[1..];
        assert p[0] == [s[0]] + rest[0] && p[1..] == rest[1..];
        assert s[..|p[0]|] == [s[0]] + s[1..][..|rest[0]|];
        if |rest[0]| < |s| - 1 {
          assert s[1..][|rest[0]| + 1..] == s[|p[0]| + 1..];
        }
      } else {
        var p := SplitOn(s, seps);
        assert p == [""] + rest;
        assert p[0] == "" && p[1..] == rest;
      }
    }
  }

  predicate StartsWith(s: string, prefix: string) {
    |prefix| <= |s| && s[..|prefix|] == prefix
  }

  /** `pat` occurs in `s` starting at index `i`. */
  predicate OccursAt(s: string, pat: string, i: int) {
    0 <= i && i + |pat| <= |s| && s[i..i + |pat|] == pat
  }

  /** Index of the first occurrence of `pat` in `s`, as `str.find` gives it (-1 when none). */
  function Find(s: string, pat: string): (r: int)
    ensures r == -1 || (0 <= r <= |s| - |pat| && OccursAt(s, pat, r))
    ensures forall i :: (r < 0 || i < r) ==> !OccursAt(s, pat, i)
    decreases |s|
  {
    if |pat| > |s| then -1
    else if s[..|pat|] == pat then 0
    else
      var k := Find(s[1..], pat);
      OccursAtTail(s, pat);
      if k < 0 then -1 else k + 1
  }

  /** An occurrence at `i >= 1` in `s` is one at `i - 1` in `s[1..]`, and back. */
  lemma OccursAtTail(s: string, pat: string)
    requires |s| > 0
    ensures forall i :: 1 <= i ==> (OccursAt(s, pat, i) <==> OccursAt(s[1..], pat, i - 1))
  {
    forall i | 1 <= i ensures OccursAt(s, pat, i) <==> OccursAt(s[1..], pat, i - 1) {
      if i + |pat| <= |s| {
        SliceOfTail(s, i, |pat|);
      }
    }
  }

  lemma SliceOfTail(s: string, i: int, n: nat)
    requires 1 <= i && i + n <= |s|
    ensures s[i..i + n] == s[1..][i - 1..i - 1 + n]
  {
    var a, b := s[i..i + n], s[1..][i - 1..i - 1 + n];
    forall j | 0 <= j < n ensures a[j] == b[j] {
      assert a[j] == s[i + j];
    }
  }

  /** `pat in s` for strings. */
  predicate IsSubstring(pat: string, s: string) {
    Find(s, pat) >= 0
  }

  /** `s.replace(pat, by, 1)`. */
  function ReplaceFirst(s: string, pat: string, repl: string): (r: string)
  {
    var i := Find(s, pat);
    if i < 0 then s else s[..i] + repl + s[i + |pat|..]
  }

  /** When `s` starts with `pat`, only that prefix is rewritten. */
  lemma ReplaceFirstOfPrefix(s: string, pat: string, repl: string)
    requires StartsWith(s, pat)
    ensures ReplaceFirst(s, pat, repl) == repl + s[|pat|..]
  {
    assert Find(s, pat) == 0 by {
      if |pat| == 0 {
      } else {
        assert s[..|pat|] == pat;
      }
    }
  }

  /** `s.replace(pat, repl)` for a non-empty pattern: every occurrence, left to right. */
  function ReplaceAll(s: string, pat: string, repl: string): string
    requires |pat| > 0
    decreases |s|
  {
    if |s| < |pat| then s
    else if s[..|pat|] == pat then repl + ReplaceAll(s[|pat|..], pat, repl)
    else [s[0]] + ReplaceAll(s[1..], pat, repl)
  }

  /** A text in which the pattern's first character never occurs is left alone. */
  lemma {:induction false} ReplaceAllAbsent(s: string, pat: string, repl: string)
    requires |pat| > 0
    requires forall i :: 0 <= i < |s| ==> s[i] != pat[0]
    ensures ReplaceAll(s, pat, repl) == s
  {
    if |s| >= |pat| {
      assert s[..|pat|][0] == s[0];
      ReplaceAllAbsent(s[1..], pat, repl);
      assert [s[0]] + s[1..] == s;
    }
  }

  /** Replacing distributes over a concatenation whose left part cannot start an occurrence
      that runs into the right part. */
  lemma {:induction false} ReplaceAllAppend(a: string, b: string, pat: string, repl: string)
    requires |pat| > 0
    requires forall i :: 0 <= i < |a| ==> a[i] != pat[0]
    ensures ReplaceAll(a + b, pat, repl) == a + ReplaceAll(b, pat, repl)
  {
    if |a| > 0 {
      var s := a + b;
      assert s[1..] == a[1..] + b;
      ReplaceAllAppend(a[1..], b, pat, repl);
      if |s| >= |pat| {
        assert s[..|pat|][0] == a[0];
        calc {
          ReplaceAll(s, pat, repl);
          [a[0]] + ReplaceAll(s[1..], pat, repl);
          [a[0]] + (a[1..] + ReplaceAll(b, pat, repl));
          ([a[0]] + a[1..]) + ReplaceAll(b, pat, repl);
          { assert [a[0]] + a[1..] == a; }
          a + ReplaceAll(b, pat, repl);
        }
      } else {
        assert ReplaceAll(b, pat, repl) == b;
      }
    } else {
      assert a + b == b;
    }
  }

  /** A text that is exactly the pattern is replaced whole. */
  lemma ReplaceAllWhole(pat: string, repl: string)
    requires |pat| > 0
    ensures ReplaceAll(pat, pat, repl) == repl
  {
    assert pat[..|pat|] == pat;
    assert pat[|pat|..] == "";
  }

  function DigitChar(d: nat): char
    requires d < 10
  {
    "0123456789"[d]
  }

  /** Decimal rendering of a natural number, as `str(n)` gives it. */
  function NatToString(n: nat): (r: string)
    ensures |r| >= 1 && AllDigits(r)
    ensures n >= 10 <==> r[0] != '0' && |r| >= 2
    decreases n
  {
    if n < 10 then [DigitChar(n)] else NatToString(n / 10) + [DigitChar(n % 10)]
  }

  /** Exactly the numbers below ten are written with a single digit. */
  lemma NatToStringOneDigit(n: nat)
    ensures n < 10 <==> |NatToString(n)| == 1
  {
    if n >= 10 {
      assert |NatToString(n)| == |NatToString(n / 10)| + 1;
    }
  }

  lemma DigitCharValue(d: nat)
    requires d < 10
    ensures DigitChar(d) as int - '0' as int == d
  {
  }

  /** Reading the rendering back as a number gives `n`: `int(str(n)) == n`. */
  lemma {:induction false} NatToStringValue(n: nat)
    ensures DigitsValue(NatToString(n)) == n
    decreases n
  {
    var r := NatToString(n);
    DigitCharValue(n % 10);
    if n >= 10 {
      NatToStringValue(n / 10);
      assert r[..|r| - 1] == NatToString(n / 10);
    }
  }

  /** `n` rendered with at least `width` digits, zero-padded on the left (`%02d`, `%04d`, `%06d`). */
  function PadNat(n: nat, width: nat): (r: string)
    ensures AllDigits(r)
    ensures |r| == if |NatToString(n)| >= width then |NatToString(n)| else width
  {
    var s := NatToString(n);
    if |s| >= width then s else seq(width - |s|, _ => '0') + s
  }

  /** Value of a string of decimal digits. */
  function DigitsValue(s: string): nat
    requires AllDigits(s)
  {
    if |s| == 0 then 0 else DigitsValue(s[..|s| - 1]) * 10 + (s[|s| - 1] as int - '0' as int)
  }
}
