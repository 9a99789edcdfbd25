/** The dynamically typed values the Python code handles: decoded JSON documents, their
    truthiness (`if not x`), the `in` operator on them, and `float(x)` acceptance. */
module Values {
  import opened Wrappers
  import opened Text

  /** A number, kept as the literal it was read from; nothing here does arithmetic on it. */
  datatype Number = Number(literal: string)

  /** A decoded JSON value (`json.loads` output). Objects are unordered maps. */
  datatype Json =
    | JNull
    | JBool(b: bool)
    | JNum(n: Number)
    | JStr(s: string)
    | JList(items: seq<Json>)
    | JObj(fields: map<string, Json>)

  predicate IsSign(c: char) { c == '+' || c == '-' }

  /** Position of the first character of `s` that is in `cs`, or `|s|` when there is none. */
  function IndexOfAny(s: string, cs: set<char>): (i: nat)
    ensures i <= |s|
    ensures i < |s| ==> s[i] in cs
    ensures forall j :: 0 <= j < i ==> s[j] !in cs
  {
    if |s| == 0 then 0
    else if s[0] in cs then 0
    else 1 + IndexOfAny(s[1..], cs)
  }

  /** Digits with at most one decimal point and at least one digit: `7`, `7.5`, `.5`, `7.`. */
  predicate IsMantissa(m: string) {
    var dot := IndexOfAny(m, {'.'});
    if dot == |m| then |m| > 0 && AllDigits(m)
    else |m| > 1 && AllDigits(m[..dot]) && AllDigits(m[dot + 1..])
  }

  /** An exponent after `e`/`E`: an optional sign and at least one digit. */
  predicate IsExponent(e: string) {
    var digits := if |e| > 0 && IsSign(e[0]) then e[1..] else e;
    |digits| > 0 && AllDigits(digits)
  }

  predicate IsUnsignedDecimal(t: string) {
    var e := IndexOfAny(t, {'e', 'E'});
    IsMantissa(t[..e]) && (e == |t| || IsExponent(t[e + 1..]))
  }

  /** `s.lower()` on ASCII letters. */
  function AsciiLower(s: string): (r: string)
    ensures |r| == |s|
  {
    if |s| == 0 then ""
    else [if 'A' <= s[0] <= 'Z' then (s[0] as int + 32) as char else s[0]] + AsciiLower(s[1..])
  }

  /** Each upper-case letter becomes its lower-case letter and every other character stays. */
  lemma {:induction false} AsciiLowerChars(s: string)
    ensures forall i :: 0 <= i < |s| ==>
      AsciiLower(s)[i] == if 'A' <= s[i] <= 'Z' then (s[i] as int + 32) as char else s[i]
  {
    if |s| > 0 {
      AsciiLowerChars(s[1..]);
      assert forall i :: 1 <= i < |s| ==> AsciiLower(s)[i] == AsciiLower(s[1..])[i - 1] && s[i] == s[1..][i - 1];
    }
  }

  /** `float(s)` does not raise: surrounding white space, an optional sign, then a decimal
      literal with optional exponent, or `inf`, `infinity`, `nan` in any letter case. */
  predicate IsFloatLiteral(s: string) {
    var t := Strip(s);
    var u := if |t| > 0 && IsSign(t[0]) then t[1..] else t;
    IsUnsignedDecimal(u) || AsciiLower(u) in {"inf", "infinity", "nan"}
  }

  /** `float(s)` on a string: the number, or `None` where Python raises ValueError. */
  function ParseFloat(s: string): (r: Option<Number>)
    ensures r.Some? <==> IsFloatLiteral(s)
  {
    if IsFloatLiteral(s) then Some(Number(Strip(s))) else None
  }

  /** `float(x)` on any JSON value succeeds: numbers and booleans always, strings when they
      are float literals; `None`, lists and objects raise TypeError. */
  predicate FloatConvertible(j: Json) {
    match j
    case JNull => false
    case JBool(_) => true
    case JNum(_) => true
    case JStr(s) => IsFloatLiteral(s)
    case JList(_) => false
    case JObj(_) => false
  }

  /** A number literal whose mantissa digits are all zero (`0`, `0.0`, `-0e5`). */
  predicate IsZero(n: Number) {
    var t := Strip(n.literal);
    var u := if |t| > 0 && IsSign(t[0]) then t[1..] else t;
    var m := u[..IndexOfAny(u, {'e', 'E'})];
    (exists i :: 0 <= i < |m| && m[i] == '0') && forall i :: 0 <= i < |m| ==> m[i] == '0' || m[i] == '.'
  }

  /** Python truthiness: `None`, `False`, zero, and empty strings, lists and objects are false. */
  predicate Truthy(j: Json) {
    match j
    case JNull => false
    case JBool(b) => b
    case JNum(n) => !IsZero(n)
    case JStr(s) => s != ""
    case JList(items) => items != []
    case JObj(fields) => fields != map[]
  }

  /** `null`, a boolean or a number: the values `in` cannot look into. */
  predicate IsScalar(j: Json) {
    j.JNull? || j.JBool? || j.JNum?
  }

  /** `key in container`: key lookup on an object, substring test on a string, element
      test on a list; on `None`, booleans and numbers Python raises TypeError (`None` here). */
  function Contains(container: Json, key: string): (r: Option<bool>)
    ensures r.None? <==> container.JNull? || container.JBool? || container.JNum?
    ensures container.JObj? ==> r == Some(key in container.fields)
  {
    match container
    case JObj(fields) => Some(key in fields)
    case JStr(s) => Some(IsSubstring(key, s))
    case JList(items) => Some(JStr(key) in items)
    case _ => None
  }

  /** `str(x)`: exact for strings, booleans and `None`; a number is shown as its literal, and
      lists and objects by a placeholder of the right bracket shape. */
  function Str(j: Json): string {
    match j
    case JNull => "None"
    case JBool(b) => if b then "True" else "False"
    case JNum(n) => n.literal
    case JStr(s) => s
    case JList(_) => "[...]"
    case JObj(_) => "{...}"
  }

  /** `d.get(key, default)` on an object. */
  function Get(fields: map<string, Json>, key: string, default: Json): Json {
    if key in fields then fields[key] else default
  }

  /** The Python type name of a decoded JSON value, as exception texts show it; a number
      literal without fraction or exponent decodes to an `int`. */
  function TypeName(j: Json): string {
    match j
    case JNull => "NoneType"
    case JBool(_) => "bool"
    case JNum(n) =>
      var t := if |n.literal| > 0 && n.literal[0] == '-' then n.literal[1..] else n.literal;
      if |t| > 0 && AllDigits(t) then "int" else "float"
    case JStr(_) => "str"
    case JList(_) => "list"
    case JObj(_) => "dict"
  }
}
