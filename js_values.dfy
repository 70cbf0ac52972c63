/** JavaScript values as they arrive in decoded JSON responses, and the few
    JavaScript operations the Polis utilities apply to them: truthiness,
    property reads, `||`, `??`, `?.` and conversion to a string. */
module JsValues {

  datatype Option<+T> = None | Some(value: T)

  /** A decoded JSON value. A missing property reads as `JNull`: in this code
      `undefined` and `null` behave alike under `||`, `??`, `?.`, the strict
      comparisons it makes and property reads. Numbers are integers. */
  datatype Json =
    | JNull
    | JBool(b: bool)
    | JNum(n: int)
    | JStr(s: string)
    | JArr(items: seq<Json>)
    | JObj(fields: map<string, Json>)

  const EmptyObject: Json := JObj(map[])

  /** The sentinel the summary uses for "unknown", as text and as a value. */
  const NoValue: string := "---"
  const Dashes: Json := JStr(NoValue)

  /** JavaScript truthiness (JSON cannot carry NaN). */
  predicate Truthy(v: Json) {
    match v
    case JNull => false
    case JBool(b) => b
    case JNum(n) => n != 0
    case JStr(s) => s != ""
    case JArr(_) => true
    case JObj(_) => true
  }

  /** `a || b`: falsy values fall through. */
  function Or(a: Json, b: Json): Json {
    if Truthy(a) then a else b
  }

  /** `a ?? b`: only null and undefined fall through. */
  function Coalesce(a: Json, b: Json): Json {
    if a.JNull? then b else a
  }

  predicate IsDigit(c: char) { '0' <= c <= '9' }

  function DigitsValue(s: string): nat
    requires forall i :: 0 <= i < |s| ==> IsDigit(s[i])
  {
    if s == [] then 0
    else
      assert IsDigit(s[|s| - 1]);
      10 * DigitsValue(s[..|s| - 1]) + (s[|s| - 1] as int - '0' as int)
  }

  /** The array index a property key denotes: a canonical decimal numeral. */
  function ArrayIndex(key: string): Option<nat> {
    if key == [] || (key[0] == '0' && |key| > 1) then None
    else if forall i :: 0 <= i < |key| ==> IsDigit(key[i]) then Some(DigitsValue(key))
    else None
  }

  /** `v[key]` for a value that is not null; reading a property of null or
      undefined throws a TypeError, which every caller checks for first.
      Arrays and strings answer `length` and in-range indices; numbers and
      booleans have none of the properties this code reads. */
  function Prop(v: Json, key: string): Json
    requires !v.JNull?
  {
    match v
    case JObj(fields) => if key in fields then fields[key] else JNull
    case JArr(items) =>
      if key == "length" then JNum(|items|)
      else (match ArrayIndex(key)
            case Some(i) => if i < |items| then items[i] else JNull
            case None => JNull)
    case JStr(s) =>
      if key == "length" then JNum(|s|)
      else (match ArrayIndex(key)
            case Some(i) => if i < |s| then JStr([s[i]]) else JNull
            case None => JNull)
    case _ => JNull
  }

  /** `v?.[key]`: null and undefined short-circuit to undefined. */
  function OptProp(v: Json, key: string): Json {
    if v.JNull? then JNull else Prop(v, key)
  }

  /** Concatenation of `parts` with `sep` between neighbours (`Array.prototype.join`). */
  function Join(parts: seq<string>, sep: string): string {
    if parts == [] then []
    else if |parts| == 1 then parts[0]
    else parts[0] + sep + Join(parts[1..], sep)
  }

  function DigitChar(d: nat): char
    requires d < 10
  {
    ('0' as int + d) as char
  }

  /** The decimal numeral of `n`: digits only, no leading zero, and read
      back by `DigitsValue` as `n`. */
  function NatToDecimal(n: nat): (r: string)
    ensures r != [] && forall i :: 0 <= i < |r| ==> IsDigit(r[i])
    ensures r[0] == '0' ==> n == 0
    ensures DigitsValue(r) == n
    decreases n
  {
    if n < 10 then [DigitChar(n)]
    else
      var prefix := NatToDecimal(n / 10);
      var r := prefix + [DigitChar(n % 10)];
      assert r[..|r| - 1] == prefix;
      r
  }

  /** Whether `String(v)` returns rather than throws. A decoded object with an
      own `toString` property cannot be converted: that property is never
      callable, and `valueOf` then yields the object itself, so the
      conversion throws a TypeError. An array converts by joining its
      elements, so it throws when one of its elements does. */
  predicate Printable(v: Json)
    ensures !v.JObj? && !v.JArr? ==> Printable(v)
    ensures v.JObj? && "toString" in v.fields ==> !Printable(v)
    decreases v
  {
    match v
    case JObj(fields) => "toString" !in fields
    case JArr(items) => forall i :: 0 <= i < |items| ==> Printable(items[i])
    case _ => true
  }

  /** The message of the TypeError a failed conversion to a string throws. */
  const NotPrimitiveMessage: string := "Cannot convert object to primitive value"

  /** `String(v)`, as template literals and property keys use it, for a value
      it converts. Arrays join their elements with "," and render null
      elements as the empty string; other objects render as "[object Object]". */
  function Stringify(v: Json): (r: string)
    requires Printable(v)
    ensures v.JStr? ==> r == v.s
    ensures v.JNum? && v.n >= 0 ==> ArrayIndex(r) == Some(v.n)
    ensures v.JNum? && v.n < 0 ==> r != [] && r[0] == '-' && ArrayIndex(r).None?
    decreases v
  {
    match v
    case JNull => "null"
    case JBool(b) => if b then "true" else "false"
    case JNum(n) => if n < 0 then "-" + NatToDecimal(-n) else NatToDecimal(n)
    case JStr(s) => s
    case JArr(items) =>
      Join(seq(|items|, i requires 0 <= i < |items| =>
                 if items[i].JNull? then "" else Stringify(items[i])), ",")
    case JObj(_) => "[object Object]"
  }
}
