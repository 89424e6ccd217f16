/**
 * Decoded JSON records, as the Python code sees them after `json.loads`.
 *
 * Objects keep their key order (a Python dict), and `JNull` stands both for a
 * JSON `null` and for Python's `None`: `d.get(k)` cannot tell a missing key
 * from a `null` value, and neither can the code modelled here.
 */
module JsonValues {
  import opened Wrappers
  import opened Dicts
  import opened Errors

  datatype Json =
    | JNull
    | JBool(b: bool)
    | JInt(i: int)
    | JStr(s: string)
    | JArr(items: seq<Json>)
    | JObj(fields: Dict<Json>)

  /** `isinstance(v, (dict, list))`. */
  predicate IsContainer(j: Json)
  {
    j.JArr? || j.JObj?
  }

  /** Python truthiness (`bool(v)`). */
  predicate Truthy(j: Json)
  {
    match j
    case JNull => false
    case JBool(b) => b
    case JInt(i) => i != 0
    case JStr(s) => s != ""
    case JArr(items) => items != []
    case JObj(fields) => fields != []
  }

  /**
   * What `for x in v` iterates: a list's items, a dict's keys and a
   * string's one-character strings; anything else is not iterable.
   */
  function Iterate(v: Json): (r: Result<seq<Json>, Error>)
    ensures r.Success? <==> v.JArr? || v.JObj? || v.JStr?
    ensures r.Failure? ==> r.error == PyError("TypeError")
    ensures v.JArr? ==> r == Success(v.items)
    ensures v.JObj? ==> (r.Success? && |r.value| == |v.fields|
      && forall i | 0 <= i < |v.fields| :: r.value[i] == JStr(v.fields[i].0))
    ensures v.JStr? ==> r.Success? && |r.value| == |v.s| && forall i | 0 <= i < |v.s| :: r.value[i] == JStr([v.s[i]])
  {
    match v
    case JArr(items) => Success(items)
    case JObj(fields) => Success(seq(|fields|, i requires 0 <= i < |fields| => JStr(fields[i].0)))
    case JStr(s) => Success(seq(|s|, i requires 0 <= i < |s| => JStr([s[i]])))
    case _ => Failure(PyError("TypeError"))
  }

  /** `d.get(k)`: the stored value, or `None` for a missing key. */
  function GetOrNone(d: Dict<Json>, k: string): (r: Json)
    ensures k !in Keys(d) ==> r == JNull
    ensures k in Keys(d) ==> Get(d, k) == Some(r)
  {
    match Get(d, k)
    case None => JNull
    case Some(v) => v
  }

  /** `d.pop(k, default)`: the value removed (or the default) and the dict that remains. */
  function Pop(d: Dict<Json>, k: string, default: Json): (r: (Json, Dict<Json>))
    ensures r.1 == Remove(d, k)
    ensures k in Keys(d) ==> Get(d, k) == Some(r.0)
    ensures k !in Keys(d) ==> r.0 == default
  {
    (match Get(d, k) case None => default case Some(v) => v, Remove(d, k))
  }

  function DigitChar(n: nat): (c: char)
    requires n < 10
    ensures '0' <= c <= '9'
  {
    ['0', '1', '2', '3', '4', '5', '6', '7', '8', '9'][n]
  }

  predicate IsDigit(c: char)
  {
    '0' <= c <= '9'
  }

  /** Decimal digits of `n`, most significant first, with no leading zero. */
  function NatToString(n: nat): (s: string)
    ensures s != []
    ensures forall i | 0 <= i < |s| :: IsDigit(s[i])
    ensures |s| > 1 ==> s[0] != '0'
  {
    if n < 10 then [DigitChar(n)] else NatToString(n / 10) + [DigitChar(n % 10)]
  }

  /** The number a string of decimal digits denotes. */
  function DigitsValue(s: string): nat
    requires forall i | 0 <= i < |s| :: IsDigit(s[i])
  {
    if s == [] then 0
    else
      assert IsDigit(s[|s| - 1]);
      10 * DigitsValue(s[..|s| - 1]) + (s[|s| - 1] as int - '0' as int)
  }

  /** `NatToString` is decoded back by `DigitsValue`, so distinct numbers print differently. */
  lemma {:induction false} NatToStringRoundTrip(n: nat)
    ensures DigitsValue(NatToString(n)) == n
  {
    if n >= 10 {
      var s := NatToString(n);
      assert s[..|s| - 1] == NatToString(n / 10);
      NatToStringRoundTrip(n / 10);
    }
  }

  /** `str(i)` for a Python int. */
  function IntToString(i: int): string
  {
    if i < 0 then "-" + NatToString(-i) else NatToString(i)
  }

  /** `str(v)`, as used in f-strings. */
  function PyStr(j: Json): string
  {
    match j
    case JStr(s) => s
    case _ => Repr(j)
  }

  /** `repr(v)`; strings are single-quoted, without Python's escapes or its switch to double quotes. */
  function Repr(j: Json): string
    decreases j, 1
  {
    match j
    case JNull => "None"
    case JBool(b) => if b then "True" else "False"
    case JInt(i) => IntToString(i)
    case JStr(s) => "'" + s + "'"
    case JArr(items) => "[" + ReprItems(items) + "]"
    case JObj(fields) => "{" + ReprFields(fields) + "}"
  }

  function ReprItems(items: seq<Json>): string
    decreases items, 0
  {
    if items == [] then ""
    else if |items| == 1 then Repr(items[0])
    else Repr(items[0]) + ", " + ReprItems(items[1..])
  }

  function ReprFields(fields: Dict<Json>): string
    decreases fields, 0
  {
    if fields == [] then ""
    else
      assert fields[0].1 < fields[0];
      var head := "'" + fields[0].0 + "': " + Repr(fields[0].1);
      if |fields| == 1 then head else head + ", " + ReprFields(fields[1..])
  }

  /** The rendering of `None` and of the booleans, which the timestamp descriptions can show. */
  lemma ScalarRendering()
    ensures PyStr(JNull) == "None"
    ensures PyStr(JBool(true)) == "True" && PyStr(JBool(false)) == "False"
    ensures PyStr(JInt(-42)) == "-42"
  {
    assert NatToString(42) == NatToString(4) + ['2'];
  }
}
