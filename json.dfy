/** Decoded JSON request bodies, with the Python operations the handlers apply to them:
    truthiness, `dict.get`, `int(...)` and `str(...)`. */
module Json {
  import opened Base
  import Numerals

  /** A JSON value as Python's json module decodes it. An object keeps its pairs in document
      order. Numbers with a fraction or an exponent are not part of this model. */
  datatype Json =
    | JNull
    | JBool(b: bool)
    | JInt(n: int)
    | JStr(s: string)
    | JList(items: seq<Json>)
    | JObject(fields: seq<(string, Json)>)

  /** Python truthiness: None, False, 0 and empty strings, lists and dicts are false. */
  predicate Truthy(v: Json) {
    match v
    case JNull => false
    case JBool(b) => b
    case JInt(n) => n != 0
    case JStr(s) => s != []
    case JList(items) => items != []
    case JObject(fields) => fields != []
  }

  /** `d.get(key, None)` on a decoded object. When a key is repeated the last pair wins, as with
      Python's json module; a missing key gives None. */
  function Get(fields: seq<(string, Json)>, key: string): (v: Json)
    ensures (forall i :: 0 <= i < |fields| ==> fields[i].0 != key) ==> v == JNull
    ensures (exists i :: 0 <= i < |fields| && fields[i].0 == key) ==>
              exists i :: 0 <= i < |fields| && fields[i] == (key, v) &&
                           forall j :: i < j < |fields| ==> fields[j].0 != key
  {
    if fields == [] then JNull
    else if fields[|fields| - 1].0 == key then fields[|fields| - 1].1
    else
      var front := fields[..|fields| - 1];
      assert forall i :: 0 <= i < |front| ==> front[i] == fields[i];
      Get(front, key)
  }

  /** `body.get(key, None)` where the body is known to be an object; anything else has no keys. */
  function Field(body: Json, key: string): Json {
    if body.JObject? then Get(body.fields, key) else JNull
  }

  /** Python's `int(v)`: integers as they are, booleans as 0 or 1, strings parsed as decimal
      integers; None where Python raises ValueError or TypeError. */
  function PyInt(v: Json): (r: Option<int>)
    ensures v.JInt? ==> r == Some(v.n)
    ensures v.JNull? || v.JList? || v.JObject? ==> r.None?
  {
    match v
    case JInt(n) => Some(n)
    case JBool(b) => Some(if b then 1 else 0)
    case JStr(s) => Numerals.ParseInt(s)
    case _ => None
  }

  /** `int(str(n)) == n` through a JSON string. */
  lemma PyIntOfDecimalString(n: int)
    ensures PyInt(JStr(Numerals.IntToString(n))) == Some(n)
  {
    Numerals.ParseIntRoundTrip(n);
  }

  /** Python's `str(v)`, as an f-string renders it. Only the empty string renders as nothing, so
      a truthy search term never leaves the pattern `'%%'`, which would match every row. */
  function PyStr(v: Json): (r: string)
    ensures r == [] <==> v == JStr([])
    ensures Truthy(v) ==> r != []
  {
    if v.JStr? then v.s else Repr(v)
  }

  /** Python's `repr(v)`. */
  function Repr(v: Json): string {
    match v
    case JNull => "None"
    case JBool(b) => if b then "True" else "False"
    case JInt(n) => Numerals.IntToString(n)
    case JStr(s) => QuoteString(s)
    case JList(items) =>
      "[" + Join(seq(|items|, i requires 0 <= i < |items| => Repr(items[i])), ", ") + "]"
    case JObject(fields) =>
      "{" + Join(seq(|fields|, i requires 0 <= i < |fields| =>
                       QuoteString(fields[i].0) + ": " + Repr(fields[i].1)), ", ") + "}"
  }

  function Join(parts: seq<string>, separator: string): string {
    if parts == [] then []
    else if |parts| == 1 then parts[0]
    else parts[0] + separator + Join(parts[1..], separator)
  }

  /** A string literal as repr writes it: single quotes, unless the text holds a single quote and
      no double quote. */
  function QuoteString(s: string): string {
    var quote := if '\'' in s && '"' !in s then '"' else '\'';
    [quote] + EscapeAll(s, quote) + [quote]
  }

  function EscapeAll(s: string, quote: char): string {
    if s == [] then [] else Escape(s[0], quote) + EscapeAll(s[1..], quote)
  }

  function Escape(c: char, quote: char): string {
    if c == '\\' then "\\\\"
    else if c == quote then ['\\', quote]
    else if c == '\n' then "\\n"
    else if c == '\r' then "\\r"
    else if c == '\t' then "\\t"
    else [c]
  }
}
