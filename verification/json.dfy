/**
 * The part of JSON this system touches: the column list it stores as text
 * (`JSON.stringify` of `{key, label}` objects) and the shapes `JSON.parse`
 * can hand back when that text is read again. Parsing text itself is not
 * modelled: a decoded value, or `Malformed` for a text that throws, is the input.
 */
module Json {
  import opened Wrappers
  import opened Text
  import opened JsNumber

  datatype Json =
    | JNull
    | JBool(b: bool)
    | JNum(d: Dec)
    | JStr(s: string)
    | JArr(items: seq<Json>)
    | JObj(fields: seq<(string, Json)>)

  /** Result of `JSON.parse`: a value, or the exception thrown on malformed text. */
  datatype Decoded = Malformed | Parsed(value: Json)

  /** `obj[name]` on a parsed object; with repeated names the last one wins, as in `JSON.parse`. */
  function Field(fields: seq<(string, Json)>, name: string): (r: Option<Json>)
    ensures r.Some? ==> exists i :: 0 <= i < |fields| && fields[i] == (name, r.value)
    ensures r.None? ==> forall i :: 0 <= i < |fields| ==> fields[i].0 != name
  {
    if fields == [] then None
    else if fields[|fields| - 1].0 == name then Some(fields[|fields| - 1].1)
    else Field(fields[..|fields| - 1], name)
  }

  /** `String(v)` for a parsed value; array elements that are `null` print as empty. */
  function JsonString(j: Json): string {
    match j
    case JNull => "null"
    case JBool(b) => if b then "true" else "false"
    case JNum(d) => DecText(d)
    case JStr(s) => s
    case JArr(items) =>
      Join(seq(|items|, i requires 0 <= i < |items| => if items[i].JNull? then "" else JsonString(items[i])), ",")
    case JObj(_) => "[object Object]"
  }

  function HexDigit(n: nat): char
    requires n < 16
  {
    "0123456789abcdef"[n]
  }

  /** How `JSON.stringify` writes one character inside a string. */
  function EscapeChar(c: char): (r: string)
    ensures |r| > 0
    ensures c != '"' && c != '\\' && c >= ' ' ==> r == [c]
  {
    if c == '"' then "\\\""
    else if c == '\\' then "\\\\"
    else if c == '\n' then "\\n"
    else if c == '\r' then "\\r"
    else if c == '\t' then "\\t"
    else if c == '\U{0008}' then "\\b"
    else if c == '\U{000C}' then "\\f"
    else if c < ' ' then "\\u00" + [HexDigit(c as int / 16), HexDigit(c as int % 16)]
    else [c]
  }

  function EscapeString(s: string): string {
    if s == [] then "" else EscapeChar(s[0]) + EscapeString(s[1..])
  }

  /** `JSON.stringify(s)` for a string. */
  function Quote(s: string): string {
    "\"" + EscapeString(s) + "\""
  }
}
