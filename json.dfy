/** JSON values as the backend's dictionaries hold them, with Python's truthiness. */
module Json {
  import opened Base

  /** A JSON document. Floating-point numbers are not part of this model. */
  datatype Json =
    | JNull
    | JBool(b: bool)
    | JInt(i: int)
    | JStr(s: string)
    | JArr(items: seq<Json>)
    | JObj(fields: map<string, Json>)

  const EmptyObject: Json := JObj(map[])

  /** `bool(v)` is False: None, False, 0, "", [] and {}. */
  predicate Falsy(v: Json) {
    match v
    case JNull => true
    case JBool(b) => !b
    case JInt(i) => i == 0
    case JStr(s) => s == ""
    case JArr(items) => items == []
    case JObj(fields) => fields == map[]
  }

  /** Python's `obj or {}` for a value that may be missing (None). */
  function OrEmpty(obj: Option<Json>): (r: Json)
    ensures obj.None? ==> r == EmptyObject
    ensures obj.Some? && !Falsy(obj.value) ==> r == obj.value
    ensures !Falsy(r) || r == EmptyObject
  {
    if obj.None? || Falsy(obj.value) then EmptyObject else obj.value
  }

  lemma OrEmptyIdempotent(obj: Option<Json>)
    ensures OrEmpty(Some(OrEmpty(obj))) == OrEmpty(obj)
  {
  }

  // ------------------------------------------------ as the client sees it

  /** A property of a parsed response body (`data.key`): missing where the
      body is not an object or has no such key (`undefined`). */
  function Field(body: Json, key: string): Option<Json> {
    if body.JObj? && key in body.fields then Some(body.fields[key]) else None
  }

  /** JavaScript's `Boolean(v)`, with `undefined` as None: unlike Python, an
      empty array or object is truthy. */
  predicate JsTruthy(v: Option<Json>) {
    v.Some? &&
    match v.value
    case JNull => false
    case JBool(b) => b
    case JInt(i) => i != 0
    case JStr(s) => s != ""
    case JArr(_) => true
    case JObj(_) => true
  }

  /** How a value prints inside a template literal (`${v}`). */
  function JsText(v: Option<Json>): string {
    if v.None? then "undefined" else JsValueText(v.value)
  }

  function JsValueText(v: Json): string
    decreases v, 1
  {
    match v
    case JNull => "null"
    case JBool(b) => if b then "true" else "false"
    case JInt(i) => IntToString(i)
    case JStr(s) => s
    case JArr(items) => JsJoin(items)
    case JObj(_) => "[object Object]"
  }

  /** `Array.prototype.toString`: the items joined with commas, null items
      as empty text. */
  function JsJoin(items: seq<Json>): string
    decreases items, 0
  {
    if items == [] then ""
    else
      var head := if items[0].JNull? then "" else JsValueText(items[0]);
      if |items| == 1 then head else head + "," + JsJoin(items[1..])
  }

  /** A query parameter as the client hands it to the HTTP library. */
  datatype QueryParam = PNum(n: int) | PStr(s: string)

  /** The query string as the server's request arguments see it: every
      parameter arrives as text. */
  function Sent(params: map<string, QueryParam>): (r: map<string, Json>)
    ensures r.Keys == params.Keys
    ensures forall k :: k in params ==> r[k] == JStr(ParamText(params[k]))
  {
    map k | k in params :: JStr(ParamText(params[k]))
  }

  function ParamText(p: QueryParam): string {
    match p
    case PNum(n) => IntToString(n)
    case PStr(s) => s
  }
}
