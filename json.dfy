/** The JSON values the build reads and writes (IIIF collections and
    manifests, the manifest index, package.json files), with the parts of
    JavaScript's value semantics the core relies on: truthiness, property
    lookup, `a || b`, and `String(v)`. Object fields keep their insertion
    order. That is the order `Object.keys` gives for keys that are not
    integer-like; JavaScript enumerates integer-like keys first, in numeric
    order, and that reordering is not modelled here. */
module Json {
  import opened Text

  datatype Option<T> = None | Some(value: T)

  datatype Json =
    | JNull
    | JBool(b: bool)
    | JNum(n: int)
    | JStr(s: string)
    | JArr(items: seq<Json>)
    | JObj(fields: seq<Field>)

  datatype Field = Field(key: string, value: Json)

  function Keys(fields: seq<Field>): (ks: seq<string>)
    ensures |ks| == |fields|
    ensures forall i :: 0 <= i < |fields| ==> ks[i] == fields[i].key
  {
    if fields == [] then [] else [fields[0].key] + Keys(fields[1..])
  }

  /** No key occurs twice among the fields. */
  predicate DistinctKeys(fields: seq<Field>) {
    forall i, j :: 0 <= i < j < |fields| ==> fields[i].key != fields[j].key
  }

  /** The value of property `k` of an object, if it has one. */
  function Lookup(fields: seq<Field>, k: string): (r: Option<Json>)
    ensures r.None? <==> forall i :: 0 <= i < |fields| ==> fields[i].key != k
    ensures r.Some? ==> exists i :: 0 <= i < |fields| && fields[i] == Field(k, r.value)
  {
    if fields == [] then None
    else if fields[0].key == k then Some(fields[0].value)
    else Lookup(fields[1..], k)
  }

  /** `v[k]` on a value that is not null: only objects carry named properties
      among those the core reads. */
  function Get(v: Json, k: string): Option<Json> {
    if v.JObj? then Lookup(v.fields, k) else None
  }

  /** `Get` on a value that may itself be missing (`undefined`). */
  function GetOpt(v: Option<Json>, k: string): Option<Json> {
    if v.Some? then Get(v.value, k) else None
  }

  predicate Truthy(v: Json) {
    match v
    case JNull => false
    case JBool(b) => b
    case JNum(n) => n != 0
    case JStr(s) => s != ""
    case JArr(_) => true
    case JObj(_) => true
  }

  /** Truthiness of a value that may be `undefined` (`None`). */
  predicate TruthyOpt(v: Option<Json>) {
    v.Some? && Truthy(v.value)
  }

  /** JavaScript's `a || b`. */
  function Or(a: Option<Json>, b: Option<Json>): (r: Option<Json>)
    ensures TruthyOpt(a) ==> r == a
    ensures !TruthyOpt(a) ==> r == b
  {
    if TruthyOpt(a) then a else b
  }

  /** `typeof v === "object"` for a value that is not null (arrays are objects). */
  predicate IsObjectLike(v: Json) {
    v.JArr? || v.JObj?
  }

  /** `String(v)`. Arrays join their elements with commas, rendering null as
      the empty string; plain objects render as "[object Object]". */
  function ToJsString(v: Json): string {
    match v
    case JNull => "null"
    case JBool(b) => if b then "true" else "false"
    case JNum(n) => IntToString(n)
    case JStr(s) => s
    case JArr(items) => JoinElements(items)
    case JObj(_) => "[object Object]"
  }

  function JoinElements(items: seq<Json>): string
    decreases items, 0
  {
    if items == [] then ""
    else
      var head := if items[0].JNull? then "" else ToJsString(items[0]);
      if |items| == 1 then head else head + "," + JoinElements(items[1..])
  }

  /** `String(v)` for a value that may be `undefined`. */
  function OptToJsString(v: Option<Json>): string {
    if v.Some? then ToJsString(v.value) else "undefined"
  }

  /** `String(a || b || "")`: how the core reads ids and type names. */
  function FirstTruthyString(a: Option<Json>, b: Option<Json>): (r: string)
    ensures !TruthyOpt(a) && !TruthyOpt(b) ==> r == ""
    ensures TruthyOpt(a) ==> r == ToJsString(a.value)
    ensures !TruthyOpt(a) && TruthyOpt(b) ==> r == ToJsString(b.value)
  {
    OptToJsString(Or(a, Or(b, Some(JStr("")))))
  }
}
