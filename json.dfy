/** Parsed JSON values and the JavaScript operations the extractors apply to
    them: optional chaining, truthiness, `||` defaults and string conversion.
    `JSON.parse` itself is foreign: wherever the source parses text, the model
    receives its result as an `Option<Json>` (`None` when parsing throws). */
module Json {
  import opened Outcomes
  import opened Strings

  datatype Json =
    | JNull
    | JBool(b: bool)
    | JNumber(n: real)
    | JString(s: string)
    | JArray(items: seq<Json>)
    | JObject(fields: map<string, Json>)

  /** JavaScript truthiness of a value; `None` is `undefined`. */
  predicate Truthy(v: Option<Json>) {
    match v
    case None => false
    case Some(JNull) => false
    case Some(JBool(b)) => b
    case Some(JNumber(n)) => n != 0.0
    case Some(JString(s)) => s != ""
    case Some(_) => true
  }

  /** `v?.[key]`: the property of an object; `undefined` for everything else. */
  function Get(v: Option<Json>, key: string): (r: Option<Json>)
    ensures r.Some? ==> v.Some? && v.value.JObject? && key in v.value.fields
  {
    match v
    case Some(JObject(m)) => if key in m then Some(m[key]) else None
    case _ => None
  }

  /** `v?.k1?.k2?...`: a chain of optional property reads. */
  function Path(v: Option<Json>, keys: seq<string>): Option<Json>
    decreases |keys|
  {
    if keys == [] then v else Path(Get(v, keys[0]), keys[1..])
  }

  lemma {:induction false} PathAppend(v: Option<Json>, ks: seq<string>, more: seq<string>)
    ensures Path(v, ks + more) == Path(Path(v, ks), more)
    decreases |ks|
  {
    if ks == [] {
      assert ks + more == more;
    } else {
      assert (ks + more)[1..] == ks[1..] + more;
      PathAppend(Get(v, ks[0]), ks[1..], more);
    }
  }

  /** Reading through `undefined` stays `undefined`. */
  lemma {:induction false} PathOfNone(ks: seq<string>)
    ensures Path(None, ks) == None
    decreases |ks|
  {
    if ks != [] {
      PathOfNone(ks[1..]);
    }
  }

  /** `v?.[0]`: the first element of an array, or property "0" of an object. */
  function First(v: Option<Json>): Option<Json> {
    match v
    case Some(JArray(a)) => if |a| > 0 then Some(a[0]) else None
    case Some(JObject(m)) => if "0" in m then Some(m["0"]) else None
    case _ => None
  }

  /** `Array.isArray(v)`. */
  predicate IsArray(v: Option<Json>) {
    v.Some? && v.value.JArray?
  }

  function ArrayItems(v: Option<Json>): seq<Json> {
    if IsArray(v) then v.value.items else []
  }

  /** `a || b`. */
  function Or(a: Option<Json>, b: Option<Json>): (r: Option<Json>)
    ensures Truthy(a) ==> r == a
    ensures !Truthy(a) ==> r == b
  {
    if Truthy(a) then a else b
  }

  /** `v || fallback` for a property the source expects to be a string. */
  function StringOr(v: Option<Json>, fallback: string): (r: string)
    ensures (v.Some? && v.value.JString? && v.value.s != "") ==> r == v.value.s
    ensures !Truthy(v) ==> r == fallback
  {
    match v
    case Some(JString(s)) => if s != "" then s else fallback
    case _ => fallback
  }

  /** `String(n)` for a number: exact for integers. */
  function NumberToString(n: real): string {
    IntToString(n.Floor)
  }

  /** `String(v)`, also what a template literal writes for `${v}`. */
  function Show(v: Json): string
    decreases v, 1
  {
    match v
    case JNull => "null"
    case JBool(b) => if b then "true" else "false"
    case JNumber(n) => NumberToString(n)
    case JString(s) => s
    case JArray(items) => ShowItems(v, items)
    case JObject(_) => "[object Object]"
  }

  /** `items.join(',')`, where `null` elements are written as nothing. */
  function ShowItems(parent: Json, items: seq<Json>): string
    requires forall i :: 0 <= i < |items| ==> items[i] < parent
    decreases parent, 0, |items|
  {
    if items == [] then ""
    else
      var head := if items[0] == JNull then "" else Show(items[0]);
      if |items| == 1 then head else head + "," + ShowItems(parent, items[1..])
  }

  function ShowOption(v: Option<Json>): string {
    match v
    case None => "undefined"
    case Some(j) => Show(j)
  }
}
