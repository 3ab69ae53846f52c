/** JSON values as `JSON.parse` produces them. An object lists its own properties in the order
    `Object.values` enumerates them. Where `JSON.parse` would meet a key twice, the model
    keeps both entries and a lookup reads the first; `JSON.parse` keeps the last. */
module Json {
  import opened Text

  datatype Json =
    | JNull
    | JBool(b: bool)
    | JNum(n: int)
    | JStr(s: string)
    | JArr(items: seq<Json>)
    | JObj(fields: seq<Field>)

  datatype Field = Field(key: string, value: Json)

  /** `obj[key]`: the value of the property, None for `undefined`. */
  function Get(fields: seq<Field>, key: string): (r: Option<Json>)
    ensures r.Some? <==> exists i :: 0 <= i < |fields| && fields[i].key == key
    ensures r.Some? ==> exists i :: 0 <= i < |fields| && fields[i] == Field(key, r.value)
  {
    if fields == [] then None
    else if fields[0].key == key then Some(fields[0].value)
    else
      var r := Get(fields[1..], key);
      assert forall i :: 1 <= i < |fields| ==> fields[i] == fields[1..][i - 1];
      r
  }

  /** `typeof obj[key] === "string" ? obj[key] : None`. */
  function GetString(fields: seq<Field>, key: string): (r: Option<string>)
    ensures r.Some? <==> Get(fields, key).Some? && Get(fields, key).value.JStr?
    ensures r.Some? ==> Get(fields, key) == Some(JStr(r.value))
  {
    match Get(fields, key)
    case Some(JStr(s)) => Some(s)
    case _ => None
  }

  /** JavaScript truthiness of a property value (`undefined` is falsy). */
  predicate Truthy(v: Option<Json>) {
    match v
    case None => false
    case Some(JNull) => false
    case Some(JBool(b)) => b
    case Some(JNum(n)) => n != 0
    case Some(JStr(s)) => s != ""
    case Some(_) => true
  }

  /** `value ?? fallback` sees `null` and `undefined` as missing. */
  predicate Nullish(v: Option<Json>) {
    v.None? || v == Some(JNull)
  }

  /** `String(value)` throws a TypeError. A parsed object with an own `toString` property
      holds a JSON value there, which is never callable; `valueOf`, inherited or own, gives
      no primitive either, so the conversion fails. An array's `toString` is its `join`,
      which converts every element that is not null, so one such element anywhere inside
      makes it fail too. */
  predicate StringThrows(j: Json) {
    match j
    case JObj(fields) => Get(fields, "toString").Some?
    case JArr(items) => exists i :: 0 <= i < |items| && StringThrows(items[i])
    case _ => false
  }

  /** An object with an own `toString`, as `JSON.parse('{"toString":1}')` gives. */
  const OwnToString: Json := JObj([Field("toString", JNum(1))])

  /** Converting it to a string throws, and so does converting an array that holds it. */
  lemma OwnToStringThrows(items: seq<Json>)
    requires OwnToString in items
    ensures StringThrows(OwnToString) && StringThrows(JArr(items))
  {
    assert OwnToString.fields[0].key == "toString";
  }

  /** The text `String(value)` gives when it does not throw (`StringThrows`): arrays join
      their elements with commas (null elements give ""), objects without an own `toString`
      give "[object Object]"; a missing value gives "undefined". */
  function JsString(v: Option<Json>): string {
    match v
    case None => "undefined"
    case Some(j) => ValueString(j)
  }

  function ValueString(j: Json): string {
    match j
    case JNull => "null"
    case JBool(b) => if b then "true" else "false"
    case JNum(n) => IntToString(n)
    case JStr(s) => s
    case JArr(items) => ItemsString(items)
    case JObj(_) => "[object Object]"
  }

  function ItemsString(items: seq<Json>): string
    decreases items
  {
    if items == [] then ""
    else
      var init := ItemsString(items[..|items| - 1]);
      var last := items[|items| - 1];
      var s := if last == JNull then "" else ValueString(last);
      if |items| == 1 then s else init + "," + s
  }
}
