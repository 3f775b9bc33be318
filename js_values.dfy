/** The JavaScript values carried by request bodies, message metadata, mock events and
    upstream replies, with the language's truthiness, `??`, property access and
    string conversion. Numbers are integers. */
module JsValues {
  import opened Wrappers
  import opened Strings

  datatype JsValue =
    | Undefined
    | Null
    | Bool(b: bool)
    | Num(n: int)
    | Str(s: string)
    | Arr(items: seq<JsValue>)
    | Obj(fields: map<string, JsValue>)

  /** JavaScript truthiness: `undefined`, `null`, `false`, `0` and `""` are the falsy values. */
  predicate Truthy(v: JsValue) {
    match v
    case Undefined => false
    case Null => false
    case Bool(b) => b
    case Num(n) => n != 0
    case Str(s) => s != ""
    case _ => true
  }

  /** The values `??` and `?.` treat as missing. */
  predicate Nullish(v: JsValue) {
    v.Undefined? || v.Null?
  }

  /** `v ?? d`. */
  function Coalesce(v: JsValue, d: JsValue): JsValue {
    if Nullish(v) then d else v
  }

  /** `v.key`: an own field of an object, `undefined` for any other key or any other
      non-nullish value, and a TypeError (None) on `null` or `undefined`. */
  function Prop(v: JsValue, key: string): Option<JsValue> {
    match v
    case Undefined => None
    case Null => None
    case Obj(f) => Some(if key in f then f[key] else Undefined)
    case _ => Some(Undefined)
  }

  /** `v?.key`: like Prop, but `undefined` instead of a TypeError on a nullish value. */
  function OptProp(v: JsValue, key: string): JsValue {
    match Prop(v, key)
    case None => Undefined
    case Some(f) => f
  }

  /** `a === b` between parsed JSON values: two arrays or objects read from JSON text are
      never the same object, whatever they hold. */
  predicate StrictEquals(a: JsValue, b: JsValue) {
    !(a.Arr? || a.Obj?) && a == b
  }

  /** `JSON.parse`: the value a text denotes, or the message of the SyntaxError it
      throws. */
  type JsonParser = string -> Result<JsValue, string>

  /** String(v) and `${v}` for the values of this model. */
  function ToJsString(v: JsValue): string
    decreases v
  {
    match v
    case Undefined => "undefined"
    case Null => "null"
    case Bool(b) => if b then "true" else "false"
    case Num(n) => IntToString(n)
    case Str(s) => s
    case Arr(items) =>
      Join(seq(|items|, i requires 0 <= i < |items| =>
        if Nullish(items[i]) then "" else ToJsString(items[i])), ",")
    case Obj(_) => "[object Object]"
  }
}
