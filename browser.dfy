/** The values the two upload components receive from the browser: the file
    chosen in the file input, and the loosely typed values found in a decoded
    JSON response body. */
module Browser {

  /** A value that may be `null`/`undefined` in the source. */
  datatype Option<+T> = None | Some(value: T)

  /** A `File` object. The components only read its name and its declared
      MIME type (`file.name`, `file.type`; the browser gives "" when unknown). */
  datatype SelectedFile = SelectedFile(name: string, mimeType: string)

  /** A JavaScript value as far as the components inspect it: `Object`
      stands for any object or array. */
  datatype JsValue =
    | Undefined
    | Null
    | Bool(b: bool)
    | Number(n: real)
    | NaN
    | Str(s: string)
    | Object

  /** JavaScript truthiness, as used by `if (v)`, `!v` and `v && ...`. */
  predicate Truthy(v: JsValue)
  {
    match v
    case Undefined => false
    case Null => false
    case Bool(b) => b
    case Number(n) => n != 0.0
    case NaN => false
    case Str(s) => s != ""
    case Object => true
  }

  /** The JavaScript values that are falsy: exactly six of them. */
  lemma FalsyValues(v: JsValue)
    ensures !Truthy(v) <==> v in {Undefined, Null, Bool(false), Number(0.0), NaN, Str("")}
  {
  }
}
