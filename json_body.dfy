/**
 * Request bodies as the route handlers read them: a parsed JSON object whose
 * fields are destructured into JavaScript values. A field the body does not
 * have reads as `undefined`. The handlers test these values for truthiness,
 * with `typeof`, with `includes` on a list of strings, and by converting
 * them to text.
 */
module JsonBody {
  import opened Wrappers

  /**
   * A JavaScript value taken from a JSON body. An array or an object is one
   * opaque value, kept with the text `String(v)` gives it and its `length`
   * property when that is a number.
   */
  datatype Json =
    | Undefined
    | Null
    | Bool(b: bool)
    | Num(x: real)
    | Str(s: string)
    | Composite(text: string, length: Option<nat>)

  /** A JSON object body: absent fields read as `undefined`. */
  type Body = map<string, Json>

  function Field(body: Body, key: string): (v: Json)
    ensures key !in body ==> v == Undefined
  {
    if key in body then body[key] else Undefined
  }

  /** JavaScript truthiness: `undefined`, `null`, `false`, `0` and `""` are falsy; arrays and objects are truthy. */
  predicate Truthy(v: Json) {
    match v
    case Undefined => false
    case Null => false
    case Bool(b) => b
    case Num(x) => x != 0.0
    case Str(s) => s != ""
    case Composite(_, _) => true
  }

  /** `options.includes(v)` on a list of strings: only a string equal to one of them is included. */
  predicate OneOf(v: Json, options: seq<string>) {
    v.Str? && v.s in options
  }

  /**
   * `String(v)`, given the host's text for a number. A string is its own
   * text; `undefined`, `null` and the booleans spell themselves out.
   */
  function ToText(v: Json, numberText: real -> string): string {
    match v
    case Undefined => "undefined"
    case Null => "null"
    case Bool(b) => if b then "true" else "false"
    case Num(x) => numberText(x)
    case Str(s) => s
    case Composite(text, _) => text
  }

  /**
   * Mongoose's cast of a value to a `String` path: a string is kept, a
   * number or a boolean becomes its text. `None` when there is no string to
   * store: `undefined` and `null` leave the path unset, and an array or an
   * object is a CastError.
   */
  function StringCast(v: Json, numberText: real -> string): (r: Option<string>)
    ensures r.Some? <==> v.Str? || v.Num? || v.Bool?
    ensures r.Some? ==> r.value == ToText(v, numberText)
  {
    match v
    case Str(s) => Some(s)
    case Num(x) => Some(numberText(x))
    case Bool(b) => Some(if b then "true" else "false")
    case _ => None
  }

  /** A rejected request: the HTTP status and the message of the `{ success: false, message }` body. */
  datatype Failure = Failure(status: nat, message: string)

  /** `typeof v === "number" && v >= bound`, the form every numeric field check takes. */
  predicate NumberAtLeast(v: Json, bound: real) {
    v.Num? && v.x >= bound
  }

  /** The falsy values are exactly the absent value, `null`, `false`, zero and the empty string. */
  lemma FalsyValues(v: Json)
    ensures !Truthy(v) <==> v in {Undefined, Null, Bool(false), Num(0.0), Str("")}
  {
  }
}
