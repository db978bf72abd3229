/**
 * The dynamic JavaScript values that cross the client's boundaries: thrown
 * errors, response bodies and the user profile. Only the operations the
 * client applies to them are modelled: truthiness, `??`, property reads,
 * `String(v)`, `Number(s)`, and JSON encoding as an injected codec.
 */
module JsValues {
  import opened Options
  import Text

  /**
   * A JavaScript value. Numbers are integers (`NaN` apart); objects are
   * property maps (arrays and functions are not distinguished from them).
   */
  datatype JsValue =
    | Undefined
    | Null
    | Bool(b: bool)
    | NaN
    | Num(n: int)
    | Str(s: string)
    | Obj(props: map<string, JsValue>)

  /** `Boolean(v)`: false exactly for undefined, null, false, NaN, 0 and "". */
  predicate Truthy(v: JsValue) {
    match v
    case Undefined => false
    case Null => false
    case Bool(b) => b
    case NaN => false
    case Num(n) => n != 0
    case Str(s) => |s| > 0
    case Obj(_) => true
  }

  /** `v === null || v === undefined`: the values `??` and `?.` treat as missing. */
  predicate Nullish(v: JsValue) {
    v.Undefined? || v.Null?
  }

  /** `v ?? d`. */
  function Coalesce(v: JsValue, d: JsValue): (r: JsValue)
    ensures Nullish(v) ==> r == d
    ensures !Nullish(v) ==> r == v
  {
    if Nullish(v) then d else v
  }

  /** `v?.key` (and `v.key` on a value that has properties): a missing property reads as undefined. */
  function Get(v: JsValue, key: string): JsValue {
    match v
    case Obj(props) => if key in props then props[key] else Undefined
    case _ => Undefined
  }

  /** `typeof v === 'string' && v.length`: a string with at least one character. */
  predicate IsNonEmptyString(v: JsValue) {
    v.Str? && |v.s| > 0
  }

  /** `String(v)` for the values the client converts (plain objects print as `[object Object]`). */
  function ToJsString(v: JsValue): (r: string)
    ensures Truthy(v) ==> |r| > 0
    ensures v.Str? ==> r == v.s
  {
    match v
    case Undefined => "undefined"
    case Null => "null"
    case Bool(b) => if b then "true" else "false"
    case NaN => "NaN"
    case Num(n) => Text.DecimalString(n)
    case Str(s) => s
    case Obj(_) => "[object Object]"
  }

  /** `Number(s)` for a string: an integer, or NaN when `s` is not an integer literal. */
  function ToNumber(s: string): (r: JsValue)
    ensures r.Num? || r.NaN?
    ensures forall n :: s == Text.DecimalString(n) ==> r == Num(n)
  {
    forall n | s == Text.DecimalString(n)
      ensures Text.ParseInteger(s) == Some(n)
    {
      Text.ParseDecimalString(n);
    }
    match Text.ParseInteger(s)
    case Some(n) => Num(n)
    case None => NaN
  }

  /**
   * `err?.message ? String(err.message) : fallback`, the message-or-default
   * pattern every caller of the service applies to what it caught.
   */
  function MessageOr(err: JsValue, fallback: string): (r: string)
    ensures !Truthy(Get(err, "message")) ==> r == fallback
    ensures Truthy(Get(err, "message")) ==> |r| > 0
    ensures IsNonEmptyString(Get(err, "message")) ==> r == Get(err, "message").s
    ensures |fallback| > 0 ==> |r| > 0
  {
    var m := Get(err, "message");
    if Truthy(m) then ToJsString(m) else fallback
  }

  /**
   * `JSON.stringify` and `JSON.parse`, injected: `None` stands for the call
   * throwing. Nothing is assumed about them unless a lemma says so.
   */
  datatype JsonCodec = JsonCodec(stringify: JsValue -> Option<string>, parse: string -> Option<JsValue>)
}
