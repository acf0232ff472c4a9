/**
 * The few JavaScript value semantics the request handlers depend on: the shapes a
 * request-body field can take, property reads by index, and conversion to string.
 */
module JsValues {
  import opened Wrappers

  /** A request-body field: missing, a single string, or a repeated field collected into an ordered list. */
  datatype Field = Absent | Scalar(text: string) | Seq(items: seq<string>)

  /** A TypeError thrown by reading property `key` of undefined. */
  datatype JsError = ReadOfUndefined(key: nat)

  /** The message V8 attaches to that TypeError. */
  function ErrorMessage(e: JsError): string {
    "Cannot read properties of undefined (reading '" + NatToString(e.key) + "')"
  }

  function NatToString(n: nat): string {
    if n < 10 then [DigitChar(n)] else NatToString(n / 10) + [DigitChar(n % 10)]
  }

  function DigitChar(d: nat): char
    requires d < 10
  {
    "0123456789"[d]
  }

  /** JavaScript truthiness of a field: undefined and "" are falsy, every array is truthy. */
  predicate Truthy(v: Field) {
    match v
    case Absent => false
    case Scalar(s) => s != ""
    case Seq(_) => true
  }

  /**
   * The expression `v[i]`: reading an index of undefined throws; indexing a string gives
   * its i-th character as a one-character string; past the end of a string or an array
   * gives undefined.
   */
  function Index(v: Field, i: nat): Result<Field, JsError> {
    match v
    case Absent => Failure(ReadOfUndefined(i))
    case Scalar(s) => Success(if i < |s| then Scalar([s[i]]) else Absent)
    case Seq(xs) => Success(if i < |xs| then Scalar(xs[i]) else Absent)
  }

  /** `String(v)`: undefined becomes "undefined", an array its elements joined by commas. */
  function ToJsString(v: Field): string {
    match v
    case Absent => "undefined"
    case Scalar(s) => s
    case Seq(xs) => Join(xs)
  }

  /** `Array.prototype.join` with the default separator. */
  function Join(xs: seq<string>): string {
    if |xs| == 0 then "" else if |xs| == 1 then xs[0] else xs[0] + "," + Join(xs[1..])
  }

  /** The abstract `parseInt` of a string; `None` is NaN. */
  type IntParser = string -> Option<int>

  /** `parseInt(v)`: JavaScript converts its argument to a string first. */
  function ParseIntOf(parseInt: IntParser, v: Field): Option<int> {
    parseInt(ToJsString(v))
  }
}
