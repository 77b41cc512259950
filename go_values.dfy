/**
 * The Go runtime values the proxy works with: fixed-width integers, the
 * dynamically typed `interface{}` values that `encoding/json` produces for
 * `params` and `result`, and Go's integer division.
 */
module GoValues {

  /** Go's `uint64`, the type of a protocol message id. */
  newtype uint64 = x: int | 0 <= x < 0x1_0000_0000_0000_0000

  /** Go's `int64`, the type of a protocol error code. */
  newtype int64 = x: int | -0x8000_0000_0000_0000 <= x < 0x8000_0000_0000_0000

  /**
   * An `interface{}` value as `encoding/json` decodes it. `JNull` stands for
   * Go's nil interface, which is both what JSON `null` decodes to and what a
   * lookup of a missing key in a `map[string]interface{}` yields. Numbers are
   * kept in their textual form: the proxy never does arithmetic on them.
   */
  datatype Json =
    | JNull
    | JBool(b: bool)
    | JNumber(text: string)
    | JString(s: string)
    | JArray(items: seq<Json>)
    | JObject(fields: map<string, Json>)

  /** `m[key]` on a Go `map[string]interface{}`: nil when the key is absent. */
  function Lookup(m: map<string, Json>, key: string): (v: Json)
    ensures key in m ==> v == m[key]
    ensures key !in m ==> v == JNull
  {
    if key in m then m[key] else JNull
  }

  /**
   * Go's `a / 2` on signed integers, which truncates toward zero (Dafny's own
   * `/` is Euclidean and rounds -1 / 2 down to -1).
   */
  function TruncHalf(a: int): (h: int)
    ensures 0 <= a ==> 0 <= a - 2 * h <= 1
    ensures a < 0 ==> -1 <= a - 2 * h <= 0
  {
    if a >= 0 then a / 2 else -((-a) / 2)
  }

  /**
   * What `json.Marshal` returned: the encoded text, or the error whose
   * `Error()` text the caller falls back to. Go's byte slices and strings
   * are modelled as sequences of characters, one character per byte.
   */
  datatype MarshalResult = Marshaled(text: string) | MarshalFailed(errorText: string)
}
