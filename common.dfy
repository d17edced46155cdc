/**
 * Shared vocabulary of the model: optional values, results with an error
 * message, decoded JSON values and dataframe cells.
 */
module Common {

  datatype Option<+T> = None | Some(value: T)

  /** The outcome of a Python call that either returns a value or raises. */
  datatype Result<+T> = Ok(value: T) | Err(msg: string)

  /**
   * A JSON value as `json.loads` produces it. Arrays and objects nested inside
   * a frame are only ever checked for truthiness, so only their emptiness is kept.
   */
  datatype Json =
    | JNull
    | JBool(b: bool)
    | JNum(x: real)
    | JStr(s: string)
    | JContainer(empty: bool)

  /** Python truthiness of a decoded JSON value. */
  predicate Truthy(j: Json)
  {
    match j
    case JNull => false
    case JBool(b) => b
    case JNum(x) => x != 0.0
    case JStr(s) => s != ""
    case JContainer(empty) => !empty
  }

  /** `d.get(k)`: the value under `k`, or None (Python's `None`, here JNull) when absent. */
  function Get(d: map<string, Json>, k: string): Json
  {
    if k in d then d[k] else JNull
  }

  /**
   * A dataframe cell: a missing value (None/NaN) or a present value, kept as
   * the text `str()` gives for it.
   */
  datatype Cell = Null | Val(text: string)

  /** A Python list of pairs that several objects hold and append to. */
  class PairList {
    var items: seq<string>

    constructor (items: seq<string>)
      ensures this.items == items
    {
      this.items := items;
    }
  }
}
