/**
 * The candlestick vocabulary the server-side files share: the subscribe
 * frame they send on the `spot.candlesticks` channel, the conversion of an
 * epoch field to a timestamp, and the nine-field row they hand on or store.
 */
module Candles {
  import opened Common
  import opened Text

  /** A subscribe request as sent on the socket, before JSON encoding. */
  datatype SubscribeFrame = SubscribeFrame(time: int, channel: string, event: string, payload: seq<string>)

  const CandlesChannel: string := "spot.candlesticks"

  /** The frame subscribing `pair` at `interval`, stamped with `time`. */
  function SubscribeFor(time: int, interval: string, pair: string): SubscribeFrame
  {
    SubscribeFrame(time, CandlesChannel, "subscribe", [interval, pair])
  }

  /** One frame per pair, in list order; `times[i]` is the clock reading taken for the i-th. */
  function SubscribeFrames(times: seq<int>, interval: string, pairs: seq<string>): (fs: seq<SubscribeFrame>)
    requires |times| == |pairs|
    ensures |fs| == |pairs|
    ensures forall i :: 0 <= i < |fs| ==>
      fs[i].channel == CandlesChannel && fs[i].event == "subscribe"
      && fs[i].payload == [interval, pairs[i]] && fs[i].time == times[i]
  {
    seq(|pairs|, i requires 0 <= i < |pairs| => SubscribeFor(times[i], interval, pairs[i]))
  }

  /** Subscribing pair by pair builds the frame list one frame at a time. */
  lemma SubscribeFramesStep(times: seq<int>, interval: string, pairs: seq<string>, i: nat)
    requires |times| == |pairs| && i < |pairs|
    ensures SubscribeFrames(times[..i + 1], interval, pairs[..i + 1])
      == SubscribeFrames(times[..i], interval, pairs[..i]) + [SubscribeFor(times[i], interval, pairs[i])]
  {
  }

  /** `float(j)`: None when `float()` raises (on None, containers and text it cannot read). */
  function ToFloat(j: Json): (r: Option<real>)
    ensures j.JNull? || j.JContainer? ==> r.None?
    ensures j.JNum? ==> r == Some(j.x)
    ensures j.JBool? ==> r == Some(if j.b then 1.0 else 0.0)
  {
    match j
    case JNull => None
    case JBool(b) => Some(if b then 1.0 else 0.0)
    case JNum(x) => Some(x)
    case JStr(s) => ParseFloat(s)
    case JContainer(_) => None
  }

  /**
   * `epoch_to_local_time`: None stays None; anything `float()` accepts gives
   * a timestamp (kept here as its epoch seconds); anything else (a TypeError
   * or ValueError) gives None.
   */
  function LocalTime(t: Json): (r: Option<real>)
    ensures t.JNull? || t.JContainer? ==> r.None?
    ensures t.JNum? ==> r == Some(t.x)
  {
    if t.JNull? then None else ToFloat(t)
  }

  /** An epoch sent as the text of a whole number converts to that number of seconds. */
  lemma LocalTimeOfText(n: int)
    ensures LocalTime(JStr(ShowInt(n))) == Some(n as real)
  {
    ParseFloatShowInt(n);
  }

  /**
   * A candlestick row in the order the handlers forward and store it:
   * timestamp, open, high, low, close, total volume, subscription name,
   * base-currency amount, window-close flag.
   */
  datatype CandleRow = CandleRow(time: Option<real>, o: Json, h: Json, l: Json, c: Json, v: Json, n: Json, a: Json, w: Json)

  /** The fields of a `result` object, with the converted timestamp and the given window-close value. */
  function RowOf(data: map<string, Json>, w: Json): CandleRow
  {
    CandleRow(LocalTime(Get(data, "t")), Get(data, "o"), Get(data, "h"), Get(data, "l"),
              Get(data, "c"), Get(data, "v"), Get(data, "n"), Get(data, "a"), w)
  }

  /**
   * The row `insert_data_to_db` executes: none when the timestamp does not
   * convert, otherwise the data's fields in table order with `w` last.
   */
  function InsertRow(data: map<string, Json>, w: Json): (r: Option<CandleRow>)
    ensures r.None? <==> LocalTime(Get(data, "t")).None?
    ensures r.Some? ==> r.value.time.Some? && r.value.w == w
  {
    if LocalTime(Get(data, "t")).None? then None else Some(RowOf(data, w))
  }

  /** What happened to one connection attempt of a reconnect loop. */
  datatype Session =
    | FailedBeforeSubscribe   // connecting or subscribing raised
    | DroppedAfterSubscribe   // subscribed, then the message loop raised
    | ClosedCleanly           // subscribed, then the server closed normally

  predicate Failed(s: Session)
  {
    !s.ClosedCleanly?
  }

  /** The number of failed sessions. */
  function FailureCount(ss: seq<Session>): nat
  {
    if |ss| == 0 then 0 else FailureCount(ss[..|ss| - 1]) + (if Failed(ss[|ss| - 1]) then 1 else 0)
  }
}
