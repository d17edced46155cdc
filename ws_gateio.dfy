/**
 * server/ws_gateio.py: a candlestick feed that forwards closed windows to a
 * queue, a consumer that drains that queue in batches, and a reconnect loop
 * with capped exponential backoff.
 *
 * The socket is reduced to whether it is open and the frames sent on it;
 * the database to the batches handed to it. The clock is a parameter, and
 * the random jitter added to each backoff delay is not part of this model.
 */
module WsGateio {
  import opened Common
  import opened Candles

  /** `DatabaseHandler`: the queue `enqueue_data` fills and the batches `data_consumer` inserts. */
  class DatabaseHandler {
    var queue: seq<CandleRow>
    var inserted: seq<seq<CandleRow>>

    constructor ()
      ensures queue == [] && inserted == []
    {
      queue := [];
      inserted := [];
    }

    /** `enqueue_data`: the row joins the back of the queue. */
    method EnqueueData(row: CandleRow)
      modifies this
      ensures queue == old(queue) + [row] && inserted == old(inserted)
    {
      queue := queue + [row];
    }

    /**
     * One pass of `data_consumer`: every queued row is taken, front first,
     * into one batch, and the batch is inserted only when it is not empty.
     */
    method DrainOnce()
      modifies this
      ensures queue == []
      ensures old(queue) == [] ==> inserted == old(inserted)
      ensures old(queue) != [] ==> inserted == old(inserted) + [old(queue)]
    {
      var batch: seq<CandleRow> := [];
      while queue != []
        invariant batch + queue == old(queue)
        invariant inserted == old(inserted)
        decreases |queue|
      {
        batch := batch + [queue[0]];
        queue := queue[1..];
      }
      assert batch == old(queue) by { assert batch + queue == batch; }
      if batch != [] {
        inserted := inserted + [batch];
      }
    }
  }

  /**
   * What `on_message` forwards for a decoded `result`: nothing unless it is
   * an object holding `n` whose `w` (window closed) is truthy; then the nine
   * fields with the converted timestamp first and `w` last.
   */
  function Forwarded(result: Option<map<string, Json>>): (r: Option<CandleRow>)
    ensures r.Some? <==> result.Some? && "n" in result.value && Truthy(Get(result.value, "w"))
    ensures r.Some? ==> Truthy(r.value.w) && r.value.n == result.value["n"]
  {
    if result.Some? && "n" in result.value && Truthy(Get(result.value, "w"))
    then Some(RowOf(result.value, Get(result.value, "w")))
    else None
  }

  /** The socket class of this file: its pairs, interval, open socket and the queue its callback fills. */
  class GateIOWebSocket {
    const pairs: seq<string>
    const interval: string
    /** The `message_callback`: the database handler's `enqueue_data`, or None. */
    const sink: DatabaseHandler?
    /** Whether `self.websocket` holds a socket. */
    var connected: bool
    var sent: seq<SubscribeFrame>

    constructor (sink: DatabaseHandler?, pairs: seq<string>, interval: string)
      requires |pairs| > 0
      ensures this.sink == sink && this.pairs == pairs && this.interval == interval
      ensures !connected && sent == []
    {
      this.sink := sink;
      this.pairs := pairs;
      this.interval := interval;
      connected := false;
      sent := [];
    }

    /**
     * `on_message` for a decoded message whose `result` is `result` (None
     * when it is missing or not an object): a closed window is enqueued;
     * with no callback the call raises inside the try and nothing happens.
     */
    method OnMessage(result: Option<map<string, Json>>)
      modifies sink
      ensures sink != null && Forwarded(result).Some? ==>
        sink.queue == old(sink.queue) + [Forwarded(result).value]
      ensures sink != null && Forwarded(result).None? ==> sink.queue == old(sink.queue)
      ensures sink != null ==> sink.inserted == old(sink.inserted)
    {
      var row := Forwarded(result);
      if row.Some? && sink != null {
        sink.EnqueueData(row.value);
      }
    }

    /**
     * `subscribe`: one frame per pair, in list order; `times[i]` is the clock
     * reading for the i-th. Without a socket the first send raises
     * AttributeError and nothing is sent.
     */
    method Subscribe(times: seq<int>) returns (raised: bool)
      requires |times| == |pairs|
      modifies this
      ensures connected == old(connected)
      ensures raised <==> !connected
      ensures connected ==> sent == old(sent) + SubscribeFrames(times, interval, pairs)
      ensures !connected ==> sent == old(sent)
    {
      if !connected {
        return true;
      }
      var i := 0;
      while i < |pairs|
        invariant 0 <= i <= |pairs|
        invariant connected
        invariant sent == old(sent) + SubscribeFrames(times[..i], interval, pairs[..i])
      {
        SubscribeFramesStep(times, interval, pairs, i);
        sent := sent + [SubscribeFor(times[i], interval, pairs[i])];
        i := i + 1;
      }
      assert times[..i] == times && pairs[..i] == pairs;
      raised := false;
    }
  }

  /** `create`: the constructor's check; None or an empty list raises ValueError. */
  method Create(sink: DatabaseHandler?, pairs: Option<seq<string>>, interval: string) returns (r: Result<GateIOWebSocket>)
    ensures r.Err? <==> pairs.None? || pairs.value == []
    ensures r.Ok? ==> (fresh(r.value) && r.value.pairs == pairs.value && r.value.interval == interval
      && r.value.sink == sink && !r.value.connected && r.value.sent == [])
  {
    if pairs.None? || pairs.value == [] {
      return Err("ValueError: Pairs list cannot be None or empty.");
    }
    var s := new GateIOWebSocket(sink, pairs.value, interval);
    return Ok(s);
  }

  /** `DataHandler`: a database handler and a feed for BTC_USDT and ETH_USDT that enqueues into it. */
  method NewDataHandler() returns (db: DatabaseHandler, socket: GateIOWebSocket)
    ensures fresh(db) && fresh(socket)
    ensures db.queue == [] && db.inserted == []
    ensures socket.sink == db && socket.pairs == ["BTC_USDT", "ETH_USDT"] && socket.interval == "1m"
  {
    db := new DatabaseHandler();
    socket := new GateIOWebSocket(db, ["BTC_USDT", "ETH_USDT"], "1m");
  }

  // ---------------------------------------------------------------------
  // The reconnect loop of `run`

  const MaxBackoff: nat := 32

  /** The backoff after one session that started with backoff `b`. */
  function NextBackoff(b: nat, s: Session): nat
  {
    match s
    case FailedBeforeSubscribe => if 2 * b < MaxBackoff then 2 * b else MaxBackoff
    case DroppedAfterSubscribe => 2
    case ClosedCleanly => 1
  }

  /** The delay slept after one session that started with backoff `b` (before jitter); none after a clean close. */
  function DelayAfter(b: nat, s: Session): Option<nat>
  {
    match s
    case FailedBeforeSubscribe => Some(b)
    case DroppedAfterSubscribe => Some(1)
    case ClosedCleanly => None
  }

  /** The backoff after the given sessions, starting from 1. */
  function Backoff(ss: seq<Session>): nat
  {
    if |ss| == 0 then 1 else NextBackoff(Backoff(ss[..|ss| - 1]), ss[|ss| - 1])
  }

  /** The delays slept over the given sessions, in order. */
  function Delays(ss: seq<Session>): seq<nat>
  {
    if |ss| == 0 then []
    else
      var d := DelayAfter(Backoff(ss[..|ss| - 1]), ss[|ss| - 1]);
      Delays(ss[..|ss| - 1]) + (if d.Some? then [d.value] else [])
  }

  predicate PowerOfTwoUpTo32(b: nat)
  {
    b == 1 || b == 2 || b == 4 || b == 8 || b == 16 || b == 32
  }

  /** `run` over a sequence of sessions: the delays it sleeps and the backoff it ends with. */
  method Run(ss: seq<Session>) returns (delays: seq<nat>, backoff: nat)
    ensures delays == Delays(ss) && backoff == Backoff(ss)
  {
    backoff := 1;
    delays := [];
    var i := 0;
    while i < |ss|
      invariant 0 <= i <= |ss|
      invariant backoff == Backoff(ss[..i]) && delays == Delays(ss[..i])
    {
      assert ss[..i + 1][..i] == ss[..i];
      var s := ss[i];
      if !s.ClosedCleanly? {
        if s.DroppedAfterSubscribe? {
          backoff := 1;
        }
        delays := delays + [backoff];
        backoff := if 2 * backoff < MaxBackoff then 2 * backoff else MaxBackoff;
      } else {
        backoff := 1;
      }
      i := i + 1;
    }
    assert ss[..i] == ss;
  }

  /** The backoff is always one of 1, 2, 4, 8, 16, 32. */
  lemma {:induction false} BackoffBounded(ss: seq<Session>)
    ensures PowerOfTwoUpTo32(Backoff(ss))
  {
    if |ss| > 0 {
      BackoffBounded(ss[..|ss| - 1]);
    }
  }

  /** Every delay is between 1 and 32 seconds (that a session which failed after subscribing waits 1 is `ResetAfterSubscribe`). */
  lemma {:induction false} DelaysBounded(ss: seq<Session>)
    ensures forall i :: 0 <= i < |Delays(ss)| ==> 1 <= Delays(ss)[i] <= MaxBackoff
  {
    if |ss| > 0 {
      DelaysBounded(ss[..|ss| - 1]);
      BackoffBounded(ss[..|ss| - 1]);
    }
  }

  /** There is one delay per failed session. */
  lemma {:induction false} DelayCount(ss: seq<Session>)
    ensures |Delays(ss)| == FailureCount(ss)
  {
    if |ss| > 0 {
      DelayCount(ss[..|ss| - 1]);
    }
  }

  function Pow2(k: nat): nat
  {
    if k == 0 then 1 else 2 * Pow2(k - 1)
  }

  function Cap(x: nat): nat
  {
    if x < MaxBackoff then x else MaxBackoff
  }

  /** Doubling after capping caps the doubled value. */
  lemma CapDouble(x: nat)
    ensures Cap(2 * Cap(x)) == Cap(2 * x)
  {
  }

  /** `k` sessions that each failed before subscribing. */
  function Failures(k: nat): (fs: seq<Session>)
    ensures |fs| == k && forall i :: 0 <= i < k ==> fs[i] == FailedBeforeSubscribe
  {
    if k == 0 then [] else Failures(k - 1) + [FailedBeforeSubscribe]
  }

  lemma DoublePow(b: nat, k: nat)
    requires k > 0
    ensures b * Pow2(k) == 2 * (b * Pow2(k - 1))
  {
  }

  /** `k` failures before subscribing multiply the backoff by 2^k, capped at 32. */
  lemma {:induction false} FailuresDouble(ss: seq<Session>, k: nat)
    ensures Backoff(ss + Failures(k)) == Cap(Backoff(ss) * Pow2(k))
  {
    if k == 0 {
      assert ss + Failures(k) == ss;
      BackoffBounded(ss);
    } else {
      var t := ss + Failures(k);
      FailuresDouble(ss, k - 1);
      assert t[..|t| - 1] == ss + Failures(k - 1);
      var x := Backoff(ss) * Pow2(k - 1);
      assert Backoff(t) == Cap(2 * Cap(x));
      CapDouble(x);
      DoublePow(Backoff(ss), k);
    }
  }

  /** A session that subscribed resets the backoff, so the next failure waits 1 second and the one after 2. */
  lemma ResetAfterSubscribe(ss: seq<Session>)
    ensures Backoff(ss + [ClosedCleanly]) == 1
    ensures Delays(ss + [DroppedAfterSubscribe]) == Delays(ss) + [1]
    ensures Delays(ss + [ClosedCleanly, FailedBeforeSubscribe]) == Delays(ss) + [1]
  {
    assert (ss + [ClosedCleanly])[..|ss|] == ss;
    assert (ss + [DroppedAfterSubscribe])[..|ss|] == ss;
    var t := ss + [ClosedCleanly, FailedBeforeSubscribe];
    assert t[..|t| - 1] == ss + [ClosedCleanly];
  }
}
