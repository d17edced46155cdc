/**
 * server/gateio.py: a candlestick feed that hands every candlestick update
 * to its callback as a nine-key record, subscribes each tracked pair, and
 * reconnects after a fixed five-second pause.
 *
 * The socket is reduced to whether it is open and the frames sent on it;
 * the callback to whether it is callable and the records handed to it.
 */
module Gateio {
  import opened Common
  import opened Candles

  /** The keys of a forwarded record. */
  const RecordKeys: set<string> := {"t", "o", "h", "l", "c", "v", "n", "a", "w"}

  /** The record `on_message` builds: exactly the nine keys, each copied from `result` (None when absent). */
  function Extract(result: map<string, Json>): (d: map<string, Json>)
    ensures d.Keys == RecordKeys
    ensures forall k :: k in RecordKeys ==> d[k] == Get(result, k)
  {
    map k | k in RecordKeys :: Get(result, k)
  }

  class GateIOWebSocket {
    /** The caller's list of pairs, shared, not copied. */
    const pairs: PairList
    const interval: string
    /** Whether `message_callback` is callable. */
    const callable: bool
    /** Whether `self.websocket` holds a socket. */
    var connected: bool
    var sent: seq<SubscribeFrame>
    /** The records handed to the callback, in order. */
    var delivered: seq<map<string, Json>>

    constructor (callable: bool, pairs: PairList, interval: string)
      ensures this.callable == callable && this.pairs == pairs && this.interval == interval
      ensures !connected && sent == [] && delivered == []
    {
      this.callable := callable;
      this.pairs := pairs;
      this.interval := interval;
      connected := false;
      sent := [];
      delivered := [];
    }

    /**
     * `on_message` for a decoded message whose `result` is `result` (None
     * when it is missing or not an object): a result holding `n` is handed on
     * whatever its window-close flag, provided the callback is callable.
     */
    method OnMessage(result: Option<map<string, Json>>)
      modifies this
      ensures connected == old(connected) && sent == old(sent)
      ensures result.Some? && "n" in result.value && callable ==>
        delivered == old(delivered) + [Extract(result.value)]
      ensures !(result.Some? && "n" in result.value && callable) ==> delivered == old(delivered)
    {
      if result.Some? && "n" in result.value && callable {
        delivered := delivered + [Extract(result.value)];
      }
    }

    /** Whether `on_message` hands this result on: it does not look at the window-close flag. */
    predicate Delivers(result: map<string, Json>)
    {
      "n" in result && callable
    }

    /**
     * `subscribe`: one frame per pair of the shared list, in list order;
     * `times[i]` is the clock reading for the i-th. Without a socket the
     * first send raises AttributeError and nothing is sent.
     */
    method Subscribe(times: seq<int>) returns (raised: bool)
      requires |times| == |pairs.items|
      modifies this
      ensures connected == old(connected) && delivered == old(delivered)
      ensures raised <==> !connected && pairs.items != []
      ensures connected ==> sent == old(sent) + SubscribeFrames(times, interval, pairs.items)
      ensures !connected ==> sent == old(sent)
    {
      if !connected {
        return pairs.items != [];
      }
      var ps := pairs.items;
      var i := 0;
      while i < |ps|
        invariant 0 <= i <= |ps| && ps == pairs.items
        invariant connected && delivered == old(delivered)
        invariant sent == old(sent) + SubscribeFrames(times[..i], interval, ps[..i])
      {
        SubscribeFramesStep(times, interval, ps, i);
        sent := sent + [SubscribeFor(times[i], interval, ps[i])];
        i := i + 1;
      }
      assert times[..i] == times && ps[..i] == ps;
      raised := false;
    }

    /** `add_pair`'s send: a subscribe frame for `pair` goes out only while a socket is held. */
    method SendSubscribe(time: int, pair: string)
      modifies this
      ensures connected == old(connected) && delivered == old(delivered)
      ensures connected ==> sent == old(sent) + [SubscribeFor(time, interval, pair)]
      ensures !connected ==> sent == old(sent)
    {
      if connected {
        sent := sent + [SubscribeFor(time, interval, pair)];
      }
    }
  }

  /** A result that holds `n` is handed on whether or not its window is closed, with `w` copied as it came. */
  lemma NoWindowFilter(socket: GateIOWebSocket, result: map<string, Json>, w: Json)
    requires "n" in result
    ensures socket.Delivers(result) == socket.Delivers(result["w" := w])
    ensures Extract(result["w" := w])["w"] == w
    ensures forall k :: k in RecordKeys && k != "w" ==> Extract(result["w" := w])[k] == Extract(result)[k]
  {
  }

  /** `create`: the constructor's check; None or an empty list raises ValueError. */
  method Create(callable: bool, pairs: PairList?, interval: string) returns (r: Result<GateIOWebSocket>)
    ensures r.Err? <==> pairs == null || pairs.items == []
    ensures r.Ok? ==> (fresh(r.value) && r.value.pairs == pairs && r.value.interval == interval
      && r.value.callable == callable && !r.value.connected && r.value.sent == [] && r.value.delivered == [])
  {
    if pairs == null || pairs.items == [] {
      return Err("ValueError: Pairs list cannot be None or empty.");
    }
    var s := new GateIOWebSocket(callable, pairs, interval);
    return Ok(s);
  }

  // ---------------------------------------------------------------------
  // The reconnect loop of `run`

  const ReconnectDelay: nat := 5

  /** The pauses of `run` over the given sessions: five seconds after each failure, none after a clean close. */
  function FixedDelays(ss: seq<Session>): seq<nat>
  {
    if |ss| == 0 then []
    else FixedDelays(ss[..|ss| - 1]) + (if Failed(ss[|ss| - 1]) then [ReconnectDelay] else [])
  }

  /** `run` over a sequence of sessions: the pauses it sleeps. It never gives up. */
  method Run(ss: seq<Session>) returns (delays: seq<nat>)
    ensures delays == FixedDelays(ss)
  {
    delays := [];
    var i := 0;
    while i < |ss|
      invariant 0 <= i <= |ss|
      invariant delays == FixedDelays(ss[..i])
    {
      assert ss[..i + 1][..i] == ss[..i];
      if Failed(ss[i]) {
        delays := delays + [ReconnectDelay];
      }
      i := i + 1;
    }
    assert ss[..i] == ss;
  }

  /** Every pause is five seconds, and there is one per failed session. */
  lemma {:induction false} FixedDelaysSpec(ss: seq<Session>)
    ensures |FixedDelays(ss)| == FailureCount(ss)
    ensures forall i :: 0 <= i < |FixedDelays(ss)| ==> FixedDelays(ss)[i] == ReconnectDelay
  {
    if |ss| > 0 {
      FixedDelaysSpec(ss[..|ss| - 1]);
    }
  }
}
