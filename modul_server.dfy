/**
 * server/modul_server.py: the server's `DataHandler`, which tracks the
 * pairs to record, starts the candlestick feed of server/gateio.py on that
 * same list, subscribes pairs added while the feed holds a socket, and
 * stores each record the feed hands it.
 *
 * The database is reduced to the rows it is given; the clock is a parameter.
 */
module ModulServer {
  import opened Common
  import opened Candles
  import opened Gateio
  import WsGateio

  class DataHandler {
    /** `self.pairs`, the list the feed is started on. */
    const pairs: PairList
    /** `websocket_instance`: None until the feed is started. */
    var socket: GateIOWebSocket?
    /** The rows inserted into `candlestick_data`, in order. */
    var rows: seq<CandleRow>

    constructor ()
      ensures fresh(pairs) && pairs.items == ["BTC_USDT"]
      ensures socket == null && rows == []
    {
      pairs := new PairList(["BTC_USDT"]);
      socket := null;
      rows := [];
    }

    /**
     * `insert_data_to_db`: a record whose `t` does not convert is skipped;
     * otherwise one row (timestamp, o, h, l, c, v, n, a, w) is inserted.
     */
    method InsertDataToDb(data: map<string, Json>)
      modifies this
      ensures socket == old(socket)
      ensures LocalTime(Get(data, "t")).None? ==> rows == old(rows)
      ensures LocalTime(Get(data, "t")).Some? ==>
        rows == old(rows) + [CandleRow(LocalTime(Get(data, "t")), Get(data, "o"), Get(data, "h"), Get(data, "l"),
                                       Get(data, "c"), Get(data, "v"), Get(data, "n"), Get(data, "a"), Get(data, "w"))]
    {
      var row := InsertRow(data, Get(data, "w"));
      if row.Some? {
        rows := rows + [row.value];
      }
    }

    /**
     * `start_websocket`: a feed on this handler's own list, whose callback is
     * `insert_data_to_db`; an empty list raises ValueError, uncaught.
     */
    method StartWebsocket() returns (raised: bool)
      modifies this
      ensures rows == old(rows)
      ensures raised <==> pairs.items == []
      ensures raised ==> socket == old(socket)
      ensures !raised ==> (socket != null && fresh(socket) && socket.pairs == pairs && socket.callable
        && socket.interval == "1m" && !socket.connected && socket.sent == [] && socket.delivered == [])
    {
      var r := Create(true, pairs, "1m");
      if r.Err? {
        return true;
      }
      socket := r.value;
      raised := false;
    }

    /**
     * `add_pair`: a tracked pair changes nothing; a new one is appended to
     * the shared list, and a subscribe frame for it is sent only when the
     * feed exists and holds a socket.
     */
    method AddPair(pair: string, time: int)
      modifies pairs, socket
      ensures socket == old(socket) && rows == old(rows)
      ensures pair in old(pairs.items) ==> pairs.items == old(pairs.items)
      ensures pair !in old(pairs.items) ==> pairs.items == old(pairs.items) + [pair]
      ensures socket != null ==> socket.connected == old(socket.connected) && socket.delivered == old(socket.delivered)
      ensures socket != null && pair !in old(pairs.items) && old(socket.connected) ==>
        socket.sent == old(socket.sent) + [SubscribeFor(time, socket.interval, pair)]
      ensures socket != null && (pair in old(pairs.items) || !old(socket.connected)) ==> socket.sent == old(socket.sent)
    {
      if pair !in pairs.items {
        pairs.items := pairs.items + [pair];
        if socket != null {
          socket.SendSubscribe(time, pair);
        }
      }
    }
  }

  /**
   * A record from the feed of server/gateio.py, once inserted here, is the
   * same row the queueing feed of server/ws_gateio.py forwards for the same
   * closed window with a convertible timestamp.
   */
  lemma SameRowAsQueueingFeed(result: map<string, Json>)
    requires "n" in result && Truthy(Get(result, "w")) && LocalTime(Get(result, "t")).Some?
    ensures InsertRow(Extract(result), Get(Extract(result), "w")) == WsGateio.Forwarded(Some(result))
  {
    var d := Extract(result);
    assert forall k :: k in RecordKeys ==> Get(d, k) == Get(result, k);
  }
}
