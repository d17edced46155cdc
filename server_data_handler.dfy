/**
 * server/data_handler.py: the variant of the server's `DataHandler` that
 * tracks BTC_USDT and ETH_USDT, is given the window-close flag separately
 * from the record it stores, and logs a feed that fails to start.
 *
 * Its feed class comes from a module `gateio_ws`, which is not part of this
 * model; the feed of server/gateio.py, which has the same attributes, stands
 * in for it. The database is reduced to the rows it is given; the clock is a
 * parameter.
 */
module ServerDataHandler {
  import opened Common
  import opened Candles
  import opened Gateio

  /** The pairs the handler starts with. */
  const InitialPairs: seq<string> := ["BTC_USDT", "ETH_USDT"]

  class DataHandler {
    const pairs: PairList
    var socket: GateIOWebSocket?
    var rows: seq<CandleRow>

    constructor ()
      ensures fresh(pairs) && pairs.items == InitialPairs
      ensures socket == null && rows == []
    {
      pairs := new PairList(InitialPairs);
      socket := null;
      rows := [];
    }

    /**
     * `insert_data_to_db(data, window_close)`: a record whose `t` does not
     * convert is skipped; otherwise one row is inserted whose last field is
     * the `window_close` argument, whatever `data['w']` holds.
     */
    method InsertDataToDb(data: map<string, Json>, windowClose: Json)
      modifies this
      ensures socket == old(socket)
      ensures LocalTime(Get(data, "t")).None? ==> rows == old(rows)
      ensures LocalTime(Get(data, "t")).Some? ==>
        rows == old(rows) + [CandleRow(LocalTime(Get(data, "t")), Get(data, "o"), Get(data, "h"), Get(data, "l"),
                                       Get(data, "c"), Get(data, "v"), Get(data, "n"), Get(data, "a"), windowClose)]
    {
      var row := InsertRow(data, windowClose);
      if row.Some? {
        rows := rows + [row.value];
      }
    }

    /** `start_websocket`: a feed on this handler's own list; a failure to create it is logged and no feed is kept. */
    method StartWebsocket()
      modifies this
      ensures rows == old(rows)
      ensures pairs.items == [] ==> socket == old(socket)
      ensures pairs.items != [] ==> (socket != null && fresh(socket) && socket.pairs == pairs && socket.callable
        && socket.interval == "1m" && !socket.connected && socket.sent == [] && socket.delivered == [])
    {
      var r := Create(true, pairs, "1m");
      if r.Ok? {
        socket := r.value;
      }
    }

    /**
     * `add_pair`: a tracked pair changes nothing; a new one is appended, and
     * a subscribe frame for it is sent only when the feed exists and holds a
     * socket.
     */
    method AddPair(pair: string, time: int)
      modifies pairs, socket
      ensures socket == old(socket) && rows == old(rows)
      ensures pair in old(pairs.items) ==> pairs.items == old(pairs.items)
      ensures pair !in old(pairs.items) ==> pairs.items == old(pairs.items) + [pair]
      ensures pairs.items == AfterAdds(old(pairs.items), [pair])
      ensures socket != null ==> socket.connected == old(socket.connected) && socket.delivered == old(socket.delivered)
      ensures socket != null && pair !in old(pairs.items) && old(socket.connected) ==>
        socket.sent == old(socket.sent) + [SubscribeFor(time, socket.interval, pair)]
      ensures socket != null && (pair in old(pairs.items) || !old(socket.connected)) ==> socket.sent == old(socket.sent)
    {
      if pair !in pairs.items {
        pairs.items := pairs.items + [pair];
        if socket != null {
          socket.SendSubscribe(time, pair);
        }
      }
    }
  }

  /** Adding pairs one after another never lists a pair twice. */
  lemma {:induction false} AddPairsDistinct(start: seq<string>, added: seq<string>)
    requires forall i, j :: 0 <= i < j < |start| ==> start[i] != start[j]
    ensures var r := AfterAdds(start, added);
      (forall i, j :: 0 <= i < j < |r| ==> r[i] != r[j])
      && (forall p :: p in r <==> p in start || p in added)
  {
    if |added| > 0 {
      var init := added[..|added| - 1];
      var p := added[|added| - 1];
      AddPairsDistinct(start, init);
      var r0 := AfterAdds(start, init);
      assert added == init + [p];
      var r := AfterAdds(start, added);
      assert r == if p in r0 then r0 else r0 + [p];
      forall i, j | 0 <= i < j < |r| ensures r[i] != r[j] {
        if j == |r0| {
          assert r[i] == r0[i] && r[j] == p && p !in r0;
        } else {
          assert r[i] == r0[i] && r[j] == r0[j];
        }
      }
      forall q ensures q in r <==> q in start || q in added {
        assert q in added <==> q in init || q == p;
      }
    }
  }

  /** The tracked list after `add_pair` was called with each of `added` in turn. */
  function AfterAdds(start: seq<string>, added: seq<string>): seq<string>
  {
    if |added| == 0 then start
    else
      var r := AfterAdds(start, added[..|added| - 1]);
      var p := added[|added| - 1];
      if p in r then r else r + [p]
  }
}
