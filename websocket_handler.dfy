/**
 * control/websocket_handler.py: the ticker bookkeeping of `WebSocketHandler`.
 * It keeps the tracked pairs, a tombstone set of removed pairs and a market
 * table with at most one row per pair; ticker frames upsert rows, removals
 * move pairs to the tombstone set and drop their rows.
 */
module WebsocketHandler {
  import opened Common

  /** A ticker frame: `data['time']` (None when missing) and `data['result']`. */
  datatype TickerFrame = TickerFrame(time: Option<int>, result: Option<map<string, Json>>)

  /** A market row `[time, currency_pair, change_percentage, last, base_volume]`. */
  datatype MarketEntry = MarketEntry(time: int, pair: string, change: Json, last: Json, volume: Json)

  /** What the handler asked the socket client to do. */
  datatype SocketRequest = Subscribe(pair: string) | Unsubscribe(pair: string)

  /** `result.get(k, 0.0)`. */
  function GetOrZero(r: map<string, Json>, k: string): Json
  {
    if k in r then r[k] else JNum(0.0)
  }

  /** The pair a frame names: `result.currency_pair` when the result and the pair are present and truthy. */
  function FramePair(msg: TickerFrame): Option<string>
  {
    if msg.result.None? || |msg.result.value| == 0 then None
    else match Get(msg.result.value, "currency_pair")
      case JStr(p) => if p == "" then None else Some(p)
      case _ => None
  }

  /**
   * The row `process_message` stores for a frame, or None when it returns
   * early: no result, no pair, a removed pair, or no usable `time`.
   */
  function Accept(msg: TickerFrame, deleted: set<string>): (r: Option<MarketEntry>)
    ensures FramePair(msg).None? ==> r.None?
    ensures FramePair(msg).Some? && FramePair(msg).value in deleted ==> r.None?
    ensures msg.time.None? ==> r.None?
    ensures r.Some? <==> FramePair(msg).Some? && FramePair(msg).value !in deleted && msg.time.Some?
    ensures r.Some? ==> r.value.pair == FramePair(msg).value && r.value.pair !in deleted
    ensures r.Some? ==> r.value.time == msg.time.value
    ensures r.Some? ==>
              (r.value.change == GetOrZero(msg.result.value, "change_percentage")
               && r.value.last == GetOrZero(msg.result.value, "last")
               && r.value.volume == GetOrZero(msg.result.value, "base_volume"))
  {
    match FramePair(msg)
    case None => None
    case Some(p) =>
      if p in deleted || msg.time.None? then None
      else
        var res := msg.result.value;
        Some(MarketEntry(msg.time.value, p, GetOrZero(res, "change_percentage"),
                         GetOrZero(res, "last"), GetOrZero(res, "base_volume")))
  }

  /** The position of the first row for `pair`. */
  function FindPair(rows: seq<MarketEntry>, pair: string): (r: Option<nat>)
    ensures r.Some? ==> r.value < |rows| && rows[r.value].pair == pair
    ensures r.Some? ==> forall j :: 0 <= j < r.value ==> rows[j].pair != pair
    ensures r.None? ==> forall j :: 0 <= j < |rows| ==> rows[j].pair != pair
  {
    if |rows| == 0 then None
    else if rows[0].pair == pair then Some(0)
    else match FindPair(rows[1..], pair)
      case None => None
      case Some(i) => Some(i + 1)
  }

  /** The row the table shows for `pair` (the first one). */
  function Lookup(rows: seq<MarketEntry>, pair: string): Option<MarketEntry>
  {
    match FindPair(rows, pair)
    case None => None
    case Some(i) => Some(rows[i])
  }

  /** At most one row per pair. */
  predicate UniquePairs(rows: seq<MarketEntry>)
  {
    forall i, j :: 0 <= i < j < |rows| ==> rows[i].pair != rows[j].pair
  }

  /** The for/else loop: replace the first row with the same pair, or append. */
  function Upsert(rows: seq<MarketEntry>, e: MarketEntry): seq<MarketEntry>
  {
    match FindPair(rows, e.pair)
    case Some(i) => rows[i := e]
    case None => rows + [e]
  }

  /**
   * An upsert replaces in place (same length, same positions) when the pair
   * has a row, and appends at the end otherwise.
   */
  lemma UpsertShape(rows: seq<MarketEntry>, e: MarketEntry)
    ensures FindPair(rows, e.pair).Some? ==>
      var i := FindPair(rows, e.pair).value;
      |Upsert(rows, e)| == |rows| && Upsert(rows, e)[i] == e
      && forall j :: 0 <= j < |rows| && j != i ==> Upsert(rows, e)[j] == rows[j]
    ensures FindPair(rows, e.pair).None? ==> Upsert(rows, e) == rows + [e]
  {
  }

  /** Seen through lookups, an upsert sets the row of its pair and leaves every other pair alone. */
  lemma {:induction false} LookupUpsert(rows: seq<MarketEntry>, e: MarketEntry, q: string)
    ensures Lookup(Upsert(rows, e), q) == if q == e.pair then Some(e) else Lookup(rows, q)
  {
    var u := Upsert(rows, e);
    if q != e.pair {
      match FindPair(rows, q)
      case Some(k) =>
        assert forall j :: 0 <= j < k ==> u[j].pair != q by {
          forall j | 0 <= j < k ensures u[j].pair != q {
            assert u[j] == rows[j] || u[j] == e;
          }
        }
        assert u[k] == rows[k];
        FindPairFirst(u, q, k);
      case None =>
        assert forall j :: 0 <= j < |u| ==> u[j].pair != q by {
          forall j | 0 <= j < |u| ensures u[j].pair != q {
            assert (j < |rows| && u[j] == rows[j]) || u[j] == e;
          }
        }
    } else {
      match FindPair(rows, q)
      case Some(k) =>
        FindPairFirst(u, q, k);
      case None =>
        FindPairFirst(u, q, |rows|);
    }
  }

  /** A row for `q` with no earlier row for `q` is the one FindPair returns. */
  lemma FindPairFirst(rows: seq<MarketEntry>, q: string, k: nat)
    requires k < |rows| && rows[k].pair == q
    requires forall j :: 0 <= j < k ==> rows[j].pair != q
    ensures FindPair(rows, q) == Some(k)
  {
  }

  /** An upsert keeps "at most one row per pair". */
  lemma UpsertKeepsUnique(rows: seq<MarketEntry>, e: MarketEntry)
    requires UniquePairs(rows)
    ensures UniquePairs(Upsert(rows, e))
  {
  }

  /** `[entry for entry in rows if entry[1] != pair]`. */
  function Without(rows: seq<MarketEntry>, pair: string): seq<MarketEntry>
  {
    if |rows| == 0 then []
    else (if rows[0].pair == pair then [] else [rows[0]]) + Without(rows[1..], pair)
  }

  /** Removing a pair's rows keeps exactly the rows of the other pairs, in order. */
  lemma {:induction false} WithoutMembers(rows: seq<MarketEntry>, pair: string)
    ensures forall e :: e in Without(rows, pair) <==> e in rows && e.pair != pair
    ensures |Without(rows, pair)| <= |rows|
  {
    if |rows| > 0 {
      WithoutMembers(rows[1..], pair);
      assert rows == [rows[0]] + rows[1..];
    }
  }

  /** After removing a pair's rows it has none, and every other pair's row is found as before. */
  lemma {:induction false} LookupWithout(rows: seq<MarketEntry>, pair: string, q: string)
    ensures Lookup(Without(rows, pair), q) == if q == pair then None else Lookup(rows, q)
  {
    if |rows| > 0 {
      LookupWithout(rows[1..], pair, q);
      var w := Without(rows, pair);
      if rows[0].pair != pair {
        assert w == [rows[0]] + Without(rows[1..], pair);
        LookupCons(rows[0], Without(rows[1..], pair), q);
      } else {
        assert w == Without(rows[1..], pair);
      }
      LookupCons(rows[0], rows[1..], q);
      assert rows == [rows[0]] + rows[1..];
    }
  }

  /** A lookup looks at the first row, then at the rest. */
  lemma LookupCons(e: MarketEntry, t: seq<MarketEntry>, q: string)
    ensures Lookup([e] + t, q) == if e.pair == q then Some(e) else Lookup(t, q)
  {
    assert ([e] + t)[1..] == t;
  }

  /** Every row left after removing a pair's rows is a row of the input, at a known position. */
  lemma {:induction false} WithoutIndex(rows: seq<MarketEntry>, pair: string, j: nat) returns (k: nat)
    requires j < |Without(rows, pair)|
    ensures k < |rows| && rows[k] == Without(rows, pair)[j]
  {
    var t := Without(rows[1..], pair);
    if rows[0].pair != pair {
      assert Without(rows, pair) == [rows[0]] + t;
      if j == 0 {
        k := 0;
      } else {
        var k' := WithoutIndex(rows[1..], pair, j - 1);
        k := k' + 1;
      }
    } else {
      assert Without(rows, pair) == t;
      var k' := WithoutIndex(rows[1..], pair, j);
      k := k' + 1;
    }
  }

  /** Removing a pair's rows keeps "at most one row per pair". */
  lemma {:induction false} WithoutKeepsUnique(rows: seq<MarketEntry>, pair: string)
    requires UniquePairs(rows)
    ensures UniquePairs(Without(rows, pair))
  {
    if |rows| > 0 {
      var t := Without(rows[1..], pair);
      assert UniquePairs(rows[1..]) by {
        forall i, j | 0 <= i < j < |rows| - 1 ensures rows[1..][i].pair != rows[1..][j].pair {
          assert rows[1..][i] == rows[i + 1] && rows[1..][j] == rows[j + 1];
        }
      }
      WithoutKeepsUnique(rows[1..], pair);
      if rows[0].pair != pair {
        var w := Without(rows, pair);
        assert w == [rows[0]] + t;
        forall i, j | 0 <= i < j < |w| ensures w[i].pair != w[j].pair {
          assert w[j] == t[j - 1];
          if i == 0 {
            var k := WithoutIndex(rows[1..], pair, j - 1);
            assert rows[1..][k] == rows[k + 1];
          } else {
            assert w[i] == t[i - 1];
          }
        }
      }
    }
  }

  /** The rows left after removing each pair of `ps` in turn. */
  function WithoutAll(rows: seq<MarketEntry>, ps: seq<string>): seq<MarketEntry>
  {
    if |ps| == 0 then rows else Without(WithoutAll(rows, ps[..|ps| - 1]), ps[|ps| - 1])
  }

  /** After removing a list of pairs, none of them has a row and every other pair's row is unchanged. */
  lemma {:induction false} WithoutAllSpec(rows: seq<MarketEntry>, ps: seq<string>)
    ensures forall q :: Lookup(WithoutAll(rows, ps), q) == if q in ps then None else Lookup(rows, q)
    ensures UniquePairs(rows) ==> UniquePairs(WithoutAll(rows, ps))
  {
    if |ps| > 0 {
      var init := ps[..|ps| - 1];
      var last := ps[|ps| - 1];
      WithoutAllSpec(rows, init);
      if UniquePairs(rows) {
        WithoutKeepsUnique(WithoutAll(rows, init), last);
      }
      forall q ensures Lookup(WithoutAll(rows, ps), q) == if q in ps then None else Lookup(rows, q) {
        LookupWithout(WithoutAll(rows, init), last, q);
        assert ps == init + [last];
        assert q in ps <==> q in init || q == last;
      }
    }
  }

  class WebSocketHandler {
    var marketData: seq<MarketEntry>
    var pairs: set<string>
    var deletedPairs: set<string>
    /** The argument of every `on_data_received` call, in order. */
    var published: seq<seq<MarketEntry>>
    /** The subscribe/unsubscribe calls handed to the socket client, in order. */
    var requests: seq<SocketRequest>

    /** Tracked and removed pairs never overlap, and the table has at most one row per pair. */
    ghost predicate Valid()
      reads this
    {
      pairs !! deletedPairs && UniquePairs(marketData)
    }

    constructor ()
      ensures Valid()
      ensures marketData == [] && pairs == {} && deletedPairs == {}
      ensures published == [] && requests == []
    {
      marketData := [];
      pairs := {};
      deletedPairs := {};
      published := [];
      requests := [];
    }

    /**
     * `process_message`: an accepted frame upserts its row and publishes the
     * new table; any other frame changes nothing and publishes nothing.
     */
    method ProcessMessage(msg: TickerFrame)
      requires Valid()
      modifies this
      ensures Valid()
      ensures pairs == old(pairs) && deletedPairs == old(deletedPairs) && requests == old(requests)
      ensures Accept(msg, old(deletedPairs)).None? ==>
        marketData == old(marketData) && published == old(published)
      ensures Accept(msg, old(deletedPairs)).Some? ==>
        marketData == Upsert(old(marketData), Accept(msg, old(deletedPairs)).value)
        && published == old(published) + [marketData]
    {
      var accepted := Accept(msg, deletedPairs);
      if accepted.None? {
        return;
      }
      var e := accepted.value;
      UpsertKeepsUnique(marketData, e);
      var i := 0;
      while i < |marketData|
        invariant 0 <= i <= |marketData|
        invariant marketData == old(marketData)
        invariant forall j :: 0 <= j < i ==> marketData[j].pair != e.pair
      {
        if marketData[i].pair == e.pair {
          FindPairFirst(marketData, e.pair, i);
          marketData := marketData[i := e];
          published := published + [marketData];
          return;
        }
        i := i + 1;
      }
      marketData := marketData + [e];
      published := published + [marketData];
    }

    /**
     * `add_pair`: `isValid` is the exchange's answer to `is_valid_pair`, and
     * `subscribeRaises` says whether `subscribe_to_pair` raised.
     */
    method AddPair(pair: string, isValid: bool, subscribeRaises: bool) returns (added: bool)
      requires Valid()
      modifies this
      ensures Valid()
      ensures marketData == old(marketData) && published == old(published)
      ensures pair == "" || pair in old(pairs) || !isValid ==>
        !added && pairs == old(pairs) && deletedPairs == old(deletedPairs) && requests == old(requests)
      ensures pair != "" && pair !in old(pairs) && isValid ==>
        pairs == old(pairs) + {pair} && deletedPairs == old(deletedPairs) - {pair}
        && requests == old(requests) + [Subscribe(pair)] && added == !subscribeRaises
      ensures added ==> pair in pairs && pair !in deletedPairs
    {
      if pair == "" {
        return false;
      }
      if pair in pairs {
        return false;
      }
      if !isValid {
        return false;
      }
      deletedPairs := deletedPairs - {pair};
      pairs := pairs + {pair};
      requests := requests + [Subscribe(pair)];
      added := !subscribeRaises;
    }

    /** `remove_pair`: a tracked pair moves to the tombstone set; an untracked one changes nothing. */
    method RemovePair(pair: string)
      requires Valid()
      modifies this
      ensures Valid()
      ensures marketData == old(marketData) && published == old(published)
      ensures pair in old(pairs) ==>
        pairs == old(pairs) - {pair} && deletedPairs == old(deletedPairs) + {pair}
        && requests == old(requests) + [Unsubscribe(pair)]
      ensures pair !in old(pairs) ==>
        pairs == old(pairs) && deletedPairs == old(deletedPairs) && requests == old(requests)
    {
      if pair in pairs {
        requests := requests + [Unsubscribe(pair)];
        deletedPairs := deletedPairs + {pair};
        pairs := pairs - {pair};
      }
    }

    /** `remove_pair_from_market_data`: drop every row of the pair and publish the table. */
    method RemovePairFromMarketData(pair: string)
      requires Valid()
      modifies this
      ensures Valid()
      ensures pairs == old(pairs) && deletedPairs == old(deletedPairs) && requests == old(requests)
      ensures marketData == Without(old(marketData), pair)
      ensures published == old(published) + [marketData]
    {
      WithoutKeepsUnique(marketData, pair);
      marketData := Without(marketData, pair);
      published := published + [marketData];
    }

    /** `delete_selected_rows`: remove each listed pair from the tracked set and from the table. */
    method DeleteSelectedRows(ps: seq<string>)
      requires Valid()
      modifies this
      ensures Valid()
      ensures pairs == old(pairs) - (set p | p in ps)
      ensures deletedPairs == old(deletedPairs) + (old(pairs) * (set p | p in ps))
      ensures marketData == WithoutAll(old(marketData), ps)
      ensures forall p :: p in ps ==> p !in pairs && Lookup(marketData, p).None?
    {
      var i := 0;
      while i < |ps|
        invariant 0 <= i <= |ps|
        invariant Valid()
        invariant pairs == old(pairs) - (set p | p in ps[..i])
        invariant deletedPairs == old(deletedPairs) + (old(pairs) * (set p | p in ps[..i]))
        invariant marketData == WithoutAll(old(marketData), ps[..i])
      {
        assert ps[..i + 1] == ps[..i] + [ps[i]];
        assert ps[..i + 1][..i] == ps[..i];
        RemovePair(ps[i]);
        RemovePairFromMarketData(ps[i]);
        i := i + 1;
      }
      assert ps[..i] == ps;
      WithoutAllSpec(old(marketData), ps);
    }
  }
}
