/**
 * control/websocket_worker.py: the filter that decides which socket frames
 * reach the UI, and `TickerTableUpdater`, which keeps a three-column ticker
 * table (pair, last price, change) together with a map from pair to row.
 *
 * A cell holds the value whose `str()` the table shows; None is a cell
 * with no item in it.
 */
module WebsocketWorker {
  import opened Common

  /** A decoded frame: its `channel` and its `result` when that is a dict (None otherwise). */
  datatype WorkerMessage = WorkerMessage(channel: Json, result: Option<map<string, Json>>)

  /** The three keys every ticker update needs. */
  predicate HasTickerKeys(r: map<string, Json>)
  {
    "currency_pair" in r && "last" in r && "change_percentage" in r
  }

  /** `send_message_to_ui`: the frames that are emitted to the UI. */
  predicate ForwardToUi(m: WorkerMessage)
  {
    m.channel == JStr("spot.tickers") && m.result.Some? && HasTickerKeys(m.result.value)
  }

  /** A ticker table row: pair, last price and change, each cell possibly empty. */
  datatype TickerRow = TickerRow(pair: Option<Json>, last: Option<Json>, change: Option<Json>)

  /** A row `setItem` creates when it writes below the last row. */
  const EmptyRow := TickerRow(None, None, None)

  /** The table as `update_ticker_table` leaves it, with its pair-to-row map. */
  datatype TickerState = TickerState(rows: seq<TickerRow>, mapping: map<Json, nat>)

  /**
   * `setItem(row, 1, last)` then `setItem(row, 2, change)`: a row past the end
   * first grows the table with empty rows up to it.
   */
  function SetPrice(rows: seq<TickerRow>, i: nat, last: Json, change: Json): (r: seq<TickerRow>)
    ensures |r| == if i < |rows| then |rows| else i + 1
    ensures r[i].pair == (if i < |rows| then rows[i].pair else None)
    ensures r[i].last == Some(last) && r[i].change == Some(change)
    ensures forall j :: 0 <= j < |r| && j != i ==> r[j] == if j < |rows| then rows[j] else EmptyRow
  {
    var grown := if i < |rows| then rows else rows + seq(i + 1 - |rows|, _ => EmptyRow);
    grown[i := TickerRow(grown[i].pair, Some(last), Some(change))]
  }

  /** What one `update_ticker_table` call does to the table, given the frame's `result` (`{}` when absent). */
  function ApplyTicker(s: TickerState, r: map<string, Json>): TickerState
  {
    if !HasTickerKeys(r) then s
    else
      var pair := r["currency_pair"];
      if pair in s.mapping then
        TickerState(SetPrice(s.rows, s.mapping[pair], r["last"], r["change_percentage"]), s.mapping)
      else
        TickerState(s.rows + [TickerRow(Some(pair), Some(r["last"]), Some(r["change_percentage"]))],
                    s.mapping[pair := |s.rows|])
  }

  /**
   * The map is injective, points inside the table, and each pair's row
   * shows that pair in column 0.
   */
  predicate Consistent(s: TickerState)
  {
    (forall p :: p in s.mapping ==> s.mapping[p] < |s.rows| && s.rows[s.mapping[p]].pair == Some(p))
    && (forall p, q :: p in s.mapping && q in s.mapping && p != q ==> s.mapping[p] != s.mapping[q])
  }

  /**
   * Every frame the UI filter forwards ends up in the table: afterwards its
   * pair is mapped to a row showing that pair, its last price and its change.
   */
  lemma ForwardedFrameShown(m: WorkerMessage, s: TickerState)
    requires Consistent(s)
    requires ForwardToUi(m)
    ensures var r := m.result.value; var t := ApplyTicker(s, r);
      r["currency_pair"] in t.mapping && t.mapping[r["currency_pair"]] < |t.rows|
      && t.rows[t.mapping[r["currency_pair"]]]
         == TickerRow(Some(r["currency_pair"]), Some(r["last"]), Some(r["change_percentage"]))
  {
  }

  /** A frame without all three keys leaves the rows and the map as they were. */
  lemma MissingKeyIsNoop(s: TickerState, r: map<string, Json>)
    requires !HasTickerKeys(r)
    ensures ApplyTicker(s, r) == s
  {
  }

  /**
   * A known pair inside the table: the row count is unchanged, columns 1 and 2
   * of its row take the new values, column 0 and every other row are kept.
   */
  lemma KnownPairUpdate(s: TickerState, r: map<string, Json>)
    requires HasTickerKeys(r) && r["currency_pair"] in s.mapping
    requires s.mapping[r["currency_pair"]] < |s.rows|
    ensures var t := ApplyTicker(s, r); var i := s.mapping[r["currency_pair"]];
      |t.rows| == |s.rows| && t.mapping == s.mapping
      && t.rows[i] == TickerRow(s.rows[i].pair, Some(r["last"]), Some(r["change_percentage"]))
      && forall j :: 0 <= j < |s.rows| && j != i ==> t.rows[j] == s.rows[j]
  {
  }

  /** An unknown pair appends exactly one row and maps the pair to the old row count. */
  lemma UnknownPairAppends(s: TickerState, r: map<string, Json>)
    requires HasTickerKeys(r) && r["currency_pair"] !in s.mapping
    ensures var t := ApplyTicker(s, r);
      t.rows == s.rows + [TickerRow(Some(r["currency_pair"]), Some(r["last"]), Some(r["change_percentage"]))]
      && t.mapping == s.mapping[r["currency_pair"] := |s.rows|]
  {
  }

  /** Every update keeps the map consistent with the rows. */
  lemma ApplyKeepsConsistent(s: TickerState, r: map<string, Json>)
    requires Consistent(s)
    ensures Consistent(ApplyTicker(s, r))
  {
    if HasTickerKeys(r) {
      var pair := r["currency_pair"];
      var t := ApplyTicker(s, r);
      if pair in s.mapping {
        forall p | p in t.mapping
          ensures t.mapping[p] < |t.rows| && t.rows[t.mapping[p]].pair == Some(p)
        {
          assert t.rows[s.mapping[p]].pair == s.rows[s.mapping[p]].pair;
        }
      } else {
        forall p | p in t.mapping
          ensures t.mapping[p] < |t.rows| && t.rows[t.mapping[p]].pair == Some(p)
        {
          if p != pair {
            assert t.rows[s.mapping[p]] == s.rows[s.mapping[p]];
          }
        }
      }
    }
  }

  class TickerTableUpdater {
    /** The rows of the shared table model. */
    var rows: seq<TickerRow>
    /** `row_mapping`: the row each pair was given. */
    var rowMapping: map<Json, nat>

    function State(): TickerState
      reads this
    {
      TickerState(rows, rowMapping)
    }

    /** `__init__` keeps the caller's model and map as they are. */
    constructor (rows: seq<TickerRow>, rowMapping: map<Json, nat>)
      ensures this.rows == rows && this.rowMapping == rowMapping
    {
      this.rows := rows;
      this.rowMapping := rowMapping;
    }

    /** `update_ticker_table`: `result` is the frame's `result` dict, `{}` when the frame has none. */
    method UpdateTickerTable(result: map<string, Json>)
      modifies this
      ensures State() == ApplyTicker(old(State()), result)
      ensures Consistent(old(State())) ==> Consistent(State())
    {
      if Consistent(State()) {
        ApplyKeepsConsistent(State(), result);
      }
      if "currency_pair" in result && "last" in result && "change_percentage" in result {
        var pair := result["currency_pair"];
        if pair in rowMapping {
          var i := rowMapping[pair];
          rows := SetPrice(rows, i, result["last"], result["change_percentage"]);
        } else {
          var i := |rows|;
          rowMapping := rowMapping[pair := i];
          rows := rows + [TickerRow(Some(pair), Some(result["last"]), Some(result["change_percentage"]))];
        }
      }
    }
  }
}
