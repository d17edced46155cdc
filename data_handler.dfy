/**
 * control/data_handler.py (and its earlier copy control/data_handler_bkp.py,
 * whose helpers are the same code): the market and account helpers the
 * window calls. `add_pair` appends to the caller's own pair list; the
 * helpers that change the market table return a new frame. The row
 * deletions `delete_market_rows` and `delete_account_rows` drop rows from
 * the caller's frame in place: that is `Frames.Frame.DropPositions`.
 *
 * The clock (`pd.Timestamp.now()`) is a parameter holding the time's text.
 */
module DataHandler {
  import opened Common
  import opened Dicts
  import opened Frames

  /** No pair is listed twice. */
  predicate Distinct(s: seq<string>)
  {
    forall i, j :: 0 <= i < j < |s| ==> s[i] != s[j]
  }

  /**
   * `add_pair`: an empty or already listed pair changes nothing and the same
   * frame comes back. Otherwise the pair is appended to the caller's list and
   * a new frame with one more row is returned; building that row raises
   * ValueError (`raised`) when the frame does not have five columns, after the
   * pair was appended.
   */
  method AddPair(pair: string, pairs: PairList, market: Frame, now: string) returns (raised: bool, newMarket: Frame)
    modifies pairs
    ensures pair == "" || pair in old(pairs.items) ==>
      !raised && newMarket == market && pairs.items == old(pairs.items)
    ensures pair != "" && pair !in old(pairs.items) ==> pairs.items == old(pairs.items) + [pair]
    ensures pair != "" && pair !in old(pairs.items) && |market.columns| == |MarketColumns| ==>
      !raised && fresh(newMarket) && newMarket.columns == market.columns
      && newMarket.rows == market.rows + [NewPairRow(now, pair)]
    ensures pair != "" && pair !in old(pairs.items) && |market.columns| != |MarketColumns| ==> raised
  {
    if pair == "" || pair in pairs.items {
      return false, market;
    }
    pairs.items := pairs.items + [pair];
    if |market.columns| != |MarketColumns| {
      return true, market;
    }
    newMarket := new Frame(market.columns, market.rows + [NewPairRow(now, pair)]);
    raised := false;
  }

  /** Adding a pair keeps a duplicate-free list duplicate-free. */
  lemma AddPairKeepsDistinct(items: seq<string>, pair: string)
    requires Distinct(items)
    ensures pair != "" && pair !in items ==> Distinct(items + [pair])
  {
  }

  /**
   * `update_market_data_with_new_pairs`: a new market frame with one row per
   * pair, in list order, whatever the old frame held. `times[i]` is the clock
   * reading taken for the i-th row.
   */
  method UpdateMarketDataWithNewPairs(pairs: seq<string>, times: seq<string>) returns (market: Frame)
    requires |times| == |pairs|
    ensures fresh(market)
    ensures market.columns == MarketColumns && |market.rows| == |pairs|
    ensures forall i :: 0 <= i < |pairs| ==> market.rows[i] == NewPairRow(times[i], pairs[i])
  {
    market := new Frame(MarketColumns, []);
    var i := 0;
    while i < |pairs|
      invariant 0 <= i <= |pairs|
      invariant fresh(market)
      invariant market.columns == MarketColumns && |market.rows| == i
      invariant forall j :: 0 <= j < i ==> market.rows[j] == NewPairRow(times[j], pairs[j])
    {
      market := new Frame(market.columns, market.rows + [NewPairRow(times[i], pairs[i])]);
      i := i + 1;
    }
  }

  /**
   * `update_balance`: an error payload returns the same account frame (or
   * raises KeyError when it has no 'message'); any other payload returns a
   * new frame of its rows.
   */
  method UpdateBalance(balance: Dict<string, Cell>, account: Frame) returns (raised: bool, r: Frame)
    ensures raised <==> BalanceUpdate(balance).MissingMessage?
    ensures BalanceUpdate(balance).Unchanged? ==> r == account
    ensures BalanceUpdate(balance).Replace? ==>
      fresh(r) && r.columns == BalanceUpdate(balance).columns && r.rows == BalanceUpdate(balance).rows
  {
    match BalanceUpdate(balance)
    case MissingMessage =>
      return true, account;
    case Unchanged =>
      return false, account;
    case Replace(columns, rows) =>
      r := new Frame(columns, rows);
      raised := false;
  }
}
