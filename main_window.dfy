/**
 * main_window.py: the bookkeeping of `MainWindow` — the tracked pairs, the
 * market frame a new pair is appended to, the account frame a balance
 * replaces, and the text of the add-pair input box.
 *
 * The clock (`pd.Timestamp.now()`) is a parameter holding the time's text.
 */
module MainWindow {
  import opened Common
  import opened Dicts
  import opened Text
  import opened Frames

  /** The pairs the window starts with. */
  const InitialPairs: seq<string> :=
    ["BTC_USDT", "ETH_USDT", "LTC_USDT", "XRP_USDT", "BCH_USDT",
     "EOS_USDT", "TRX_USDT", "ADA_USDT", "XLM_USDT", "LINK_USDT"]

  /** `text().strip().upper()`. */
  function NormalizePair(text: string): string
  {
    Upper(Strip(text))
  }

  /**
   * A normalised pair has no surrounding whitespace and no lower-case ASCII
   * letter, and normalising it again changes nothing.
   */
  lemma NormalizePairSpec(text: string)
    ensures var p := NormalizePair(text);
      (p == [] || (!IsSpace(p[0]) && !IsSpace(p[|p| - 1])))
      && (forall i :: 0 <= i < |p| ==> !('a' <= p[i] <= 'z'))
      && NormalizePair(p) == p
  {
    var s := Strip(text);
    var p := Upper(s);
    StripEnds(text);
    UpperOfStripped(s);
    assert NormalizePair(text) == p;
    assert NormalizePair(p) == Upper(Strip(p)) == p;
  }

  /** Upper-casing text without surrounding whitespace gives text that normalising leaves alone. */
  lemma UpperOfStripped(s: string)
    requires s == [] || (!IsSpace(s[0]) && !IsSpace(s[|s| - 1]))
    ensures var p := Upper(s);
      (p == [] || (!IsSpace(p[0]) && !IsSpace(p[|p| - 1])))
      && (forall i :: 0 <= i < |p| ==> !('a' <= p[i] <= 'z'))
      && Upper(Strip(p)) == p
  {
    UpperKeepsEnds(s);
    StripNoop(Upper(s));
    UpperIdempotent(s);
  }

  /** Upper-casing keeps text free of surrounding whitespace. */
  lemma UpperKeepsEnds(s: string)
    requires s == [] || (!IsSpace(s[0]) && !IsSpace(s[|s| - 1]))
    ensures Upper(s) == [] || (!IsSpace(Upper(s)[0]) && !IsSpace(Upper(s)[|s| - 1]))
  {
    if s != [] {
      UpperCharSpec(s[0]);
      UpperCharSpec(s[|s| - 1]);
    }
  }

  /** Upper-casing a character leaves no lower-case ASCII letter, is idempotent, and keeps whitespace. */
  lemma UpperCharSpec(c: char)
    ensures !('a' <= UpperChar(c) <= 'z')
    ensures UpperChar(UpperChar(c)) == UpperChar(c)
    ensures IsSpace(UpperChar(c)) == IsSpace(c)
  {
  }

  /** Upper-casing text leaves no lower-case ASCII letter and upper-casing it again changes nothing. */
  lemma UpperIdempotent(s: string)
    ensures forall i :: 0 <= i < |Upper(s)| ==> !('a' <= Upper(s)[i] <= 'z')
    ensures Upper(Upper(s)) == Upper(s)
  {
    forall i | 0 <= i < |s| ensures Upper(Upper(s))[i] == Upper(s)[i] && !('a' <= Upper(s)[i] <= 'z') {
      UpperCharSpec(s[i]);
    }
  }

  class MainWindow {
    var pairs: seq<string>
    var dataMarket: Frame
    var dataAccount: Frame
    /** The text of the add-pair input box. */
    var inputText: string

    constructor ()
      ensures pairs == InitialPairs && inputText == ""
      ensures fresh(dataMarket) && dataMarket.columns == MarketColumns && dataMarket.rows == []
      ensures fresh(dataAccount) && dataAccount.columns == BalanceColumns && dataAccount.rows == []
    {
      pairs := InitialPairs;
      dataMarket := new Frame(MarketColumns, []);
      dataAccount := new Frame(BalanceColumns, []);
      inputText := "";
    }

    /**
     * `add_pair`: the input, stripped and upper-cased, is appended when it is
     * non-empty and not yet tracked, together with one new market row, and
     * the input box is cleared. Building the row raises ValueError when the
     * market frame does not have five columns, after the pair was appended.
     */
    method AddPair(now: string) returns (raised: bool)
      modifies this
      ensures dataAccount == old(dataAccount)
      ensures var p := NormalizePair(old(inputText));
        p == "" || p in old(pairs) ==>
          !raised && pairs == old(pairs) && dataMarket == old(dataMarket) && inputText == old(inputText)
      ensures var p := NormalizePair(old(inputText));
        p != "" && p !in old(pairs) ==> pairs == old(pairs) + [p]
      ensures var p := NormalizePair(old(inputText));
        p != "" && p !in old(pairs) && |old(dataMarket).columns| == |MarketColumns| ==>
          !raised && fresh(dataMarket) && dataMarket.columns == old(dataMarket).columns
          && dataMarket.rows == old(dataMarket).rows + [NewPairRow(now, p)] && inputText == ""
      ensures var p := NormalizePair(old(inputText));
        p != "" && p !in old(pairs) && |old(dataMarket).columns| != |MarketColumns| ==>
          raised && dataMarket == old(dataMarket) && inputText == old(inputText)
    {
      raised := AddNormalized(NormalizePair(inputText), now);
    }

    /** The body of `add_pair` once the input has been normalised to `pair`. */
    method AddNormalized(pair: string, now: string) returns (raised: bool)
      modifies this
      ensures dataAccount == old(dataAccount)
      ensures pair == "" || pair in old(pairs) ==>
        !raised && pairs == old(pairs) && dataMarket == old(dataMarket) && inputText == old(inputText)
      ensures pair != "" && pair !in old(pairs) ==> pairs == old(pairs) + [pair]
      ensures pair != "" && pair !in old(pairs) && |old(dataMarket).columns| == |MarketColumns| ==>
        !raised && fresh(dataMarket) && dataMarket.columns == old(dataMarket).columns
        && dataMarket.rows == old(dataMarket).rows + [NewPairRow(now, pair)] && inputText == ""
      ensures pair != "" && pair !in old(pairs) && |old(dataMarket).columns| != |MarketColumns| ==>
        raised && dataMarket == old(dataMarket) && inputText == old(inputText)
    {
      if pair == "" || pair in pairs {
        return false;
      }
      pairs := pairs + [pair];
      var market := dataMarket;
      if |market.columns| != |MarketColumns| {
        return true;
      }
      var row := NewPairRow(now, pair);
      dataMarket := new Frame(market.columns, market.rows + [row]);
      inputText := "";
      raised := false;
    }

    /**
     * `update_balance`: an error payload leaves the account frame (raising
     * KeyError when it has no 'message'); any other payload replaces it with
     * one row per currency.
     */
    method UpdateBalance(balance: Dict<string, Cell>) returns (raised: bool)
      modifies this
      ensures pairs == old(pairs) && dataMarket == old(dataMarket) && inputText == old(inputText)
      ensures raised <==> BalanceUpdate(balance).MissingMessage?
      ensures !BalanceUpdate(balance).Replace? ==> dataAccount == old(dataAccount)
      ensures BalanceUpdate(balance).Replace? ==>
        fresh(dataAccount) && dataAccount.columns == BalanceUpdate(balance).columns
        && dataAccount.rows == BalanceUpdate(balance).rows
    {
      match BalanceUpdate(balance)
      case MissingMessage =>
        return true;
      case Unchanged =>
        return false;
      case Replace(columns, rows) =>
        dataAccount := new Frame(columns, rows);
        raised := false;
    }
  }
}
