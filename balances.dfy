/**
 * The account-balance tables: loaders/balances_loader.py and the table
 * model of control/api_handler.py keep balances of at least 1 available or
 * 1 locked; api/api_get_balances.py and api/api_service_backup.py keep every
 * balance. All of them show one placeholder row rather than an empty table.
 *
 * The exchange call `get_balances()` is a parameter: what it gave, reduced
 * to what the loaders look at.
 */
module Balances {
  import opened Common
  import opened Text

  /** A spot account as the exchange SDK reports it: amounts are decimal text. */
  datatype SpotBalance = SpotBalance(currency: string, available: string, locked: string)

  /** What `get_balances()` gave. */
  datatype Fetched =
    | Raised                         // the call raised, or gave None
    | NoSpot                         // a dict without 'spot' (or an empty one)
    | NotAList                       // 'spot' holds something other than a list
    | Spot(items: seq<SpotBalance>)  // 'spot' holds a list

  /** A table row `[asset, available, locked]`. */
  datatype BalanceRow = BalanceRow(asset: string, available: real, locked: real)

  /** The row shown when there is nothing to show: `["-", 0, 0]`. */
  const Placeholder: seq<BalanceRow> := [BalanceRow("-", 0.0, 0.0)]

  /** A row worth showing in the filtered tables. */
  predicate Kept(r: BalanceRow)
  {
    r.available >= 1.0 || r.locked >= 1.0
  }

  /** `[balance.currency, float(balance.available), float(balance.locked)]`, or None when a `float()` raises. */
  function RowOf(b: SpotBalance): Option<BalanceRow>
  {
    match ParseFloat(b.available)
    case None => None
    case Some(av) =>
      match ParseFloat(b.locked)
      case None => None
      case Some(lk) => Some(BalanceRow(b.currency, av, lk))
  }

  /** Every balance converted, in order; None as soon as one conversion raises. */
  function ParsedRows(items: seq<SpotBalance>): (r: Option<seq<BalanceRow>>)
    ensures r.Some? ==> |r.value| == |items| && forall i :: 0 <= i < |items| ==> Some(r.value[i]) == RowOf(items[i])
    ensures r.None? ==> exists i :: 0 <= i < |items| && RowOf(items[i]).None?
  {
    if |items| == 0 then Some([])
    else
      var init := items[..|items| - 1];
      var last := items[|items| - 1];
      var rs := ParsedRows(init);
      var row := RowOf(last);
      if row.None? then None
      else if rs.None? then
        var i :| 0 <= i < |init| && RowOf(init[i]).None?;
        assert items[i] == init[i];
        None
      else
        assert forall i :: 0 <= i < |init| ==> init[i] == items[i];
        Some(rs.value + [row.value])
  }

  /** The rows worth showing, in order. */
  function Filter(rows: seq<BalanceRow>): (r: seq<BalanceRow>)
    ensures forall x :: x in r <==> x in rows && Kept(x)
  {
    if |rows| == 0 then []
    else Filter(rows[..|rows| - 1]) + (if Kept(rows[|rows| - 1]) then [rows[|rows| - 1]] else [])
  }

  function OrPlaceholder(rows: seq<BalanceRow>): seq<BalanceRow>
  {
    if rows == [] then Placeholder else rows
  }

  /** The converted rows, or None when nothing was fetched or a conversion raised. */
  function ParsedTable(f: Fetched): Option<seq<BalanceRow>>
  {
    if f.Spot? then ParsedRows(f.items) else None
  }

  /** The filtered table: the kept rows, or the placeholder when there are none or anything raised. */
  function ThresholdTable(f: Fetched): (t: seq<BalanceRow>)
    ensures t != []
  {
    match ParsedTable(f)
    case None => Placeholder
    case Some(rows) => OrPlaceholder(Filter(rows))
  }

  /** The unfiltered table: every row, or the placeholder when there are none or anything raised. */
  function BalanceTable(f: Fetched): (t: seq<BalanceRow>)
    ensures t != []
  {
    match ParsedTable(f)
    case None => Placeholder
    case Some(rows) => OrPlaceholder(rows)
  }

  /** The positions of the rows worth showing, in increasing order. */
  function KeptPositions(rows: seq<BalanceRow>): (idx: seq<nat>)
    ensures forall i :: 0 <= i < |idx| ==> idx[i] < |rows| && Kept(rows[idx[i]])
    ensures forall i, j :: 0 <= i < j < |idx| ==> idx[i] < idx[j]
  {
    if |rows| == 0 then []
    else
      var init := rows[..|rows| - 1];
      var before := KeptPositions(init);
      assert forall i :: 0 <= i < |before| ==> rows[before[i]] == init[before[i]];
      before + (if Kept(rows[|rows| - 1]) then [|rows| - 1] else [])
  }

  /** Row i of the filtered table is the row at the i-th kept position. */
  lemma {:induction false} KeptPositionsFilter(rows: seq<BalanceRow>)
    ensures |KeptPositions(rows)| == |Filter(rows)|
    ensures forall i :: 0 <= i < |KeptPositions(rows)| ==> rows[KeptPositions(rows)[i]] == Filter(rows)[i]
  {
    if |rows| > 0 {
      var init := rows[..|rows| - 1];
      var last := rows[|rows| - 1];
      KeptPositionsFilter(init);
      var before := KeptPositions(init);
      var idx := KeptPositions(rows);
      var f0 := Filter(init);
      var f := Filter(rows);
      assert idx == before + (if Kept(last) then [|rows| - 1] else []);
      assert f == f0 + (if Kept(last) then [last] else []);
      forall i | 0 <= i < |idx| ensures rows[idx[i]] == f[i] {
        if i < |before| {
          assert idx[i] == before[i] && f[i] == f0[i];
          assert before[i] < |init| && init[before[i]] == f0[i];
          assert rows[before[i]] == init[before[i]];
        } else {
          assert i == |before| && idx[i] == |rows| - 1 && f[i] == last;
        }
      }
    }
  }

  /** Every position of a row worth showing is listed, so a row kept at two positions is shown twice. */
  lemma {:induction false} KeptPositionsComplete(rows: seq<BalanceRow>, p: nat)
    requires p < |rows| && Kept(rows[p])
    ensures p in KeptPositions(rows)
    decreases |rows|
  {
    var n := |rows| - 1;
    var init := rows[..n];
    KeptPositionsSnoc(rows);
    if p < n {
      assert init[p] == rows[p];
      KeptPositionsComplete(init, p);
      var j :| 0 <= j < |KeptPositions(init)| && KeptPositions(init)[j] == p;
      assert KeptPositions(rows)[j] == p;
    } else {
      assert KeptPositions(rows)[|KeptPositions(rows)| - 1] == p;
    }
  }

  /** One more row adds its position when it is worth showing. */
  lemma KeptPositionsSnoc(rows: seq<BalanceRow>)
    requires |rows| > 0
    ensures KeptPositions(rows) == KeptPositions(rows[..|rows| - 1]) + (if Kept(rows[|rows| - 1]) then [|rows| - 1] else [])
  {
  }

  /**
   * Filtering keeps the order and the multiplicity: the filtered rows are the
   * rows at every position worth showing, each once, in increasing order.
   */
  lemma FilterIsSubsequence(rows: seq<BalanceRow>)
    ensures exists idx: seq<nat> ::
      |idx| == |Filter(rows)|
      && (forall i :: 0 <= i < |idx| ==> idx[i] < |rows| && rows[idx[i]] == Filter(rows)[i])
      && (forall i, j :: 0 <= i < j < |idx| ==> idx[i] < idx[j])
      && (forall p :: 0 <= p < |rows| && Kept(rows[p]) ==> p in idx)
  {
    var idx := KeptPositions(rows);
    KeptPositionsFilter(rows);
    forall p | 0 <= p < |rows| && Kept(rows[p]) ensures p in idx {
      KeptPositionsComplete(rows, p);
    }
  }

  /**
   * The filtered table is the placeholder when nothing was fetched, a
   * conversion raised or no balance reaches 1; otherwise it holds exactly the
   * converted balances that reach 1, in their order and as often as they
   * occur: row i is the converted balance at the i-th position worth showing.
   */
  lemma ThresholdTableSpec(f: Fetched)
    ensures ParsedTable(f).None? ==> ThresholdTable(f) == Placeholder
    ensures ParsedTable(f).Some? && Filter(ParsedTable(f).value) == [] ==> ThresholdTable(f) == Placeholder
    ensures ParsedTable(f).Some? && Filter(ParsedTable(f).value) != [] ==>
      var rows := ParsedTable(f).value;
      var idx := KeptPositions(rows);
      |ThresholdTable(f)| == |idx| && forall i :: 0 <= i < |idx| ==> ThresholdTable(f)[i] == rows[idx[i]]
  {
    if ParsedTable(f).Some? {
      KeptPositionsFilter(ParsedTable(f).value);
    }
  }

  /**
   * The unfiltered table has one row per balance, in order, with the
   * converted amounts, when every conversion succeeds and the list is not
   * empty; otherwise it is the placeholder.
   */
  lemma BalanceTableSpec(f: Fetched)
    requires f.Spot? && f.items != [] && forall i :: 0 <= i < |f.items| ==> RowOf(f.items[i]).Some?
    ensures |BalanceTable(f)| == |f.items|
    ensures forall i :: 0 <= i < |f.items| ==> Some(BalanceTable(f)[i]) == RowOf(f.items[i])
  {
  }

  /** The unfiltered table falls back to the placeholder row when nothing was fetched, the list is empty or a conversion raised. */
  lemma BalanceTablePlaceholder(f: Fetched)
    ensures (!f.Spot? || f.items == [] || exists i :: 0 <= i < |f.items| && RowOf(f.items[i]).None?)
      ==> BalanceTable(f) == Placeholder
  {
  }

  /**
   * `load_balances` of loaders/balances_loader.py: converts each balance in
   * turn, appending those that reach 1; a conversion that raises gives the
   * placeholder, and so does an empty result.
   */
  method LoadBalances(f: Fetched) returns (table: seq<BalanceRow>)
    ensures table == ThresholdTable(f)
  {
    if !f.Spot? {
      return Placeholder;
    }
    var items := f.items;
    var rows: seq<BalanceRow> := [];
    var i := 0;
    while i < |items|
      invariant 0 <= i <= |items|
      invariant ParsedRows(items[..i]).Some? && rows == Filter(ParsedRows(items[..i]).value)
    {
      ParsedRowsStep(items, i);
      var row := RowOf(items[i]);
      if row.None? {
        ParsedPrefixFails(items, i + 1);
        return Placeholder;
      }
      if Kept(row.value) {
        rows := rows + [row.value];
      }
      i := i + 1;
    }
    assert items[..i] == items;
    table := OrPlaceholder(rows);
  }

  /** Converting one more balance extends the converted prefix, or raises. */
  lemma ParsedRowsStep(items: seq<SpotBalance>, i: nat)
    requires i < |items|
    ensures ParsedRows(items[..i + 1])
      == if ParsedRows(items[..i]).None? || RowOf(items[i]).None? then None
         else Some(ParsedRows(items[..i]).value + [RowOf(items[i]).value])
    ensures ParsedRows(items[..i]).Some? && RowOf(items[i]).Some? ==>
      Filter(ParsedRows(items[..i + 1]).value)
        == Filter(ParsedRows(items[..i]).value) + (if Kept(RowOf(items[i]).value) then [RowOf(items[i]).value] else [])
  {
    assert items[..i + 1][..i] == items[..i];
    if ParsedRows(items[..i]).Some? && RowOf(items[i]).Some? {
      var rs := ParsedRows(items[..i]).value + [RowOf(items[i]).value];
      assert rs[..|rs| - 1] == ParsedRows(items[..i]).value;
    }
  }

  /** A conversion that raises in a prefix makes the whole list raise. */
  lemma ParsedPrefixFails(items: seq<SpotBalance>, n: nat)
    requires n <= |items| && ParsedRows(items[..n]).None?
    ensures ParsedRows(items).None?
  {
    var i :| 0 <= i < n && RowOf(items[..n][i]).None?;
    assert items[i] == items[..n][i];
  }

  datatype Orientation = Horizontal | Vertical

  /** What `headerData` gives: nothing, a label, or a row number. */
  datatype Header = NoHeader | Label(text: string) | RowNumber(n: int)

  const Headers: seq<string> := ["Asset", "Available", "Locked"]

  /** The balances table model of control/api_handler.py. */
  class ApiHandler {
    var data: seq<BalanceRow>

    /** The table is loaded once, when the model is made. */
    constructor (f: Fetched)
      ensures data == ThresholdTable(f)
    {
      var t := LoadBalances(f);
      data := t;
    }

    predicate Valid()
      reads this
    {
      data != []
    }

    /** `rowCount`. */
    function RowCount(): (n: nat)
      reads this
      ensures n == |data|
      ensures Valid() ==> n >= 1
    {
      |data|
    }

    /** `columnCount`: the width of the first row, or 0 without rows; a loaded table always has 3. */
    function ColumnCount(): (n: nat)
      reads this
      ensures data == [] <==> n == 0
      ensures Valid() ==> n == |Headers|
    {
      if data == [] then 0 else 3
    }

    /**
     * `headerData`: for the display role, a horizontal section indexes the
     * three labels the Python way (negative sections from the end, others
     * raising IndexError) and a vertical section s shows s + 1.
     */
    function HeaderData(section: int, orientation: Orientation, displayRole: bool): (r: Result<Header>)
      ensures !displayRole ==> r == Ok(NoHeader)
      ensures displayRole && orientation.Vertical? ==> r == Ok(RowNumber(section + 1))
      ensures displayRole && orientation.Horizontal? ==> (r.Err? <==> !(-|Headers| <= section < |Headers|))
      ensures displayRole && orientation.Horizontal? && 0 <= section < |Headers| ==> r == Ok(Label(Headers[section]))
      ensures displayRole && orientation.Horizontal? && -|Headers| <= section < 0 ==>
        r == Ok(Label(Headers[|Headers| + section]))
    {
      if !displayRole then Ok(NoHeader)
      else if orientation.Vertical? then Ok(RowNumber(section + 1))
      else if 0 <= section < |Headers| then Ok(Label(Headers[section]))
      else if -|Headers| <= section < 0 then Ok(Label(Headers[|Headers| + section]))
      else Err("IndexError: list index out of range")
    }
  }

  /** A model made from any fetch result is valid: it always has at least one row, three columns wide. */
  lemma ApiHandlerValid(f: Fetched)
    ensures ThresholdTable(f) != [] && forall r :: r in ThresholdTable(f) ==> r in Placeholder || Kept(r)
  {
    if ParsedTable(f).Some? {
      var rows := ParsedTable(f).value;
      assert forall r :: r in Filter(rows) ==> Kept(r);
    }
  }
}
