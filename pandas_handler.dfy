/**
 * control/pandas_handler.py: `PandasModel`, a table model that shows a
 * dataframe it shares with its caller, the module-level row deletions and
 * the initial market and account frames.
 */
module PandasHandler {
  import opened Common
  import opened Frames

  /** The account model's initial columns. */
  const AccountColumns: seq<string> := ["CURRENCY", "AVAILABLE", "LOCKED", "TOTAL"]

  /** The positions `range(row, row + count)`, empty when count <= 0. */
  function RowRange(row: int, count: int): (ps: seq<int>)
    ensures |ps| == if count <= 0 then 0 else count
    ensures forall i :: 0 <= i < |ps| ==> ps[i] == row + i
  {
    if count <= 0 then [] else seq(count, i => row + i)
  }

  /** `data` for a display role: a missing value shows as the empty text, a value as its `str()` text. */
  function Display(c: Cell): string
  {
    match c
    case Null => ""
    case Val(t) => t
  }

  /** `range(0, 2)` names the positions 0 and 1, both valid in a frame of two or more rows. */
  lemma FirstTwoPositions(n: nat)
    requires n >= 2
    ensures forall i :: 0 <= i < |RowRange(0, 2)| ==> ValidPosition(n, RowRange(0, 2)[i])
    ensures PositionSet(n, RowRange(0, 2)) == {0, 1}
  {
    assert RowRange(0, 2) == [0, 1];
    assert PositionSet(n, [0, 1]) == {0, 1} by {
      assert Normalize(n, [0, 1][0]) == 0 && Normalize(n, [0, 1][1]) == 1;
    }
  }

  class PandasModel {
    /** `_data`: the caller's frame, not a copy. */
    var data: Frame

    constructor (data: Frame)
      ensures this.data == data
    {
      this.data := data;
    }

    /** `rowCount`. */
    function RowCount(): (n: nat)
      reads this, data
      ensures n == |data.rows|
    {
      |data.rows|
    }

    /** `columnCount`. */
    function ColumnCount(): (n: nat)
      reads this, data
      ensures n == |data.columns|
    {
      |data.columns|
    }

    /**
     * `data(index, DisplayRole)` for a valid index outside the VOLUME column:
     * missing values show as empty text.
     */
    function DisplayData(row: nat, column: nat): (text: string)
      reads this, data
      requires row < |data.rows| && column < |data.columns| && column < |data.rows[row]|
      requires data.columns[column] != "VOLUME"
      ensures data.rows[row][column].Null? ==> text == ""
      ensures data.rows[row][column].Val? ==> text == data.rows[row][column].text
    {
      Display(data.rows[row][column])
    }

    /** `update_data`: the model now shows the given frame. */
    method UpdateData(f: Frame)
      modifies this
      ensures data == f
    {
      data := f;
    }

    /**
     * `removeRows(row, count)`: the shared frame loses positions row ..
     * row+count-1 (negative positions count from the end) and is renumbered;
     * a position out of range raises IndexError and nothing is dropped.
     */
    method RemoveRows(row: int, count: int) returns (raised: bool)
      modifies data
      ensures data == old(data) && data.columns == old(data.columns)
      ensures raised <==> exists i :: 0 <= i < |RowRange(row, count)| && !ValidPosition(|old(data.rows)|, RowRange(row, count)[i])
      ensures !raised ==> data.rows == RemoveAt(old(data.rows), PositionSet(|old(data.rows)|, RowRange(row, count)))
      ensures raised ==> data.rows == old(data.rows)
    {
      var ok := data.DropPositions(RowRange(row, count));
      raised := !ok;
    }

    /** `hapus_baris_pertama_kedua`: with at least two rows, the first two go; otherwise nothing changes. */
    method RemoveFirstTwoRows()
      modifies data
      ensures data == old(data) && data.columns == old(data.columns)
      ensures |old(data.rows)| > 1 ==> data.rows == old(data.rows)[2..]
      ensures |old(data.rows)| <= 1 ==> data.rows == old(data.rows)
    {
      if RowCount() > 1 {
        FirstTwoPositions(|data.rows|);
        RemoveFirstTwo(data.rows);
        var raised := RemoveRows(0, 2);
      }
    }
  }

  /**
   * `CustomSortFilterProxyModel`: a sorting proxy in front of a table model.
   * Its ordering is not modelled; it holds its source model and has no
   * `update_data` of its own.
   */
  class SortFilterProxy {
    /** `sourceModel()`. */
    var source: PandasModel

    constructor (source: PandasModel)
      ensures this.source == source
    {
      this.source := source;
    }
  }

  /** The AttributeError a proxy raises when asked for `update_data`. */
  const NoUpdateData: string := "AttributeError: 'CustomSortFilterProxyModel' object has no attribute 'update_data'"

  /**
   * Module-level `delete_market_rows` and `delete_account_rows` as written,
   * given the proxy the init functions return: a missing label raises
   * KeyError; otherwise the new frame is built, then `update_data` on the
   * proxy raises AttributeError. No call returns a frame, and the source
   * model keeps showing the old one.
   */
  method DeleteRowsAsWritten(labels: seq<int>, frame: Frame, proxy: SortFilterProxy) returns (r: Result<Frame>)
    ensures DropLabels(frame.rows, labels).Err? ==> r == Err(DropLabels(frame.rows, labels).msg)
    ensures DropLabels(frame.rows, labels).Ok? ==> r == Err(NoUpdateData)
  {
    match DropLabels(frame.rows, labels)
    case Err(m) =>
      return Err(m);
    case Ok(rows) =>
      var f := new Frame(frame.columns, rows);
      return Err(NoUpdateData);
  }

  /**
   * The same deletions with the frame handed to the proxy's source model: a
   * new frame without the rows carrying the given labels, renumbered, which
   * the source model then shows; a missing label raises KeyError and nothing
   * changes.
   */
  method DeleteRows(labels: seq<int>, frame: Frame, proxy: SortFilterProxy) returns (r: Result<Frame>)
    modifies proxy.source
    ensures DropLabels(frame.rows, labels).Err? ==> r.Err? && proxy.source.data == old(proxy.source.data)
    ensures DropLabels(frame.rows, labels).Ok? ==>
      r.Ok? && fresh(r.value) && r.value.columns == frame.columns
      && r.value.rows == DropLabels(frame.rows, labels).value && proxy.source.data == r.value
  {
    match DropLabels(frame.rows, labels)
    case Err(m) =>
      return Err(m);
    case Ok(rows) =>
      var f := new Frame(frame.columns, rows);
      proxy.source.UpdateData(f);
      return Ok(f);
  }

  /** `init_market_data_model`: an empty market frame and a proxy over a model showing it. */
  method InitMarketDataModel() returns (f: Frame, p: SortFilterProxy)
    ensures fresh(f) && fresh(p) && fresh(p.source)
    ensures f.columns == MarketColumns && f.rows == [] && p.source.data == f
  {
    f := new Frame(MarketColumns, []);
    var m := new PandasModel(f);
    p := new SortFilterProxy(m);
  }

  /** `init_account_data_model`: an empty account frame and a proxy over a model showing it. */
  method InitAccountDataModel() returns (f: Frame, p: SortFilterProxy)
    ensures fresh(f) && fresh(p) && fresh(p.source)
    ensures f.columns == AccountColumns && f.rows == [] && p.source.data == f
  {
    f := new Frame(AccountColumns, []);
    var m := new PandasModel(f);
    p := new SortFilterProxy(m);
  }
}
