/**
 * Dataframes as the core uses them: a column list and a list of rows, with
 * row deletion by position followed by renumbering (`drop` then
 * `reset_index(drop=True)`). Row labels are always 0..n-1 in this model, as
 * every frame the core builds has a fresh range index.
 */
module Frames {
  import opened Common
  import opened Dicts

  /** The positions 0..n-1 that are not in `drop`, in ascending order. */
  function KeptPositions(n: nat, drop: set<int>): (ks: seq<nat>)
    ensures forall j :: 0 <= j < |ks| ==> ks[j] < n && ks[j] !in drop
    ensures forall i, j :: 0 <= i < j < |ks| ==> ks[i] < ks[j]
    ensures forall p :: 0 <= p < n && p !in drop ==> p in ks
  {
    if n == 0 then [] else KeptPositions(n - 1, drop) + (if n - 1 in drop then [] else [n - 1])
  }

  /**
   * The rows of `s` whose positions are not in `drop`, in their original
   * order and renumbered from 0: row j of the result is row
   * `KeptPositions(|s|, drop)[j]` of the input.
   */
  function RemoveAt<T>(s: seq<T>, drop: set<int>): (r: seq<T>)
    ensures |r| == |KeptPositions(|s|, drop)|
    ensures forall j :: 0 <= j < |r| ==> r[j] == s[KeptPositions(|s|, drop)[j]]
  {
    if |s| == 0 then []
    else
      var last := |s| - 1;
      var init := RemoveAt(s[..last], drop);
      var ks := KeptPositions(last, drop);
      var kp := KeptPositions(|s|, drop);
      assert kp == ks + (if last in drop then [] else [last]);
      var r := init + (if last in drop then [] else [s[last]]);
      assert forall j :: 0 <= j < |r| ==> r[j] == s[kp[j]] by {
        forall j | 0 <= j < |r| ensures r[j] == s[kp[j]] {
          if j < |init| {
            assert r[j] == init[j] == s[..last][ks[j]] && kp[j] == ks[j];
          }
        }
      }
      r
  }

  /** Dropping the positions {0, 1} of a table with at least two rows leaves its tail. */
  lemma {:induction false} KeptAfterFirstTwo(n: nat)
    requires n >= 2
    ensures |KeptPositions(n, {0, 1})| == n - 2
    ensures forall j :: 0 <= j < n - 2 ==> KeptPositions(n, {0, 1})[j] == j + 2
  {
    if n == 2 {
      assert KeptPositions(1, {0, 1}) == KeptPositions(0, {0, 1}) == [];
    } else {
      KeptAfterFirstTwo(n - 1);
      assert KeptPositions(n, {0, 1}) == KeptPositions(n - 1, {0, 1}) + [n - 1];
    }
  }

  /** Dropping the first two rows of a table with at least two rows leaves its tail. */
  lemma RemoveFirstTwo<T>(s: seq<T>)
    requires |s| >= 2
    ensures RemoveAt(s, {0, 1}) == s[2..]
  {
    KeptAfterFirstTwo(|s|);
  }

  /** `df.index[p]` accepts a position p of an n-row frame iff -n <= p < n. */
  predicate ValidPosition(n: nat, p: int)
  {
    -(n as int) <= p < n
  }

  /** A negative position counts from the end, as in Python. */
  function Normalize(n: nat, p: int): int
  {
    if p < 0 then p + n else p
  }

  /** The positions a list of (possibly negative) positions designates. */
  function PositionSet(n: nat, ps: seq<int>): set<int>
  {
    set i | 0 <= i < |ps| :: Normalize(n, ps[i])
  }

  /**
   * `drop(labels)` on a frame whose labels are 0..n-1: every label must be
   * present (KeyError otherwise); the rows left are renumbered from 0.
   */
  function DropLabels<T>(rows: seq<T>, labels: seq<int>): (r: Result<seq<T>>)
    ensures r.Ok? <==> forall i :: 0 <= i < |labels| ==> 0 <= labels[i] < |rows|
    ensures r.Ok? ==> r.value == RemoveAt(rows, set i | 0 <= i < |labels| :: labels[i])
  {
    if forall i :: 0 <= i < |labels| ==> 0 <= labels[i] < |rows| then
      Ok(RemoveAt(rows, set i | 0 <= i < |labels| :: labels[i]))
    else Err("KeyError: labels not found in axis")
  }

  /** The market table's columns. */
  const MarketColumns: seq<string> := ["TIME", "PAIR", "24H %", "PRICE", "VOLUME"]

  /** The account table's columns once a balance is loaded. */
  const BalanceColumns: seq<string> := ["CURRENCY", "AVAILABLE"]

  /** The row added for a new pair: the time, the pair, and three missing values. */
  function NewPairRow(now: string, pair: string): (row: seq<Cell>)
    ensures |row| == |MarketColumns| && row[1] == Val(pair)
  {
    [Val(now), Val(pair), Null, Null, Null]
  }

  /** What `update_balance` does with a balance dict. */
  datatype BalanceOutcome =
    | MissingMessage                                  // 'error' without 'message': KeyError
    | Unchanged                                       // 'error' with 'message': logged only
    | Replace(columns: seq<string>, rows: seq<seq<Cell>>)

  /**
   * A balance dict without 'error' becomes one row `[currency, available]` per
   * entry, in dict order; an empty dict gives a frame with no columns at all.
   */
  function BalanceUpdate(balance: Dict<string, Cell>): BalanceOutcome
  {
    if "error" in Keys(balance) then
      if "message" in Keys(balance) then Unchanged else MissingMessage
    else if |balance| == 0 then Replace([], [])
    else Replace(BalanceColumns, seq(|balance|, i requires 0 <= i < |balance| => [Val(balance[i].0), balance[i].1]))
  }

  /** One row per currency, in dict order, holding the currency and its available amount. */
  lemma BalanceRows(balance: Dict<string, Cell>)
    ensures "error" in Keys(balance) <==> !BalanceUpdate(balance).Replace?
    ensures "error" in Keys(balance) ==>
      (BalanceUpdate(balance).MissingMessage? <==> "message" !in Keys(balance))
    ensures BalanceUpdate(balance).Replace? ==>
      var u := BalanceUpdate(balance);
      |u.rows| == |balance|
      && (|balance| > 0 ==> u.columns == BalanceColumns)
      && forall i :: 0 <= i < |balance| ==> u.rows[i] == [Val(Keys(balance)[i]), balance[i].1]
  {
  }

  /** A dataframe object, shared by reference between the caller and the table model. */
  class Frame {
    var columns: seq<string>
    var rows: seq<seq<Cell>>

    constructor (columns: seq<string>, rows: seq<seq<Cell>>)
      ensures this.columns == columns && this.rows == rows
    {
      this.columns := columns;
      this.rows := rows;
    }

    /**
     * `drop(self.index[positions], inplace=True)` then
     * `reset_index(drop=True, inplace=True)`: an out-of-range position raises
     * IndexError before anything is dropped.
     */
    method DropPositions(ps: seq<int>) returns (ok: bool)
      modifies this
      ensures ok <==> forall i :: 0 <= i < |ps| ==> ValidPosition(|old(rows)|, ps[i])
      ensures columns == old(columns)
      ensures ok ==> rows == RemoveAt(old(rows), PositionSet(|old(rows)|, ps))
      ensures !ok ==> rows == old(rows)
    {
      var n := |rows|;
      var i := 0;
      while i < |ps|
        invariant 0 <= i <= |ps|
        invariant forall j :: 0 <= j < i ==> ValidPosition(n, ps[j])
      {
        if !ValidPosition(n, ps[i]) {
          return false;
        }
        i := i + 1;
      }
      rows := RemoveAt(rows, PositionSet(n, ps));
      return true;
    }
  }
}
