/**
 * models/panda_market_data.py: `PandaMarketData`, a table model over a
 * dataframe with the headers TIME, PAIR, 24%, PRICE, VOLUME.
 *
 * `import_data` goes through pandas: the frame becomes a dict keyed by the
 * PAIR column (`set_index("PAIR").to_dict('index')`), each imported row
 * overwrites the entry of its pair, and the dict is turned back into a frame
 * again (`from_dict(orient='index')` then `reset_index()`). The other
 * columns are the record keys in order of first appearance; the rows are
 * collected column by column, so a pair that lacks the first column can
 * move down. The pair goes into a new first column named "index", or
 * "level_0" when "index" is a column already; `reset_index` raises when
 * that name is taken too.
 */
module PandaMarketData {
  import opened Common
  import opened Dicts

  const Headers: seq<string> := ["TIME", "PAIR", "24%", "PRICE", "VOLUME"]

  /** A dataframe's columns and rows. */
  datatype Table = Table(columns: seq<string>, rows: seq<seq<Cell>>)

  /** Every row has one cell per column. */
  predicate Rectangular(t: Table)
  {
    forall i :: 0 <= i < |t.rows| ==> |t.rows[i]| == |t.columns|
  }

  /** One row of a frame as a dict from column name to cell. */
  type Record = Dict<string, Cell>

  /** The position of the first column called `name`. */
  function ColumnIndex(cols: seq<string>, name: string): (r: Option<nat>)
    ensures r.Some? ==> r.value < |cols| && cols[r.value] == name
    ensures r.None? ==> name !in cols
  {
    if |cols| == 0 then None
    else if cols[0] == name then Some(0)
    else match ColumnIndex(cols[1..], name)
      case None => None
      case Some(i) => Some(i + 1)
  }

  /** `DataFrame(data, columns=Headers)` accepts a list of rows iff it is empty or its longest row has five cells. */
  predicate ShapeOk(data: seq<seq<Cell>>)
  {
    |data| == 0
    || ((forall i :: 0 <= i < |data| ==> |data[i]| <= |Headers|) && exists i :: 0 <= i < |data| && |data[i]| == |Headers|)
  }

  /** A row padded with missing values to five cells, as pandas pads a short row. */
  function Pad(row: seq<Cell>): (r: seq<Cell>)
    requires |row| <= |Headers|
    ensures |r| == |Headers| && r[..|row|] == row
    ensures forall j :: |row| <= j < |r| ==> r[j] == Null
  {
    row + seq(|Headers| - |row|, _ => Null)
  }

  /** The frame `DataFrame(data, columns=Headers)` builds. */
  function FromRows(data: seq<seq<Cell>>): (t: Table)
    requires ShapeOk(data)
    ensures Rectangular(t) && t.columns == Headers && |t.rows| == |data|
  {
    Table(Headers, seq(|data|, i requires 0 <= i < |data| => Pad(data[i])))
  }

  /** Row `row` as a record of its cells outside column `pc`. */
  function RowRecord(cols: seq<string>, row: seq<Cell>, pc: nat): Record
    requires pc < |cols| == |row|
  {
    FromItems(Zip(cols[..pc] + cols[pc + 1..], row[..pc] + row[pc + 1..]))
  }

  /** No two rows share a cell in column `pc`. */
  predicate DistinctAt(rows: seq<seq<Cell>>, pc: nat)
    requires forall i :: 0 <= i < |rows| ==> pc < |rows[i]|
  {
    forall i, j :: 0 <= i < j < |rows| ==> rows[i][pc] != rows[j][pc]
  }

  /** `set_index` on column `pc` then `to_dict('index')`: fails when a key repeats. */
  function Records(cols: seq<string>, rows: seq<seq<Cell>>, pc: nat): (r: Result<Dict<Cell, Record>>)
    requires pc < |cols| && forall i :: 0 <= i < |rows| ==> |rows[i]| == |cols|
    ensures r.Ok? <==> DistinctAt(rows, pc)
    ensures r.Ok? ==> DistinctKeys(r.value) && |r.value| == |rows|
  {
    if DistinctAt(rows, pc) then
      Ok(seq(|rows|, i requires 0 <= i < |rows| => (rows[i][pc], RowRecord(cols, rows[i], pc))))
    else Err("DataFrame index must be unique")
  }

  /** The last imported row whose second cell is `k`, among rows of at least two cells. */
  function LastWithPair(nd: seq<seq<Cell>>, k: Cell): (r: Option<seq<Cell>>)
    ensures r.Some? ==> |r.value| >= 2 && r.value[1] == k && r.value in nd
    ensures r.None? ==> forall i :: 0 <= i < |nd| && |nd[i]| >= 2 ==> nd[i][1] != k
  {
    if |nd| == 0 then None
    else if |nd[|nd| - 1]| >= 2 && nd[|nd| - 1][1] == k then Some(nd[|nd| - 1])
    else
      var r := LastWithPair(nd[..|nd| - 1], k);
      assert r.Some? ==> r.value in nd by {
        if r.Some? {
          var i :| 0 <= i < |nd| - 1 && nd[..|nd| - 1][i] == r.value;
          assert nd[i] == r.value;
        }
      }
      r
  }

  /** The record an imported row becomes: `dict(zip(headers, row))`. */
  function ImportedRecord(headers: seq<string>, row: seq<Cell>): Record
  {
    FromItems(Zip(headers, row))
  }

  /** Every imported row has a second cell. */
  predicate AllPaired(nd: seq<seq<Cell>>)
  {
    forall i :: 0 <= i < |nd| ==> |nd[i]| >= 2
  }

  /** The loop of `import_data` when no row raises: each row overwrites the entry of its pair. */
  function MergeAll(e: Dict<Cell, Record>, headers: seq<string>, nd: seq<seq<Cell>>): Dict<Cell, Record>
    requires AllPaired(nd)
  {
    if |nd| == 0 then e
    else
      var row := nd[|nd| - 1];
      Put(MergeAll(e, headers, nd[..|nd| - 1]), row[1], ImportedRecord(headers, row))
  }

  /** The loop of `import_data`: a row shorter than two cells raises IndexError. */
  function Merge(e: Dict<Cell, Record>, headers: seq<string>, nd: seq<seq<Cell>>): (r: Result<Dict<Cell, Record>>)
    ensures r.Ok? <==> AllPaired(nd)
  {
    if AllPaired(nd) then Ok(MergeAll(e, headers, nd)) else Err("list index out of range")
  }

  /** One more imported row of at least two cells extends the loop by one overwrite. */
  lemma MergeAllStep(e: Dict<Cell, Record>, headers: seq<string>, nd: seq<seq<Cell>>, i: nat)
    requires i < |nd| && |nd[i]| >= 2 && AllPaired(nd[..i])
    ensures AllPaired(nd[..i + 1])
    ensures MergeAll(e, headers, nd[..i + 1]) == Put(MergeAll(e, headers, nd[..i]), nd[i][1], ImportedRecord(headers, nd[i]))
  {
    assert nd[..i + 1][..i] == nd[..i];
  }

  /** After the loop, an imported pair holds its last imported row and every other pair its old record. */
  lemma {:induction false} MergeLookup(e: Dict<Cell, Record>, headers: seq<string>, nd: seq<seq<Cell>>, k: Cell)
    requires AllPaired(nd)
    ensures Lookup(MergeAll(e, headers, nd), k)
      == match LastWithPair(nd, k)
         case Some(row) => Some(ImportedRecord(headers, row))
         case None => Lookup(e, k)
  {
    if |nd| > 0 {
      var row := nd[|nd| - 1];
      MergeLookup(e, headers, nd[..|nd| - 1], k);
      LookupPut(MergeAll(e, headers, nd[..|nd| - 1]), row[1], ImportedRecord(headers, row), k);
    }
  }

  /** After the loop, the old pairs keep their places and no pair occurs twice. */
  lemma {:induction false} MergeKeys(e: Dict<Cell, Record>, headers: seq<string>, nd: seq<seq<Cell>>)
    requires AllPaired(nd)
    requires DistinctKeys(e)
    ensures var m := MergeAll(e, headers, nd);
      DistinctKeys(m) && |m| >= |e| && Keys(m)[..|e|] == Keys(e)
  {
    if |nd| > 0 {
      var row := nd[|nd| - 1];
      MergeKeys(e, headers, nd[..|nd| - 1]);
      var d := MergeAll(e, headers, nd[..|nd| - 1]);
      KeysPut(d, row[1], ImportedRecord(headers, row));
      PutKeepsDistinct(d, row[1], ImportedRecord(headers, row));
      assert Keys(MergeAll(e, headers, nd))[..|e|] == Keys(d)[..|e|];
    }
  }

  /** After the loop, a pair has an entry exactly when it had one before or some imported row names it. */
  lemma {:induction false} MergeKeysMember(e: Dict<Cell, Record>, headers: seq<string>, nd: seq<seq<Cell>>, k: Cell)
    requires AllPaired(nd)
    ensures k in Keys(MergeAll(e, headers, nd)) <==> k in Keys(e) || exists i :: 0 <= i < |nd| && nd[i][1] == k
  {
    if |nd| > 0 {
      var init := nd[..|nd| - 1];
      var row := nd[|nd| - 1];
      var d := MergeAll(e, headers, init);
      MergeKeysMember(e, headers, init, k);
      NamedSnoc(nd, init, k);
      KeyInPut(d, row[1], ImportedRecord(headers, row), k);
    }
  }

  /** A pair is named by some imported row exactly when it is named by an earlier row or by the last one. */
  lemma NamedSnoc(nd: seq<seq<Cell>>, init: seq<seq<Cell>>, k: Cell)
    requires AllPaired(nd) && |nd| > 0 && init == nd[..|nd| - 1]
    ensures (exists i :: 0 <= i < |nd| && nd[i][1] == k)
      <==> (exists i :: 0 <= i < |init| && init[i][1] == k) || nd[|nd| - 1][1] == k
  {
    if exists i :: 0 <= i < |nd| && nd[i][1] == k {
      var i :| 0 <= i < |nd| && nd[i][1] == k;
      if i < |init| {
        assert init[i][1] == k;
      }
    }
    if exists i :: 0 <= i < |init| && init[i][1] == k {
      var i :| 0 <= i < |init| && init[i][1] == k;
      assert nd[i][1] == k;
    }
  }

  /** `acc` followed by the elements of `ks` it lacks, in order of first appearance. */
  function Union<T(==)>(acc: seq<T>, ks: seq<T>): seq<T>
    decreases |ks|
  {
    if |ks| == 0 then acc
    else if ks[0] in acc then Union(acc, ks[1..])
    else Union(acc + [ks[0]], ks[1..])
  }

  /** The union holds exactly the elements of both, and no element twice when `acc` has none twice. */
  lemma {:induction false} UnionMember<T(!new)>(acc: seq<T>, ks: seq<T>)
    ensures forall c :: c in Union(acc, ks) <==> c in acc || c in ks
    ensures (forall i, j :: 0 <= i < j < |acc| ==> acc[i] != acc[j]) ==>
      forall i, j :: 0 <= i < j < |Union(acc, ks)| ==> Union(acc, ks)[i] != Union(acc, ks)[j]
    decreases |ks|
  {
    if |ks| > 0 {
      if ks[0] in acc {
        UnionMember(acc, ks[1..]);
      } else {
        UnionMember(acc + [ks[0]], ks[1..]);
      }
      assert ks == [ks[0]] + ks[1..];
    }
  }

  /** The union starts with `acc`. */
  lemma {:induction false} UnionPrefix<T(!new)>(acc: seq<T>, ks: seq<T>)
    ensures |Union(acc, ks)| >= |acc| && Union(acc, ks)[..|acc|] == acc
    decreases |ks|
  {
    if |ks| > 0 {
      if ks[0] in acc {
        UnionPrefix(acc, ks[1..]);
      } else {
        var u := Union(acc + [ks[0]], ks[1..]);
        UnionPrefix(acc + [ks[0]], ks[1..]);
        assert u[..|acc| + 1][..|acc|] == u[..|acc|];
      }
    }
  }

  /** Nothing is added when `acc` already has every element of `ks`. */
  lemma {:induction false} UnionNoNew<T(!new)>(acc: seq<T>, ks: seq<T>)
    requires forall c :: c in ks ==> c in acc
    ensures Union(acc, ks) == acc
    decreases |ks|
  {
    if |ks| > 0 {
      UnionNoNew(acc, ks[1..]);
    }
  }

  /** Distinct elements none of which `acc` has are appended as they are. */
  lemma {:induction false} UnionFresh<T(!new)>(acc: seq<T>, ks: seq<T>)
    requires forall i, j :: 0 <= i < j < |ks| ==> ks[i] != ks[j]
    requires forall c :: c in ks ==> c !in acc
    ensures Union(acc, ks) == acc + ks
    decreases |ks|
  {
    if |ks| > 0 {
      assert forall c :: c in ks[1..] ==> c != ks[0];
      UnionFresh(acc + [ks[0]], ks[1..]);
      assert acc + [ks[0]] + ks[1..] == acc + ks;
    }
  }

  /** The columns `from_dict(orient='index')` gives: the record keys, in order of first appearance. */
  function ColumnUnion(d: Dict<Cell, Record>): seq<string>
  {
    if |d| == 0 then [] else Union(ColumnUnion(d[..|d| - 1]), Keys(d[|d| - 1].1))
  }

  /** The columns are every record key, each once. */
  lemma {:induction false} ColumnUnionMember(d: Dict<Cell, Record>)
    ensures forall c :: c in ColumnUnion(d) <==> exists i :: 0 <= i < |d| && c in Keys(d[i].1)
    ensures forall i, j :: 0 <= i < j < |ColumnUnion(d)| ==> ColumnUnion(d)[i] != ColumnUnion(d)[j]
  {
    if |d| > 0 {
      var init := d[..|d| - 1];
      ColumnUnionMember(init);
      UnionMember(ColumnUnion(init), Keys(d[|d| - 1].1));
      forall c ensures c in ColumnUnion(d) <==> exists i :: 0 <= i < |d| && c in Keys(d[i].1) {
        if c in ColumnUnion(init) {
          var i :| 0 <= i < |init| && c in Keys(init[i].1);
          assert d[i] == init[i];
        }
        if exists i :: 0 <= i < |d| && c in Keys(d[i].1) {
          var i :| 0 <= i < |d| && c in Keys(d[i].1);
          if i < |d| - 1 {
            assert init[i] == d[i];
          }
        }
      }
    }
  }

  /** The first column is the first field of the first record, when it has one. */
  lemma {:induction false} ColumnUnionFirst(d: Dict<Cell, Record>)
    requires |d| > 0 && |d[0].1| > 0
    ensures |ColumnUnion(d)| > 0 && ColumnUnion(d)[0] == Keys(d[0].1)[0]
  {
    var init := d[..|d| - 1];
    UnionPrefix(ColumnUnion(init), Keys(d[|d| - 1].1));
    if |init| > 0 {
      assert init[0] == d[0];
      ColumnUnionFirst(init);
    } else {
      var ks := Keys(d[0].1);
      assert d[|d| - 1] == d[0];
      assert ColumnUnion(init) == [];
      assert ks[0] !in [];
      assert [] + [ks[0]] == [ks[0]];
      assert ColumnUnion(d) == Union([ks[0]], ks[1..]);
      UnionPrefix([ks[0]], ks[1..]);
    }
  }

  /** The keys of the records that have column `c`, in dict order. */
  function Holders(d: Dict<Cell, Record>, c: string): seq<Cell>
  {
    if |d| == 0 then []
    else Holders(d[..|d| - 1], c) + (if c in Keys(d[|d| - 1].1) then [d[|d| - 1].0] else [])
  }

  /** A key holds column `c` exactly when its record has that column. */
  lemma {:induction false} HoldersMember(d: Dict<Cell, Record>, c: string)
    ensures forall k :: k in Holders(d, c) <==> exists i :: 0 <= i < |d| && d[i].0 == k && c in Keys(d[i].1)
  {
    if |d| > 0 {
      var init := d[..|d| - 1];
      HoldersMember(init, c);
      forall k ensures k in Holders(d, c) <==> exists i :: 0 <= i < |d| && d[i].0 == k && c in Keys(d[i].1) {
        if k in Holders(init, c) {
          var i :| 0 <= i < |init| && init[i].0 == k && c in Keys(init[i].1);
          assert d[i] == init[i];
        }
        if exists i :: 0 <= i < |d| && d[i].0 == k && c in Keys(d[i].1) {
          var i :| 0 <= i < |d| && d[i].0 == k && c in Keys(d[i].1);
          if i < |d| - 1 {
            assert init[i] == d[i];
          }
        }
      }
    }
  }

  /** When every record has column `c`, its holders are all the keys, in dict order. */
  lemma {:induction false} HoldersAll(d: Dict<Cell, Record>, c: string)
    requires forall i :: 0 <= i < |d| ==> c in Keys(d[i].1)
    ensures Holders(d, c) == Keys(d)
  {
    if |d| > 0 {
      var init := d[..|d| - 1];
      var last := d[|d| - 1];
      assert d == init + [last];
      forall i | 0 <= i < |init| ensures c in Keys(init[i].1) {
        assert init[i] == d[i];
      }
      HoldersAll(init, c);
      HoldersSnoc(init, last.0, last.1, c);
      assert Keys(init + [last]) == Keys(init) + [last.0];
    }
  }

  /** Whether a record has at least one of the columns `cs`. */
  predicate HasAny(rec: Record, cs: seq<string>)
  {
    exists c :: c in cs && c in Keys(rec)
  }

  /**
   * The row labels `from_dict(orient='index')` gives a dict of records: for
   * each column in turn, the keys of the records holding it that are not
   * listed yet.
   */
  function RowKeys(d: Dict<Cell, Record>, cs: seq<string>): seq<Cell>
  {
    if |cs| == 0 then [] else Union(RowKeys(d, cs[..|cs| - 1]), Holders(d, cs[|cs| - 1]))
  }

  /**
   * Every key whose record holds one of the columns gets a row, once; a
   * record holding none of them gets no row.
   */
  lemma RowKeysMember(d: Dict<Cell, Record>, cs: seq<string>)
    ensures forall k :: k in RowKeys(d, cs) <==> exists i :: 0 <= i < |d| && d[i].0 == k && HasAny(d[i].1, cs)
    ensures forall i, j :: 0 <= i < j < |RowKeys(d, cs)| ==> RowKeys(d, cs)[i] != RowKeys(d, cs)[j]
  {
    forall k ensures k in RowKeys(d, cs) <==> exists i :: 0 <= i < |d| && d[i].0 == k && HasAny(d[i].1, cs) {
      RowKeysHas(d, cs, k);
    }
    RowKeysDistinct(d, cs);
  }

  /** A key labels a row exactly when its record holds one of the columns. */
  lemma {:induction false} RowKeysHas(d: Dict<Cell, Record>, cs: seq<string>, k: Cell)
    ensures k in RowKeys(d, cs) <==> exists i :: 0 <= i < |d| && d[i].0 == k && HasAny(d[i].1, cs)
  {
    if |cs| > 0 {
      var init := cs[..|cs| - 1];
      var c := cs[|cs| - 1];
      assert cs == init + [c];
      RowKeysHas(d, init, k);
      HoldersMember(d, c);
      UnionMember(RowKeys(d, init), Holders(d, c));
      forall i | 0 <= i < |d| ensures HasAny(d[i].1, cs) <==> HasAny(d[i].1, init) || c in Keys(d[i].1) {
        HasAnySnoc(d[i].1, init, c);
      }
    }
  }

  /** A record holds one of `init + [c]` exactly when it holds one of `init` or holds `c`. */
  lemma HasAnySnoc(rec: Record, init: seq<string>, c: string)
    ensures HasAny(rec, init + [c]) <==> HasAny(rec, init) || c in Keys(rec)
  {
    if HasAny(rec, init + [c]) {
      var c' :| c' in init + [c] && c' in Keys(rec);
      if c' != c {
        assert c' in init;
      }
    }
    if HasAny(rec, init) {
      var c' :| c' in init && c' in Keys(rec);
      assert c' in init + [c];
    }
    if c in Keys(rec) {
      assert c in init + [c];
    }
  }

  /** No key labels two rows. */
  lemma {:induction false} RowKeysDistinct(d: Dict<Cell, Record>, cs: seq<string>)
    ensures forall i, j :: 0 <= i < j < |RowKeys(d, cs)| ==> RowKeys(d, cs)[i] != RowKeys(d, cs)[j]
  {
    if |cs| > 0 {
      var init := cs[..|cs| - 1];
      RowKeysDistinct(d, init);
      UnionMember(RowKeys(d, init), Holders(d, cs[|cs| - 1]));
    }
  }

  /** When every record holds the first column, the rows keep the dict's order. */
  lemma {:induction false} RowKeysInDictOrder(d: Dict<Cell, Record>, cs: seq<string>)
    requires DistinctKeys(d) && |cs| > 0
    requires forall i :: 0 <= i < |d| ==> cs[0] in Keys(d[i].1)
    ensures RowKeys(d, cs) == Keys(d)
  {
    var init := cs[..|cs| - 1];
    var c := cs[|cs| - 1];
    var hs := Holders(d, c);
    if |cs| == 1 {
      HoldersAll(d, c);
      assert RowKeys(d, init) == [];
      UnionFresh([], hs);
      assert [] + hs == hs;
    } else {
      assert init[0] == cs[0];
      RowKeysInDictOrder(d, init);
      HoldersInKeys(d, c);
      UnionNoNew(Keys(d), hs);
    }
  }

  /** Only keys of the dict hold a column. */
  lemma {:induction false} HoldersInKeys(d: Dict<Cell, Record>, c: string)
    ensures forall k :: k in Holders(d, c) ==> k in Keys(d)
  {
    if |d| > 0 {
      var init := d[..|d| - 1];
      var last := d[|d| - 1];
      assert d == init + [last];
      HoldersInKeys(init, c);
      HoldersSnoc(init, last.0, last.1, c);
      assert Keys(init + [last]) == Keys(init) + [last.0];
    }
  }

  /** A missing record entry is a missing value. */
  function CellOf(v: Option<Cell>): Cell
  {
    if v.Some? then v.value else Null
  }

  /** The row `reset_index` gives an entry: its key, then its record's cell under each column (missing when absent). */
  function RowOf(entry: (Cell, Record), ks: seq<string>): (row: seq<Cell>)
    ensures |row| == |ks| + 1 && row[0] == entry.0
    ensures forall j :: 1 <= j < |row| ==> row[j] == CellOf(Lookup(entry.1, ks[j - 1]))
  {
    [entry.0] + seq(|ks|, j requires 0 <= j < |ks| => CellOf(Lookup(entry.1, ks[j])))
  }

  /** The record of key `k` (empty when there is none). */
  function RecordOf(d: Dict<Cell, Record>, k: Cell): Record
  {
    match Lookup(d, k)
    case Some(rec) => rec
    case None => []
  }

  /** The name `reset_index` gives the key column: "index", or "level_0" when a column is already called "index". */
  function KeyName(cs: seq<string>): (name: string)
    ensures name == "index" || name == "level_0"
    ensures name in cs <==> "index" in cs && "level_0" in cs
  {
    if "index" in cs then "level_0" else "index"
  }

  /**
   * `from_dict(orient='index').reset_index()`: the columns are the record
   * keys, the rows are labelled by `RowKeys`, and the labels go first under
   * `KeyName`; `reset_index` raises when that name is a column already.
   */
  function FromDict(d: Dict<Cell, Record>): (r: Result<Table>)
    ensures r.Ok? <==> !("index" in ColumnUnion(d) && "level_0" in ColumnUnion(d))
    ensures r.Ok? ==>
              var cs := ColumnUnion(d);
              var ks := RowKeys(d, cs);
              Rectangular(r.value) && r.value.columns == [KeyName(cs)] + cs && |r.value.rows| == |ks|
              && forall i :: 0 <= i < |ks| ==> r.value.rows[i] == RowOf((ks[i], RecordOf(d, ks[i])), cs)
  {
    var cs := ColumnUnion(d);
    var name := KeyName(cs);
    if name in cs then Err("cannot insert " + name + ", already exists")
    else
      var ks := RowKeys(d, cs);
      Ok(Table([name] + cs, seq(|ks|, i requires 0 <= i < |ks| => RowOf((ks[i], RecordOf(d, ks[i])), cs))))
  }

  /** A frame's first column. */
  function KeyColumn(t: Table): (ks: seq<Cell>)
    requires forall i :: 0 <= i < |t.rows| ==> |t.rows[i]| > 0
    ensures |ks| == |t.rows| && forall i :: 0 <= i < |t.rows| ==> ks[i] == t.rows[i][0]
  {
    seq(|t.rows|, i requires 0 <= i < |t.rows| => t.rows[i][0])
  }

  /**
   * The frame built from a dict has one row per key whose record has at
   * least one field, each key once; when every record holds the first
   * column, the rows keep the dict's order.
   */
  lemma FromDictRows(d: Dict<Cell, Record>)
    requires FromDict(d).Ok?
    ensures var r := FromDict(d).value;
      (forall i :: 0 <= i < |r.rows| ==> |r.rows[i]| > 0)
      && (forall k :: k in KeyColumn(r) <==> exists i :: 0 <= i < |d| && d[i].0 == k && |d[i].1| > 0)
      && (forall i, j :: 0 <= i < j < |r.rows| ==> r.rows[i][0] != r.rows[j][0])
      && (DistinctKeys(d) && |ColumnUnion(d)| > 0 && (forall i :: 0 <= i < |d| ==> ColumnUnion(d)[0] in Keys(d[i].1))
          ==> KeyColumn(r) == Keys(d))
  {
    var cs := ColumnUnion(d);
    FromDictKeyColumn(d);
    RowKeysMember(d, cs);
    HasAnyColumn(d);
    if DistinctKeys(d) && |cs| > 0 && forall i :: 0 <= i < |d| ==> cs[0] in Keys(d[i].1) {
      RowKeysInDictOrder(d, cs);
    }
  }

  /** The rebuilt frame's first column is the row labels. */
  lemma FromDictKeyColumn(d: Dict<Cell, Record>)
    requires FromDict(d).Ok?
    ensures var r := FromDict(d).value;
      (forall i :: 0 <= i < |r.rows| ==> |r.rows[i]| > 0) && KeyColumn(r) == RowKeys(d, ColumnUnion(d))
  {
  }

  /** A record holds some column exactly when it has a field. */
  lemma HasAnyColumn(d: Dict<Cell, Record>)
    ensures forall i :: 0 <= i < |d| ==> (HasAny(d[i].1, ColumnUnion(d)) <==> |d[i].1| > 0)
  {
    ColumnUnionMember(d);
    forall i | 0 <= i < |d| ensures HasAny(d[i].1, ColumnUnion(d)) <==> |d[i].1| > 0 {
      if |d[i].1| > 0 {
        assert Keys(d[i].1)[0] in ColumnUnion(d);
      }
    }
  }

  /** The whole of `import_data`'s try block, from the current frame to the new one. */
  function Import(t: Table, headers: seq<string>, nd: seq<seq<Cell>>): Result<Table>
    requires Rectangular(t)
  {
    match ColumnIndex(t.columns, "PAIR")
    case None => Err("KeyError: PAIR")
    case Some(pc) =>
      match Records(t.columns, t.rows, pc)
      case Err(m) => Err(m)
      case Ok(e) =>
        match Merge(e, headers, nd)
        case Err(m) => Err(m)
        case Ok(d) => FromDict(d)
  }

  /** The key of an old row: its first PAIR cell. */
  function PairOf(t: Table, row: seq<Cell>): Cell
    requires "PAIR" in t.columns && |row| == |t.columns|
  {
    row[ColumnIndex(t.columns, "PAIR").value]
  }

  /** The old frame's pair column. */
  function PairColumn(t: Table): (ps: seq<Cell>)
    requires Rectangular(t) && "PAIR" in t.columns
    ensures |ps| == |t.rows| && forall i :: 0 <= i < |t.rows| ==> ps[i] == PairOf(t, t.rows[i])
  {
    seq(|t.rows|, i requires 0 <= i < |t.rows| => PairOf(t, t.rows[i]))
  }

  /** The pairs an import names. */
  function ImportedPairs(nd: seq<seq<Cell>>): set<Cell>
  {
    set i | 0 <= i < |nd| && |nd[i]| >= 2 :: nd[i][1]
  }

  function Elems(s: seq<Cell>): set<Cell>
  {
    set x | x in s
  }

  /** The dict `import_data` turns back into a frame, when every step succeeds. */
  function ImportDict(t: Table, headers: seq<string>, nd: seq<seq<Cell>>): Dict<Cell, Record>
    requires Rectangular(t) && "PAIR" in t.columns && AllPaired(nd)
    requires DistinctAt(t.rows, ColumnIndex(t.columns, "PAIR").value)
  {
    MergeAll(Records(t.columns, t.rows, ColumnIndex(t.columns, "PAIR").value).value, headers, nd)
  }

  /** A successful import goes through every step, and its frame is built from the merged dict. */
  lemma ImportSteps(t: Table, headers: seq<string>, nd: seq<seq<Cell>>)
    requires Rectangular(t)
    requires Import(t, headers, nd).Ok?
    ensures "PAIR" in t.columns && AllPaired(nd) && DistinctAt(t.rows, ColumnIndex(t.columns, "PAIR").value)
    ensures Import(t, headers, nd) == FromDict(ImportDict(t, headers, nd))
  {
  }

  /** The merged dict holds the old pairs first, in their order, then the new ones; each once. */
  lemma ImportDictKeys(t: Table, headers: seq<string>, nd: seq<seq<Cell>>)
    requires Rectangular(t) && "PAIR" in t.columns && AllPaired(nd)
    requires DistinctAt(t.rows, ColumnIndex(t.columns, "PAIR").value)
    ensures var d := ImportDict(t, headers, nd);
      DistinctKeys(d) && |d| >= |t.rows| && Keys(d)[..|t.rows|] == PairColumn(t)
      && Elems(Keys(d)) == Elems(PairColumn(t)) + ImportedPairs(nd)
  {
    var e := Records(t.columns, t.rows, ColumnIndex(t.columns, "PAIR").value).value;
    var d := ImportDict(t, headers, nd);
    assert Keys(e) == PairColumn(t);
    MergeKeys(e, headers, nd);
    forall k ensures k in Elems(Keys(d)) <==> k in Elems(PairColumn(t)) + ImportedPairs(nd) {
      MergeKeysMember(e, headers, nd, k);
      if k in ImportedPairs(nd) {
        var i :| 0 <= i < |nd| && |nd[i]| >= 2 && nd[i][1] == k;
      }
    }
  }

  /** The old row whose pair is `k` (the last such row; all missing values when none). */
  function OldRow(t: Table, k: Cell): (row: seq<Cell>)
    requires Rectangular(t) && "PAIR" in t.columns
    ensures |row| == |t.columns|
    decreases |t.rows|
  {
    if |t.rows| == 0 then seq(|t.columns|, _ => Null)
    else if PairOf(t, t.rows[|t.rows| - 1]) == k then t.rows[|t.rows| - 1]
    else OldRow(Table(t.columns, t.rows[..|t.rows| - 1]), k)
  }

  /** With distinct pairs, the row at position x is the old row of its pair. */
  lemma {:induction false} OldRowAt(t: Table, k: Cell, x: nat)
    requires Rectangular(t) && "PAIR" in t.columns
    requires x < |t.rows| && PairOf(t, t.rows[x]) == k
    requires DistinctAt(t.rows, ColumnIndex(t.columns, "PAIR").value)
    ensures OldRow(t, k) == t.rows[x]
    decreases |t.rows|
  {
    var n := |t.rows| - 1;
    if x < n {
      var s := Table(t.columns, t.rows[..n]);
      assert PairOf(t, t.rows[n]) != k;
      assert s.rows[x] == t.rows[x];
      OldRowAt(s, k, x);
    }
  }

  /** The record a pair holds after an import: its last imported row when it was imported, its old record otherwise. */
  function MergedRecord(t: Table, headers: seq<string>, nd: seq<seq<Cell>>, k: Cell): Record
    requires Rectangular(t) && "PAIR" in t.columns
  {
    match LastWithPair(nd, k)
    case Some(row) => ImportedRecord(headers, row)
    case None => RowRecord(t.columns, OldRow(t, k), ColumnIndex(t.columns, "PAIR").value)
  }

  /** In the merged dict, an imported pair holds its last imported row and an old pair its old record. */
  lemma ImportDictLookup(t: Table, headers: seq<string>, nd: seq<seq<Cell>>, k: Cell)
    requires Rectangular(t) && "PAIR" in t.columns && AllPaired(nd)
    requires DistinctAt(t.rows, ColumnIndex(t.columns, "PAIR").value)
    requires k in Keys(ImportDict(t, headers, nd))
    ensures Lookup(ImportDict(t, headers, nd), k) == Some(MergedRecord(t, headers, nd, k))
  {
    var pc := ColumnIndex(t.columns, "PAIR").value;
    var e := Records(t.columns, t.rows, pc).value;
    MergeLookup(e, headers, nd, k);
    if LastWithPair(nd, k).None? {
      ImportDictKeys(t, headers, nd);
      assert k !in ImportedPairs(nd);
      assert k in Elems(Keys(ImportDict(t, headers, nd)));
      var x :| 0 <= x < |t.rows| && PairColumn(t)[x] == k;
      assert Keys(e)[x] == k;
      FindAt(e, k, x);
      OldRowAt(t, k, x);
    }
  }

  /** Entry i of the merged dict holds the merged record of its pair. */
  lemma MergedAt(t: Table, headers: seq<string>, nd: seq<seq<Cell>>, i: nat)
    requires Rectangular(t) && "PAIR" in t.columns && AllPaired(nd)
    requires DistinctAt(t.rows, ColumnIndex(t.columns, "PAIR").value)
    requires i < |ImportDict(t, headers, nd)|
    ensures ImportDict(t, headers, nd)[i].1 == MergedRecord(t, headers, nd, ImportDict(t, headers, nd)[i].0)
  {
    var d := ImportDict(t, headers, nd);
    ImportDictKeys(t, headers, nd);
    assert Keys(d)[i] == d[i].0;
    FindAt(d, d[i].0, i);
    ImportDictLookup(t, headers, nd, d[i].0);
  }

  /**
   * A successful import has exactly one row per pair of the old frame or of
   * the import whose record keeps at least one field: each such pair is in
   * the key column once, and no other value is.
   */
  lemma ImportPairs(t: Table, headers: seq<string>, nd: seq<seq<Cell>>)
    requires Rectangular(t)
    requires Import(t, headers, nd).Ok?
    ensures "PAIR" in t.columns
    ensures var r := Import(t, headers, nd).value;
      (forall i :: 0 <= i < |r.rows| ==> |r.rows[i]| > 0)
      && (forall i, j :: 0 <= i < j < |r.rows| ==> r.rows[i][0] != r.rows[j][0])
      && (forall k :: k in KeyColumn(r) <==>
            k in Elems(PairColumn(t)) + ImportedPairs(nd) && |MergedRecord(t, headers, nd, k)| > 0)
  {
    ImportSteps(t, headers, nd);
    var d := ImportDict(t, headers, nd);
    FromDictRows(d);
    forall k {
      NonEmptyEntry(t, headers, nd, k);
    }
  }

  /** A pair has an entry with at least one field in the merged dict exactly when it was old or imported and its merged record has a field. */
  lemma NonEmptyEntry(t: Table, headers: seq<string>, nd: seq<seq<Cell>>, k: Cell)
    requires Rectangular(t) && "PAIR" in t.columns && AllPaired(nd)
    requires DistinctAt(t.rows, ColumnIndex(t.columns, "PAIR").value)
    ensures (exists i :: 0 <= i < |ImportDict(t, headers, nd)| && ImportDict(t, headers, nd)[i].0 == k && |ImportDict(t, headers, nd)[i].1| > 0)
      <==> k in Elems(PairColumn(t)) + ImportedPairs(nd) && |MergedRecord(t, headers, nd, k)| > 0
  {
    var d := ImportDict(t, headers, nd);
    ImportDictKeys(t, headers, nd);
    if exists i :: 0 <= i < |d| && d[i].0 == k && |d[i].1| > 0 {
      var i :| 0 <= i < |d| && d[i].0 == k && |d[i].1| > 0;
      MergedAt(t, headers, nd, i);
      assert Keys(d)[i] == k;
    }
    if k in Elems(PairColumn(t)) + ImportedPairs(nd) && |MergedRecord(t, headers, nd, k)| > 0 {
      assert k in Elems(Keys(d));
      var i :| 0 <= i < |d| && Keys(d)[i] == k;
      MergedAt(t, headers, nd, i);
    }
  }

  /** A record built from at least one item has at least one field. */
  lemma FromItemsNonEmpty(items: seq<(string, Cell)>)
    requires |items| > 0
    ensures |FromItems(items)| > 0
  {
    KeysFromItems(items, items[0].0);
  }

  /** With an import header and a column besides PAIR, every merged record has a field. */
  lemma MergedNonEmpty(t: Table, headers: seq<string>, nd: seq<seq<Cell>>, k: Cell)
    requires Rectangular(t) && "PAIR" in t.columns
    requires |headers| > 0 && |t.columns| > 1
    ensures |MergedRecord(t, headers, nd, k)| > 0
  {
    match LastWithPair(nd, k)
    case Some(row) =>
      FromItemsNonEmpty(Zip(headers, row));
    case None =>
      var pc := ColumnIndex(t.columns, "PAIR").value;
      var row := OldRow(t, k);
      FromItemsNonEmpty(Zip(t.columns[..pc] + t.columns[pc + 1..], row[..pc] + row[pc + 1..]));
  }

  /**
   * With at least one import header and a column besides PAIR, no record is
   * empty, so every old and every imported pair keeps a row.
   */
  lemma ImportKeepsAllPairs(t: Table, headers: seq<string>, nd: seq<seq<Cell>>)
    requires Rectangular(t) && "PAIR" in t.columns
    requires Import(t, headers, nd).Ok?
    requires |headers| > 0 && |t.columns| > 1
    ensures var r := Import(t, headers, nd).value;
      (forall i :: 0 <= i < |r.rows| ==> |r.rows[i]| > 0)
      && Elems(KeyColumn(r)) == Elems(PairColumn(t)) + ImportedPairs(nd)
  {
    ImportPairs(t, headers, nd);
    forall k {
      MergedNonEmpty(t, headers, nd, k);
    }
  }

  /**
   * When every pair's merged record holds the new frame's first data column,
   * the old pairs keep the first rows, in their old order, and every old and
   * imported pair has a row.
   */
  lemma ImportKeepsOrder(t: Table, headers: seq<string>, nd: seq<seq<Cell>>)
    requires Rectangular(t) && "PAIR" in t.columns
    requires Import(t, headers, nd).Ok? && |Import(t, headers, nd).value.columns| > 1
    requires forall k :: k in Elems(PairColumn(t)) + ImportedPairs(nd) ==>
      Import(t, headers, nd).value.columns[1] in Keys(MergedRecord(t, headers, nd, k))
    ensures var r := Import(t, headers, nd).value;
      (forall i :: 0 <= i < |r.rows| ==> |r.rows[i]| > 0)
      && |r.rows| >= |t.rows| && KeyColumn(r)[..|t.rows|] == PairColumn(t)
      && Elems(KeyColumn(r)) == Elems(PairColumn(t)) + ImportedPairs(nd)
  {
    ImportSteps(t, headers, nd);
    ImportDictKeys(t, headers, nd);
    var d := ImportDict(t, headers, nd);
    var r := Import(t, headers, nd).value;
    var cs := ColumnUnion(d);
    assert r.columns[1] == cs[0];
    forall i | 0 <= i < |d| ensures cs[0] in Keys(d[i].1) {
      MergedAt(t, headers, nd, i);
      assert Keys(d)[i] == d[i].0;
      assert d[i].0 in Elems(Keys(d));
    }
    FromDictRows(d);
  }

  /** With the table's own headers, every merged record starts with TIME. */
  lemma MergedStartsWithTime(t: Table, nd: seq<seq<Cell>>, k: Cell)
    requires Rectangular(t) && t.columns == Headers && AllPaired(nd)
    requires k in Elems(PairColumn(t)) || LastWithPair(nd, k).Some?
    ensures |MergedRecord(t, Headers, nd, k)| > 0 && Keys(MergedRecord(t, Headers, nd, k))[0] == "TIME"
  {
    assert ColumnIndex(Headers, "PAIR") == Some(1);
    match LastWithPair(nd, k)
    case Some(row) =>
      FromItemsFirst(Zip(Headers, row));
    case None =>
      var row := OldRow(t, k);
      var items := Zip(Headers[..1] + Headers[2..], row[..1] + row[2..]);
      assert items[0].0 == "TIME";
      FromItemsFirst(items);
  }

  /** With the table's own headers, the merged dict has no "index" field and its first field is TIME. */
  lemma FirstImportColumns(t: Table, nd: seq<seq<Cell>>)
    requires Rectangular(t) && t.columns == Headers && AllPaired(nd)
    requires DistinctAt(t.rows, ColumnIndex(t.columns, "PAIR").value)
    ensures var d := ImportDict(t, Headers, nd);
      "index" !in ColumnUnion(d) && (|d| > 0 ==> |ColumnUnion(d)| > 0 && ColumnUnion(d)[0] == "TIME")
  {
    var d := ImportDict(t, Headers, nd);
    ImportDictKeys(t, Headers, nd);
    NoIndexField(t, nd);
    if |d| > 0 {
      MergedAt(t, Headers, nd, 0);
      assert Keys(d)[0] == d[0].0;
      assert d[0].0 in Elems(Keys(d));
      if d[0].0 !in Elems(PairColumn(t)) {
        var i :| 0 <= i < |nd| && |nd[i]| >= 2 && nd[i][1] == d[0].0;
        assert LastWithPair(nd, d[0].0).Some?;
      }
      MergedStartsWithTime(t, nd, d[0].0);
      ColumnUnionFirst(d);
    }
  }

  /** With the table's own headers, no merged record has an "index" field. */
  lemma NoIndexField(t: Table, nd: seq<seq<Cell>>)
    requires Rectangular(t) && t.columns == Headers && AllPaired(nd)
    requires DistinctAt(t.rows, ColumnIndex(t.columns, "PAIR").value)
    ensures "index" !in ColumnUnion(ImportDict(t, Headers, nd))
  {
    var d := ImportDict(t, Headers, nd);
    forall i | 0 <= i < |d| ensures "index" !in Keys(d[i].1) {
      NoIndexAt(t, nd, i);
    }
    ColumnUnionMember(d);
  }

  /** With the table's own headers, merged record i has no "index" field. */
  lemma NoIndexAt(t: Table, nd: seq<seq<Cell>>, i: nat)
    requires Rectangular(t) && t.columns == Headers && AllPaired(nd)
    requires DistinctAt(t.rows, ColumnIndex(t.columns, "PAIR").value)
    requires i < |ImportDict(t, Headers, nd)|
    ensures "index" !in Keys(ImportDict(t, Headers, nd)[i].1)
  {
    var d := ImportDict(t, Headers, nd);
    MergedAt(t, Headers, nd, i);
    if "index" in Keys(d[i].1) {
      FieldsOfMerged(t, Headers, nd, d[i].0, "index");
      assert false;
    }
  }

  /**
   * The first import into a table with its own five headers, with those
   * headers: the key column is "index", then TIME; the old pairs keep the
   * first rows in their old order, and every old and imported pair has a row.
   */
  lemma FirstImportKeepsOrder(t: Table, nd: seq<seq<Cell>>)
    requires Rectangular(t) && t.columns == Headers
    requires Import(t, Headers, nd).Ok?
    ensures var r := Import(t, Headers, nd).value;
      (forall i :: 0 <= i < |r.rows| ==> |r.rows[i]| > 0)
      && |r.rows| >= |t.rows| && KeyColumn(r)[..|t.rows|] == PairColumn(t)
      && Elems(KeyColumn(r)) == Elems(PairColumn(t)) + ImportedPairs(nd)
      && r.columns[0] == "index"
      && (|t.rows| + |nd| > 0 ==> |r.columns| > 1 && r.columns[1] == "TIME")
  {
    ImportSteps(t, Headers, nd);
    ImportDictKeys(t, Headers, nd);
    FirstImportColumns(t, nd);
    var d := ImportDict(t, Headers, nd);
    var r := Import(t, Headers, nd).value;
    assert r.columns == ["index"] + ColumnUnion(d);
    if |d| > 0 {
      forall k | k in Elems(PairColumn(t)) + ImportedPairs(nd) ensures r.columns[1] in Keys(MergedRecord(t, Headers, nd, k)) {
        if k !in Elems(PairColumn(t)) {
          var i :| 0 <= i < |nd| && |nd[i]| >= 2 && nd[i][1] == k;
          assert LastWithPair(nd, k).Some?;
        }
        MergedStartsWithTime(t, nd, k);
      }
      ImportKeepsOrder(t, Headers, nd);
    } else {
      assert Elems(Keys(d)) == {};
      assert Elems(PairColumn(t)) == {} by {
        assert |PairColumn(t)| == 0;
      }
      assert r.rows == [];
    }
  }

  /** Every field of a merged record is an old column or an import header. */
  lemma FieldsOfMerged(t: Table, headers: seq<string>, nd: seq<seq<Cell>>, k: Cell, c: string)
    requires Rectangular(t) && "PAIR" in t.columns
    requires c in Keys(MergedRecord(t, headers, nd, k))
    ensures c in t.columns || c in headers
  {
    match LastWithPair(nd, k)
    case Some(row) =>
      KeysFromItems(Zip(headers, row), c);
    case None =>
      FieldOfRow(t.columns, OldRow(t, k), ColumnIndex(t.columns, "PAIR").value, c);
  }

  /** Every field of a row's record is one of the columns. */
  lemma FieldOfRow(cols: seq<string>, row: seq<Cell>, pc: nat, c: string)
    requires pc < |cols| == |row| && c in Keys(RowRecord(cols, row, pc))
    ensures c in cols
  {
    var ks := cols[..pc] + cols[pc + 1..];
    KeysFromItems(Zip(ks, row[..pc] + row[pc + 1..]), c);
    var i :| 0 <= i < |ks| && ks[i] == c;
    if i < pc {
      assert cols[i] == c;
    } else {
      assert cols[i + 1] == c;
    }
  }

  /** A row's record has every column except the key column. */
  lemma FieldInRecord(cols: seq<string>, row: seq<Cell>, pc: nat, name: string)
    requires pc < |cols| == |row| && cols[pc] != name && name in cols
    ensures name in Keys(RowRecord(cols, row, pc))
  {
    var ci :| 0 <= ci < |cols| && cols[ci] == name;
    var ks := cols[..pc] + cols[pc + 1..];
    var vs := row[..pc] + row[pc + 1..];
    var p := if ci < pc then ci else ci - 1;
    assert ks[p] == name;
    var items := Zip(ks, vs);
    assert items[p].0 == name;
    KeysFromItems(items, name);
  }

  /** An old row whose pair is not imported keeps its record, so every column of the old frame but PAIR is a new column. */
  lemma SurvivorFields(t: Table, headers: seq<string>, nd: seq<seq<Cell>>, x: nat, name: string)
    requires Rectangular(t) && "PAIR" in t.columns && AllPaired(nd)
    requires DistinctAt(t.rows, ColumnIndex(t.columns, "PAIR").value)
    requires x < |t.rows| && PairOf(t, t.rows[x]) !in ImportedPairs(nd)
    requires name in t.columns && name != "PAIR"
    ensures name in ColumnUnion(ImportDict(t, headers, nd))
  {
    var pc := ColumnIndex(t.columns, "PAIR").value;
    var e := Records(t.columns, t.rows, pc).value;
    var d := ImportDict(t, headers, nd);
    var k := PairOf(t, t.rows[x]);
    MergeLookup(e, headers, nd, k);
    assert Keys(e)[x] == k;
    FindAt(e, k, x);
    FieldInRecord(t.columns, t.rows[x], pc, name);
    var i := Find(d, k).value;
    assert name in Keys(d[i].1);
    ColumnUnionMember(d);
  }

  /**
   * An import leaves a frame whose key column is "index". Importing into
   * such a frame again names the new key column "level_0" instead, and
   * cannot fail at `reset_index` as long as neither the frame nor the import
   * headers have a "level_0" column.
   */
  lemma SecondImport(t: Table, headers: seq<string>, nd: seq<seq<Cell>>, x: nat)
    requires Rectangular(t) && "PAIR" in t.columns && AllPaired(nd)
    requires DistinctAt(t.rows, ColumnIndex(t.columns, "PAIR").value)
    requires "level_0" !in t.columns && "level_0" !in headers
    ensures Import(t, headers, nd).Ok?
    ensures "index" in t.columns && x < |t.rows| && PairOf(t, t.rows[x]) !in ImportedPairs(nd) ==>
      Import(t, headers, nd).value.columns[0] == "level_0"
  {
    var d := ImportDict(t, headers, nd);
    var cs := ColumnUnion(d);
    assert Import(t, headers, nd) == FromDict(d);
    ColumnUnionMember(d);
    if "level_0" in cs {
      var i :| 0 <= i < |d| && "level_0" in Keys(d[i].1);
      MergedAt(t, headers, nd, i);
      FieldsOfMerged(t, headers, nd, d[i].0, "level_0");
      assert false;
    }
    if "index" in t.columns && x < |t.rows| && PairOf(t, t.rows[x]) !in ImportedPairs(nd) {
      SurvivorFields(t, headers, nd, x, "index");
    }
  }

  /**
   * A third import fails as soon as one old row survives the merge: that
   * row's record carries both "index" and "level_0", so `reset_index` has
   * no name left for the key column.
   */
  lemma ReimportFails(t: Table, headers: seq<string>, nd: seq<seq<Cell>>, x: nat)
    requires Rectangular(t) && "PAIR" in t.columns && "index" in t.columns && "level_0" in t.columns
    requires x < |t.rows|
    requires PairOf(t, t.rows[x]) !in ImportedPairs(nd)
    ensures Import(t, headers, nd).Err?
  {
    if Import(t, headers, nd).Ok? {
      ImportSteps(t, headers, nd);
      SurvivorFields(t, headers, nd, x, "index");
      SurvivorFields(t, headers, nd, x, "level_0");
      assert false;
    }
  }

  /**
   * In a successful import, the row of a pair shows, under each column, the
   * cell of the pair's last imported row when it was imported, and its old
   * cell otherwise (a missing value where that record has no such column).
   */
  lemma ImportValues(t: Table, headers: seq<string>, nd: seq<seq<Cell>>, i: nat, j: nat)
    requires Rectangular(t)
    requires Import(t, headers, nd).Ok?
    requires i < |Import(t, headers, nd).value.rows|
    requires 1 <= j < |Import(t, headers, nd).value.columns|
    ensures "PAIR" in t.columns
    ensures var r := Import(t, headers, nd).value;
      r.rows[i][j] == CellOf(Lookup(MergedRecord(t, headers, nd, r.rows[i][0]), r.columns[j]))
  {
    ImportSteps(t, headers, nd);
    var d := ImportDict(t, headers, nd);
    FromDictCellAt(d, i, j);
    RowRecordIsMerged(t, headers, nd, i);
  }

  /** Cell (i, j) of the frame built from a dict: row i's record under column j, keyed by row i's label. */
  lemma FromDictCellAt(d: Dict<Cell, Record>, i: nat, j: nat)
    requires FromDict(d).Ok?
    requires i < |FromDict(d).value.rows| && 1 <= j < |FromDict(d).value.columns|
    ensures var cs := ColumnUnion(d);
      var ks := RowKeys(d, cs);
      var r := FromDict(d).value;
      i < |ks| && j - 1 < |cs| && r.rows[i][0] == ks[i] && r.columns[j] == cs[j - 1]
      && r.rows[i][j] == CellOf(Lookup(RecordOf(d, ks[i]), cs[j - 1]))
  {
    var cs := ColumnUnion(d);
    var ks := RowKeys(d, cs);
    var r := FromDict(d).value;
    assert r.rows[i] == RowOf((ks[i], RecordOf(d, ks[i])), cs);
  }

  /** The record behind row i of the rebuilt frame is the merged record of its pair. */
  lemma RowRecordIsMerged(t: Table, headers: seq<string>, nd: seq<seq<Cell>>, i: nat)
    requires Rectangular(t) && "PAIR" in t.columns && AllPaired(nd)
    requires DistinctAt(t.rows, ColumnIndex(t.columns, "PAIR").value)
    requires i < |RowKeys(ImportDict(t, headers, nd), ColumnUnion(ImportDict(t, headers, nd)))|
    ensures var d := ImportDict(t, headers, nd);
      var k := RowKeys(d, ColumnUnion(d))[i];
      RecordOf(d, k) == MergedRecord(t, headers, nd, k)
  {
    var d := ImportDict(t, headers, nd);
    var k := RowKeys(d, ColumnUnion(d))[i];
    RowKeyIsKey(d, ColumnUnion(d), i);
    ImportDictLookup(t, headers, nd, k);
  }

  /** Every row label is a key of the dict. */
  lemma RowKeyIsKey(d: Dict<Cell, Record>, cs: seq<string>, i: nat)
    requires i < |RowKeys(d, cs)|
    ensures RowKeys(d, cs)[i] in Keys(d)
  {
    var k := RowKeys(d, cs)[i];
    RowKeysHas(d, cs, k);
    assert k in RowKeys(d, cs);
    var x :| 0 <= x < |d| && d[x].0 == k && HasAny(d[x].1, cs);
    assert Keys(d)[x] == k;
  }

  /**
   * Overwriting a pair with a record that lacks the first column moves it
   * behind the pairs that hold that column: in a frame of pairs A, B, C with
   * an "index" column besides PAIR, importing a TIME for B lists A, C, B,
   * under a key column named "level_0".
   */
  lemma ImportReorders(t: Table)
    requires t == Table(["index", "PAIR"], [[Val("A"), Val("A")], [Val("B"), Val("B")], [Val("C"), Val("C")]])
    ensures Rectangular(t) && PairColumn(t) == [Val("A"), Val("B"), Val("C")]
    ensures Import(t, ["TIME", "PAIR"], [[Val("9"), Val("B")]])
      == Ok(Table(["level_0", "index", "TIME", "PAIR"],
                  [[Val("A"), Val("A"), Null, Null], [Val("C"), Val("C"), Null, Null], [Val("B"), Null, Val("9"), Val("B")]]))
  {
    var a, b, c := Val("A"), Val("B"), Val("C");
    var ra, rb, rc := [("index", a)], [("TIME", Val("9")), ("PAIR", b)], [("index", c)];
    ReorderMerge(t, a, b, c, ra, rb, rc);
    ReorderFrame([(a, ra), (b, rb), (c, rc)], a, b, c, ra, rb, rc);
  }

  /** The merged dict of `ImportReorders`: B's record is replaced in place. */
  lemma ReorderMerge(t: Table, a: Cell, b: Cell, c: Cell, ra: Record, rb: Record, rc: Record)
    requires a == Val("A") && b == Val("B") && c == Val("C")
    requires t == Table(["index", "PAIR"], [[a, a], [b, b], [c, c]])
    requires ra == [("index", a)] && rb == [("TIME", Val("9")), ("PAIR", b)] && rc == [("index", c)]
    ensures Rectangular(t)
    ensures Import(t, ["TIME", "PAIR"], [[Val("9"), b]]) == FromDict([(a, ra), (b, rb), (c, rc)])
  {
    var headers: seq<string>, nd: seq<seq<Cell>> := ["TIME", "PAIR"], [[Val("9"), b]];
    assert ColumnIndex(t.columns, "PAIR") == Some(1);
    ReorderRecords(t, a, b, c, ra, rc);
    var e := Records(t.columns, t.rows, 1).value;
    ReorderImported(b, rb);
    assert MergeAll(e, headers, nd) == Put(e, b, rb) by {
      assert nd[..0] == [];
    }
    assert Find(e, b) == Some(1);
    assert e[1 := (b, rb)] == [(a, ra), (b, rb), (c, rc)];
    assert AllPaired(nd);
    assert Merge(e, headers, nd) == Ok([(a, ra), (b, rb), (c, rc)]);
  }

  /** The record `ImportReorders` imports for B. */
  lemma ReorderImported(b: Cell, rb: Record)
    requires rb == [("TIME", Val("9")), ("PAIR", b)]
    ensures ImportedRecord(["TIME", "PAIR"], [Val("9"), b]) == rb
  {
    var items: seq<(string, Cell)> := Zip(["TIME", "PAIR"], [Val("9"), b]);
    assert items == [("TIME", Val("9")), ("PAIR", b)];
    assert items[..1] == [("TIME", Val("9"))] && |items[..1][..0]| == 0;
    assert FromItems(items[..1]) == [("TIME", Val("9"))];
  }

  /** The frame `ImportReorders` ends with. */
  lemma ReorderFrame(d: Dict<Cell, Record>, a: Cell, b: Cell, c: Cell, ra: Record, rb: Record, rc: Record)
    requires a == Val("A") && b == Val("B") && c == Val("C")
    requires ra == [("index", a)] && rb == [("TIME", Val("9")), ("PAIR", b)] && rc == [("index", c)]
    requires d == [(a, ra), (b, rb), (c, rc)]
    ensures FromDict(d) == Ok(Table(["level_0", "index", "TIME", "PAIR"],
                  [[a, a, Null, Null], [c, c, Null, Null], [b, Null, Val("9"), b]]))
  {
    var cs := ["index", "TIME", "PAIR"];
    ReorderColumns(d, a, b, c, ra, rb, rc);
    ReorderRows(d, a, b, c, ra, rb, rc);
    assert KeyName(cs) == "level_0";
    ReorderRecordOf(d, a, b, c, ra, rb, rc);
    IndexOnlyRow(a, ra);
    IndexOnlyRow(c, rc);
    TimePairRow(b, rb);
    assert "level_0" !in cs;
    var r := FromDict(d).value;
    assert r.columns == ["level_0", "index", "TIME", "PAIR"];
    assert r.rows[0] == [a, a, Null, Null] && r.rows[1] == [c, c, Null, Null] && r.rows[2] == [b, Null, Val("9"), b];
    assert r.rows == [[a, a, Null, Null], [c, c, Null, Null], [b, Null, Val("9"), b]];
  }

  /** The records of the three keys of `ImportReorders`' merged dict. */
  lemma ReorderRecordOf(d: Dict<Cell, Record>, a: Cell, b: Cell, c: Cell, ra: Record, rb: Record, rc: Record)
    requires a == Val("A") && b == Val("B") && c == Val("C")
    requires d == [(a, ra), (b, rb), (c, rc)]
    ensures RecordOf(d, a) == ra && RecordOf(d, b) == rb && RecordOf(d, c) == rc
  {
    assert d[0].0 == a && d[1].0 == b && d[2].0 == c;
    assert a.text[0] == 'A' && b.text[0] == 'B' && c.text[0] == 'C';
    assert Find(d, a) == Some(0);
    assert Find(d, b) == Some(1);
    assert Find(d, c) == Some(2);
  }

  /** A record holding only an `index` field becomes a row with that value under `index`. */
  lemma IndexOnlyRow(x: Cell, r: Record)
    requires r == [("index", x)]
    ensures RowOf((x, r), ["index", "TIME", "PAIR"]) == [x, x, Null, Null]
  {
    assert Find(r, "index") == Some(0) && Find(r, "TIME") == None && Find(r, "PAIR") == None;
  }

  /** A record holding TIME and PAIR becomes a row with nothing under `index`. */
  lemma TimePairRow(x: Cell, r: Record)
    requires r == [("TIME", Val("9")), ("PAIR", x)]
    ensures RowOf((x, r), ["index", "TIME", "PAIR"]) == [x, Null, Val("9"), x]
  {
    assert Find(r, "index") == None && Find(r, "TIME") == Some(0) && Find(r, "PAIR") == Some(1);
  }

  /** `dict([(k, v)])`. */
  lemma FromItemsOne(k: string, v: Cell)
    ensures FromItems([(k, v)]) == [(k, v)]
  {
    assert [(k, v)][..0] == [];
  }

  /** The records of the three-row frame of `ImportReorders`. */
  lemma ReorderRecords(t: Table, a: Cell, b: Cell, c: Cell, ra: Record, rc: Record)
    requires a == Val("A") && b == Val("B") && c == Val("C")
    requires t == Table(["index", "PAIR"], [[a, a], [b, b], [c, c]])
    requires ra == [("index", a)] && rc == [("index", c)]
    ensures Rectangular(t) && DistinctAt(t.rows, 1)
    ensures Records(t.columns, t.rows, 1) == Ok([(a, ra), (b, [("index", b)]), (c, rc)])
  {
    IndexRecord(a);
    IndexRecord(b);
    IndexRecord(c);
    assert t.rows[0] == [a, a] && t.rows[1] == [b, b] && t.rows[2] == [c, c];
    assert DistinctAt(t.rows, 1);
    var e := Records(t.columns, t.rows, 1).value;
    assert |e| == 3;
    assert e[0] == (a, ra) && e[1] == (b, [("index", b)]) && e[2] == (c, rc);
    assert e == [(a, ra), (b, [("index", b)]), (c, rc)];
  }

  /** A row of an ["index", "PAIR"] frame becomes a record with its `index` field only. */
  lemma IndexRecord(x: Cell)
    ensures RowRecord(["index", "PAIR"], [x, x], 1) == [("index", x)]
  {
    assert ["index", "PAIR"][..1] + ["index", "PAIR"][2..] == ["index"];
    assert [x, x][..1] + [x, x][2..] == [x];
    assert Zip(["index"], [x]) == [("index", x)] + Zip([], []);
    FromItemsOne("index", x);
  }

  /** One more record adds its new columns at the end. */
  lemma ColumnUnionSnoc(d: Dict<Cell, Record>, k: Cell, rec: Record)
    ensures ColumnUnion(d + [(k, rec)]) == Union(ColumnUnion(d), Keys(rec))
  {
    assert (d + [(k, rec)])[..|d|] == d;
  }

  /** The columns of the merged dict of `ImportReorders`. */
  lemma ReorderColumns(d: Dict<Cell, Record>, a: Cell, b: Cell, c: Cell, ra: Record, rb: Record, rc: Record)
    requires ra == [("index", a)] && rb == [("TIME", Val("9")), ("PAIR", b)] && rc == [("index", c)]
    requires d == [(a, ra), (b, rb), (c, rc)]
    ensures ColumnUnion(d) == ["index", "TIME", "PAIR"]
  {
    assert Keys(ra) == ["index"] && Keys(rc) == ["index"];
    assert Keys(rb) == ["TIME", "PAIR"];
    var d0: Dict<Cell, Record> := [];
    var d1 := [(a, ra)];
    var d2 := d1 + [(b, rb)];
    assert d0 + [(a, ra)] == d1;
    assert d2 + [(c, rc)] == d;
    assert ColumnUnion(d0) == [];
    ColumnUnionSnoc(d0, a, ra);
    UnionFresh([], ["index"]);
    assert ColumnUnion(d1) == ["index"];
    ColumnUnionSnoc(d1, b, rb);
    UnionFresh(["index"], ["TIME", "PAIR"]);
    assert ColumnUnion(d2) == ["index", "TIME", "PAIR"];
    ColumnUnionSnoc(d2, c, rc);
    UnionNoNew(["index", "TIME", "PAIR"], ["index"]);
  }

  /** One more record adds its key to the holders of each of its columns. */
  lemma HoldersSnoc(d: Dict<Cell, Record>, k: Cell, rec: Record, c: string)
    ensures Holders(d + [(k, rec)], c) == Holders(d, c) + (if c in Keys(rec) then [k] else [])
  {
    assert (d + [(k, rec)])[..|d|] == d;
  }

  /** The holders of a column in a dict of three records. */
  lemma HoldersOfThree(a: Cell, b: Cell, c: Cell, ra: Record, rb: Record, rc: Record, col: string)
    ensures Holders([(a, ra), (b, rb), (c, rc)], col)
      == (if col in Keys(ra) then [a] else []) + (if col in Keys(rb) then [b] else []) + (if col in Keys(rc) then [c] else [])
  {
    var d0: Dict<Cell, Record> := [];
    var d1 := [(a, ra)];
    var d2 := d1 + [(b, rb)];
    assert d0 + [(a, ra)] == d1;
    assert d2 + [(c, rc)] == [(a, ra), (b, rb), (c, rc)];
    var ha := if col in Keys(ra) then [a] else [];
    var hb := if col in Keys(rb) then [b] else [];
    var hc := if col in Keys(rc) then [c] else [];
    assert Holders(d0, col) == [];
    HoldersSnoc(d0, a, ra, col);
    assert Holders(d1, col) == ha;
    HoldersSnoc(d1, b, rb, col);
    assert Holders(d2, col) == ha + hb;
    HoldersSnoc(d2, c, rc, col);
  }

  /** Which records of the merged dict of `ImportReorders` hold each column. */
  lemma ReorderHolders(d: Dict<Cell, Record>, a: Cell, b: Cell, c: Cell, ra: Record, rb: Record, rc: Record)
    requires ra == [("index", a)] && rb == [("TIME", Val("9")), ("PAIR", b)] && rc == [("index", c)]
    requires d == [(a, ra), (b, rb), (c, rc)]
    ensures Holders(d, "index") == [a, c]
    ensures Holders(d, "TIME") == [b] && Holders(d, "PAIR") == [b]
  {
    assert Keys(ra) == ["index"] && Keys(rc) == ["index"];
    assert Keys(rb) == ["TIME", "PAIR"];
    HoldersOfThree(a, b, c, ra, rb, rc, "index");
    HoldersOfThree(a, b, c, ra, rb, rc, "TIME");
    HoldersOfThree(a, b, c, ra, rb, rc, "PAIR");
  }

  /** The row labels of the merged dict of `ImportReorders`: A, C, then B. */
  lemma ReorderRows(d: Dict<Cell, Record>, a: Cell, b: Cell, c: Cell, ra: Record, rb: Record, rc: Record)
    requires a == Val("A") && b == Val("B") && c == Val("C")
    requires ra == [("index", a)] && rb == [("TIME", Val("9")), ("PAIR", b)] && rc == [("index", c)]
    requires d == [(a, ra), (b, rb), (c, rc)]
    ensures RowKeys(d, ["index", "TIME", "PAIR"]) == [a, c, b]
  {
    ReorderHolders(d, a, b, c, ra, rb, rc);
    var c0: seq<string> := [];
    var c1 := ["index"];
    var c2 := ["index", "TIME"];
    var cs := ["index", "TIME", "PAIR"];
    assert c1[..0] == c0 && c2[..1] == c1 && cs[..2] == c2;
    assert RowKeys(d, c1) == Union([], [a, c]);
    UnionFresh([], [a, c]);
    assert RowKeys(d, c1) == [a, c];
    assert c2[..|c2| - 1] == c1 && c2[|c2| - 1] == "TIME";
    assert RowKeys(d, c2) == Union(RowKeys(d, c1), Holders(d, "TIME"));
    assert RowKeys(d, c2) == Union([a, c], [b]);
    UnionFresh([a, c], [b]);
    assert RowKeys(d, cs) == Union([a, c, b], [b]);
    UnionNoNew([a, c, b], [b]);
  }

  class PandaMarketData {
    /** `_headers`. */
    var headers: seq<string>
    /** `_data`. */
    var data: Table

    ghost predicate Valid()
      reads this
    {
      headers == Headers && Rectangular(data)
    }

    /** `__init__`: falsy data (None or an empty list) gives an empty frame with the five headers. */
    constructor (init: seq<seq<Cell>>)
      requires ShapeOk(init)
      ensures Valid()
      ensures data == FromRows(init)
      ensures |init| == 0 ==> data == Table(Headers, [])
    {
      headers := Headers;
      data := FromRows(init);
    }

    /** `rowCount`. */
    function RowCount(): (n: nat)
      reads this
      ensures n == |data.rows|
    {
      |data.rows|
    }

    /** `columnCount`: the header count, whatever the frame's own width. */
    function ColumnCount(): (n: nat)
      reads this
      requires Valid()
      ensures n == 5
    {
      |headers|
    }

    /** `get_data`: the cell at (row, column), None when either is negative or past the end. */
    function GetData(row: int, column: int): (r: Option<Cell>)
      reads this
      requires Valid()
      ensures r.None? <==> !(0 <= row < |data.rows| && 0 <= column < |data.columns|)
      ensures r.Some? ==> r.value == data.rows[row][column]
    {
      if row < 0 || row >= |data.rows| || column < 0 || column >= |data.columns| then None
      else Some(data.rows[row][column])
    }

    /** `update_data`: a list the frame constructor rejects leaves the data as it was. */
    method UpdateData(newData: seq<seq<Cell>>)
      requires Valid()
      modifies this
      ensures Valid()
      ensures ShapeOk(newData) ==> data == FromRows(newData)
      ensures !ShapeOk(newData) ==> data == old(data)
    {
      if ShapeOk(newData) {
        data := FromRows(newData);
      }
    }

    /**
     * `import_data`: the frame keyed by pair, each imported row written over
     * the entry of its pair in turn, then turned back into a frame; when any
     * step raises, the data is left as it was.
     */
    method ImportData(importHeaders: seq<string>, newData: seq<seq<Cell>>)
      requires Valid()
      modifies this
      ensures Valid()
      ensures Import(old(data), importHeaders, newData).Ok? ==> data == Import(old(data), importHeaders, newData).value
      ensures Import(old(data), importHeaders, newData).Err? ==> data == old(data)
    {
      var pc := ColumnIndex(data.columns, "PAIR");
      if pc.None? {
        return;
      }
      var existing := Records(data.columns, data.rows, pc.value);
      if existing.Err? {
        return;
      }
      var d := existing.value;
      var i := 0;
      while i < |newData|
        invariant 0 <= i <= |newData| && unchanged(this)
        invariant AllPaired(newData[..i]) && d == MergeAll(existing.value, importHeaders, newData[..i])
      {
        var row := newData[i];
        if |row| < 2 {
          assert !AllPaired(newData) by { assert |newData[i]| < 2; }
          assert Merge(existing.value, importHeaders, newData).Err?;
          assert Import(data, importHeaders, newData).Err?;
          return;
        }
        MergeAllStep(existing.value, importHeaders, newData, i);
        d := Put(d, row[1], ImportedRecord(importHeaders, row));
        i := i + 1;
      }
      assert newData[..i] == newData;
      assert Import(data, importHeaders, newData) == FromDict(d);
      var r := FromDict(d);
      if r.Ok? {
        data := r.value;
      }
    }
  }
}
