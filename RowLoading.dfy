/** How `Assign.call` fills a fact table from the fact SQL: the date
    parameters come from the time-series key, the column labels of the
    first row decide which columns are dimensions, and every row becomes
    the record numbered by its position (1, 2, 3, ...), its first `dimSize`
    cells read as integers and the rest as decimals. The JDBC result set is
    an input: the labels and rows the query yields for the parameters. */
module RowLoading {
  import opened Wrappers
  import opened JavaStrings
  import opened FactTables
  import opened ShardKeys

  // ------------------------------------------------------ the row source

  /** One cell as `rs.getInt` and `rs.getDouble` read it. */
  datatype Cell = Cell(asInt: int, asDecimal: real)

  /** What the fact SQL yields: the column labels and the rows, or a failure
      of the data source. */
  datatype Fetch = Rows(labels: seq<string>, rows: seq<seq<Cell>>) | FetchFailed

  // ------------------------------------------------------- column split

  /** Whether the 0-based column `i` is a dimension: with a negative split
      index, iff its lower-cased label starts with `dim_`; otherwise iff the
      1-based column number is below the split index. */
  predicate IsDimColumn(labels: seq<string>, splitIndex: int, i: nat)
    requires i < |labels|
  {
    if splitIndex < 0 then StartsWith(ToLower(labels[i]), "dim_") else i + 1 < splitIndex
  }

  /** The labels of the dimension columns among the first `n`, in order. */
  function DimLabels(labels: seq<string>, splitIndex: int, n: nat): seq<string>
    requires n <= |labels|
  {
    if n == 0 then []
    else if IsDimColumn(labels, splitIndex, n - 1) then DimLabels(labels, splitIndex, n - 1) + [labels[n - 1]]
    else DimLabels(labels, splitIndex, n - 1)
  }

  /** The labels of the indicator columns among the first `n`, in order. */
  function IndLabels(labels: seq<string>, splitIndex: int, n: nat): seq<string>
    requires n <= |labels|
  {
    if n == 0 then []
    else if IsDimColumn(labels, splitIndex, n - 1) then IndLabels(labels, splitIndex, n - 1)
    else IndLabels(labels, splitIndex, n - 1) + [labels[n - 1]]
  }

  /** Every column is either a dimension or an indicator. */
  lemma {:induction false} SplitCounts(labels: seq<string>, splitIndex: int, n: nat)
    requires n <= |labels|
    ensures |DimLabels(labels, splitIndex, n)| + |IndLabels(labels, splitIndex, n)| == n
  {
    if n > 0 {
      SplitCounts(labels, splitIndex, n - 1);
    }
  }

  /** The dimension columns come first: exactly the columns below `d`. */
  predicate DimsFirst(labels: seq<string>, splitIndex: int, d: nat) {
    && d <= |labels|
    && forall i :: 0 <= i < |labels| ==> (IsDimColumn(labels, splitIndex, i) <==> i < d)
  }

  /** When the dimension columns come first, the split is the cut at `d`. */
  lemma {:induction false} DimsFirstSplit(labels: seq<string>, splitIndex: int, d: nat, n: nat)
    requires DimsFirst(labels, splitIndex, d) && n <= |labels|
    ensures DimLabels(labels, splitIndex, n) == labels[..if n < d then n else d]
    ensures IndLabels(labels, splitIndex, n) == labels[if n < d then n else d..n]
  {
    if n > 0 {
      DimsFirstSplit(labels, splitIndex, d, n - 1);
      assert labels[..n] == labels[..n - 1] + [labels[n - 1]];
      if n - 1 >= d {
        assert labels[d..n] == labels[d..n - 1] + [labels[n - 1]];
      }
    }
  }

  /** A numeric split index puts the dimensions first: columns 1 to
      `splitIndex - 1`. */
  lemma PositionalSplit(labels: seq<string>, splitIndex: int)
    requires splitIndex >= 0
    ensures DimsFirst(labels, splitIndex, if splitIndex - 1 < 0 then 0 else if splitIndex - 1 < |labels| then splitIndex - 1 else |labels|)
  {
  }

  // ---------------------------------------------------- column catalogue

  /** The catalogue after `addDimColumns([name])` (or `addIndColumns`) for
      each name in turn. */
  function Columns(names: seq<string>): map<string, nat> {
    if names == [] then map[]
    else
      var m := Columns(names[..|names| - 1]);
      m[names[|names| - 1] := |m|]
  }

  /** Distinct labels get their positions in label order, 0, 1, 2, ... */
  lemma {:induction false} ColumnsDistinct(names: seq<string>)
    requires Distinct(names)
    ensures |Columns(names)| == |names|
    ensures forall k :: k in Columns(names) <==> k in names
    ensures forall i :: 0 <= i < |names| ==> Columns(names)[names[i]] == i
  {
    if names != [] {
      var init := names[..|names| - 1];
      var last := names[|names| - 1];
      assert Distinct(init);
      ColumnsDistinct(init);
      assert last !in init;
      assert names == init + [last];
      forall i | 0 <= i < |names| ensures Columns(names)[names[i]] == i {
        if i < |init| {
          assert names[i] == init[i];
        }
      }
    }
  }

  // ---------------------------------------------------------------- rows

  /** The first `n` rows have at least `columns` cells. */
  predicate LongRows(rows: seq<seq<Cell>>, n: nat, columns: nat)
    requires n <= |rows|
  {
    forall k :: 0 <= k < n ==> columns <= |rows[k]|
  }

  /** The integers of a row's first `dimSize` cells. */
  function RowDims(row: seq<Cell>, dimSize: nat): seq<int>
    requires dimSize <= |row|
  {
    seq(dimSize, i requires 0 <= i < dimSize <= |row| => row[i].asInt)
  }

  /** The decimals of a row's cells `dimSize` to `columns - 1`. */
  function RowInds(row: seq<Cell>, dimSize: nat, columns: nat): seq<real>
    requires dimSize <= columns <= |row|
  {
    seq(columns - dimSize, i requires 0 <= i < columns - dimSize && columns <= |row| => row[dimSize + i].asDecimal)
  }

  /** The record of the row numbered `id` (from 1). */
  function RecordAt(rows: seq<seq<Cell>>, id: int, dimSize: nat, columns: nat): Record
    requires 1 <= id <= |rows| && dimSize <= columns <= |rows[id - 1]|
  {
    Record(id, RowDims(rows[id - 1], dimSize), RowInds(rows[id - 1], dimSize, columns))
  }

  /** The records of the first `n` rows, row k + 1 under id k + 1. */
  function LoadedRecords(rows: seq<seq<Cell>>, n: nat, dimSize: nat, columns: nat): map<int, Record>
    requires n <= |rows| && dimSize <= columns && LongRows(rows, n, columns)
  {
    map id | 1 <= id <= n :: RecordAt(rows, id, dimSize, columns)
  }

  /** Row `k` is record `k + 1`: its dimensions are its first `dimSize`
      cells, its indicators the rest, and no other id is loaded. */
  lemma LoadedRecordsSpec(rows: seq<seq<Cell>>, dimSize: nat, columns: nat)
    requires dimSize <= columns && LongRows(rows, |rows|, columns)
    ensures var m := LoadedRecords(rows, |rows|, dimSize, columns);
      && KeyedById(m)
      && (forall id :: id in m <==> 1 <= id <= |rows|)
      && (forall k, j :: 0 <= k < |rows| && 0 <= j < dimSize ==> m[k + 1].dimOfFact[j] == rows[k][j].asInt)
      && (forall k, j :: 0 <= k < |rows| && dimSize <= j < columns ==> m[k + 1].indOfFact[j - dimSize] == rows[k][j].asDecimal)
      && (forall id :: id in m ==> |m[id].dimOfFact| == dimSize && |m[id].indOfFact| == columns - dimSize)
  {
  }

  /** Loading row `n` after the first `n` rows. */
  lemma LoadStep(rows: seq<seq<Cell>>, n: nat, dimSize: nat, columns: nat)
    requires n < |rows| && dimSize <= columns && LongRows(rows, n + 1, columns)
    ensures AttachInds(AttachDims(LoadedRecords(rows, n, dimSize, columns), n + 1, RowDims(rows[n], dimSize)),
                       n + 1, RowInds(rows[n], dimSize, columns))
         == LoadedRecords(rows, n + 1, dimSize, columns)
  {
    var before := LoadedRecords(rows, n, dimSize, columns);
    assert n + 1 !in before;
    var after := AttachInds(AttachDims(before, n + 1, RowDims(rows[n], dimSize)), n + 1, RowInds(rows[n], dimSize, columns));
    var expected := LoadedRecords(rows, n + 1, dimSize, columns);
    assert after.Keys == expected.Keys;
    forall k | k in after ensures after[k] == expected[k] {
    }
  }

  // ----------------------------------------------------------- the load

  /** What a finished load holds: the table's meta data and its records by
      id. */
  datatype Loaded = Loaded(meta: Meta, records: map<int, Record>)

  /** The load of one fetch for the table `timeSeries`. The meta data is
      read from the first row, so an empty fetch gives a table without
      columns; a row with fewer cells than labels makes `getInt` or
      `getDouble` fail. */
  function LoadOf(timeSeries: string, splitIndex: int, fetch: Fetch): Result<Loaded> {
    if fetch.FetchFailed? then Err(DataAccess)
    else if fetch.rows == [] then Ok(Loaded(Meta(timeSeries, map[], map[]), map[]))
    else
      var labels := fetch.labels;
      var dims := DimLabels(labels, splitIndex, |labels|);
      var inds := IndLabels(labels, splitIndex, |labels|);
      if !LongRows(fetch.rows, |fetch.rows|, |labels|) then Err(DataAccess)
      else
        SplitCounts(labels, splitIndex, |labels|);
        Ok(Loaded(Meta(timeSeries, Columns(dims), Columns(inds)),
                  LoadedRecords(fetch.rows, |fetch.rows|, |dims|, |labels|)))
  }

  /** The load of the time series `timeSeries` from `query`: the date
      parameters, then the fetch. */
  function TableLoad(timeSeries: string, splitIndex: int, query: seq<string> -> Fetch): Result<Loaded> {
    var params :- DateParams(timeSeries);
    LoadOf(timeSeries, splitIndex, query(params))
  }

  /** The table `t` is the load `l`: same meta data, and its record list
      holds each loaded record once. */
  predicate Holds(t: FactTable, l: Loaded) {
    t.meta == l.meta && ValuesOf(t.records, l.records)
  }

  /** With the dimensions first, the load is the cut of the labels at `d`. */
  lemma LoadOfCut(timeSeries: string, splitIndex: int, labels: seq<string>, rows: seq<seq<Cell>>, d: nat)
    requires DimsFirst(labels, splitIndex, d) && rows != [] && LongRows(rows, |rows|, |labels|)
    ensures LoadOf(timeSeries, splitIndex, Rows(labels, rows))
         == Ok(Loaded(Meta(timeSeries, Columns(labels[..d]), Columns(labels[d..])), LoadedRecords(rows, |rows|, d, |labels|)))
  {
    DimsFirstSplit(labels, splitIndex, d, |labels|);
    assert labels[d..|labels|] == labels[d..];
  }

  /** With distinct non-empty labels and the dimensions first, every
      dimension cell of a loaded row is read back by its column's label. */
  lemma DimCellByLabel(timeSeries: string, splitIndex: int, labels: seq<string>, rows: seq<seq<Cell>>, d: nat, k: nat, j: nat)
    requires Distinct(labels) && forall i :: 0 <= i < |labels| ==> labels[i] != ""
    requires DimsFirst(labels, splitIndex, d)
    requires LoadOf(timeSeries, splitIndex, Rows(labels, rows)).Ok?
    requires k < |rows| && j < d
    ensures var l := LoadOf(timeSeries, splitIndex, Rows(labels, rows)).value;
      k + 1 in l.records && GetDim(l.meta, l.records[k + 1], labels[j]) == Ok(rows[k][j].asInt)
  {
    LoadOfCut(timeSeries, splitIndex, labels, rows, d);
    PositionInCut(labels, 0, d, j);
    assert labels[0..d] == labels[..d];
    assert LoadedRecords(rows, |rows|, d, |labels|)[k + 1] == RecordAt(rows, k + 1, d, |labels|);
  }

  /** Likewise every indicator cell. */
  lemma IndCellByLabel(timeSeries: string, splitIndex: int, labels: seq<string>, rows: seq<seq<Cell>>, d: nat, k: nat, j: nat)
    requires Distinct(labels) && forall i :: 0 <= i < |labels| ==> labels[i] != ""
    requires DimsFirst(labels, splitIndex, d)
    requires LoadOf(timeSeries, splitIndex, Rows(labels, rows)).Ok?
    requires k < |rows| && d <= j < |labels|
    ensures var l := LoadOf(timeSeries, splitIndex, Rows(labels, rows)).value;
      k + 1 in l.records && GetInd(l.meta, l.records[k + 1], labels[j]) == Ok(rows[k][j].asDecimal)
  {
    LoadOfCut(timeSeries, splitIndex, labels, rows, d);
    PositionInCut(labels, d, |labels|, j);
    assert labels[d..|labels|] == labels[d..];
    assert LoadedRecords(rows, |rows|, d, |labels|)[k + 1] == RecordAt(rows, k + 1, d, |labels|);
  }

  /** Among distinct labels, the catalogue of the slice `lo..hi` puts
      label `j` at `j - lo`. */
  lemma PositionInCut(labels: seq<string>, lo: nat, hi: nat, j: nat)
    requires Distinct(labels) && lo <= j < hi <= |labels|
    ensures labels[j] in Columns(labels[lo..hi]) && Columns(labels[lo..hi])[labels[j]] == j - lo
  {
    var cut := labels[lo..hi];
    assert Distinct(cut);
    ColumnsDistinct(cut);
    assert cut[j - lo] == labels[j];
  }

  // ------------------------------------------------------------- methods

  /** The meta-data pass over the first row's labels: one
      `addDimColumns` or `addIndColumns` call per column; returns the
      number of dimension columns. */
  method RegisterColumns(builder: FactTableBuilder, labels: seq<string>, splitIndex: int) returns (dimSize: nat)
    requires builder.Valid() && builder.inBuilding
    requires builder.dimNames == map[] && builder.indNames == map[]
    modifies builder`dimNames, builder`indNames
    ensures builder.Valid()
    ensures builder.dimNames == Columns(DimLabels(labels, splitIndex, |labels|))
    ensures builder.indNames == Columns(IndLabels(labels, splitIndex, |labels|))
    ensures dimSize == |DimLabels(labels, splitIndex, |labels|)|
  {
    dimSize := 0;
    for i := 0 to |labels|
      invariant builder.Valid() && builder.inBuilding
      invariant builder.dimNames == Columns(DimLabels(labels, splitIndex, i))
      invariant builder.indNames == Columns(IndLabels(labels, splitIndex, i))
      invariant dimSize == |DimLabels(labels, splitIndex, i)|
    {
      var column := labels[i];
      if IsDimColumn(labels, splitIndex, i) {
        var o := builder.AddDimColumns([column]);
        ghost var names := DimLabels(labels, splitIndex, i) + [column];
        assert names[..|names| - 1] == DimLabels(labels, splitIndex, i);
        dimSize := dimSize + 1;
      } else {
        var o := builder.AddIndColumns([column]);
        ghost var names := IndLabels(labels, splitIndex, i) + [column];
        assert names[..|names| - 1] == IndLabels(labels, splitIndex, i);
      }
    }
  }

  /** One row's cells split into the dimension and indicator vectors. */
  method SplitRow(row: seq<Cell>, dimSize: nat, columns: nat) returns (dims: seq<int>, inds: seq<real>)
    requires dimSize <= columns <= |row|
    ensures dims == RowDims(row, dimSize) && inds == RowInds(row, dimSize, columns)
  {
    dims, inds := [], [];
    for i := 0 to columns
      invariant i <= dimSize ==> dims == RowDims(row, i) && inds == []
      invariant dimSize <= i ==> dims == RowDims(row, dimSize) && inds == RowInds(row, dimSize, i)
    {
      if i < dimSize {
        dims := dims + [row[i].asInt];
      } else {
        inds := inds + [row[i].asDecimal];
      }
    }
  }

  /** The row pass: every row `k` (from 0) is sent as record `k + 1`, the
      dimension vector first. Stops at the first row that is too short. */
  method LoadRows(builder: FactTableBuilder, rows: seq<seq<Cell>>, dimSize: nat, columns: nat) returns (ok: bool)
    requires builder.Valid() && builder.inBuilding && builder.records == map[]
    requires dimSize <= columns
    modifies builder`records
    ensures builder.Valid()
    ensures ok == LongRows(rows, |rows|, columns)
    ensures ok ==> builder.records == LoadedRecords(rows, |rows|, dimSize, columns)
  {
    for i := 0 to |rows|
      invariant builder.Valid() && builder.inBuilding
      invariant LongRows(rows, i, columns)
      invariant builder.records == LoadedRecords(rows, i, dimSize, columns)
    {
      if |rows[i]| < columns {
        return false;
      }
      var dims, inds := SplitRow(rows[i], dimSize, columns);
      LoadStep(rows, i, dimSize, columns);
      var o1 := builder.AddDimDatas(i + 1, dims);
      var o2 := builder.AddIndDatas(i + 1, inds);
    }
    return true;
  }

  /** The loading part of `Assign.call`: a fresh builder opens the table
      `timeSeries`, the fetch for its date parameters is loaded, and the
      session is closed whether or not the load succeeds. */
  method LoadTable(timeSeries: string, splitIndex: int, query: seq<string> -> Fetch)
    returns (r: Result<FactTable>, builder: FactTableBuilder)
    ensures fresh(builder) && builder.Valid() && !builder.inBuilding
    ensures TableLoad(timeSeries, splitIndex, query).Err? ==> r == Err(TableLoad(timeSeries, splitIndex, query).error)
    ensures TableLoad(timeSeries, splitIndex, query).Ok? ==> r.Ok? && Holds(r.value, TableLoad(timeSeries, splitIndex, query).value)
  {
    builder := new FactTableBuilder();
    var session := builder.Build(timeSeries);
    var params := DateParams(timeSeries);
    if params.Err? {
      var closed := builder.Done();
      return Err(params.error), builder;
    }
    var fetch := query(params.value);
    if fetch.FetchFailed? {
      var closed := builder.Done();
      return Err(DataAccess), builder;
    }
    if fetch.rows != [] {
      var dimSize := RegisterColumns(builder, fetch.labels, splitIndex);
      SplitCounts(fetch.labels, splitIndex, |fetch.labels|);
      var ok := LoadRows(builder, fetch.rows, dimSize, |fetch.labels|);
      if !ok {
        var closed := builder.Done();
        return Err(DataAccess), builder;
      }
    }
    r := builder.Done();
  }
}
