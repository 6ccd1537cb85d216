# minicubes in Dafny

A model of the core of minicubes. minicubes is an in-memory OLAP engine that does
time-series sharding over a cluster. The model covers four parts.

- **Fact table** (`FactTables`). The `FactTableBuilder` session runs in four steps:
  - `build` opens it;
  - `addDimColumns` and `addIndColumns` catalogue the column names;
  - `addDimDatas` and `addIndDatas` attach value vectors to records by id;
  - `done` freezes the table.

  Also modelled: the name lookups `getDimIndex`/`getIndIndex` and `Record.getDim`/`getInd`.
- **Cube engine** (`MiniCubes`). The model covers:
  - the one-shot bitmap index build (status 0 → 1 → 2) over keys `"<dim>:<value>"`;
  - the two paths of `filter`: the bitmaps OR-ed within an entry and AND-ed across entries, or a record scan with the `DUMMY_FILTER_DIM` sentinel;
  - `sum` and the group `sum`. Both are exact decimal totals set to scale 8, rounding half up.
- **Cluster manager** (`ShardKeys`, `CubeIds`, `RowLoading`, `ClusterNode`, `Dispatch`, `ClusterCalls`):
  - `ShardKeys`: the SQL date parameters for a day, month, quarter or ten-day key;
  - `CubeIds`: the cube-id protocol `<time series>::<group>@<node>`;
  - `RowLoading`: loading the fact SQL's rows into a builder, with the column split by the `dim_` prefix or by a split index;
  - `ClusterNode`: a node's `Assign.call`, `reassignRole` and `handleNewMember` over the registry map and the member's attributes, and the node-side aggregation tasks;
  - `Dispatch`: the cube-id selection `cubeIds()`/`cubeIds(date)`/`allCubeIds()`, the target selection and failure policy of `execute`, and the reductions;
  - `ClusterCalls`: the cluster-wide `sum`, group `sum`, `distinct` and `discnt`.
- **REST controller** (`StatusController`). The model covers:
  - the `working`/`awaiting` partition of `/status`;
  - the bitmap-to-set conversion of `/distinct`;
  - the `isDim` and `filterDims` defaults.

Supporting modules:

- `Wrappers` holds the `Result`/`Option`/`Outcome` types. Java exceptions are the `Exception` values `IllegalState`, `IllegalArgument`, `NullPointer`, `IndexOutOfBounds`, `UnsupportedOperation`, `DataAccess` and `Runtime`.
- `JavaStrings` holds the parts of `java.lang.String` that the code uses: `split` with its removal of trailing empty strings, `startsWith`, ASCII `toUpperCase`/`toLowerCase`, `Integer.parseInt` and `Long.toString`.
- `Decimals` holds `BigDecimal` arithmetic on exact `real` values. `setScale(n, ROUND_HALF_UP)` rounds to the nearest value at scale `n`, and a tie goes away from zero.

Inputs passed in as parameters:

- the rows the fact SQL returns (`Fetch`);
- what each cluster member replies to a task (`Reply`);
- the time series of the aggregation context;
- the JSON parser of `filterDims`.

The model follows the code where its behaviour is easy to misread:

- The ten-day key is parsed from the upper-cased text. Its month part is therefore upper-cased too.
- Every node reply is collected before an exception is raised.
- Registering a column name twice is not detected (`DuplicateColumnsCollide`).
- An unknown column name in `getDimIndex`/`getIndIndex` is a NullPointerException, because the `null` that the map returns is unboxed to `int` (FactTable.java:230, :246). The javadoc at :225 and :241 promises an IllegalArgumentException for an invalid name (`FactTables.ColumnIndex`).

## Model

| member | source | states |
|---|---|---|
| FactTables.GetDimIndex | minicubes-core/src/main/java/com/github/totyumengr/minicubes/core/FactTable.java:243-250 | succeeds exactly for a non-empty catalogued name and returns its stored position; an empty name is an IllegalArgumentException, an unknown one a NullPointerException |
| FactTables.GetIndIndex | minicubes-core/src/main/java/com/github/totyumengr/minicubes/core/FactTable.java:227-235 | the same for indicator names |
| FactTables.GetDim | minicubes-core/src/main/java/com/github/totyumengr/minicubes/core/FactTable.java:88-93 | succeeds exactly when the name resolves to a position inside the record's dimension vector, and then yields the element at that position; a lookup failure is passed on |
| FactTables.GetInd | minicubes-core/src/main/java/com/github/totyumengr/minicubes/core/FactTable.java:82-86 | the same for the indicator vector |
| FactTables.PutPositionsFresh | minicubes-core/src/main/java/com/github/totyumengr/minicubes/core/FactTable.java:142-145 | fresh distinct names get consecutive positions from the current count in list order; the catalogue grows by exactly those names; old positions are kept |
| FactTables.AppendKeepsDense | minicubes-core/src/main/java/com/github/totyumengr/minicubes/core/FactTable.java:134-162 | adding fresh distinct names keeps the positions a one-to-one numbering 0..n-1 |
| FactTables.DuplicateColumnsCollide | minicubes-core/src/main/java/com/github/totyumengr/minicubes/core/FactTable.java:142-145 | a name added twice is moved without growing the catalogue, so the next new name gets the same position |
| FactTables.AttachDimsEffect | minicubes-core/src/main/java/com/github/totyumengr/minicubes/core/FactTable.java:170-175 | `addDimDatas` creates the record when absent, appends to its dimension vector only, keeps every other record and keeps records keyed by id |
| FactTables.AttachIndsEffect | minicubes-core/src/main/java/com/github/totyumengr/minicubes/core/FactTable.java:186-191 | `addIndDatas` likewise for the indicator vector |
| FactTables.AttachOrderIrrelevant | minicubes-core/src/main/java/com/github/totyumengr/minicubes/core/FactTable.java:170-191 | dimension and indicator data may arrive in either order, with the same final records |
| FactTables.RecordList | minicubes-core/src/main/java/com/github/totyumengr/minicubes/core/FactTable.java:205-209 | the frozen list holds exactly the records of the map, one per id |
| FactTables.FactTableBuilder.Build | minicubes-core/src/main/java/com/github/totyumengr/minicubes/core/FactTable.java:122-132 | while a session is open: IllegalStateException and the session untouched; otherwise an empty table in a new session |
| FactTables.FactTableBuilder.AddDimColumns | minicubes-core/src/main/java/com/github/totyumengr/minicubes/core/FactTable.java:134-147 | without a session: IllegalStateException and nothing added; otherwise the names take positions from the current count |
| FactTables.FactTableBuilder.AddIndColumns | minicubes-core/src/main/java/com/github/totyumengr/minicubes/core/FactTable.java:149-162 | the same for indicator columns |
| FactTables.FactTableBuilder.AddDimDatas | minicubes-core/src/main/java/com/github/totyumengr/minicubes/core/FactTable.java:164-178 | without a session: IllegalStateException and records unchanged; otherwise the dimension vector is attached |
| FactTables.FactTableBuilder.AddIndDatas | minicubes-core/src/main/java/com/github/totyumengr/minicubes/core/FactTable.java:180-194 | the same for indicator vectors |
| FactTables.FactTableBuilder.Done | minicubes-core/src/main/java/com/github/totyumengr/minicubes/core/FactTable.java:196-210 | without a session: IllegalStateException; otherwise closes the session and returns the session's name and catalogues with exactly one record per id supplied |
| MiniCubes.BitmapKeyInjective | minicubes-core/src/main/java/com/github/totyumengr/minicubes/core/MiniCube.java:96 | distinct (dimension, value) pairs never share a bitmap key |
| MiniCubes.DimKey | minicubes-core/src/main/java/com/github/totyumengr/minicubes/core/MiniCube.java:95-96 | a record has a key for a dimension exactly when its value can be read, and the key is built from that value |
| MiniCubes.Insert | minicubes-core/src/main/java/com/github/totyumengr/minicubes/core/MiniCube.java:97-102 | the id is added to the key's bitmap, created if missing; other bitmaps are unchanged |
| MiniCubes.MiniCube.constructor | minicubes-core/src/main/java/com/github/totyumengr/minicubes/core/MiniCube.java:75-78 | a new cube over the table has status 0 and no index |
| MiniCubes.MiniCube.IndexRecord | minicubes-core/src/main/java/com/github/totyumengr/minicubes/core/MiniCube.java:94-103 | indexing one record keeps the index sound and loses no earlier entry; it succeeds exactly when every dimension is readable, and then enters the record under every dimension |
| MiniCubes.MiniCube.BuildBitmapIndex | minicubes-core/src/main/java/com/github/totyumengr/minicubes/core/MiniCube.java:81-114 | only status 0 builds; a later call returns the status with nothing changed (idempotent); a build ends at status 2 exactly when every dimension is readable, with an index whose key `d:v` holds exactly the ids of records with value v; a failed build stays at status 1 |
| MiniCubes.OrsSpec | minicubes-core/src/main/java/com/github/totyumengr/minicubes/core/MiniCube.java:129-137 | one entry's union succeeds exactly when every listed value has a bitmap (otherwise IllegalArgumentException) and holds exactly the ids under some listed value |
| MiniCubes.AndsSpec | minicubes-core/src/main/java/com/github/totyumengr/minicubes/core/MiniCube.java:127-143 | the intersection across entries fails exactly when some listed value lacks a bitmap; it is absent exactly for no entries; otherwise it holds exactly the ids under some value of every entry |
| MiniCubes.MissingBitmap | minicubes-core/src/main/java/com/github/totyumengr/minicubes/core/MiniCube.java:131-136 | any listed value without a bitmap makes the bitmap path an IllegalArgumentException |
| MiniCubes.ScanAllSpec | minicubes-core/src/main/java/com/github/totyumengr/minicubes/core/MiniCube.java:164-173 | on readable dimensions a record passes the scan exactly when each entry's value is the sentinel or one of the listed values |
| MiniCubes.SelectSubsequence | minicubes-core/src/main/java/com/github/totyumengr/minicubes/core/MiniCube.java:176-181 | a selection holds only records of the table and never the sentinel id |
| MiniCubes.SelectAgrees | minicubes-core/src/main/java/com/github/totyumengr/minicubes/core/MiniCube.java:176-181 | two filters that treat every record alike select alike |
| MiniCubes.EmptyFilterSelectsAll | minicubes-core/src/main/java/com/github/totyumengr/minicubes/core/MiniCube.java:176-181 | with no filter entries, on either path, every non-sentinel record is selected |
| MiniCubes.NoFilterSelectsAll | minicubes-core/src/main/java/com/github/totyumengr/minicubes/core/MiniCube.java:120-122 | a null or empty filter selects every non-sentinel record of the cube |
| MiniCubes.UnderKey | minicubes-core/src/main/java/com/github/totyumengr/minicubes/core/MiniCube.java:94-103 | after the build, a record's id is under `d:v` exactly when its value of d is v |
| MiniCubes.PathsAgree | minicubes-core/src/main/java/com/github/totyumengr/minicubes/core/MiniCube.java:126-181 | with ids unique, no value equal to the sentinel and every listed value indexed, the bitmap path and the scan path select the same records |
| MiniCubes.BuiltIndexSelectsAsScan | minicubes-core/src/main/java/com/github/totyumengr/minicubes/core/MiniCube.java:61-63 | on a built cube whose data avoids the sentinel, the cube's selection equals the scan's |
| MiniCubes.MiniCube.EntryOrs | minicubes-core/src/main/java/com/github/totyumengr/minicubes/core/MiniCube.java:129-137 | the inner loop yields one entry's union of value bitmaps, or IllegalArgumentException as soon as a listed value has no bitmap |
| MiniCubes.OrsFailure | minicubes-core/src/main/java/com/github/totyumengr/minicubes/core/MiniCube.java:131-136 | a single entry whose union fails makes the whole bitmap filter fail with IllegalArgumentException, whatever the other entries hold |
| MiniCubes.MiniCube.Filter | minicubes-core/src/main/java/com/github/totyumengr/minicubes/core/MiniCube.java:118-174 | the nested loops compute `FilterSpec`: on a built index the intersection of the per-entry unions (IllegalArgumentException for a missing bitmap), otherwise the scan |
| MiniCubes.IndValues | minicubes-core/src/main/java/com/github/totyumengr/minicubes/core/MiniCube.java:211-213 | one value per selected record when it succeeds |
| MiniCubes.IndValuesSpec | minicubes-core/src/main/java/com/github/totyumengr/minicubes/core/MiniCube.java:211-213 | succeeds exactly when every selected record's indicator is readable, and holds those values in order |
| MiniCubes.SumSpec | minicubes-core/src/main/java/com/github/totyumengr/minicubes/core/MiniCube.java:211-214 | the sum fails exactly when an indicator cannot be read; otherwise it is at scale 8 and within half a unit of the last place of the exact total |
| MiniCubes.SumOfNothing | minicubes-core/src/main/java/com/github/totyumengr/minicubes/core/MiniCube.java:211-214 | an empty selection sums to 0 |
| MiniCubes.SumAtScaleIsExact | minicubes-core/src/main/java/com/github/totyumengr/minicubes/core/MiniCube.java:211-214 | indicators already at scale 8 sum exactly |
| MiniCubes.GroupTotalsSpec | minicubes-core/src/main/java/com/github/totyumengr/minicubes/core/MiniCube.java:236-242 | grouping fails exactly when a group or indicator value cannot be read; the keys are exactly the group values occurring among the selected records |
| MiniCubes.EmptyGroup | minicubes-core/src/main/java/com/github/totyumengr/minicubes/core/MiniCube.java:236 | a value that does not occur has no records |
| MiniCubes.GroupSumSpec | minicubes-core/src/main/java/com/github/totyumengr/minicubes/core/MiniCube.java:236-243 | the group sums have exactly the occurring group values as keys, and each is the rounded sum over the records with that value |
| MiniCubes.MiniCube.SumFiltered | minicubes-core/src/main/java/com/github/totyumengr/minicubes/core/MiniCube.java:203-227 | `sum(ind, filter)` is the sum of the cube's selection |
| MiniCubes.MiniCube.Sum | minicubes-core/src/main/java/com/github/totyumengr/minicubes/core/MiniCube.java:189-194 | `sum(ind)` is `sum(ind, null)` |
| MiniCubes.MiniCube.GroupSum | minicubes-core/src/main/java/com/github/totyumengr/minicubes/core/MiniCube.java:229-247 | the group sums of the cube's selection |
| Decimals.NearestHalfUp | minicubes-core/src/main/java/com/github/totyumengr/minicubes/core/MiniCube.java:214 | the nearest integer, a tie going away from zero |
| Decimals.RoundHalfUpSpec | minicubes-core/src/main/java/com/github/totyumengr/minicubes/core/MiniCube.java:214 | `setScale(n, ROUND_HALF_UP)` gives a value at scale n, within half a unit of the last place, of the same sign |
| Decimals.RoundHalfUpExact | minicubes-core/src/main/java/com/github/totyumengr/minicubes/core/MiniCube.java:214 | a value already at scale n is unchanged |
| Decimals.RoundHalfUpTie | minicubes-core/src/main/java/com/github/totyumengr/minicubes/core/MiniCube.java:214 | an exact half rounds up |
| Decimals.RoundAtScale | minicubes-core/src/main/java/com/github/totyumengr/minicubes/core/Aggregations.java:34 | the final rounding yields scale `IND_SCALE` = 8 |
| Decimals.TotalAppend | minicubes-core/src/main/java/com/github/totyumengr/minicubes/core/MiniCube.java:213 | the total of a concatenation is the sum of the totals |
| Decimals.TotalAtScale | minicubes-core/src/main/java/com/github/totyumengr/minicubes/core/MiniCube.java:213 | a total of values at scale n is at scale n |
| ShardKeys.TenDayParams | minicubes-cluster/src/main/java/com/github/totyumengr/minicubes/cluster/TimeSeriesMiniCubeManagerHzImpl.java:378-400 | `yyyymmXn` with n = 1, 2, 3 gives days 01-10, 11-20, 21-31 of the month; any other digit n is an IllegalArgumentException |
| ShardKeys.TenDayNonDigit | minicubes-cluster/src/main/java/com/github/totyumengr/minicubes/cluster/TimeSeriesMiniCubeManagerHzImpl.java:378-381 | a ten-day key ending in a second X (either case) is an ArrayIndexOutOfBoundsException, because `split("X")` drops the trailing empty pieces; any other non-digit is a NumberFormatException |
| ShardKeys.DayParams | minicubes-cluster/src/main/java/com/github/totyumengr/minicubes/cluster/TimeSeriesMiniCubeManagerHzImpl.java:401-404 | an eight-character key without X is its own single parameter |
| ShardKeys.MonthParams | minicubes-cluster/src/main/java/com/github/totyumengr/minicubes/cluster/TimeSeriesMiniCubeManagerHzImpl.java:405-410 | a six-character key without Q gives days 01 to 31 of the month |
| ShardKeys.QuarterParams | minicubes-cluster/src/main/java/com/github/totyumengr/minicubes/cluster/TimeSeriesMiniCubeManagerHzImpl.java:411-422 | `yyyyQn` with n in 1..4 runs from day 01 of month 3n-2 to day 31 of month 3n; any other digit n is an IllegalArgumentException |
| ShardKeys.QuarterNonDigit | minicubes-cluster/src/main/java/com/github/totyumengr/minicubes/cluster/TimeSeriesMiniCubeManagerHzImpl.java:411-414 | a quarter key ending in a second Q (either case) is an ArrayIndexOutOfBoundsException; any other non-digit is a NumberFormatException |
| ShardKeys.OtherLengthRejected | minicubes-cluster/src/main/java/com/github/totyumengr/minicubes/cluster/TimeSeriesMiniCubeManagerHzImpl.java:423-425 | any other key length is an IllegalArgumentException |
| ShardKeys.ParamCount | minicubes-cluster/src/main/java/com/github/totyumengr/minicubes/cluster/TimeSeriesMiniCubeManagerHzImpl.java:377-425 | a derivation gives one or two parameters |
| ShardKeys.Pad2Digits | minicubes-cluster/src/main/java/com/github/totyumengr/minicubes/cluster/TimeSeriesMiniCubeManagerHzImpl.java:384 | a month or day below 100 is written as two digits, zero-padded |
| CubeIds.NodeRoundTrip | minicubes-cluster/src/main/java/com/github/totyumengr/minicubes/cluster/TimeSeriesMiniCubeManagerHzImpl.java:350 | the node part is recovered from an id when no part holds `@` |
| CubeIds.DateRoundTrip | minicubes-cluster/src/main/java/com/github/totyumengr/minicubes/cluster/TimeSeriesMiniCubeManagerHzImpl.java:566 | the time series is recovered from an id when it holds no `:` |
| CubeIds.CubeIdRoundTrip | minicubes-cluster/src/main/java/com/github/totyumengr/minicubes/cluster/TimeSeriesMiniCubeManagerHzImpl.java:516 | both parts round-trip for separable parts |
| CubeIds.NoNodeWithoutAt | minicubes-cluster/src/main/java/com/github/totyumengr/minicubes/cluster/TimeSeriesMiniCubeManagerHzImpl.java:258 | an id without `@` names no node (IndexOutOfBoundsException) |
| CubeIds.AwaitingPrefix | minicubes-cluster/src/main/java/com/github/totyumengr/minicubes/cluster/TimeSeriesMiniCubeManagerHzImpl.java:241 | an id starts with `?` exactly when its time series does |
| RowLoading.SplitCounts | minicubes-cluster/src/main/java/com/github/totyumengr/minicubes/cluster/TimeSeriesMiniCubeManagerHzImpl.java:461-485 | every column is a dimension or an indicator |
| RowLoading.DimsFirstSplit | minicubes-cluster/src/main/java/com/github/totyumengr/minicubes/cluster/TimeSeriesMiniCubeManagerHzImpl.java:461-485 | when the dimension columns come first, the dimension labels are the prefix and the indicator labels the rest |
| RowLoading.PositionalSplit | minicubes-cluster/src/main/java/com/github/totyumengr/minicubes/cluster/TimeSeriesMiniCubeManagerHzImpl.java:473-485 | a split index s makes the 1-based columns below s the dimensions |
| RowLoading.ColumnsDistinct | minicubes-cluster/src/main/java/com/github/totyumengr/minicubes/cluster/TimeSeriesMiniCubeManagerHzImpl.java:466-482 | registering distinct labels one by one gives them positions 0, 1, 2, ... in label order |
| RowLoading.LoadedRecordsSpec | minicubes-cluster/src/main/java/com/github/totyumengr/minicubes/cluster/TimeSeriesMiniCubeManagerHzImpl.java:492-503 | row k becomes record k + 1, its first dimSize cells the dimensions and the rest the indicators; the ids are exactly 1..rows |
| RowLoading.LoadStep | minicubes-cluster/src/main/java/com/github/totyumengr/minicubes/cluster/TimeSeriesMiniCubeManagerHzImpl.java:501-503 | sending one more row extends the loaded records by that row |
| RowLoading.LoadOfCut | minicubes-cluster/src/main/java/com/github/totyumengr/minicubes/cluster/TimeSeriesMiniCubeManagerHzImpl.java:457-503 | with dimensions first, the load catalogues the labels before and after the cut and loads every row |
| RowLoading.DimCellByLabel | minicubes-cluster/src/main/java/com/github/totyumengr/minicubes/cluster/TimeSeriesMiniCubeManagerHzImpl.java:492-503 | with distinct labels and dimensions first, reading a loaded record by a dimension label gives that row's cell in that column |
| RowLoading.IndCellByLabel | minicubes-cluster/src/main/java/com/github/totyumengr/minicubes/cluster/TimeSeriesMiniCubeManagerHzImpl.java:492-503 | the same for indicator labels |
| RowLoading.RegisterColumns | minicubes-cluster/src/main/java/com/github/totyumengr/minicubes/cluster/TimeSeriesMiniCubeManagerHzImpl.java:458-489 | the meta-data pass catalogues the dimension and indicator labels in order and counts the dimensions |
| RowLoading.SplitRow | minicubes-cluster/src/main/java/com/github/totyumengr/minicubes/cluster/TimeSeriesMiniCubeManagerHzImpl.java:492-500 | a row's first dimSize cells go to the dimensions and the rest to the indicators |
| RowLoading.LoadRows | minicubes-cluster/src/main/java/com/github/totyumengr/minicubes/cluster/TimeSeriesMiniCubeManagerHzImpl.java:491-508 | succeeds exactly when every row is long enough, and then the builder holds the loaded records |
| RowLoading.LoadTable | minicubes-cluster/src/main/java/com/github/totyumengr/minicubes/cluster/TimeSeriesMiniCubeManagerHzImpl.java:368-529 | the session is closed on every path; a failed derivation or fetch is passed on; otherwise the table is the specified load |
| ClusterNode.PublishKeepsConsistent | minicubes-cluster/src/main/java/com/github/totyumengr/minicubes/cluster/TimeSeriesMiniCubeManagerHzImpl.java:522 | publishing a node's own id keeps every registry entry naming its key |
| ClusterNode.RestartNamesSelf | minicubes-cluster/src/main/java/com/github/totyumengr/minicubes/cluster/TimeSeriesMiniCubeManagerHzImpl.java:234-238 | a restarted node found in a consistent registry is named by its stored id; `HandleNewMember` uses it for its consistent-registry clause |
| ClusterNode.AwaitingId | minicubes-cluster/src/main/java/com/github/totyumengr/minicubes/cluster/TimeSeriesMiniCubeManagerHzImpl.java:241 | the placeholder id names the joining node and is awaiting |
| ClusterNode.Member.constructor | minicubes-cluster/src/main/java/com/github/totyumengr/minicubes/cluster/TimeSeriesMiniCubeManagerHzImpl.java:212 | a started member is load-pending, without a cube id |
| ClusterNode.Node.Assign | minicubes-cluster/src/main/java/com/github/totyumengr/minicubes/cluster/TimeSeriesMiniCubeManagerHzImpl.java:348-530 | an unparsable id is passed on, another node's id is an UnsupportedOperationException, both with nothing changed; while load-pending only the registry learns the new id; otherwise a good load makes a new cube over the loaded table and publishes `timeSeries::group@node` to registry and attribute, and a failed load changes nothing |
| ClusterNode.Node.Reassign | minicubes-cluster/src/main/java/com/github/totyumengr/minicubes/cluster/TimeSeriesMiniCubeManagerHzImpl.java:535-550 | in the model, an id not naming this node finds no target and `result.get(0)` is an IndexOutOfBoundsException; an id naming it has the assignment's effect, a failed assignment becoming a RuntimeException |
| ClusterNode.Node.HandleNewMember | minicubes-cluster/src/main/java/com/github/totyumengr/minicubes/cluster/TimeSeriesMiniCubeManagerHzImpl.java:224-248 | clears load-pending; with no real entry publishes `?::group@addr` to registry and attribute; a restarted node rebuilds the time series of its stored id, and every failure leaves the cube, registry and attribute as they were; in a consistent registry the restart always runs on the node itself, so it either rebuilds the cube or reports the failed load as a RuntimeException |
| ClusterNode.Node.Rebuild | minicubes-cluster/src/main/java/com/github/totyumengr/minicubes/cluster/TimeSeriesMiniCubeManagerHzImpl.java:234-238 | the restart branch: an unreadable stored id fails as `split("::")` does, an id naming another node fails as in `Reassign`, and one naming this node rebuilds the cube or reports the failed load |
| ClusterNode.Node.SumTask | minicubes-cluster/src/main/java/com/github/totyumengr/minicubes/cluster/TimeSeriesMiniCubeManagerHzImpl.java:675-679 | a node without a cube answers 0, otherwise its cube's sum |
| ClusterNode.Node.GroupSumTask | minicubes-cluster/src/main/java/com/github/totyumengr/minicubes/cluster/TimeSeriesMiniCubeManagerHzImpl.java:733-737 | a node without a cube answers null, otherwise its cube's group sums |
| Dispatch.AllCubeIdsSpec | minicubes-cluster/src/main/java/com/github/totyumengr/minicubes/cluster/TimeSeriesMiniCubeManagerHzImpl.java:553-559 | `allCubeIds` holds exactly the published attributes, at most one per member |
| Dispatch.CubeIdsOnOk | minicubes-cluster/src/main/java/com/github/totyumengr/minicubes/cluster/TimeSeriesMiniCubeManagerHzImpl.java:562-568 | `cubeIds(date)` fails exactly when some member's id or time series cannot be read |
| Dispatch.CubeIdsOnSpec | minicubes-cluster/src/main/java/com/github/totyumengr/minicubes/cluster/TimeSeriesMiniCubeManagerHzImpl.java:562-568 | `cubeIds(date)` holds exactly the published ids whose time series starts with the date |
| Dispatch.AddAllSpec | minicubes-cluster/src/main/java/com/github/totyumengr/minicubes/cluster/TimeSeriesMiniCubeManagerHzImpl.java:622-625 | `addAll` on the linked set keeps the old elements first, adds exactly the new ones, and keeps it duplicate-free |
| Dispatch.SelectCubeIds | minicubes-cluster/src/main/java/com/github/totyumengr/minicubes/cluster/TimeSeriesMiniCubeManagerHzImpl.java:617-635 | the loop that fills the linked set yields `SelectSpec`, whose meaning `SelectAll`, `SelectOn` and `SelectNothing` state |
| Dispatch.SelectAll | minicubes-cluster/src/main/java/com/github/totyumengr/minicubes/cluster/TimeSeriesMiniCubeManagerHzImpl.java:621-622 | without time series, every published id once |
| Dispatch.SelectOn | minicubes-cluster/src/main/java/com/github/totyumengr/minicubes/cluster/TimeSeriesMiniCubeManagerHzImpl.java:623-626 | with time series, exactly the published ids on one of them, once each |
| Dispatch.SelectNothing | minicubes-cluster/src/main/java/com/github/totyumengr/minicubes/cluster/TimeSeriesMiniCubeManagerHzImpl.java:627-630 | with readable ids, the selection is an IllegalArgumentException exactly when no published id is on any given time series |
| Dispatch.SelectFromErr | minicubes-cluster/src/main/java/com/github/totyumengr/minicubes/cluster/TimeSeriesMiniCubeManagerHzImpl.java:624-626 | an exception for one time series ends the whole selection with it |
| Dispatch.NodesOfSpec | minicubes-cluster/src/main/java/com/github/totyumengr/minicubes/cluster/TimeSeriesMiniCubeManagerHzImpl.java:258 | the node list succeeds exactly when every id names a node and holds them in order |
| Dispatch.TargetedSpec | minicubes-cluster/src/main/java/com/github/totyumengr/minicubes/cluster/TimeSeriesMiniCubeManagerHzImpl.java:259-263 | the targets are exactly the members whose address is a named node |
| Dispatch.TargetedAppend | minicubes-cluster/src/main/java/com/github/totyumengr/minicubes/cluster/TimeSeriesMiniCubeManagerHzImpl.java:259-263 | targeting keeps member order |
| Dispatch.ExecuteTargets | minicubes-cluster/src/main/java/com/github/totyumengr/minicubes/cluster/TimeSeriesMiniCubeManagerHzImpl.java:255-267 | a null or empty id set targets all members; otherwise the named members, or the exception of an id without a node |
| Dispatch.ResponsesAll | minicubes-cluster/src/main/java/com/github/totyumengr/minicubes/cluster/TimeSeriesMiniCubeManagerHzImpl.java:282-290 | with no exception every reply's value is collected, in order |
| Dispatch.Execute | minicubes-cluster/src/main/java/com/github/totyumengr/minicubes/cluster/TimeSeriesMiniCubeManagerHzImpl.java:310-319 | any exception among the replies is a RuntimeException with no partial result; otherwise all values in order |
| Dispatch.ClusterSumSpec | minicubes-cluster/src/main/java/com/github/totyumengr/minicubes/cluster/TimeSeriesMiniCubeManagerHzImpl.java:699-700 | the cluster sum is at scale 8 and within half a unit of the last place of the exact total |
| Dispatch.ClusterSumExact | minicubes-cluster/src/main/java/com/github/totyumengr/minicubes/cluster/TimeSeriesMiniCubeManagerHzImpl.java:699-700 | node sums at scale 8 add up exactly |
| Dispatch.ClusterSumOrder | minicubes-cluster/src/main/java/com/github/totyumengr/minicubes/cluster/TimeSeriesMiniCubeManagerHzImpl.java:699-700 | the order of the node answers does not change the sum |
| Dispatch.PresentSpec | minicubes-cluster/src/main/java/com/github/totyumengr/minicubes/cluster/TimeSeriesMiniCubeManagerHzImpl.java:754-760 | the merge fails (NullPointerException) exactly when some node answered null |
| Dispatch.MergeInto | minicubes-cluster/src/main/java/com/github/totyumengr/minicubes/cluster/TimeSeriesMiniCubeManagerHzImpl.java:758 | the `forEach`/`merge` loop yields `MergeWith`: every key of the node map merged into the result with `f`, other keys kept |
| Dispatch.Merge | minicubes-cluster/src/main/java/com/github/totyumengr/minicubes/cluster/TimeSeriesMiniCubeManagerHzImpl.java:753-760 | merging every node map, or a NullPointerException for a null one |
| Dispatch.MergeAllKeys | minicubes-cluster/src/main/java/com/github/totyumengr/minicubes/cluster/TimeSeriesMiniCubeManagerHzImpl.java:753-760 | the merged keys are exactly the keys of some node map |
| Dispatch.GroupMergeValue | minicubes-cluster/src/main/java/com/github/totyumengr/minicubes/cluster/TimeSeriesMiniCubeManagerHzImpl.java:758 | each merged group sum is the exact total of the node values for that key |
| Dispatch.GroupMergeAtScale | minicubes-cluster/src/main/java/com/github/totyumengr/minicubes/cluster/TimeSeriesMiniCubeManagerHzImpl.java:758 | node group sums at scale 8 merge to sums at scale 8 |
| Dispatch.GroupMergeSwap | minicubes-cluster/src/main/java/com/github/totyumengr/minicubes/cluster/TimeSeriesMiniCubeManagerHzImpl.java:754-760 | the order of two node answers does not change the merged group sums |
| Dispatch.DistinctMergeValue | minicubes-cluster/src/main/java/com/github/totyumengr/minicubes/cluster/TimeSeriesMiniCubeManagerHzImpl.java:819-825 | each merged set is the union of the node sets for that key |
| Dispatch.DistinctMergeSwap | minicubes-cluster/src/main/java/com/github/totyumengr/minicubes/cluster/TimeSeriesMiniCubeManagerHzImpl.java:815-827 | the order of two node answers does not change the merged sets |
| Dispatch.DiscntLowerBound | minicubes-cluster/src/main/java/com/github/totyumengr/minicubes/cluster/TimeSeriesMiniCubeManagerHzImpl.java:842-843 | a key's distinct count is at least what any node counts for it |
| ClusterCalls.OneFailureFailsAll | minicubes-cluster/src/main/java/com/github/totyumengr/minicubes/cluster/TimeSeriesMiniCubeManagerHzImpl.java:310-317 | one target that raises makes the whole aggregation a RuntimeException |
| ClusterCalls.AllAnswered | minicubes-cluster/src/main/java/com/github/totyumengr/minicubes/cluster/TimeSeriesMiniCubeManagerHzImpl.java:277-319 | when no target raises there is one result per target, in target order |
| ClusterCalls.Gather | minicubes-cluster/src/main/java/com/github/totyumengr/minicubes/cluster/TimeSeriesMiniCubeManagerHzImpl.java:253-320 | `execute(task, cubeIds(), timeout)`: selection, targeting and collection as specified |
| ClusterCalls.Sum | minicubes-cluster/src/main/java/com/github/totyumengr/minicubes/cluster/TimeSeriesMiniCubeManagerHzImpl.java:690-707 | a failure of the call is passed on; otherwise the rounded exact total of the node sums |
| ClusterCalls.GroupSum | minicubes-cluster/src/main/java/com/github/totyumengr/minicubes/cluster/TimeSeriesMiniCubeManagerHzImpl.java:742-767 | a failure is passed on, a null node answer is a NullPointerException; otherwise the per-key sums of the node maps |
| ClusterCalls.Distinct | minicubes-cluster/src/main/java/com/github/totyumengr/minicubes/cluster/TimeSeriesMiniCubeManagerHzImpl.java:803-833 | the same with per-key union of the node sets |
| ClusterCalls.DistinctCount | minicubes-cluster/src/main/java/com/github/totyumengr/minicubes/cluster/TimeSeriesMiniCubeManagerHzImpl.java:836-850 | the cardinality of each merged set of `distinct`, or its failure |
| StatusController.StatusPartition | minicubes-cluster/src/main/java/com/github/totyumengr/minicubes/cluster/BootTimeSeriesMiniCubeController.java:62-68 | `working` and `awaiting` together hold every id as often as `allCubeIds`; exactly the ids without and with the `?` prefix |
| StatusController.StatusOrder | minicubes-cluster/src/main/java/com/github/totyumengr/minicubes/cluster/BootTimeSeriesMiniCubeController.java:64-65 | both lists keep the original order |
| StatusController.StatusShape | minicubes-cluster/src/main/java/com/github/totyumengr/minicubes/cluster/BootTimeSeriesMiniCubeController.java:62-70 | the response holds exactly `working` then `awaiting`, whose sizes add up to the number of ids |
| StatusController.BitmapsToSets | minicubes-cluster/src/main/java/com/github/totyumengr/minicubes/cluster/BootTimeSeriesMiniCubeController.java:141-147 | the response has the merged map's keys and each key holds exactly the integers of its bitmap |
| StatusController.DistinctRequest | minicubes-cluster/src/main/java/com/github/totyumengr/minicubes/cluster/BootTimeSeriesMiniCubeController.java:126-150 | the `/distinct` response is the cluster's `distinct` run with `isDim` defaulted to true, with every merged bitmap read out as a set |
| StatusController.DistinctCountRequest | minicubes-cluster/src/main/java/com/github/totyumengr/minicubes/cluster/BootTimeSeriesMiniCubeController.java:152-168 | the `/distinctcount` response is the cluster's `discnt` run with `isDim` defaulted to true |
| StatusController.DistinctDefaultsToDim | minicubes-cluster/src/main/java/com/github/totyumengr/minicubes/cluster/BootTimeSeriesMiniCubeController.java:137 | a `/distinct` request without `isDim` gets the response of one with `isDim=true`; `isDim=false` asks the nodes with false |
| StatusController.DistinctCountDefaultsToDim | minicubes-cluster/src/main/java/com/github/totyumengr/minicubes/cluster/BootTimeSeriesMiniCubeController.java:163 | the same default for `/distinctcount` |
| StatusController.CountsAreDistinctSizes | minicubes-cluster/src/main/java/com/github/totyumengr/minicubes/cluster/BootTimeSeriesMiniCubeController.java:137-163 | for the same request, `/distinctcount` fails exactly when `/distinct` does, with the same error, and otherwise gives the size of each set `/distinct` gives, under the same keys |
| StatusController.FilterParam | minicubes-cluster/src/main/java/com/github/totyumengr/minicubes/cluster/BootTimeSeriesMiniCubeController.java:101-102 | a null or empty `filterDims` is no filter; other text is the parser's result or its failure |
| StatusController.BlankFilterIsNoFilter | minicubes-cluster/src/main/java/com/github/totyumengr/minicubes/cluster/BootTimeSeriesMiniCubeController.java:161-162 | a blank `filterDims` gives no filter, which selects every non-sentinel record, never an empty match |

## Left out

- Hazelcast: the configuration, the membership listeners, the executor service, its asynchronous callback, the latch and the timeout are left out. Each member's reply to a task is an input (`Reply`), and replies arrive in member order. A reply that never arrives before the timeout is not modelled.
- Clusters: `reassignRole` is modelled on a one-member cluster (`ClusterNode.Node.Reassign`). Targeting in a cluster of many members is modelled by `Dispatch.ExecuteTargets` and `ClusterCalls.Gather`.
- The listener schedule: the 60-second delay before `handleNewMember` is left out. The member's constructor sets `load-pending`, as the startup code does.
- JDBC: the fact SQL's result set is an input (`Fetch`). `getInt` and `getDouble` are the two readings of a `Cell`. A failed query or a row with fewer cells than columns is a `DataAccess` exception.
- Floating point: `DoubleDouble`, `double` and `BigDecimal` are exact `real` values. No floating-point rounding is modelled.
- Concurrency: `parallelStream` is a sequential fold, which `ClusterSumOrder`, `GroupMergeSwap` and `DistinctMergeSwap` make order-independent. `setParallelMode` and the `Mode` task are parallelism and are not modelled.
- Thread-local state: the aggregation context `AGG_CONTEXT` is a parameter, and `IN_BUILDING` is a field of the builder object.
- Libraries: RoaringBitmap is `set<int>`. The JSON parser of `filterDims` is a parameter. Logging and timing are left out.
- Missing code: `MiniCube.distinct` and `getDims` are called from the core but not defined in MiniCube.java. A node's distinct answer is therefore an input map, and the dimension names are the keys of the dimension catalogue.
- Missing overload: `build(name, int)` is not defined in FactTable.java, so it is modelled as `build(name)`.
- Java types: the `Long` cube keys and the `Integer` interface keys are both `int`, and 32-bit id wrap-around is not modelled.
- Fact-table merge: no merge code is part of this model.
- Record order: the order of `done()`'s record list is left open (any order of the map's values). The model states which records it holds, not their order.
- Null and Unicode: a null string is not modelled, except the null or empty `filterDims` text. `toUpperCase`/`toLowerCase` fold ASCII letters only.
- RowLoading.DimCellByLabel: proved only when the dimension columns come before the indicator columns. The source's label split does not check this. With a `dim_` label after an indicator, values are read by position and land under the wrong column names.
- ClusterNode.Node.Reassign: the `Assert.hasText` check is left out, because an assigned id always holds `::` and `@`, so it is never blank.
- ClusterNode.Node.Reassign: when the id names no member, the model assumes that `execute` still completes with no results, so `result.get(0)` is an IndexOutOfBoundsException. The source counts its latch down only in `onComplete` and waits `Integer.MAX_VALUE` seconds for the timeout -1. Whether Hazelcast calls `onComplete` for an empty submission is not part of this model; if it does not, the call blocks instead.
- ShardKeys.TenDayNonDigit and ShardKeys.QuarterNonDigit: `Integer.parseInt` also accepts non-ASCII Unicode digits (through `Character.digit`); the model's `ParseInt` accepts ASCII digits only, so such a key is rejected here where Java would read a number.
- StatusController.BitmapsToSets: works on the merged sets. RoaringBitmap's `toArray` in sorted order is not modelled.
