/** The cube engine over one fact table: a one-shot bitmap index from
    `"<dimension>:<value>"` to record ids, two ways of turning a filter
    (dimension name -> accepted values) into a record predicate, and the
    sum and group-sum aggregations. */
module MiniCubes {
  import opened Wrappers
  import opened JavaStrings
  import opened Decimals
  import opened FactTables

  /** `MiniCube.DUMMY_FILTER_DIM`: a value that must not occur in the data. */
  const DUMMY_FILTER_DIM: int := -999999999

  /** One entry of the `filterDims` map, in the map's iteration order. */
  datatype FilterEntry = FilterEntry(dim: string, values: seq<int>)

  /** The predicate `filter` builds: on the bitmap path a set of accepted
      ids (`None` when the filter had no entry, so nothing was added), on
      the scan path the entries themselves, tested record by record. */
  datatype RecordFilter = ByIds(ids: Option<set<int>>) | ByScan(entries: seq<FilterEntry>)

  // ------------------------------------------------------------ index keys

  /** `dimName + ":" + dimValue`. */
  function BitmapKey(dim: string, v: int): string {
    dim + ":" + LongToString(v)
  }

  lemma LastColon(d: string, s: string)
    requires ':' !in s
    ensures var k := d + ":" + s; k[|d|] == ':' && forall i :: |d| < i < |k| ==> k[i] != ':'
  {
    var k := d + ":" + s;
    forall i | |d| < i < |k| ensures k[i] != ':' {
      assert k[i] == s[i - |d| - 1];
    }
  }

  /** Distinct (dimension, value) pairs have distinct index keys, whatever
      characters the dimension name holds: the key's last colon separates
      the two. */
  lemma BitmapKeyInjective(d1: string, v1: int, d2: string, v2: int)
    requires BitmapKey(d1, v1) == BitmapKey(d2, v2)
    ensures d1 == d2 && v1 == v2
  {
    var s1, s2 := LongToString(v1), LongToString(v2);
    LongToStringNoColon(v1);
    LongToStringNoColon(v2);
    LastColon(d1, s1);
    LastColon(d2, s2);
    var k := BitmapKey(d1, v1);
    assert |d1| == |d2|;
    assert d1 == k[..|d1|] && d2 == k[..|d2|];
    assert s1 == k[|d1| + 1..] && s2 == k[|d2| + 1..];
    LongToStringInjective(v1, v2);
  }

  // ------------------------------------------------------------ the index

  /** The index key of record `r` under dimension `d`, when its value can be read. */
  function DimKey(meta: Meta, r: Record, d: string): (k: Result<string>)
    ensures k.Ok? <==> GetDim(meta, r, d).Ok?
    ensures k.Ok? ==> k.value == BitmapKey(d, GetDim(meta, r, d).value)
  {
    var v :- GetDim(meta, r, d);
    Ok(BitmapKey(d, v))
  }

  /** Every dimension of every record can be read. */
  predicate AllReadable(t: FactTable) {
    forall j, d :: 0 <= j < |t.records| && d in t.meta.dimNames ==> GetDim(t.meta, t.records[j], d).Ok?
  }

  /** `id` is under `key` because some record with that id has that key. */
  predicate IndexedBy(t: FactTable, key: string, id: int) {
    exists j, d :: 0 <= j < |t.records| && d in t.meta.dimNames && t.records[j].id == id
      && DimKey(t.meta, t.records[j], d) == Ok(key)
  }

  /** Every id in the index is justified by a record. */
  predicate Sound(ix: map<string, set<int>>, t: FactTable) {
    forall key, id :: key in ix && id in ix[key] ==> IndexedBy(t, key, id)
  }

  /** Record `j` is in the index under dimension `d`. */
  predicate Entered(ix: map<string, set<int>>, t: FactTable, j: int, d: string)
    requires 0 <= j < |t.records|
  {
    var k := DimKey(t.meta, t.records[j], d);
    k.Ok? && k.value in ix && t.records[j].id in ix[k.value]
  }

  /** The first `n` records are in the index under every dimension. */
  predicate EnteredBelow(ix: map<string, set<int>>, t: FactTable, n: int) {
    forall j, d :: 0 <= j < n && j < |t.records| && d in t.meta.dimNames ==> Entered(ix, t, j, d)
  }

  /** Every record is in the index under every dimension. */
  predicate Complete(ix: map<string, set<int>>, t: FactTable) {
    EnteredBelow(ix, t, |t.records|)
  }

  /** No key maps to an empty bitmap. */
  predicate NoEmptyBitmap(ix: map<string, set<int>>) {
    forall key :: key in ix ==> ix[key] != {}
  }

  /** What a finished `buildBitmapIndex` leaves: `ix[d:v]` holds exactly the
      ids of the records whose `d` value is `v`. */
  predicate Indexes(ix: map<string, set<int>>, t: FactTable) {
    AllReadable(t) && Sound(ix, t) && Complete(ix, t) && NoEmptyBitmap(ix)
  }

  /** `bitmapIndex.get(key)` (creating the bitmap when absent) `.add(id)`. */
  function Insert(ix: map<string, set<int>>, key: string, id: int): (r: map<string, set<int>>)
    ensures r.Keys == ix.Keys + {key}
    ensures r[key] == (if key in ix then ix[key] else {}) + {id}
    ensures forall k :: k in ix && k != key ==> r[k] == ix[k]
  {
    ix[key := (if key in ix then ix[key] else {}) + {id}]
  }

  lemma InsertSound(ix: map<string, set<int>>, t: FactTable, j: int, d: string)
    requires 0 <= j < |t.records| && d in t.meta.dimNames
    requires Sound(ix, t) && DimKey(t.meta, t.records[j], d).Ok?
    ensures Sound(Insert(ix, DimKey(t.meta, t.records[j], d).value, t.records[j].id), t)
  {
    var key := DimKey(t.meta, t.records[j], d).value;
    assert IndexedBy(t, key, t.records[j].id);
  }

  lemma InsertKeepsEntered(ix: map<string, set<int>>, t: FactTable, key: string, id: int, j: int, d: string)
    requires 0 <= j < |t.records| && Entered(ix, t, j, d)
    ensures Entered(Insert(ix, key, id), t, j, d)
  {
  }

  // ------------------------------------------------------- filter: bitmap

  /** The `ors` bitmap of one entry: the union of the bitmaps of its values,
      failing when a value has no bitmap. */
  function Ors(ix: map<string, set<int>>, dim: string, values: seq<int>): Result<set<int>>
  {
    if values == [] then Ok({})
    else
      var o :- Ors(ix, dim, values[..|values| - 1]);
      var key := BitmapKey(dim, values[|values| - 1]);
      if key in ix then Ok(o + ix[key]) else Err(IllegalArgument)
  }

  /** The `ands` bitmap: the intersection over the entries of their `ors`
      bitmaps; `None` when there is no entry. */
  function Ands(ix: map<string, set<int>>, entries: seq<FilterEntry>): Result<Option<set<int>>>
  {
    if entries == [] then Ok(None)
    else
      var a :- Ands(ix, entries[..|entries| - 1]);
      var e := entries[|entries| - 1];
      var o :- Ors(ix, e.dim, e.values);
      Ok(Some(if a.None? then o else a.value * o))
  }

  predicate HasBitmap(ix: map<string, set<int>>, dim: string, v: int) {
    BitmapKey(dim, v) in ix
  }

  /** `id` is in the bitmap of one of the listed values. */
  predicate UnderSome(ix: map<string, set<int>>, dim: string, values: seq<int>, id: int) {
    exists v :: v in values && HasBitmap(ix, dim, v) && id in ix[BitmapKey(dim, v)]
  }

  lemma UnderSomeSplit(ix: map<string, set<int>>, dim: string, values: seq<int>, id: int)
    requires values != []
    ensures var last := values[|values| - 1];
      UnderSome(ix, dim, values, id) <==>
        UnderSome(ix, dim, values[..|values| - 1], id) || (HasBitmap(ix, dim, last) && id in ix[BitmapKey(dim, last)])
  {
    var init, last := values[..|values| - 1], values[|values| - 1];
    assert values == init + [last];
    if UnderSome(ix, dim, values, id) {
      var v :| v in values && HasBitmap(ix, dim, v) && id in ix[BitmapKey(dim, v)];
      assert v in init || v == last;
    }
  }

  lemma {:induction false} OrsOk(ix: map<string, set<int>>, dim: string, values: seq<int>)
    ensures Ors(ix, dim, values).Ok? <==> forall v :: v in values ==> HasBitmap(ix, dim, v)
    ensures Ors(ix, dim, values).Err? ==> Ors(ix, dim, values).error == IllegalArgument
  {
    if values != [] {
      var init := values[..|values| - 1];
      var last := values[|values| - 1];
      OrsOk(ix, dim, init);
      assert values == init + [last];
      if Ors(ix, dim, init).Err? {
        var v :| v in init && !HasBitmap(ix, dim, v);
        assert v in values;
      } else if !HasBitmap(ix, dim, last) {
        assert last in values;
      } else {
        forall v | v in values ensures HasBitmap(ix, dim, v) {
          assert v in init || v == last;
        }
      }
    }
  }

  /** `ors` succeeds exactly when every value has a bitmap, and then holds
      the ids found under some value. A missing bitmap is an
      IllegalArgumentException. */
  lemma {:induction false} OrsSpec(ix: map<string, set<int>>, dim: string, values: seq<int>)
    ensures Ors(ix, dim, values).Ok? <==> forall v :: v in values ==> HasBitmap(ix, dim, v)
    ensures Ors(ix, dim, values).Err? ==> Ors(ix, dim, values).error == IllegalArgument
    ensures Ors(ix, dim, values).Ok? ==>
      forall id :: id in Ors(ix, dim, values).value <==> UnderSome(ix, dim, values, id)
  {
    OrsOk(ix, dim, values);
    if values != [] && Ors(ix, dim, values).Ok? {
      var init := values[..|values| - 1];
      var last := values[|values| - 1];
      OrsSpec(ix, dim, init);
      var o := Ors(ix, dim, init).value;
      assert Ors(ix, dim, values).value == o + ix[BitmapKey(dim, last)];
      forall id ensures id in Ors(ix, dim, values).value <==> UnderSome(ix, dim, values, id) {
        UnderSomeSplit(ix, dim, values, id);
      }
    }
  }

  /** Every listed value of every entry has a bitmap. */
  predicate AllHaveBitmaps(ix: map<string, set<int>>, entries: seq<FilterEntry>) {
    forall i, v :: 0 <= i < |entries| && v in entries[i].values ==> HasBitmap(ix, entries[i].dim, v)
  }

  /** `id` is, for every entry, under one of the entry's values. */
  predicate UnderAll(ix: map<string, set<int>>, entries: seq<FilterEntry>, id: int) {
    forall i :: 0 <= i < |entries| ==> UnderSome(ix, entries[i].dim, entries[i].values, id)
  }

  lemma {:induction false} AndsOk(ix: map<string, set<int>>, entries: seq<FilterEntry>)
    ensures Ands(ix, entries).Ok? <==> AllHaveBitmaps(ix, entries)
    ensures Ands(ix, entries).Err? ==> Ands(ix, entries).error == IllegalArgument
    ensures Ands(ix, entries).Ok? ==> (Ands(ix, entries).value.None? <==> entries == [])
    decreases |entries|
  {
    if entries != [] {
      var init := entries[..|entries| - 1];
      var e := entries[|entries| - 1];
      AndsOk(ix, init);
      OrsOk(ix, e.dim, e.values);
      AllHaveBitmapsSplit(ix, entries);
    }
  }

  lemma AllHaveBitmapsSplit(ix: map<string, set<int>>, entries: seq<FilterEntry>)
    requires entries != []
    ensures var e := entries[|entries| - 1];
      AllHaveBitmaps(ix, entries) <==>
        AllHaveBitmaps(ix, entries[..|entries| - 1]) && forall v :: v in e.values ==> HasBitmap(ix, e.dim, v)
  {
    var init := entries[..|entries| - 1];
    assert forall i :: 0 <= i < |init| ==> entries[i] == init[i];
  }

  lemma UnderAllSplit(ix: map<string, set<int>>, entries: seq<FilterEntry>, id: int)
    requires entries != []
    ensures var e := entries[|entries| - 1];
      UnderAll(ix, entries, id) <==> UnderAll(ix, entries[..|entries| - 1], id) && UnderSome(ix, e.dim, e.values, id)
  {
    var init := entries[..|entries| - 1];
    assert forall i :: 0 <= i < |init| ==> entries[i] == init[i];
  }

  lemma {:induction false} AndsValue(ix: map<string, set<int>>, entries: seq<FilterEntry>)
    requires entries != [] && Ands(ix, entries).Ok?
    ensures Ands(ix, entries).value.Some?
    ensures forall id :: id in Ands(ix, entries).value.value <==> UnderAll(ix, entries, id)
  {
    var init := entries[..|entries| - 1];
    var e := entries[|entries| - 1];
    OrsSpec(ix, e.dim, e.values);
    AndsOk(ix, init);
    if init != [] {
      AndsValue(ix, init);
    }
    forall id ensures UnderAll(ix, entries, id) <==> UnderAll(ix, init, id) && UnderSome(ix, e.dim, e.values, id) {
      UnderAllSplit(ix, entries, id);
    }
  }

  /** `ands` succeeds exactly when every listed value has a bitmap; then it
      is `None` for an empty filter and otherwise holds the ids that, for
      every entry, are under one of the entry's values. */
  lemma AndsSpec(ix: map<string, set<int>>, entries: seq<FilterEntry>)
    ensures Ands(ix, entries).Ok? <==> AllHaveBitmaps(ix, entries)
    ensures Ands(ix, entries).Err? ==> Ands(ix, entries).error == IllegalArgument
    ensures Ands(ix, entries).Ok? ==> (Ands(ix, entries).value.None? <==> entries == [])
    ensures Ands(ix, entries).Ok? && entries != [] ==>
      forall id :: id in Ands(ix, entries).value.value <==> UnderAll(ix, entries, id)
  {
    AndsOk(ix, entries);
    if entries != [] && Ands(ix, entries).Ok? {
      AndsValue(ix, entries);
    }
  }

  // --------------------------------------------------------- filter: scan

  /** The scan-path predicates of the entries, joined by a short-circuit
      `and`: an entry passes when the record's value is the sentinel or one
      of the listed values; reading the value may fail. */
  function ScanAll(meta: Meta, entries: seq<FilterEntry>, r: Record): Result<bool>
  {
    if entries == [] then Ok(true)
    else
      var v :- GetDim(meta, r, entries[0].dim);
      if v == DUMMY_FILTER_DIM || v in entries[0].values then ScanAll(meta, entries[1..], r) else Ok(false)
  }

  /** Every filter dimension of `r` can be read. */
  predicate ScanReadable(meta: Meta, entries: seq<FilterEntry>, r: Record) {
    forall i :: 0 <= i < |entries| ==> GetDim(meta, r, entries[i].dim).Ok?
  }

  predicate EntryHolds(meta: Meta, e: FilterEntry, r: Record)
    requires GetDim(meta, r, e.dim).Ok?
  {
    var v := GetDim(meta, r, e.dim).value;
    v == DUMMY_FILTER_DIM || v in e.values
  }

  /** On the scan path a record whose filter dimensions can be read passes
      exactly when each of its filter values is listed or is the sentinel. */
  lemma {:induction false} ScanAllSpec(meta: Meta, entries: seq<FilterEntry>, r: Record)
    requires ScanReadable(meta, entries, r)
    ensures ScanAll(meta, entries, r) == Ok(forall i :: 0 <= i < |entries| ==> EntryHolds(meta, entries[i], r))
  {
    if entries != [] {
      assert ScanReadable(meta, entries[1..], r) by {
        forall i | 0 <= i < |entries| - 1 ensures GetDim(meta, r, entries[1..][i].dim).Ok? {
          assert entries[1..][i] == entries[i + 1];
        }
      }
      ScanAllSpec(meta, entries[1..], r);
      assert forall i :: 0 <= i < |entries| - 1 ==> entries[1..][i] == entries[i + 1];
      if EntryHolds(meta, entries[0], r) {
        forall i | 0 <= i < |entries| && (forall i' :: 0 <= i' < |entries| - 1 ==> EntryHolds(meta, entries[1..][i'], r))
          ensures EntryHolds(meta, entries[i], r)
        {
          if i > 0 {
            assert EntryHolds(meta, entries[1..][i - 1], r);
          }
        }
      }
    }
  }

  // ----------------------------------------------------------- selection

  /** The final `andFilter`: a record whose id is the sentinel never passes;
      otherwise the filter decides. */
  function Passes(meta: Meta, f: RecordFilter, r: Record): Result<bool> {
    if r.id == DUMMY_FILTER_DIM then Ok(false)
    else match f
      case ByIds(None) => Ok(true)
      case ByIds(Some(ids)) => Ok(r.id == DUMMY_FILTER_DIM || r.id in ids)
      case ByScan(entries) => ScanAll(meta, entries, r)
  }

  /** The records that pass, in collection order; the first failing test
      aborts the aggregation. */
  function Select(meta: Meta, f: RecordFilter, records: seq<Record>): Result<seq<Record>>
  {
    if records == [] then Ok([])
    else
      var init :- Select(meta, f, records[..|records| - 1]);
      var last := records[|records| - 1];
      var p :- Passes(meta, f, last);
      Ok(if p then init + [last] else init)
  }

  function NonSentinel(records: seq<Record>): seq<Record> {
    if records == [] then []
    else
      var init := NonSentinel(records[..|records| - 1]);
      var last := records[|records| - 1];
      if last.id != DUMMY_FILTER_DIM then init + [last] else init
  }

  /** A filter without entries selects every record whose id is not the
      sentinel, on either path. */
  lemma {:induction false} EmptyFilterSelectsAll(meta: Meta, records: seq<Record>)
    ensures Select(meta, ByIds(None), records) == Ok(NonSentinel(records))
    ensures Select(meta, ByScan([]), records) == Ok(NonSentinel(records))
  {
    if records != [] {
      EmptyFilterSelectsAll(meta, records[..|records| - 1]);
    }
  }

  /** Two filters that agree on every record select the same records. */
  lemma {:induction false} SelectAgrees(meta: Meta, f: RecordFilter, g: RecordFilter, records: seq<Record>)
    requires forall j :: 0 <= j < |records| ==> Passes(meta, f, records[j]) == Passes(meta, g, records[j])
    ensures Select(meta, f, records) == Select(meta, g, records)
  {
    if records != [] {
      SelectAgrees(meta, f, g, records[..|records| - 1]);
    }
  }

  /** The selected records are records of the collection, taken in order. */
  lemma {:induction false} SelectSubsequence(meta: Meta, f: RecordFilter, records: seq<Record>)
    requires Select(meta, f, records).Ok?
    ensures |Select(meta, f, records).value| <= |records|
    ensures forall r :: r in Select(meta, f, records).value ==> r in records && r.id != DUMMY_FILTER_DIM
  {
    if records != [] {
      SelectSubsequence(meta, f, records[..|records| - 1]);
    }
  }

  // ----------------------------------------------------------- agreement

  /** No record holds the sentinel in any dimension. */
  predicate SentinelFree(t: FactTable) {
    forall j, d :: 0 <= j < |t.records| && d in t.meta.dimNames && GetDim(t.meta, t.records[j], d).Ok?
      ==> GetDim(t.meta, t.records[j], d).value != DUMMY_FILTER_DIM
  }

  /** Every filter dimension is a dimension of the table and every listed
      value has a bitmap. */
  predicate FilterIndexed(ix: map<string, set<int>>, t: FactTable, entries: seq<FilterEntry>) {
    forall i :: 0 <= i < |entries| ==>
      entries[i].dim in t.meta.dimNames && forall v :: v in entries[i].values ==> HasBitmap(ix, entries[i].dim, v)
  }

  /** The bitmap of `d:v` holds the id of record `j` exactly when the
      record's `d` value is `v`. */
  lemma UnderKey(ix: map<string, set<int>>, t: FactTable, j: int, d: string, v: int)
    requires Indexes(ix, t) && UniqueIds(t.records)
    requires 0 <= j < |t.records| && d in t.meta.dimNames
    ensures HasBitmap(ix, d, v) && t.records[j].id in ix[BitmapKey(d, v)] <==> GetDim(t.meta, t.records[j], d).value == v
  {
    var r := t.records[j];
    assert Entered(ix, t, j, d);
    if HasBitmap(ix, d, v) && r.id in ix[BitmapKey(d, v)] {
      assert IndexedBy(t, BitmapKey(d, v), r.id);
      var j', d' :| 0 <= j' < |t.records| && d' in t.meta.dimNames && t.records[j'].id == r.id
        && DimKey(t.meta, t.records[j'], d') == Ok(BitmapKey(d, v));
      assert j' == j;
      BitmapKeyInjective(d', GetDim(t.meta, r, d').value, d, v);
    }
  }

  lemma EntryAgrees(ix: map<string, set<int>>, t: FactTable, e: FilterEntry, j: int)
    requires Indexes(ix, t) && UniqueIds(t.records) && SentinelFree(t)
    requires 0 <= j < |t.records| && e.dim in t.meta.dimNames
    ensures (exists v :: v in e.values && HasBitmap(ix, e.dim, v) && t.records[j].id in ix[BitmapKey(e.dim, v)])
      <==> EntryHolds(t.meta, e, t.records[j])
  {
    var r := t.records[j];
    var w := GetDim(t.meta, r, e.dim).value;
    UnderKey(ix, t, j, e.dim, w);
    forall v | v in e.values && HasBitmap(ix, e.dim, v) && r.id in ix[BitmapKey(e.dim, v)]
      ensures v == w
    {
      UnderKey(ix, t, j, e.dim, v);
    }
  }

  /** The two filter paths accept the same records when the index is the
      finished index of the table, record ids are distinct, no record holds
      the sentinel, and every filter dimension is known and every listed
      value has a bitmap. */
  lemma PathsAgreeOnRecord(ix: map<string, set<int>>, t: FactTable, entries: seq<FilterEntry>, j: int)
    requires Indexes(ix, t) && UniqueIds(t.records) && SentinelFree(t) && FilterIndexed(ix, t, entries)
    requires 0 <= j < |t.records|
    ensures Ands(ix, entries).Ok?
    ensures Passes(t.meta, ByIds(Ands(ix, entries).value), t.records[j]) == Passes(t.meta, ByScan(entries), t.records[j])
  {
    var r := t.records[j];
    AndsSpec(ix, entries);
    assert ScanReadable(t.meta, entries, r);
    ScanAllSpec(t.meta, entries, r);
    forall i | 0 <= i < |entries|
      ensures (exists v :: v in entries[i].values && HasBitmap(ix, entries[i].dim, v) && r.id in ix[BitmapKey(entries[i].dim, v)])
        <==> EntryHolds(t.meta, entries[i], r)
    {
      EntryAgrees(ix, t, entries[i], j);
    }
  }

  /** The central property: both filter paths select the same records. */
  lemma PathsAgree(ix: map<string, set<int>>, t: FactTable, entries: seq<FilterEntry>)
    requires Indexes(ix, t) && UniqueIds(t.records) && SentinelFree(t) && FilterIndexed(ix, t, entries)
    ensures Ands(ix, entries).Ok?
    ensures Select(t.meta, ByIds(Ands(ix, entries).value), t.records) == Select(t.meta, ByScan(entries), t.records)
  {
    AndsSpec(ix, entries);
    forall j | 0 <= j < |t.records|
      ensures Passes(t.meta, ByIds(Ands(ix, entries).value), t.records[j]) == Passes(t.meta, ByScan(entries), t.records[j])
    {
      PathsAgreeOnRecord(ix, t, entries, j);
    }
    SelectAgrees(t.meta, ByIds(Ands(ix, entries).value), ByScan(entries), t.records);
  }

  // ---------------------------------------------------------------- sums

  /** `t.getInd(ind)` of every selected record, in order. */
  function IndValues(meta: Meta, sel: seq<Record>, ind: string): (r: Result<seq<real>>)
    ensures r.Ok? ==> |r.value| == |sel|
  {
    if sel == [] then Ok([])
    else
      var init :- IndValues(meta, sel[..|sel| - 1], ind);
      var v :- GetInd(meta, sel[|sel| - 1], ind);
      Ok(init + [v])
  }

  /** `map(getInd).reduce(0, add).setScale(IND_SCALE, ROUND_HALF_UP)`. */
  function SumOf(meta: Meta, sel: seq<Record>, ind: string): Result<real> {
    var vs :- IndValues(meta, sel, ind);
    Ok(Round(Total(vs)))
  }

  lemma {:induction false} IndValuesSpec(meta: Meta, sel: seq<Record>, ind: string)
    ensures IndValues(meta, sel, ind).Ok? <==> forall j :: 0 <= j < |sel| ==> GetInd(meta, sel[j], ind).Ok?
    ensures IndValues(meta, sel, ind).Ok? ==>
      forall j :: 0 <= j < |sel| ==> IndValues(meta, sel, ind).value[j] == GetInd(meta, sel[j], ind).value
  {
    if sel != [] {
      IndValuesSpec(meta, sel[..|sel| - 1], ind);
      assert forall j :: 0 <= j < |sel| - 1 ==> sel[..|sel| - 1][j] == sel[j];
    }
  }

  /** The sum is the exact total of the selected records' indicator,
      rounded half-up to `IND_SCALE` digits: it has that scale and lies
      within half a unit of the last place from the exact total. It fails
      exactly when some selected record's indicator cannot be read. */
  lemma SumSpec(meta: Meta, sel: seq<Record>, ind: string)
    ensures SumOf(meta, sel, ind).Ok? <==> forall j :: 0 <= j < |sel| ==> GetInd(meta, sel[j], ind).Ok?
    ensures SumOf(meta, sel, ind).Ok? ==> var s := SumOf(meta, sel, ind).value;
      var exact := Total(IndValues(meta, sel, ind).value);
      AtScale(s, IND_SCALE) && -0.5 <= Shift(s, IND_SCALE) - Shift(exact, IND_SCALE) <= 0.5
  {
    IndValuesSpec(meta, sel, ind);
    if IndValues(meta, sel, ind).Ok? {
      RoundHalfUpSpec(Total(IndValues(meta, sel, ind).value), IND_SCALE);
    }
  }

  /** An empty selection sums to zero. */
  lemma SumOfNothing(meta: Meta, ind: string)
    ensures SumOf(meta, [], ind) == Ok(0.0)
  {
    ShiftSign(0.0, IND_SCALE);
    RoundHalfUpExact(0.0, IND_SCALE);
  }

  /** Indicators already at scale 8 sum exactly: the rounding changes nothing. */
  lemma SumAtScaleIsExact(meta: Meta, sel: seq<Record>, ind: string)
    requires IndValues(meta, sel, ind).Ok?
    requires forall j :: 0 <= j < |sel| ==> AtScale(IndValues(meta, sel, ind).value[j], IND_SCALE)
    ensures SumOf(meta, sel, ind) == Ok(Total(IndValues(meta, sel, ind).value))
  {
    TotalAtScale(IndValues(meta, sel, ind).value, IND_SCALE);
    RoundHalfUpExact(Total(IndValues(meta, sel, ind).value), IND_SCALE);
  }

  // ----------------------------------------------------------- group sums

  /** `groupingBy(getDim(group), reducing(0, getInd, add))`: the exact
      per-value totals; the classifier is read before the indicator. */
  function GroupTotals(meta: Meta, sel: seq<Record>, group: string, ind: string): Result<map<int, real>>
  {
    if sel == [] then Ok(map[])
    else
      var m :- GroupTotals(meta, sel[..|sel| - 1], group, ind);
      var last := sel[|sel| - 1];
      var k :- GetDim(meta, last, group);
      var v :- GetInd(meta, last, ind);
      Ok(m[k := (if k in m then m[k] else 0.0) + v])
  }

  /** `forEach((k, v) -> group.put(k, v.setScale(IND_SCALE, ROUND_HALF_UP)))`. */
  function GroupSumOf(meta: Meta, sel: seq<Record>, group: string, ind: string): Result<map<int, real>> {
    var m :- GroupTotals(meta, sel, group, ind);
    Ok(map k | k in m :: Round(m[k]))
  }

  /** The selected records whose group dimension has value `k`. */
  function WithGroupValue(meta: Meta, sel: seq<Record>, group: string, k: int): seq<Record> {
    if sel == [] then []
    else
      var init := WithGroupValue(meta, sel[..|sel| - 1], group, k);
      var last := sel[|sel| - 1];
      if GetDim(meta, last, group) == Ok(k) then init + [last] else init
  }

  predicate Groupable(meta: Meta, sel: seq<Record>, group: string, ind: string) {
    forall j :: 0 <= j < |sel| ==> GetDim(meta, sel[j], group).Ok? && GetInd(meta, sel[j], ind).Ok?
  }

  predicate GroupValueOccurs(meta: Meta, sel: seq<Record>, group: string, k: int) {
    exists j :: 0 <= j < |sel| && GetDim(meta, sel[j], group) == Ok(k)
  }

  /** The group keys are exactly the group values occurring among the
      selected records, and the exact total of a key is the total of the
      indicator over the records with that value. */
  lemma {:induction false} GroupTotalsSpec(meta: Meta, sel: seq<Record>, group: string, ind: string)
    ensures GroupTotals(meta, sel, group, ind).Ok? <==> Groupable(meta, sel, group, ind)
    ensures GroupTotals(meta, sel, group, ind).Ok? ==> var m := GroupTotals(meta, sel, group, ind).value;
      && (forall k :: k in m <==> GroupValueOccurs(meta, sel, group, k))
      && (forall k :: k in m ==> IndValues(meta, WithGroupValue(meta, sel, group, k), ind).Ok?)
      && (forall k :: k in m ==> m[k] == Total(IndValues(meta, WithGroupValue(meta, sel, group, k), ind).value))
  {
    if sel != [] {
      var init := sel[..|sel| - 1];
      var last := sel[|sel| - 1];
      GroupTotalsSpec(meta, init, group, ind);
      assert forall j :: 0 <= j < |init| ==> init[j] == sel[j];
      if GroupTotals(meta, sel, group, ind).Ok? {
        var m0 := GroupTotals(meta, init, group, ind).value;
        var m := GroupTotals(meta, sel, group, ind).value;
        var kl := GetDim(meta, last, group).value;
        var vl := GetInd(meta, last, ind).value;
        forall k | true ensures k in m <==> GroupValueOccurs(meta, sel, group, k) {
          if GroupValueOccurs(meta, sel, group, k) {
            var j :| 0 <= j < |sel| && GetDim(meta, sel[j], group) == Ok(k);
            if j < |init| {
              assert GroupValueOccurs(meta, init, group, k);
            }
          }
          if k in m0 {
            var j :| 0 <= j < |init| && GetDim(meta, init[j], group) == Ok(k);
            assert GetDim(meta, sel[j], group) == Ok(k);
          }
          if k == kl {
            assert GetDim(meta, sel[|sel| - 1], group) == Ok(k);
          }
        }
        forall k | k in m
          ensures IndValues(meta, WithGroupValue(meta, sel, group, k), ind).Ok?
            && m[k] == Total(IndValues(meta, WithGroupValue(meta, sel, group, k), ind).value)
        {
          if k !in m0 {
            EmptyGroup(meta, init, group, ind, k);
          }
          assert sel == init + [last];
          GroupStep(meta, init, last, group, ind, k);
        }
      }
    }
  }

  /** A value that does not occur selects no record. */
  lemma {:induction false} EmptyGroup(meta: Meta, sel: seq<Record>, group: string, ind: string, k: int)
    requires !GroupValueOccurs(meta, sel, group, k)
    ensures WithGroupValue(meta, sel, group, k) == []
  {
    if sel != [] {
      var init := sel[..|sel| - 1];
      assert !GroupValueOccurs(meta, init, group, k) by {
        assert forall j :: 0 <= j < |init| ==> init[j] == sel[j];
      }
      EmptyGroup(meta, init, group, ind, k);
      assert GetDim(meta, sel[|sel| - 1], group) != Ok(k);
    }
  }

  /** One more record adds its indicator to its own group only. */
  lemma GroupStep(meta: Meta, init: seq<Record>, last: Record, group: string, ind: string, k: int)
    requires Groupable(meta, init + [last], group, ind)
    requires IndValues(meta, WithGroupValue(meta, init, group, k), ind).Ok?
    ensures var w := WithGroupValue(meta, init + [last], group, k);
      && IndValues(meta, w, ind).Ok?
      && Total(IndValues(meta, w, ind).value)
         == Total(IndValues(meta, WithGroupValue(meta, init, group, k), ind).value)
            + (if GetDim(meta, last, group) == Ok(k) then GetInd(meta, last, ind).value else 0.0)
  {
    var sel := init + [last];
    assert sel[..|sel| - 1] == init;
    assert sel[|sel| - 1] == last;
    assert GetInd(meta, sel[|sel| - 1], ind).Ok?;
    var w0 := WithGroupValue(meta, init, group, k);
    if GetDim(meta, last, group) == Ok(k) {
      var w := w0 + [last];
      assert w[..|w| - 1] == w0;
      var vs := IndValues(meta, w0, ind).value;
      assert IndValues(meta, w, ind).value == vs + [GetInd(meta, last, ind).value];
      TotalAppend(vs, [GetInd(meta, last, ind).value]);
      assert Total([GetInd(meta, last, ind).value]) == GetInd(meta, last, ind).value by {
        assert [GetInd(meta, last, ind).value][..0] == [];
      }
    }
  }

  /** Group sums: one entry per occurring group value, each that group's
      exact total rounded half-up to `IND_SCALE` digits. */
  lemma GroupSumSpec(meta: Meta, sel: seq<Record>, group: string, ind: string)
    ensures GroupSumOf(meta, sel, group, ind).Ok? <==> Groupable(meta, sel, group, ind)
    ensures GroupSumOf(meta, sel, group, ind).Ok? ==> var g := GroupSumOf(meta, sel, group, ind).value;
      && (forall k :: k in g <==> GroupValueOccurs(meta, sel, group, k))
      && (forall k :: k in g ==> Ok(g[k]) == SumOf(meta, WithGroupValue(meta, sel, group, k), ind))
  {
    GroupTotalsSpec(meta, sel, group, ind);
  }

  // ------------------------------------------------------------ the cube

  /** `MiniCube`: a fact table, its bitmap index and the index's status
      (0 not built, 1 building or failed part-way, 2 built). */
  class MiniCube {
    const factTable: FactTable
    var bitmapIndex: map<string, set<int>>
    var status: int

    ghost predicate Valid()
      reads this
    {
      && (status == 0 || status == 1 || status == 2)
      && (status == 0 ==> bitmapIndex == map[])
      && Sound(bitmapIndex, factTable) && NoEmptyBitmap(bitmapIndex)
      && (status == 2 ==> Indexes(bitmapIndex, factTable))
    }

    constructor (t: FactTable)
      ensures Valid() && factTable == t && status == 0 && bitmapIndex == map[]
    {
      factTable := t;
      bitmapIndex := map[];
      status := 0;
    }

    /** `buildBitmapIndex()`: only a cube at status 0 builds; it ends at
        status 2 with the finished index, or stays at 1 when a record's
        dimension cannot be read. Any other status is returned unchanged. */
    method BuildBitmapIndex() returns (r: Result<int>)
      requires Valid()
      modifies this
      ensures Valid()
      ensures old(status) != 0 ==> r == Ok(old(status)) && unchanged(this)
      ensures old(status) == 0 ==> (r.Ok? <==> AllReadable(factTable))
      ensures old(status) == 0 && r.Ok? ==> r == Ok(2) && status == 2 && Indexes(bitmapIndex, factTable)
      ensures old(status) == 0 && r.Err? ==> status == 1
    {
      if status != 0 {
        return Ok(status);
      }
      status := 1;
      var i := 0;
      while i < |factTable.records|
        invariant 0 <= i <= |factTable.records|
        invariant status == 1
        invariant Sound(bitmapIndex, factTable) && NoEmptyBitmap(bitmapIndex)
        invariant EnteredBelow(bitmapIndex, factTable, i)
      {
        ghost var before := bitmapIndex;
        var o := IndexRecord(i);
        if o.Fail? {
          UnreadableRecord(factTable, i);
          return Err(o.error);
        }
        EnteredExtends(before, bitmapIndex, factTable, i);
        i := i + 1;
      }
      CompleteIsReadable(bitmapIndex, factTable);
      status := 2;
      return Ok(2);
    }

    /** The body of the per-record consumer of `buildBitmapIndex`: adds the
        record's id to the bitmap of each of its `dim:value` keys, stopping
        at the first dimension that cannot be read. */
    method IndexRecord(i: int) returns (o: Outcome)
      requires 0 <= i < |factTable.records|
      requires Sound(bitmapIndex, factTable) && NoEmptyBitmap(bitmapIndex)
      modifies this`bitmapIndex
      ensures Sound(bitmapIndex, factTable) && NoEmptyBitmap(bitmapIndex)
      ensures forall j, d ::
        0 <= j < |factTable.records| && Entered(old(bitmapIndex), factTable, j, d) ==> Entered(bitmapIndex, factTable, j, d)
      ensures o.Pass? <==> forall d :: d in factTable.meta.dimNames ==> GetDim(factTable.meta, factTable.records[i], d).Ok?
      ensures o.Pass? ==> forall d :: d in factTable.meta.dimNames ==> Entered(bitmapIndex, factTable, i, d)
    {
      var t := factTable;
      var rec := t.records[i];
      var rest := t.meta.dimNames.Keys;
      while rest != {}
        invariant rest <= t.meta.dimNames.Keys
        invariant Sound(bitmapIndex, t) && NoEmptyBitmap(bitmapIndex)
        invariant forall j, d :: 0 <= j < |t.records| && Entered(old(bitmapIndex), t, j, d) ==> Entered(bitmapIndex, t, j, d)
        invariant forall d :: d in t.meta.dimNames && d !in rest ==> Entered(bitmapIndex, t, i, d)
        decreases |rest|
      {
        var d := Choose(rest);
        var key := DimKey(t.meta, rec, d);
        if key.Err? {
          return Fail(key.error);
        }
        InsertSound(bitmapIndex, t, i, d);
        InsertKeepsAll(old(bitmapIndex), bitmapIndex, t, key.value, rec.id, i, rest);
        bitmapIndex := Insert(bitmapIndex, key.value, rec.id);
        rest := rest - {d};
      }
      return Pass;
    }

    /** The filter `filter(indName, filterDims)` applies; a null filter is
        an empty one. On a built index a listed value without a bitmap is an
        IllegalArgumentException. */
    function FilterSpec(filterDims: Option<seq<FilterEntry>>): Result<RecordFilter>
      reads this
    {
      var entries := if filterDims.None? then [] else filterDims.value;
      if status == 2 then
        var ids :- Ands(bitmapIndex, entries);
        Ok(ByIds(ids))
      else Ok(ByScan(entries))
    }

    /** The records `filter` streams. */
    function Selection(filterDims: Option<seq<FilterEntry>>): Result<seq<Record>>
      reads this
    {
      var f :- FilterSpec(filterDims);
      Select(factTable.meta, f, factTable.records)
    }

    /** `filter(indName, filterDims)`: on a built index, the union of the
        value bitmaps of each entry intersected across entries; otherwise
        the scan predicates. */
    method Filter(filterDims: Option<seq<FilterEntry>>) returns (r: Result<RecordFilter>)
      ensures r == FilterSpec(filterDims)
    {
      var entries := if filterDims.None? then [] else filterDims.value;
      if status != 2 {
        return Ok(ByScan(entries));
      }
      var ands: Option<set<int>> := None;
      var i := 0;
      while i < |entries|
        invariant 0 <= i <= |entries|
        invariant Ands(bitmapIndex, entries[..i]) == Ok(ands)
      {
        var ors := EntryOrs(entries[i]);
        if ors.Err? {
          OrsFailure(bitmapIndex, entries, i);
          return Err(IllegalArgument);
        }
        assert entries[..i + 1][..i] == entries[..i];
        ands := if ands.None? then Some(ors.value) else Some(ands.value * ors.value);
        i := i + 1;
      }
      assert entries[..i] == entries;
      return Ok(ByIds(ands));
    }

    /** The `ors` loop of one filter entry. */
    method EntryOrs(e: FilterEntry) returns (r: Result<set<int>>)
      ensures r == Ors(bitmapIndex, e.dim, e.values)
    {
      var ors: set<int> := {};
      var j := 0;
      while j < |e.values|
        invariant 0 <= j <= |e.values|
        invariant Ors(bitmapIndex, e.dim, e.values[..j]) == Ok(ors)
      {
        var key := BitmapKey(e.dim, e.values[j]);
        assert e.values[..j + 1][..j] == e.values[..j];
        if key !in bitmapIndex {
          assert e.values[j] in e.values && !HasBitmap(bitmapIndex, e.dim, e.values[j]);
          OrsOk(bitmapIndex, e.dim, e.values);
          return Err(IllegalArgument);
        }
        ors := ors + bitmapIndex[key];
        j := j + 1;
      }
      assert e.values[..j] == e.values;
      return Ok(ors);
    }

    /** `sum(indName, filterDims)` as it is specified. */
    function SumResult(ind: string, filterDims: Option<seq<FilterEntry>>): Result<real>
      reads this
    {
      var sel :- Selection(filterDims);
      SumOf(factTable.meta, sel, ind)
    }

    /** `sum(indName, groupByDimName, filterDims)` as it is specified. */
    function GroupSumResult(ind: string, group: string, filterDims: Option<seq<FilterEntry>>): Result<map<int, real>>
      reads this
    {
      var sel :- Selection(filterDims);
      GroupSumOf(factTable.meta, sel, group, ind)
    }

    /** `sum(indName, filterDims)`. */
    method SumFiltered(ind: string, filterDims: Option<seq<FilterEntry>>) returns (r: Result<real>)
      ensures r == SumResult(ind, filterDims)
    {
      var f := Filter(filterDims);
      if f.Err? {
        return Err(f.error);
      }
      var sel := Select(factTable.meta, f.value, factTable.records);
      if sel.Err? {
        return Err(sel.error);
      }
      r := SumOf(factTable.meta, sel.value, ind);
    }

    /** `sum(indName)` delegates with a null filter. */
    method Sum(ind: string) returns (r: Result<real>)
      ensures r == SumResult(ind, None)
    {
      r := SumFiltered(ind, None);
    }

    /** `sum(indName, groupByDimName, filterDims)`. */
    method GroupSum(ind: string, group: string, filterDims: Option<seq<FilterEntry>>) returns (r: Result<map<int, real>>)
      ensures r == GroupSumResult(ind, group, filterDims)
    {
      var f := Filter(filterDims);
      if f.Err? {
        return Err(f.error);
      }
      var sel := Select(factTable.meta, f.value, factTable.records);
      if sel.Err? {
        return Err(sel.error);
      }
      r := GroupSumOf(factTable.meta, sel.value, group, ind);
    }
  }

  lemma InsertKeepsAll(ix0: map<string, set<int>>, ix: map<string, set<int>>, t: FactTable, key: string, id: int,
                       i: int, rest: set<string>)
    requires 0 <= i < |t.records|
    requires forall j, d :: 0 <= j < |t.records| && Entered(ix0, t, j, d) ==> Entered(ix, t, j, d)
    requires forall d :: d in t.meta.dimNames && d !in rest ==> Entered(ix, t, i, d)
    ensures forall j, d :: 0 <= j < |t.records| && Entered(ix0, t, j, d) ==> Entered(Insert(ix, key, id), t, j, d)
    ensures forall d :: d in t.meta.dimNames && d !in rest ==> Entered(Insert(ix, key, id), t, i, d)
  {
    forall j, d | 0 <= j < |t.records| && Entered(ix, t, j, d) ensures Entered(Insert(ix, key, id), t, j, d) {
      InsertKeepsEntered(ix, t, key, id, j, d);
    }
  }

  lemma UnreadableRecord(t: FactTable, i: int)
    requires 0 <= i < |t.records|
    requires !forall d :: d in t.meta.dimNames ==> GetDim(t.meta, t.records[i], d).Ok?
    ensures !AllReadable(t)
  {
  }

  lemma EnteredExtends(ix0: map<string, set<int>>, ix: map<string, set<int>>, t: FactTable, i: int)
    requires 0 <= i < |t.records|
    requires EnteredBelow(ix0, t, i)
    requires forall j, d :: 0 <= j < |t.records| && Entered(ix0, t, j, d) ==> Entered(ix, t, j, d)
    requires forall d :: d in t.meta.dimNames ==> Entered(ix, t, i, d)
    ensures EnteredBelow(ix, t, i + 1)
  {
    forall j, d | 0 <= j < i + 1 && j < |t.records| && d in t.meta.dimNames
      ensures Entered(ix, t, j, d)
    {
      if j < i {
        assert Entered(ix0, t, j, d);
      }
    }
  }

  lemma CompleteIsReadable(ix: map<string, set<int>>, t: FactTable)
    requires Complete(ix, t)
    ensures AllReadable(t)
  {
    forall j, d | 0 <= j < |t.records| && d in t.meta.dimNames ensures GetDim(t.meta, t.records[j], d).Ok? {
      assert Entered(ix, t, j, d);
    }
  }

  /** A listed value without a bitmap makes the whole `ands` fail. */
  lemma MissingBitmap(ix: map<string, set<int>>, entries: seq<FilterEntry>, i: int, v: int)
    requires 0 <= i < |entries| && v in entries[i].values && !HasBitmap(ix, entries[i].dim, v)
    ensures Ands(ix, entries) == Err(IllegalArgument)
  {
    AndsOk(ix, entries);
  }

  /** An entry whose `ors` fails makes the whole bitmap path fail. */
  lemma OrsFailure(ix: map<string, set<int>>, entries: seq<FilterEntry>, i: int)
    requires 0 <= i < |entries| && Ors(ix, entries[i].dim, entries[i].values).Err?
    ensures Ands(ix, entries) == Err(IllegalArgument)
  {
    OrsOk(ix, entries[i].dim, entries[i].values);
    var v :| v in entries[i].values && !HasBitmap(ix, entries[i].dim, v);
    MissingBitmap(ix, entries, i, v);
  }

  /** Without a filter (null or empty) a cube selects every record whose id
      is not the sentinel, whether or not its index is built; so `sum(ind)`
      is the sum over all those records. */
  lemma NoFilterSelectsAll(c: MiniCube)
    ensures c.Selection(None) == Ok(NonSentinel(c.factTable.records))
    ensures c.Selection(Some([])) == Ok(NonSentinel(c.factTable.records))
  {
    EmptyFilterSelectsAll(c.factTable.meta, c.factTable.records);
  }

  /** A cube with a built index selects what the same cube without an index
      would select, when ids are distinct, no record holds the sentinel,
      and every filter dimension and listed value is in the index. */
  lemma BuiltIndexSelectsAsScan(c: MiniCube, entries: seq<FilterEntry>)
    requires c.Valid() && c.status == 2
    requires UniqueIds(c.factTable.records) && SentinelFree(c.factTable)
    requires FilterIndexed(c.bitmapIndex, c.factTable, entries)
    ensures c.Selection(Some(entries)) == Select(c.factTable.meta, ByScan(entries), c.factTable.records)
  {
    PathsAgree(c.bitmapIndex, c.factTable, entries);
  }
}
