/** The fact table of a cube and the builder that fills it.

    A table has a name, two column catalogues (dimension names and
    indicator names, each mapped to a position in the records' value
    vectors) and a collection of records. A record is identified by its
    primary key and holds one vector of dimension values (`Long`) and one
    vector of indicator values (`BigDecimal`, here an exact `real`).

    The builder runs one session at a time: `Build` opens it, the `Add…`
    operations fill it, `Done` closes it and hands out the table. */
module FactTables {
  import opened Wrappers

  datatype Record = Record(id: int, dimOfFact: seq<int>, indOfFact: seq<real>)

  datatype Meta = Meta(name: string, dimNames: map<string, nat>, indNames: map<string, nat>)

  datatype FactTable = FactTable(meta: Meta, records: seq<Record>)

  // ------------------------------------------------------------ lookups

  /** `getDimIndex` / `getIndIndex` over one catalogue: an empty name is
      rejected, an unregistered name fails when the missing map entry is
      unboxed, a registered one gives its position. */
  function ColumnIndex(names: map<string, nat>, name: string): (r: Result<nat>)
    ensures name == "" ==> r == Err(IllegalArgument)
    ensures name != "" && name !in names ==> r == Err(NullPointer)
    ensures r.Ok? <==> name != "" && name in names
    ensures r.Ok? ==> r.value == names[name]
  {
    if name == "" then Err(IllegalArgument)
    else if name !in names then Err(NullPointer)
    else Ok(names[name])
  }

  function GetDimIndex(meta: Meta, dimName: string): (r: Result<nat>)
    ensures r.Ok? <==> dimName != "" && dimName in meta.dimNames
    ensures r.Ok? ==> r.value == meta.dimNames[dimName]
    ensures dimName == "" ==> r == Err(IllegalArgument)
  {
    ColumnIndex(meta.dimNames, dimName)
  }

  function GetIndIndex(meta: Meta, indName: string): (r: Result<nat>)
    ensures r.Ok? <==> indName != "" && indName in meta.indNames
    ensures r.Ok? ==> r.value == meta.indNames[indName]
    ensures indName == "" ==> r == Err(IllegalArgument)
  {
    ColumnIndex(meta.indNames, indName)
  }

  /** `Record.getDim`: the dimension value at the name's position; the list
      access fails when the record's vector is shorter than that. */
  function GetDim(meta: Meta, r: Record, dimName: string): (v: Result<int>)
    ensures v.Ok? <==> GetDimIndex(meta, dimName).Ok? && GetDimIndex(meta, dimName).value < |r.dimOfFact|
    ensures v.Ok? ==> v.value == r.dimOfFact[meta.dimNames[dimName]]
    ensures GetDimIndex(meta, dimName).Err? ==> v.error == GetDimIndex(meta, dimName).error
  {
    var index :- GetDimIndex(meta, dimName);
    if index < |r.dimOfFact| then Ok(r.dimOfFact[index]) else Err(IndexOutOfBounds)
  }

  /** `Record.getInd`. */
  function GetInd(meta: Meta, r: Record, indName: string): (v: Result<real>)
    ensures v.Ok? <==> GetIndIndex(meta, indName).Ok? && GetIndIndex(meta, indName).value < |r.indOfFact|
    ensures v.Ok? ==> v.value == r.indOfFact[meta.indNames[indName]]
    ensures GetIndIndex(meta, indName).Err? ==> v.error == GetIndIndex(meta, indName).error
  {
    var index :- GetIndIndex(meta, indName);
    if index < |r.indOfFact| then Ok(r.indOfFact[index]) else Err(IndexOutOfBounds)
  }

  // ---------------------------------------------------- column catalogue

  /** The catalogue after `put(names[i], base + i)` for i = 0, 1, … in order. */
  function PutPositions(m: map<string, nat>, names: seq<string>, base: nat): map<string, nat>
  {
    if names == [] then m
    else PutPositions(m, names[..|names| - 1], base)[names[|names| - 1] := base + |names| - 1]
  }

  predicate Distinct(names: seq<string>) {
    forall i, j :: 0 <= i < j < |names| ==> names[i] != names[j]
  }

  predicate Fresh(m: map<string, nat>, names: seq<string>) {
    forall i :: 0 <= i < |names| ==> names[i] !in m
  }

  /** Positions of a catalogue are exactly 0 .. size-1, one per name. */
  predicate Dense(m: map<string, nat>) {
    && (forall k :: k in m ==> m[k] < |m|)
    && (forall k, l :: k in m && l in m && m[k] == m[l] ==> k == l)
  }

  /** Fresh distinct names get consecutive positions from `base` in list
      order, and the positions already given are unchanged. */
  lemma PutPositionsFresh(m: map<string, nat>, names: seq<string>, base: nat)
    requires Distinct(names) && Fresh(m, names)
    ensures var r := PutPositions(m, names, base);
      && (forall k :: k in r <==> k in m || k in names)
      && |r| == |m| + |names|
      && (forall i :: 0 <= i < |names| ==> r[names[i]] == base + i)
      && (forall k :: k in m ==> r[k] == m[k])
  {
    PutPositionsKeys(m, names, base);
    PutPositionsValues(m, names, base);
  }

  /** The catalogue gains exactly the fresh names. */
  lemma {:induction false} PutPositionsKeys(m: map<string, nat>, names: seq<string>, base: nat)
    requires Distinct(names) && Fresh(m, names)
    ensures var r := PutPositions(m, names, base);
      (forall k :: k in r <==> k in m || k in names) && |r| == |m| + |names|
  {
    if names != [] {
      var init := names[..|names| - 1];
      var last := names[|names| - 1];
      DistinctFreshInit(m, names);
      PutPositionsKeys(m, init, base);
      var r0 := PutPositions(m, init, base);
      assert last !in r0;
      assert forall k :: k in names <==> k in init || k == last by {
        assert names == init + [last];
      }
    }
  }

  /** Dropping the last name keeps the names distinct and fresh, and the
      last name is not among the others. */
  lemma DistinctFreshInit(m: map<string, nat>, names: seq<string>)
    requires names != [] && Distinct(names) && Fresh(m, names)
    ensures Distinct(names[..|names| - 1]) && Fresh(m, names[..|names| - 1])
    ensures names[|names| - 1] !in names[..|names| - 1] && names[|names| - 1] !in m
  {
    var init := names[..|names| - 1];
    assert forall i :: 0 <= i < |init| ==> init[i] == names[i];
  }

  /** Each fresh name gets its position in list order; old entries keep
      theirs. */
  lemma {:induction false} PutPositionsValues(m: map<string, nat>, names: seq<string>, base: nat)
    requires Distinct(names) && Fresh(m, names)
    ensures var r := PutPositions(m, names, base);
      && (forall i :: 0 <= i < |names| ==> names[i] in r && r[names[i]] == base + i)
      && (forall k :: k in m ==> k in r && r[k] == m[k])
  {
    if names != [] {
      var init := names[..|names| - 1];
      var last := names[|names| - 1];
      assert Distinct(init) && Fresh(m, init);
      PutPositionsValues(m, init, base);
      forall i | 0 <= i < |names| ensures PutPositions(m, names, base)[names[i]] == base + i {
        if i < |init| {
          assert names[i] == init[i];
        }
      }
    }
  }

  /** Adding fresh distinct names at the current size keeps the catalogue
      dense, so successive `addDimColumns` calls never share a position. */
  lemma AppendKeepsDense(m: map<string, nat>, names: seq<string>)
    requires Dense(m) && Distinct(names) && Fresh(m, names)
    ensures Dense(PutPositions(m, names, |m|))
  {
    var r := PutPositions(m, names, |m|);
    PutPositionsFresh(m, names, |m|);
    forall k | k in r ensures r[k] < |r| {
      if k !in m {
        var i :| 0 <= i < |names| && names[i] == k;
      }
    }
    forall k, l | k in r && l in r && r[k] == r[l] ensures k == l {
    }
  }

  /** Names are not checked for existence: registering a name again moves
      it to a new position without growing the catalogue, so the next name
      added collides with it. */
  lemma DuplicateColumnsCollide(a: string, b: string)
    requires a != b
    ensures var m1 := PutPositions(PutPositions(map[], [a], 0), [a], 1);
      var m2 := PutPositions(m1, [b], |m1|);
      |m1| == 1 && a in m2 && b in m2 && m2[a] == 1 && m2[b] == 1
  {
    var m1 := PutPositions(PutPositions(map[], [a], 0), [a], 1);
    assert [a][..0] == [] && [b][..0] == [];
    assert PutPositions(map[], [], 0) == map[];
    assert PutPositions(map[], [a], 0) == map[a := 0];
    assert PutPositions(map[a := 0], [], 1) == map[a := 0];
    assert m1 == map[a := 1];
    assert PutPositions(m1, [b], 1) == m1[b := 1];
  }

  // ----------------------------------------------------------- records

  function Blank(pk: int): Record {
    Record(pk, [], [])
  }

  /** The records after `addDimDatas(pk, dims)`. */
  function AttachDims(records: map<int, Record>, pk: int, dims: seq<int>): map<int, Record> {
    var r := if pk in records then records[pk] else Blank(pk);
    records[pk := r.(dimOfFact := r.dimOfFact + dims)]
  }

  /** The records after `addIndDatas(pk, inds)`. */
  function AttachInds(records: map<int, Record>, pk: int, inds: seq<real>): map<int, Record> {
    var r := if pk in records then records[pk] else Blank(pk);
    records[pk := r.(indOfFact := r.indOfFact + inds)]
  }

  /** Every record is stored under its own id. */
  predicate KeyedById(records: map<int, Record>) {
    forall k :: k in records ==> records[k].id == k
  }

  /** `addDimDatas` creates the record when absent, appends to its dimension
      vector, and changes neither its indicator vector nor any other record. */
  lemma AttachDimsEffect(records: map<int, Record>, pk: int, dims: seq<int>)
    requires KeyedById(records)
    ensures var r := AttachDims(records, pk, dims);
      && KeyedById(r)
      && r.Keys == records.Keys + {pk}
      && r[pk].dimOfFact == (if pk in records then records[pk].dimOfFact else []) + dims
      && r[pk].indOfFact == (if pk in records then records[pk].indOfFact else [])
      && (forall k :: k in records && k != pk ==> r[k] == records[k])
  {
  }

  /** `addIndDatas` likewise for the indicator vector. */
  lemma AttachIndsEffect(records: map<int, Record>, pk: int, inds: seq<real>)
    requires KeyedById(records)
    ensures var r := AttachInds(records, pk, inds);
      && KeyedById(r)
      && r.Keys == records.Keys + {pk}
      && r[pk].indOfFact == (if pk in records then records[pk].indOfFact else []) + inds
      && r[pk].dimOfFact == (if pk in records then records[pk].dimOfFact else [])
      && (forall k :: k in records && k != pk ==> r[k] == records[k])
  {
  }

  /** Dimension and indicator data may arrive in either order. */
  lemma AttachOrderIrrelevant(records: map<int, Record>, pk: int, dims: seq<int>, pk': int, inds: seq<real>)
    ensures AttachInds(AttachDims(records, pk, dims), pk', inds)
         == AttachDims(AttachInds(records, pk', inds), pk, dims)
  {
    var a := AttachInds(AttachDims(records, pk, dims), pk', inds);
    var b := AttachDims(AttachInds(records, pk', inds), pk, dims);
    assert a.Keys == b.Keys;
    forall k | k in a ensures a[k] == b[k] {
    }
  }

  /** The record collection `s` holds exactly the values of `m`, one per key. */
  predicate ValuesOf(s: seq<Record>, m: map<int, Record>) {
    && |s| == |m|
    && (forall i :: 0 <= i < |s| ==> s[i].id in m && m[s[i].id] == s[i])
    && (forall i, j :: 0 <= i < j < |s| ==> s[i].id != s[j].id)
    && Ids(s) == m.Keys
  }

  function Ids(s: seq<Record>): set<int> {
    set i | 0 <= i < |s| :: s[i].id
  }

  lemma IdsAppend(s: seq<Record>, r: Record)
    ensures Ids(s + [r]) == Ids(s) + {r.id}
  {
    var t := s + [r];
    assert forall i :: 0 <= i < |s| ==> t[i] == s[i];
    assert t[|s|] == r;
  }

  /** Record ids of a finished table are distinct. */
  predicate UniqueIds(records: seq<Record>) {
    forall i, j :: 0 <= i < j < |records| ==> records[i].id != records[j].id
  }

  /** `records.values()` as a collection: each record of the map exactly
      once, in an iteration order that is left open. */
  method RecordList(m: map<int, Record>) returns (list: seq<Record>)
    requires KeyedById(m)
    ensures ValuesOf(list, m) && UniqueIds(list)
  {
    var rest := m.Keys;
    list := [];
    while rest != {}
      invariant Listed(m, list, rest)
      decreases |rest|
    {
      var k := Choose(rest);
      ListOne(m, list, rest, k);
      list := list + [m[k]];
      rest := rest - {k};
    }
  }

  /** The loop state of `RecordList`: `list` holds, once each, the records
      of the keys outside `rest`. */
  predicate Listed(m: map<int, Record>, list: seq<Record>, rest: set<int>) {
    && rest <= m.Keys
    && |list| + |rest| == |m|
    && (forall i :: 0 <= i < |list| ==> list[i].id in m && list[i].id !in rest)
    && (forall i :: 0 <= i < |list| ==> m[list[i].id] == list[i])
    && (forall i, j :: 0 <= i < j < |list| ==> list[i].id != list[j].id)
    && Ids(list) == m.Keys - rest
  }

  /** Listing the record of one more key keeps the loop state. */
  lemma ListOne(m: map<int, Record>, list: seq<Record>, rest: set<int>, k: int)
    requires KeyedById(m) && Listed(m, list, rest) && k in rest
    ensures Listed(m, list + [m[k]], rest - {k})
  {
    var l := list + [m[k]];
    assert m[k].id == k;
    assert |rest - {k}| == |rest| - 1;
    forall i | 0 <= i < |l|
      ensures l[i].id in m && l[i].id !in rest - {k} && m[l[i].id] == l[i]
    {
      if i < |list| {
        assert l[i] == list[i];
      }
    }
    forall i, j | 0 <= i < j < |l|
      ensures l[i].id != l[j].id
    {
      assert l[i] == list[i];
      if j < |list| {
        assert l[j] == list[j];
      }
    }
    IdsAppend(list, m[k]);
  }

  // ----------------------------------------------------------- builder

  /** `FactTableBuilder`. The thread-local session `IN_BUILDING` is the
      builder's own state: `inBuilding` says whether a session is open, and
      the other fields are the table under construction. */
  class FactTableBuilder {
    var inBuilding: bool
    var name: string
    var dimNames: map<string, nat>
    var indNames: map<string, nat>
    var records: map<int, Record>

    predicate Valid()
      reads this
    {
      KeyedById(records)
    }

    constructor ()
      ensures Valid() && !inBuilding
    {
      inBuilding := false;
      name := "";
      dimNames := map[];
      indNames := map[];
      records := map[];
    }

    /** `build(name)`: refused while a session is open, which is then left
        as it was; otherwise opens an empty table. */
    method Build(tableName: string) returns (o: Outcome)
      requires Valid()
      modifies this
      ensures Valid()
      ensures old(inBuilding) ==> o == Fail(IllegalState) && unchanged(this)
      ensures !old(inBuilding) ==>
        o == Pass && inBuilding && name == tableName && dimNames == map[] && indNames == map[] && records == map[]
    {
      if inBuilding {
        return Fail(IllegalState);
      }
      inBuilding := true;
      name := tableName;
      dimNames := map[];
      indNames := map[];
      records := map[];
      return Pass;
    }

    /** `addDimColumns(names)`: the i-th name is put at the catalogue's size
        before the call plus i. */
    method AddDimColumns(names: seq<string>) returns (o: Outcome)
      requires Valid()
      modifies this`dimNames
      ensures Valid()
      ensures !inBuilding ==> o == Fail(IllegalState) && dimNames == old(dimNames)
      ensures inBuilding ==> o == Pass && dimNames == PutPositions(old(dimNames), names, |old(dimNames)|)
    {
      if !inBuilding {
        return Fail(IllegalState);
      }
      var index := |dimNames|;
      var i := 0;
      while i < |names|
        invariant 0 <= i <= |names|
        invariant dimNames == PutPositions(old(dimNames), names[..i], index)
      {
        assert names[..i + 1][..i] == names[..i];
        dimNames := dimNames[names[i] := index + i];
        i := i + 1;
      }
      assert names[..|names|] == names;
      return Pass;
    }

    /** `addIndColumns(names)`. */
    method AddIndColumns(names: seq<string>) returns (o: Outcome)
      requires Valid()
      modifies this`indNames
      ensures Valid()
      ensures !inBuilding ==> o == Fail(IllegalState) && indNames == old(indNames)
      ensures inBuilding ==> o == Pass && indNames == PutPositions(old(indNames), names, |old(indNames)|)
    {
      if !inBuilding {
        return Fail(IllegalState);
      }
      var index := |indNames|;
      var i := 0;
      while i < |names|
        invariant 0 <= i <= |names|
        invariant indNames == PutPositions(old(indNames), names[..i], index)
      {
        assert names[..i + 1][..i] == names[..i];
        indNames := indNames[names[i] := index + i];
        i := i + 1;
      }
      assert names[..|names|] == names;
      return Pass;
    }

    /** `addDimDatas(pk, dims)`. */
    method AddDimDatas(pk: int, dims: seq<int>) returns (o: Outcome)
      requires Valid()
      modifies this`records
      ensures Valid()
      ensures !inBuilding ==> o == Fail(IllegalState) && records == old(records)
      ensures inBuilding ==> o == Pass && records == AttachDims(old(records), pk, dims)
    {
      if !inBuilding {
        return Fail(IllegalState);
      }
      var record := if pk in records then records[pk] else Blank(pk);
      records := records[pk := record.(dimOfFact := record.dimOfFact + dims)];
      return Pass;
    }

    /** `addIndDatas(pk, inds)`. */
    method AddIndDatas(pk: int, inds: seq<real>) returns (o: Outcome)
      requires Valid()
      modifies this`records
      ensures Valid()
      ensures !inBuilding ==> o == Fail(IllegalState) && records == old(records)
      ensures inBuilding ==> o == Pass && records == AttachInds(old(records), pk, inds)
    {
      if !inBuilding {
        return Fail(IllegalState);
      }
      var record := if pk in records then records[pk] else Blank(pk);
      records := records[pk := record.(indOfFact := record.indOfFact + inds)];
      return Pass;
    }

    /** `done()`: closes the session and returns the table, whose record
        collection holds each record of the session exactly once (in the
        map's iteration order, which is left open). */
    method Done() returns (r: Result<FactTable>)
      requires Valid()
      modifies this
      ensures Valid()
      ensures !old(inBuilding) ==> r == Err(IllegalState) && unchanged(this)
      ensures old(inBuilding) ==> r.Ok? && !inBuilding && records == map[]
      ensures old(inBuilding) ==> r.Ok? && r.value.meta == Meta(old(name), old(dimNames), old(indNames))
      ensures old(inBuilding) ==> r.Ok? && ValuesOf(r.value.records, old(records))
      ensures old(inBuilding) ==> r.Ok? && UniqueIds(r.value.records)
    {
      if !inBuilding {
        return Err(IllegalState);
      }
      var list := RecordList(records);
      inBuilding := false;
      var table := FactTable(Meta(name, dimNames, indNames), list);
      records := map[];
      return Ok(table);
    }
  }
}
