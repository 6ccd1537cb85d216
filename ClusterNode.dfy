/** One node of the cluster manager: the role it claims when it joins
    (`handleNewMember`), the assignment of a time series to it
    (`Assign.call`, `reassignRole`) and the aggregation tasks it answers
    (`Sum.call`, `Sum2.call`). The shared registry `minicubeManager` maps a
    member's address to the cube id it holds; the member publishes the same
    id as its `cubeId` attribute and carries the `load-pending` flag. */
module ClusterNode {
  import opened Wrappers
  import opened JavaStrings
  import opened FactTables
  import opened MiniCubes
  import opened CubeIds
  import opened RowLoading
  import opened Dispatch

  /** Every entry of the registry is stored under the node its id names. */
  predicate Consistent(entries: map<string, string>) {
    forall k :: k in entries ==> NodeOf(entries[k]) == Ok(k)
  }

  /** Publishing a node's own id keeps the registry consistent when no part
      of the id holds an `@`. */
  lemma PublishKeepsConsistent(entries: map<string, string>, timeSeries: string, group: string, node: string)
    requires Consistent(entries)
    requires '@' !in timeSeries && '@' !in group && '@' !in node && node != ""
    ensures Consistent(entries[node := CubeId(timeSeries, group, node)])
  {
    NodeRoundTrip(timeSeries, group, node);
  }

  /** A node that finds its own entry in a consistent registry is named by
      it, so its reassignment runs on itself. */
  lemma RestartNamesSelf(entries: map<string, string>, key: string)
    requires Consistent(entries) && key in entries
    ensures NodeOf(entries[key]) == Ok(key)
  {
  }

  /** The placeholder id of a node that has just joined names that node and
      is recognised as awaiting. */
  lemma AwaitingId(group: string, node: string)
    requires '@' !in group && '@' !in node && node != ""
    ensures NodeOf(CubeId(AWAITING, group, node)) == Ok(node)
    ensures StartsWith(CubeId(AWAITING, group, node), AWAITING)
  {
    NodeRoundTrip(AWAITING, group, node);
    AwaitingPrefix(AWAITING, group, node);
  }

  /** The registry `minicubeManager`. */
  class Registry {
    var entries: map<string, string>

    constructor (entries0: map<string, string>)
      ensures entries == entries0
    {
      entries := entries0;
    }
  }

  /** The local member: its address, its `cubeId` attribute and its
      `load-pending` attribute, which is set when the node starts. */
  class Member {
    const address: string
    var cubeId: Option<string>
    var loadPending: bool

    constructor (address: string)
      ensures this.address == address && cubeId == None && loadPending
    {
      this.address := address;
      cubeId := None;
      loadPending := true;
    }
  }

  /** `TimeSeriesMiniCubeManagerHzImpl` as one node sees it: its group name,
      its split index, its member, the registry and the cube it holds
      (`null` until an assignment builds one). */
  class Node {
    const group: string
    const splitIndex: int
    const local: Member
    const registry: Registry
    var miniCube: Option<MiniCube>

    ghost predicate Valid()
      reads this, if miniCube.Some? then {miniCube.value} else {}
    {
      miniCube.Some? ==> miniCube.value.Valid()
    }

    constructor (group: string, splitIndex: int, local: Member, registry: Registry)
      ensures Valid() && miniCube == None
      ensures this.group == group && this.splitIndex == splitIndex && this.local == local && this.registry == registry
    {
      this.group := group;
      this.splitIndex := splitIndex;
      this.local := local;
      this.registry := registry;
      miniCube := None;
    }

    /** The effect of a successful build of `timeSeries`: a new cube over the
        loaded table (its index not built), and the id
        `timeSeries::group@address` in both the registry and the member
        attribute. */
    twostate predicate Built(timeSeries: string, query: seq<string> -> Fetch)
      reads this, local, registry, if miniCube.Some? then {miniCube.value} else {}
    {
      var id := CubeId(timeSeries, group, local.address);
      && TableLoad(timeSeries, splitIndex, query).Ok?
      && registry.entries == old(registry.entries)[local.address := id]
      && local.cubeId == Some(id)
      && miniCube.Some? && fresh(miniCube.value) && miniCube.value.status == 0
      && Holds(miniCube.value.factTable, TableLoad(timeSeries, splitIndex, query).value)
    }

    /** `Assign.call`: refused unless the id names this node; while load is
        pending only the registry learns the new id; otherwise the table is
        loaded and, on success, becomes the node's cube and its id is
        published. A failed load changes nothing. */
    method Assign(cubeId: string, timeSeries: string, query: seq<string> -> Fetch) returns (r: Result<string>)
      requires Valid()
      modifies this, local, registry
      ensures Valid()
      ensures local.loadPending == old(local.loadPending)
      ensures NodeOf(cubeId).Err? ==> r == Err(NodeOf(cubeId).error) && unchanged(this, local, registry)
      ensures NodeOf(cubeId).Ok? && NodeOf(cubeId).value != local.address ==>
        r == Err(UnsupportedOperation) && unchanged(this, local, registry)
      ensures NodeOf(cubeId) == Ok(local.address) && old(local.loadPending) ==>
        && r == Ok(CubeId(timeSeries, group, local.address))
        && registry.entries == old(registry.entries)[local.address := CubeId(timeSeries, group, local.address)]
        && unchanged(this, local)
      ensures NodeOf(cubeId) == Ok(local.address) && !old(local.loadPending) ==>
        if TableLoad(timeSeries, splitIndex, query).Ok? then
          r == Ok(CubeId(timeSeries, group, local.address)) && Built(timeSeries, query)
        else
          r == Err(TableLoad(timeSeries, splitIndex, query).error) && unchanged(this, local, registry)
    {
      var node := NodeOf(cubeId);
      if node.Err? {
        return Err(node.error);
      }
      if node.value != local.address {
        return Err(UnsupportedOperation);
      }
      var id := CubeId(timeSeries, group, local.address);
      if local.loadPending {
        registry.entries := registry.entries[local.address := id];
        return Ok(id);
      }
      var t, builder := LoadTable(timeSeries, splitIndex, query);
      if t.Err? {
        return Err(t.error);
      }
      var cube := new MiniCube(t.value);
      miniCube := Some(cube);
      local.cubeId := Some(id);
      registry.entries := registry.entries[local.address := id];
      return Ok(id);
    }

    /** `reassignRole(cubeId, timeSeries)` in a cluster of this one member:
        `execute` targets the members the id names, so an id naming another
        address finds no target and `result.get(0)` fails; a failed
        assignment is reported as the `RuntimeException` of `execute`. An
        assigned id is never blank, so `Assert.hasText` holds. */
    method Reassign(cubeId: string, timeSeries: string, query: seq<string> -> Fetch) returns (r: Result<string>)
      requires Valid()
      modifies this, local, registry
      ensures Valid()
      ensures local.loadPending == old(local.loadPending)
      ensures NodeOf(cubeId) != Ok(local.address) ==> r == Err(IndexOutOfBounds) && unchanged(this, local, registry)
      ensures NodeOf(cubeId) == Ok(local.address) && old(local.loadPending) ==>
        && r == Ok(CubeId(timeSeries, group, local.address))
        && registry.entries == old(registry.entries)[local.address := CubeId(timeSeries, group, local.address)]
        && unchanged(this, local)
      ensures NodeOf(cubeId) == Ok(local.address) && !old(local.loadPending) ==>
        if TableLoad(timeSeries, splitIndex, query).Ok? then
          r == Ok(CubeId(timeSeries, group, local.address)) && Built(timeSeries, query)
        else
          r == Err(Runtime) && unchanged(this, local, registry)
    {
      var members := [MemberInfo(local.address, local.cubeId)];
      assert [cubeId][..0] == [];
      assert MapAll([cubeId][..0], NodeOf) == Ok([]);
      assert NodeOf(cubeId).Err? ==> NodeOf(cubeId).error == IndexOutOfBounds;
      assert NodeOf(cubeId).Err? ==> NodesOf([cubeId]) == Err(NodeOf(cubeId).error);
      assert NodeOf(cubeId).Ok? ==> NodesOf([cubeId]) == Ok([] + [NodeOf(cubeId).value]);
      var targets :- ExecuteTargets(members, Some([cubeId]));
      assert members[..0] == [];
      var replies: seq<Reply<string>> := [];
      if targets != [] {
        var a := Assign(cubeId, timeSeries, query);
        replies := [if a.Ok? then Response(a.value) else Raised(a.error)];
      }
      var results :- Execute(replies);
      assert replies == [] ==> results == [];
      if results == [] {
        return Err(IndexOutOfBounds);
      }
      return Ok(results[0]);
    }

    /** `handleNewMember`: clears `load-pending`; a node whose registry entry
        is a real id (it restarted) is reassigned the time series of that
        id, and any other node publishes the placeholder `?::group@address`
        to the registry and its attribute. In a consistent registry the
        restarted node's entry names the node itself, so the reassignment
        always runs on it: it rebuilds the cube or reports the failed load. */
    method HandleNewMember(query: seq<string> -> Fetch) returns (o: Outcome)
      requires Valid()
      modifies this, local, registry
      ensures Valid()
      ensures !local.loadPending
      ensures var key := local.address;
        !(key in old(registry.entries) && !StartsWith(old(registry.entries)[key], AWAITING)) ==>
          && o == Pass
          && registry.entries == old(registry.entries)[key := CubeId(AWAITING, group, key)]
          && local.cubeId == Some(CubeId(AWAITING, group, key))
          && miniCube == old(miniCube)
      ensures var key := local.address;
        key in old(registry.entries) && !StartsWith(old(registry.entries)[key], AWAITING) ==>
          var stored := old(registry.entries)[key];
          if DateOf(stored).Err? then
            o == Fail(DateOf(stored).error) && Untouched()
          else if NodeOf(stored) != Ok(key) then
            o == Fail(IndexOutOfBounds) && Untouched()
          else if TableLoad(DateOf(stored).value, splitIndex, query).Ok? then
            o == Pass && Built(DateOf(stored).value, query)
          else
            o == Fail(Runtime) && Untouched()
      ensures var key := local.address;
        && Consistent(old(registry.entries)) && key in old(registry.entries)
        && !StartsWith(old(registry.entries)[key], AWAITING) && DateOf(old(registry.entries)[key]).Ok? ==>
          var timeSeries := DateOf(old(registry.entries)[key]).value;
          if TableLoad(timeSeries, splitIndex, query).Ok? then
            o == Pass && Built(timeSeries, query)
          else
            o == Fail(Runtime) && Untouched()
    {
      local.loadPending := false;
      var key := local.address;
      if key in registry.entries && !StartsWith(registry.entries[key], AWAITING) {
        if Consistent(registry.entries) {
          RestartNamesSelf(registry.entries, key);
        }
        o := Rebuild(registry.entries[key], query);
        return;
      }
      var id := CubeId(AWAITING, group, key);
      registry.entries := registry.entries[key := id];
      local.cubeId := Some(id);
      return Pass;
    }

    /** The restart branch of `handleNewMember`, run once `load-pending` is
        cleared: `reassignRole(stored, stored.split("::")[0])`. */
    method Rebuild(stored: string, query: seq<string> -> Fetch) returns (o: Outcome)
      requires Valid() && !local.loadPending
      modifies this, local, registry
      ensures Valid()
      ensures !local.loadPending
      ensures DateOf(stored).Err? ==> o == Fail(DateOf(stored).error) && Untouched()
      ensures DateOf(stored).Ok? && NodeOf(stored) != Ok(local.address) ==> o == Fail(IndexOutOfBounds) && Untouched()
      ensures DateOf(stored).Ok? && NodeOf(stored) == Ok(local.address) ==>
        if TableLoad(DateOf(stored).value, splitIndex, query).Ok? then
          o == Pass && Built(DateOf(stored).value, query)
        else
          o == Fail(Runtime) && Untouched()
    {
      var date := DateOf(stored);
      if date.Err? {
        return Fail(date.error);
      }
      var r := Reassign(stored, date.value, query);
      if r.Err? {
        return Fail(r.error);
      }
      return Pass;
    }

    /** Neither the cube, the registry nor the member's id changed. */
    twostate predicate Untouched()
      reads this, local, registry
    {
      miniCube == old(miniCube) && registry.entries == old(registry.entries) && local.cubeId == old(local.cubeId)
    }

    /** `Sum.call`: zero on a node without a cube, else the cube's sum. */
    method SumTask(ind: string, filterDims: Option<seq<FilterEntry>>) returns (r: Result<real>)
      requires Valid()
      ensures miniCube.None? ==> r == Ok(0.0)
      ensures miniCube.Some? ==> r == miniCube.value.SumResult(ind, filterDims)
    {
      if miniCube.None? {
        return Ok(0.0);
      }
      r := miniCube.value.SumFiltered(ind, filterDims);
    }

    /** `Sum2.call`: `null` on a node without a cube, else the cube's
        group sums. */
    method GroupSumTask(ind: string, groupDim: string, filterDims: Option<seq<FilterEntry>>)
      returns (r: Result<Option<map<int, real>>>)
      requires Valid()
      ensures miniCube.None? ==> r == Ok(None)
      ensures miniCube.Some? && miniCube.value.GroupSumResult(ind, groupDim, filterDims).Err? ==>
        r == Err(miniCube.value.GroupSumResult(ind, groupDim, filterDims).error)
      ensures miniCube.Some? && miniCube.value.GroupSumResult(ind, groupDim, filterDims).Ok? ==>
        r == Ok(Some(miniCube.value.GroupSumResult(ind, groupDim, filterDims).value))
    {
      if miniCube.None? {
        return Ok(None);
      }
      var g := miniCube.value.GroupSum(ind, groupDim, filterDims);
      if g.Err? {
        return Err(g.error);
      }
      return Ok(Some(g.value));
    }
  }
}
