/** The response shaping of the REST controller: the `/status` partition of
    the cluster's cube ids, the `/distinct` conversion of the merged bitmaps
    into integer sets, and the defaults of the `isDim` and `filterDims`
    request parameters. */
module StatusController {
  import opened Wrappers
  import opened JavaStrings
  import opened CubeIds
  import opened MiniCubes
  import opened Dispatch
  import opened ClusterCalls

  /** The ids of nodes that hold a cube, in the given order. */
  function Working(ids: seq<string>): seq<string> {
    if ids == [] then []
    else if StartsWith(ids[|ids| - 1], AWAITING) then Working(ids[..|ids| - 1])
    else Working(ids[..|ids| - 1]) + [ids[|ids| - 1]]
  }

  /** The ids of nodes still waiting for an assignment, in the given order. */
  function Awaiting(ids: seq<string>): seq<string> {
    if ids == [] then []
    else if StartsWith(ids[|ids| - 1], AWAITING) then Awaiting(ids[..|ids| - 1]) + [ids[|ids| - 1]]
    else Awaiting(ids[..|ids| - 1])
  }

  /** `status()`: the map `working`, `awaiting` in insertion order. */
  function Status(ids: seq<string>): seq<(string, seq<string>)> {
    [("working", Working(ids)), ("awaiting", Awaiting(ids))]
  }

  /** The two lists partition the ids: together they hold each id as often
      as the input does, the working ones never start with `?` and the
      awaiting ones always do. */
  lemma {:induction false} StatusPartition(ids: seq<string>)
    ensures multiset(Working(ids)) + multiset(Awaiting(ids)) == multiset(ids)
    ensures forall id :: id in Working(ids) <==> id in ids && !StartsWith(id, AWAITING)
    ensures forall id :: id in Awaiting(ids) <==> id in ids && StartsWith(id, AWAITING)
  {
    if ids != [] {
      var init := ids[..|ids| - 1];
      StatusPartition(init);
      assert ids == init + [ids[|ids| - 1]];
    }
  }

  /** Both lists keep the original order: each distributes over
      concatenation. */
  lemma {:induction false} StatusOrder(a: seq<string>, b: seq<string>)
    ensures Working(a + b) == Working(a) + Working(b)
    ensures Awaiting(a + b) == Awaiting(a) + Awaiting(b)
  {
    if b == [] {
      assert a + b == a;
    } else {
      StatusOrder(a, b[..|b| - 1]);
      assert (a + b)[..|a + b| - 1] == a + b[..|b| - 1];
    }
  }

  /** The response of `status()` holds the two lists under their names. */
  lemma StatusShape(ids: seq<string>)
    ensures |Status(ids)| == 2
    ensures Status(ids)[0] == ("working", Working(ids)) && Status(ids)[1] == ("awaiting", Awaiting(ids))
    ensures |Status(ids)[0].1| + |Status(ids)[1].1| == |ids|
  {
    StatusPartition(ids);
    assert |multiset(Working(ids))| + |multiset(Awaiting(ids))| == |multiset(ids)|;
  }

  /** The `/distinct` response: each merged bitmap is read out into a set of
      integers under the same key. */
  method BitmapsToSets(distinct: map<int, set<int>>) returns (result: map<int, set<int>>)
    ensures result.Keys == distinct.Keys
    ensures forall k :: k in result ==> forall x :: x in result[k] <==> x in distinct[k]
  {
    result := map[];
    var rest := distinct.Keys;
    while rest != {}
      invariant rest <= distinct.Keys
      invariant result.Keys == distinct.Keys - rest
      invariant forall k :: k in result ==> result[k] == distinct[k]
      decreases |rest|
    {
      var k := Choose(rest);
      var members: set<int> := {};
      var bits := distinct[k];
      while bits != {}
        invariant bits <= distinct[k]
        invariant members == distinct[k] - bits
        decreases |bits|
      {
        var x := Choose(bits);
        members := members + {x};
        bits := bits - {x};
      }
      result := result[k := members];
      rest := rest - {k};
    }
  }

  /** An absent `isDim` parameter means a dimension. */
  function IsDimOrDefault(isDim: Option<bool>): bool {
    if isDim.None? then true else isDim.value
  }

  /** How each member answers the node task `Distinct(indName, isDim,
      groupbyDim, filter)` for the flag it is given. */
  type DistinctTask = (MemberInfo, bool) -> Reply<Option<map<int, set<int>>>>

  /** The answers of the members to the task sent with flag `isDim`. */
  function Asked(task: DistinctTask, isDim: bool): MemberInfo -> Reply<Option<map<int, set<int>>>> {
    m => task(m, isDim)
  }

  /** The `/distinct` response: the cluster's `distinct` for the defaulted
      `isDim`, each bitmap read out as a set. */
  function DistinctResponse(members: seq<MemberInfo>, timeSeries: Option<seq<string>>, isDim: Option<bool>, task: DistinctTask)
    : Result<map<int, set<int>>>
  {
    DistinctOf(members, timeSeries, Asked(task, IsDimOrDefault(isDim)))
  }

  /** The `/distinctcount` response: the cluster's `discnt` for the
      defaulted `isDim`. */
  function DistinctCountResponse(members: seq<MemberInfo>, timeSeries: Option<seq<string>>, isDim: Option<bool>, task: DistinctTask)
    : Result<map<int, int>>
  {
    DistinctCountOf(members, timeSeries, Asked(task, IsDimOrDefault(isDim)))
  }

  /** `distinct(...)` of the controller: `isDim == null ? true : isDim`
      goes to the cluster call, and the merged bitmaps are converted. */
  method DistinctRequest(members: seq<MemberInfo>, timeSeries: Option<seq<string>>, isDim: Option<bool>, task: DistinctTask)
    returns (r: Result<map<int, set<int>>>)
    ensures r == DistinctResponse(members, timeSeries, isDim, task)
  {
    var distinct :- ClusterCalls.Distinct(members, timeSeries, Asked(task, IsDimOrDefault(isDim)));
    var sets := BitmapsToSets(distinct);
    assert sets == distinct by {
      forall k | k in sets
        ensures sets[k] == distinct[k]
      {
        assert forall x :: x in sets[k] <==> x in distinct[k];
      }
    }
    return Ok(sets);
  }

  /** `distinctCount(...)` of the controller: the same default, and the
      cluster's counts as the response. */
  method DistinctCountRequest(members: seq<MemberInfo>, timeSeries: Option<seq<string>>, isDim: Option<bool>, task: DistinctTask)
    returns (r: Result<map<int, int>>)
    ensures r == DistinctCountResponse(members, timeSeries, isDim, task)
  {
    r := ClusterCalls.DistinctCount(members, timeSeries, Asked(task, IsDimOrDefault(isDim)));
  }

  /** A request without `isDim` is answered as one with `isDim=true`: the
      nodes are asked for a dimension's distinct values. */
  lemma DistinctDefaultsToDim(members: seq<MemberInfo>, timeSeries: Option<seq<string>>, task: DistinctTask)
    ensures DistinctResponse(members, timeSeries, None, task) == DistinctResponse(members, timeSeries, Some(true), task)
    ensures DistinctResponse(members, timeSeries, None, task) == DistinctOf(members, timeSeries, Asked(task, true))
    ensures DistinctResponse(members, timeSeries, Some(false), task) == DistinctOf(members, timeSeries, Asked(task, false))
  {
  }

  /** The same default for `/distinctcount`. */
  lemma DistinctCountDefaultsToDim(members: seq<MemberInfo>, timeSeries: Option<seq<string>>, task: DistinctTask)
    ensures DistinctCountResponse(members, timeSeries, None, task) == DistinctCountResponse(members, timeSeries, Some(true), task)
    ensures DistinctCountResponse(members, timeSeries, None, task) == DistinctCountOf(members, timeSeries, Asked(task, true))
    ensures DistinctCountResponse(members, timeSeries, Some(false), task) == DistinctCountOf(members, timeSeries, Asked(task, false))
  {
  }

  /** For the same request, `/distinctcount` answers with the sizes of the
      sets `/distinct` answers with, and fails exactly when it fails. */
  lemma CountsAreDistinctSizes(members: seq<MemberInfo>, timeSeries: Option<seq<string>>, isDim: Option<bool>, task: DistinctTask)
    ensures DistinctCountResponse(members, timeSeries, isDim, task).Ok? <==> DistinctResponse(members, timeSeries, isDim, task).Ok?
    ensures DistinctResponse(members, timeSeries, isDim, task).Err? ==>
      DistinctCountResponse(members, timeSeries, isDim, task).error == DistinctResponse(members, timeSeries, isDim, task).error
    ensures DistinctResponse(members, timeSeries, isDim, task).Ok? ==>
      var sets, counts := DistinctResponse(members, timeSeries, isDim, task).value, DistinctCountResponse(members, timeSeries, isDim, task).value;
      counts.Keys == sets.Keys && forall k :: k in counts ==> counts[k] == |sets[k]|
  {
  }

  /** The `filterDims` request parameter: absent or empty means no filter
      (`null`); any other text is parsed as JSON by `parse`, whose failure
      is the request's failure. */
  function FilterParam(filterDims: Option<string>, parse: string -> Result<seq<FilterEntry>>): (r: Result<Option<seq<FilterEntry>>>)
    ensures filterDims.None? || filterDims.value == "" ==> r == Ok(None)
    ensures filterDims.Some? && filterDims.value != "" ==>
      (r.Ok? <==> parse(filterDims.value).Ok?) && (r.Ok? ==> r.value == Some(parse(filterDims.value).value))
  {
    if filterDims.None? || filterDims.value == "" then Ok(None)
    else
      var entries :- parse(filterDims.value);
      Ok(Some(entries))
  }

  /** A filter string is never turned into a filter that matches nothing
      by being blank: only a parsed text can produce a filter, and a blank
      one gives none, which selects every record. */
  lemma BlankFilterIsNoFilter(filterDims: Option<string>, parse: string -> Result<seq<FilterEntry>>, c: MiniCube)
    requires filterDims.None? || filterDims.value == ""
    ensures FilterParam(filterDims, parse) == Ok(None)
    ensures c.Selection(FilterParam(filterDims, parse).value) == Ok(NonSentinel(c.factTable.records))
  {
    NoFilterSelectsAll(c);
  }
}
