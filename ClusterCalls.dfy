/** The cluster-wide aggregations of the manager (`sum`, group `sum`,
    `distinct`, `discnt`): select the cube ids of the aggregation context,
    submit the node task to the members they name, collect the replies and
    reduce them. What each member replies is an input (`answer`); the
    aggregation context `aggs(timeSeries)` is a parameter. */
module ClusterCalls {
  import opened Wrappers
  import opened Decimals
  import opened Dispatch

  /** The members `execute` submits to for the ids `cubeIds()` returned. */
  function TargetsOf(members: seq<MemberInfo>, ids: seq<string>): Result<seq<MemberInfo>> {
    if ids == [] then Ok(members)
    else
      var nodes :- NodesOf(ids);
      Ok(Targeted(members, nodes))
  }

  /** The reply of every target, in target order. */
  function RepliesOf<T>(targets: seq<MemberInfo>, answer: MemberInfo -> Reply<T>): seq<Reply<T>> {
    seq(|targets|, i requires 0 <= i < |targets| => answer(targets[i]))
  }

  /** The node results an aggregation collects, or the exception it raises
      before reducing. */
  function Gathered<T>(members: seq<MemberInfo>, timeSeries: Option<seq<string>>, answer: MemberInfo -> Reply<T>): Result<seq<T>> {
    var ids :- SelectSpec(members, timeSeries);
    var targets :- TargetsOf(members, ids);
    var replies := RepliesOf(targets, answer);
    if AnyRaised(replies) then Err(Runtime) else Ok(Responses(replies))
  }

  /** One target that raises makes the whole aggregation fail with a
      RuntimeException. */
  lemma OneFailureFailsAll<T>(members: seq<MemberInfo>, timeSeries: Option<seq<string>>, answer: MemberInfo -> Reply<T>, m: MemberInfo)
    requires SelectSpec(members, timeSeries).Ok?
    requires TargetsOf(members, SelectSpec(members, timeSeries).value).Ok?
    requires m in TargetsOf(members, SelectSpec(members, timeSeries).value).value && answer(m).Raised?
    ensures Gathered(members, timeSeries, answer) == Err(Runtime)
  {
    var targets := TargetsOf(members, SelectSpec(members, timeSeries).value).value;
    var i :| 0 <= i < |targets| && targets[i] == m;
    assert RepliesOf(targets, answer)[i].Raised?;
  }

  /** When no target raises, there is one result per target, in target
      order. */
  lemma AllAnswered<T>(members: seq<MemberInfo>, timeSeries: Option<seq<string>>, answer: MemberInfo -> Reply<T>)
    requires SelectSpec(members, timeSeries).Ok?
    requires TargetsOf(members, SelectSpec(members, timeSeries).value).Ok?
    requires forall m :: m in TargetsOf(members, SelectSpec(members, timeSeries).value).value ==> answer(m).Response?
    ensures var targets := TargetsOf(members, SelectSpec(members, timeSeries).value).value;
      && Gathered(members, timeSeries, answer).Ok?
      && |Gathered(members, timeSeries, answer).value| == |targets|
      && forall i :: 0 <= i < |targets| ==> Gathered(members, timeSeries, answer).value[i] == answer(targets[i]).value
  {
    var targets := TargetsOf(members, SelectSpec(members, timeSeries).value).value;
    var replies := RepliesOf(targets, answer);
    assert !AnyRaised(replies) by {
      forall i | 0 <= i < |replies| ensures replies[i].Response? {
        assert targets[i] in targets;
      }
    }
    ResponsesAll(replies);
  }

  /** `execute(task, cubeIds(), timeout)`. */
  method Gather<T>(members: seq<MemberInfo>, timeSeries: Option<seq<string>>, answer: MemberInfo -> Reply<T>) returns (r: Result<seq<T>>)
    ensures r == Gathered(members, timeSeries, answer)
  {
    var ids :- SelectCubeIds(members, timeSeries);
    var targets :- ExecuteTargets(members, Some(ids));
    r := Execute(RepliesOf(targets, answer));
  }

  /** `sum(indName, filterDims)`: the node sums added up exactly and
      rescaled half-up to `IND_SCALE`. */
  method Sum(members: seq<MemberInfo>, timeSeries: Option<seq<string>>, answer: MemberInfo -> Reply<real>) returns (r: Result<real>)
    ensures Gathered(members, timeSeries, answer).Err? ==> r == Err(Gathered(members, timeSeries, answer).error)
    ensures Gathered(members, timeSeries, answer).Ok? ==> r == Ok(ClusterSum(Gathered(members, timeSeries, answer).value))
  {
    var results :- Gather(members, timeSeries, answer);
    return Ok(ClusterSum(results));
  }

  /** Group `sum(indName, groupByDimName, filterDims)`: the node maps merged
      with per-key addition; a node without a cube replies `null`, which
      the merge does not survive. */
  method GroupSum(members: seq<MemberInfo>, timeSeries: Option<seq<string>>, answer: MemberInfo -> Reply<Option<map<int, real>>>)
    returns (r: Result<map<int, real>>)
    ensures Gathered(members, timeSeries, answer).Err? ==> r == Err(Gathered(members, timeSeries, answer).error)
    ensures Gathered(members, timeSeries, answer).Ok? && Present(Gathered(members, timeSeries, answer).value).Err? ==>
      r == Err(NullPointer)
    ensures Gathered(members, timeSeries, answer).Ok? && Present(Gathered(members, timeSeries, answer).value).Ok? ==>
      r == Ok(MergeAll(Present(Gathered(members, timeSeries, answer).value).value, Add))
  {
    var results :- Gather(members, timeSeries, answer);
    r := Merge(results, Add);
  }

  /** What `distinct(...)` returns for the node answers `answer`: the node
      bitmaps merged with per-key union, a NullPointerException when a node
      answered `null`, or the failure of the call. */
  function DistinctOf(members: seq<MemberInfo>, timeSeries: Option<seq<string>>, answer: MemberInfo -> Reply<Option<map<int, set<int>>>>)
    : Result<map<int, set<int>>>
  {
    var results :- Gathered(members, timeSeries, answer);
    var present :- Present(results);
    Ok(MergeAll(present, Union))
  }

  /** What `discnt(...)` returns: the size of each set `distinct` merges. */
  function DistinctCountOf(members: seq<MemberInfo>, timeSeries: Option<seq<string>>, answer: MemberInfo -> Reply<Option<map<int, set<int>>>>)
    : Result<map<int, int>>
  {
    var distinct :- DistinctOf(members, timeSeries, answer);
    Ok(Discnt(distinct))
  }

  /** `distinct(...)`: the node bitmaps merged with per-key union. */
  method Distinct(members: seq<MemberInfo>, timeSeries: Option<seq<string>>, answer: MemberInfo -> Reply<Option<map<int, set<int>>>>)
    returns (r: Result<map<int, set<int>>>)
    ensures Gathered(members, timeSeries, answer).Err? ==> r == Err(Gathered(members, timeSeries, answer).error)
    ensures Gathered(members, timeSeries, answer).Ok? && Present(Gathered(members, timeSeries, answer).value).Err? ==>
      r == Err(NullPointer)
    ensures Gathered(members, timeSeries, answer).Ok? && Present(Gathered(members, timeSeries, answer).value).Ok? ==>
      r == Ok(MergeAll(Present(Gathered(members, timeSeries, answer).value).value, Union))
    ensures r == DistinctOf(members, timeSeries, answer)
  {
    var results :- Gather(members, timeSeries, answer);
    PresentSpec(results);
    r := Merge(results, Union);
  }

  /** `discnt(...)`: the cardinality of each merged set of `distinct`. */
  method DistinctCount(members: seq<MemberInfo>, timeSeries: Option<seq<string>>, answer: MemberInfo -> Reply<Option<map<int, set<int>>>>)
    returns (r: Result<map<int, int>>)
    ensures Gathered(members, timeSeries, answer).Err? ==> r == Err(Gathered(members, timeSeries, answer).error)
    ensures Gathered(members, timeSeries, answer).Ok? && Present(Gathered(members, timeSeries, answer).value).Err? ==>
      r == Err(NullPointer)
    ensures Gathered(members, timeSeries, answer).Ok? && Present(Gathered(members, timeSeries, answer).value).Ok? ==>
      r == Ok(Discnt(MergeAll(Present(Gathered(members, timeSeries, answer).value).value, Union)))
    ensures r == DistinctCountOf(members, timeSeries, answer)
  {
    var distinct :- Distinct(members, timeSeries, answer);
    return Ok(Discnt(distinct));
  }
}
