/** The cluster manager's side of a query: which cube ids a query runs on
    (`cubeIds()`, `cubeIds(date)`, `allCubeIds()`), which members
    `execute` sends the task to, its all-or-nothing failure policy, and
    how the per-node results are reduced (`sum`, group `sum`, `distinct`,
    `discnt`). The network is replaced by the members' replies, given as
    input. */
module Dispatch {
  import opened Wrappers
  import opened JavaStrings
  import opened Decimals
  import opened CubeIds

  /** A member of the cluster: its socket address and its `cubeId`
      attribute (`None` when the attribute is unset). */
  datatype MemberInfo = MemberInfo(address: string, cubeId: Option<string>)

  // ------------------------------------------------------------ cube ids

  /** `allCubeIds()`: the attributes of the members that have one, in
      member order. */
  function AllCubeIds(members: seq<MemberInfo>): seq<string> {
    if members == [] then []
    else
      var ids := AllCubeIds(members[..|members| - 1]);
      var m := members[|members| - 1];
      if m.cubeId.Some? then ids + [m.cubeId.value] else ids
  }

  /** Some member carries `id` as its attribute. */
  predicate Published(members: seq<MemberInfo>, id: string) {
    exists i :: 0 <= i < |members| && members[i].cubeId == Some(id)
  }

  lemma {:induction false} AllCubeIdsSpec(members: seq<MemberInfo>)
    ensures |AllCubeIds(members)| <= |members|
    ensures forall id :: id in AllCubeIds(members) <==> Published(members, id)
  {
    if members != [] {
      var init := members[..|members| - 1];
      AllCubeIdsSpec(init);
      assert forall i :: 0 <= i < |init| ==> init[i] == members[i];
      forall id | Published(members, id) ensures id in AllCubeIds(members) {
        var i :| 0 <= i < |members| && members[i].cubeId == Some(id);
        if i < |init| {
          assert Published(init, id);
        }
      }
    }
  }

  /** `getStringAttribute("cubeId")` used as an object: a missing attribute
      is a NullPointerException. */
  function Attribute(m: MemberInfo): Result<string> {
    match m.cubeId
    case None => Err(NullPointer)
    case Some(id) => Ok(id)
  }

  /** The id's time series starts with `date`. */
  predicate OnDate(id: string, date: string) {
    DateOf(id).Ok? && StartsWith(DateOf(id).value, date)
  }

  /** Every member has an id whose time series can be read. */
  predicate AllDated(members: seq<MemberInfo>) {
    forall i :: 0 <= i < |members| ==> members[i].cubeId.Some? && DateOf(members[i].cubeId.value).Ok?
  }

  /** A sequential stream that maps each element with `g`, which may
      throw, and keeps the present results: the first exception in order
      ends it. */
  function Collect<A, B>(xs: seq<A>, g: A -> Result<Option<B>>): Result<seq<B>> {
    if xs == [] then Ok([])
    else
      var init :- Collect(xs[..|xs| - 1], g);
      var y :- g(xs[|xs| - 1]);
      Ok(if y.Some? then init + [y.value] else init)
  }

  lemma {:induction false} CollectOk<A, B>(xs: seq<A>, g: A -> Result<Option<B>>)
    ensures Collect(xs, g).Ok? <==> forall i :: 0 <= i < |xs| ==> g(xs[i]).Ok?
  {
    if xs != [] {
      var init := xs[..|xs| - 1];
      CollectOk(init, g);
      assert forall i :: 0 <= i < |init| ==> init[i] == xs[i];
    }
  }

  lemma {:induction false} CollectSpec<A, B>(xs: seq<A>, g: A -> Result<Option<B>>)
    requires Collect(xs, g).Ok?
    ensures forall y :: y in Collect(xs, g).value <==> exists i :: 0 <= i < |xs| && g(xs[i]) == Ok(Some(y))
  {
    if xs != [] {
      var init := xs[..|xs| - 1];
      CollectSpec(init, g);
      assert forall i :: 0 <= i < |init| ==> init[i] == xs[i];
      forall y | exists i :: 0 <= i < |xs| && g(xs[i]) == Ok(Some(y)) ensures y in Collect(xs, g).value {
        var i :| 0 <= i < |xs| && g(xs[i]) == Ok(Some(y));
        if i < |init| {
          assert g(init[i]) == Ok(Some(y));
        }
      }
    }
  }

  /** The filter of `cubeIds(date)` on one member: its id when the id's
      time series starts with `date`; a missing id or one without a time
      series throws. */
  function Matching(m: MemberInfo, date: string): Result<Option<string>> {
    var id :- Attribute(m);
    var d :- DateOf(id);
    Ok(if StartsWith(d, date) then Some(id) else None)
  }

  /** `cubeIds(date)`: the ids of the members whose time series starts with
      `date`, in member order. */
  function CubeIdsOn(members: seq<MemberInfo>, date: string): Result<seq<string>> {
    Collect(members, (m: MemberInfo) => Matching(m, date))
  }

  lemma CubeIdsOnOk(members: seq<MemberInfo>, date: string)
    ensures CubeIdsOn(members, date).Ok? <==> AllDated(members)
  {
    CollectOk(members, (m: MemberInfo) => Matching(m, date));
  }

  lemma CubeIdsOnSpec(members: seq<MemberInfo>, date: string)
    requires CubeIdsOn(members, date).Ok?
    ensures forall id :: id in CubeIdsOn(members, date).value <==> OnDate(id, date) && Published(members, id)
  {
    var g := (m: MemberInfo) => Matching(m, date);
    CollectSpec(members, g);
    forall id ensures id in CubeIdsOn(members, date).value <==> OnDate(id, date) && Published(members, id) {
      if OnDate(id, date) && Published(members, id) {
        var i :| 0 <= i < |members| && members[i].cubeId == Some(id);
        assert g(members[i]) == Ok(Some(id));
      }
    }
  }

  /** `LinkedHashSet.addAll`: appends each element not yet present, in
      order. */
  function AddAll(acc: seq<string>, xs: seq<string>): seq<string> {
    if xs == [] then acc
    else
      var a := AddAll(acc, xs[..|xs| - 1]);
      if xs[|xs| - 1] in a then a else a + [xs[|xs| - 1]]
  }

  predicate NoDuplicates(s: seq<string>) {
    forall i, j :: 0 <= i < j < |s| ==> s[i] != s[j]
  }

  lemma {:induction false} AddAllSpec(acc: seq<string>, xs: seq<string>)
    ensures forall s :: s in AddAll(acc, xs) <==> s in acc || s in xs
    ensures NoDuplicates(acc) ==> NoDuplicates(AddAll(acc, xs))
    ensures |acc| <= |AddAll(acc, xs)| && AddAll(acc, xs)[..|acc|] == acc
  {
    if xs != [] {
      var init := xs[..|xs| - 1];
      AddAllSpec(acc, init);
      assert forall s :: s in xs <==> s in init || s == xs[|xs| - 1];
      var a := AddAll(acc, init);
      if xs[|xs| - 1] !in a {
        assert (a + [xs[|xs| - 1]])[..|acc|] == a[..|acc|];
      }
    }
  }

  /** The ids of the listed time series, accumulated in order. */
  function SelectFrom(members: seq<MemberInfo>, timeSeries: seq<string>): Result<seq<string>> {
    if timeSeries == [] then Ok([])
    else
      var acc :- SelectFrom(members, timeSeries[..|timeSeries| - 1]);
      var ids :- CubeIdsOn(members, timeSeries[|timeSeries| - 1]);
      Ok(AddAll(acc, ids))
  }

  /** What `cubeIds()` returns for the time series of the aggregation
      context: all ids when none are given, else the ids on the given time
      series, an IllegalArgumentException when there are none. */
  function SelectSpec(members: seq<MemberInfo>, timeSeries: Option<seq<string>>): Result<seq<string>> {
    if timeSeries.None? || timeSeries.value == [] then Ok(AddAll([], AllCubeIds(members)))
    else
      var ids :- SelectFrom(members, timeSeries.value);
      if ids == [] then Err(IllegalArgument) else Ok(ids)
  }

  /** `cubeIds()`, the loop that fills a `LinkedHashSet`. */
  method SelectCubeIds(members: seq<MemberInfo>, timeSeries: Option<seq<string>>) returns (r: Result<seq<string>>)
    ensures r == SelectSpec(members, timeSeries)
  {
    if timeSeries.None? || timeSeries.value == [] {
      return Ok(AddAll([], AllCubeIds(members)));
    }
    var ts := timeSeries.value;
    var acc: seq<string> := [];
    for i := 0 to |ts|
      invariant SelectFrom(members, ts[..i]) == Ok(acc)
    {
      assert ts[..i + 1][..i] == ts[..i];
      var ids := CubeIdsOn(members, ts[i]);
      if ids.Err? {
        assert SelectFrom(members, ts[..i + 1]).Err?;
        SelectFromErr(members, ts, i + 1);
        return Err(ids.error);
      }
      acc := AddAll(acc, ids.value);
    }
    assert ts[..|ts|] == ts;
    if acc == [] {
      return Err(IllegalArgument);
    }
    return Ok(acc);
  }

  /** Once a prefix of the time series fails, the whole selection fails
      with the same error. */
  lemma {:induction false} SelectFromErr(members: seq<MemberInfo>, ts: seq<string>, n: nat)
    requires n <= |ts| && SelectFrom(members, ts[..n]).Err?
    ensures SelectFrom(members, ts) == SelectFrom(members, ts[..n])
    decreases |ts| - n
  {
    if n < |ts| {
      assert ts[..n + 1][..n] == ts[..n];
      SelectFromErr(members, ts, n + 1);
    } else {
      assert ts[..n] == ts;
    }
  }

  /** `id`'s time series starts with one of `ts`. */
  predicate OnSome(id: string, ts: seq<string>) {
    exists j :: 0 <= j < |ts| && OnDate(id, ts[j])
  }

  lemma {:induction false} SelectFromOk(members: seq<MemberInfo>, ts: seq<string>)
    ensures SelectFrom(members, ts).Ok? <==> ts == [] || AllDated(members)
  {
    if ts != [] {
      SelectFromOk(members, ts[..|ts| - 1]);
      CubeIdsOnOk(members, ts[|ts| - 1]);
    }
  }

  lemma {:induction false} SelectFromSpec(members: seq<MemberInfo>, ts: seq<string>)
    requires SelectFrom(members, ts).Ok?
    ensures NoDuplicates(SelectFrom(members, ts).value)
    ensures forall id :: id in SelectFrom(members, ts).value <==> Published(members, id) && OnSome(id, ts)
  {
    if ts != [] {
      var init := ts[..|ts| - 1];
      var last := ts[|ts| - 1];
      SelectFromSpec(members, init);
      CubeIdsOnSpec(members, last);
      var acc := SelectFrom(members, init).value;
      var ids := CubeIdsOn(members, last).value;
      AddAllSpec(acc, ids);
      forall id ensures id in SelectFrom(members, ts).value <==> Published(members, id) && OnSome(id, ts) {
        if OnSome(id, ts) {
          var j :| 0 <= j < |ts| && OnDate(id, ts[j]);
          if j < |ts| - 1 {
            assert init[j] == ts[j];
            assert OnSome(id, init);
          }
        }
        if OnSome(id, init) {
          var j :| 0 <= j < |init| && OnDate(id, init[j]);
          assert ts[j] == init[j];
        }
      }
    }
  }

  /** `cubeIds()` without time series: every published id, once. */
  lemma SelectAll(members: seq<MemberInfo>, timeSeries: Option<seq<string>>)
    requires timeSeries.None? || timeSeries.value == []
    ensures SelectSpec(members, timeSeries).Ok?
    ensures NoDuplicates(SelectSpec(members, timeSeries).value)
    ensures forall id :: id in SelectSpec(members, timeSeries).value <==> Published(members, id)
  {
    AddAllSpec([], AllCubeIds(members));
    AllCubeIdsSpec(members);
  }

  /** `cubeIds()` with time series: exactly the published ids on one of
      them, each once. */
  lemma SelectOn(members: seq<MemberInfo>, ts: seq<string>)
    requires ts != [] && SelectSpec(members, Some(ts)).Ok?
    ensures NoDuplicates(SelectSpec(members, Some(ts)).value)
    ensures forall id :: id in SelectSpec(members, Some(ts)).value <==> Published(members, id) && OnSome(id, ts)
  {
    SelectFromSpec(members, ts);
  }

  /** With readable ids, `cubeIds()` with time series throws an
      IllegalArgumentException exactly when no published id is on any of
      them. */
  lemma SelectNothing(members: seq<MemberInfo>, ts: seq<string>)
    requires ts != [] && AllDated(members)
    ensures SelectSpec(members, Some(ts)).Err? <==> forall id :: Published(members, id) ==> !OnSome(id, ts)
    ensures SelectSpec(members, Some(ts)).Err? ==> SelectSpec(members, Some(ts)).error == IllegalArgument
  {
    SelectFromOk(members, ts);
    SelectFromSpec(members, ts);
    var ids := SelectFrom(members, ts).value;
    if ids != [] {
      assert ids[0] in ids;
    }
  }

  // ------------------------------------------------------------- targets

  /** `cubeIds.stream().map(e -> e.split("@")[1])`: the node of each id. */
  function NodesOf(ids: seq<string>): Result<seq<string>> {
    MapAll(ids, NodeOf)
  }

  /** A sequential stream that maps each element with `g`, which may
      throw: the first exception in order ends it. */
  function MapAll<A, B>(xs: seq<A>, g: A -> Result<B>): Result<seq<B>> {
    if xs == [] then Ok([])
    else
      var init :- MapAll(xs[..|xs| - 1], g);
      var y :- g(xs[|xs| - 1]);
      Ok(init + [y])
  }

  lemma {:induction false} MapAllSpec<A, B>(xs: seq<A>, g: A -> Result<B>)
    ensures MapAll(xs, g).Ok? <==> forall i :: 0 <= i < |xs| ==> g(xs[i]).Ok?
    ensures MapAll(xs, g).Ok? ==> |MapAll(xs, g).value| == |xs|
    ensures MapAll(xs, g).Ok? ==> forall i :: 0 <= i < |xs| ==> MapAll(xs, g).value[i] == g(xs[i]).value
  {
    if xs != [] {
      var init := xs[..|xs| - 1];
      MapAllSpec(init, g);
      assert forall i :: 0 <= i < |init| ==> init[i] == xs[i];
    }
  }

  lemma NodesOfSpec(ids: seq<string>)
    ensures NodesOf(ids).Ok? <==> forall i :: 0 <= i < |ids| ==> NodeOf(ids[i]).Ok?
    ensures NodesOf(ids).Ok? ==> |NodesOf(ids).value| == |ids|
    ensures NodesOf(ids).Ok? ==> forall i :: 0 <= i < |ids| ==> NodesOf(ids).value[i] == NodeOf(ids[i]).value
  {
    MapAllSpec(ids, NodeOf);
  }

  /** The members whose address is one of `nodes`, in member order. */
  function Targeted(members: seq<MemberInfo>, nodes: seq<string>): seq<MemberInfo> {
    if members == [] then []
    else
      var init := Targeted(members[..|members| - 1], nodes);
      if members[|members| - 1].address in nodes then init + [members[|members| - 1]] else init
  }

  lemma {:induction false} TargetedSpec(members: seq<MemberInfo>, nodes: seq<string>)
    ensures forall m :: m in Targeted(members, nodes) <==> m in members && m.address in nodes
  {
    if members != [] {
      TargetedSpec(members[..|members| - 1], nodes);
      assert members == members[..|members| - 1] + [members[|members| - 1]];
    }
  }

  /** Targeting keeps member order: it distributes over concatenation. */
  lemma {:induction false} TargetedAppend(a: seq<MemberInfo>, b: seq<MemberInfo>, nodes: seq<string>)
    ensures Targeted(a + b, nodes) == Targeted(a, nodes) + Targeted(b, nodes)
  {
    if b == [] {
      assert a + b == a;
    } else {
      TargetedAppend(a, b[..|b| - 1], nodes);
      assert (a + b)[..|a + b| - 1] == a + b[..|b| - 1];
    }
  }

  /** The members `execute` submits the task to: all members for a null or
      empty id collection, else those whose address is the node of some
      id. */
  method ExecuteTargets(members: seq<MemberInfo>, cubeIds: Option<seq<string>>) returns (r: Result<seq<MemberInfo>>)
    ensures cubeIds.None? || cubeIds.value == [] ==> r == Ok(members)
    ensures cubeIds.Some? && cubeIds.value != [] && NodesOf(cubeIds.value).Err? ==>
      r == Err(NodesOf(cubeIds.value).error)
    ensures cubeIds.Some? && cubeIds.value != [] && NodesOf(cubeIds.value).Ok? ==>
      r == Ok(Targeted(members, NodesOf(cubeIds.value).value))
  {
    if cubeIds.None? || cubeIds.value == [] {
      return Ok(members);
    }
    var nodes :- NodesOf(cubeIds.value);
    var selected: seq<MemberInfo> := [];
    for i := 0 to |members|
      invariant selected == Targeted(members[..i], nodes)
    {
      assert members[..i + 1][..i] == members[..i];
      if members[i].address in nodes {
        selected := selected + [members[i]];
      }
    }
    assert members[..|members|] == members;
    return Ok(selected);
  }

  // ------------------------------------------------------------- execute

  /** What a member sends back: a value, or the exception its task threw. */
  datatype Reply<T> = Response(value: T) | Raised(error: Error)

  predicate AnyRaised<T>(replies: seq<Reply<T>>) {
    exists i :: 0 <= i < |replies| && replies[i].Raised?
  }

  /** The values of the responses, in arrival order. */
  function Responses<T>(replies: seq<Reply<T>>): seq<T> {
    if replies == [] then []
    else
      var init := Responses(replies[..|replies| - 1]);
      if replies[|replies| - 1].Response? then init + [replies[|replies| - 1].value] else init
  }

  lemma {:induction false} ResponsesAll<T>(replies: seq<Reply<T>>)
    requires !AnyRaised(replies)
    ensures |Responses(replies)| == |replies|
    ensures forall i :: 0 <= i < |replies| ==> Responses(replies)[i] == replies[i].value
  {
    if replies != [] {
      var init := replies[..|replies| - 1];
      assert !AnyRaised(init) by {
        assert forall i :: 0 <= i < |init| ==> init[i] == replies[i];
      }
      ResponsesAll(init);
      assert replies[|replies| - 1].Response?;
    }
  }

  /** `execute`'s collection of the replies: responses go to the result,
      exceptions to a separate list; one exception or more make the whole
      call throw a RuntimeException, so no partial result escapes. */
  method Execute<T>(replies: seq<Reply<T>>) returns (r: Result<seq<T>>)
    ensures AnyRaised(replies) ==> r == Err(Runtime)
    ensures !AnyRaised(replies) ==> r == Ok(Responses(replies))
  {
    var result: seq<T> := [];
    var exceptions: seq<Error> := [];
    for i := 0 to |replies|
      invariant result == Responses(replies[..i])
      invariant exceptions == [] <==> !AnyRaised(replies[..i])
    {
      assert replies[..i + 1][..i] == replies[..i];
      if replies[i].Raised? {
        exceptions := exceptions + [replies[i].error];
        assert replies[..i + 1][i].Raised?;
      } else {
        result := result + [replies[i].value];
        assert forall j :: 0 <= j < i + 1 ==> replies[..i + 1][j] == replies[j];
      }
    }
    assert replies[..|replies|] == replies;
    if exceptions != [] {
      return Err(Runtime);
    }
    return Ok(result);
  }

  // ---------------------------------------------------------- reductions

  /** `sum`: the exact total of the node sums, rescaled half-up to
      `IND_SCALE`. */
  function ClusterSum(results: seq<real>): real {
    Round(Total(results))
  }

  lemma ClusterSumSpec(results: seq<real>)
    ensures AtScale(ClusterSum(results), IND_SCALE)
    ensures -0.5 <= Shift(ClusterSum(results), IND_SCALE) - Shift(Total(results), IND_SCALE) <= 0.5
  {
    RoundHalfUpSpec(Total(results), IND_SCALE);
  }

  /** Node sums are already at `IND_SCALE`, so the rescale loses nothing. */
  lemma ClusterSumExact(results: seq<real>)
    requires forall i :: 0 <= i < |results| ==> AtScale(results[i], IND_SCALE)
    ensures ClusterSum(results) == Total(results)
  {
    TotalAtScale(results, IND_SCALE);
    RoundHalfUpExact(Total(results), IND_SCALE);
  }

  /** The order in which the nodes answer does not change the sum. */
  lemma ClusterSumOrder(a: seq<real>, b: seq<real>)
    ensures ClusterSum(a + b) == ClusterSum(b + a)
  {
    TotalAppend(a, b);
    TotalAppend(b, a);
  }

  /** `Map.merge(k, v, f)` of every entry of `t` into `acc`. */
  function MergeWith<V>(acc: map<int, V>, t: map<int, V>, f: (V, V) -> V): map<int, V> {
    map k | k in acc.Keys + t.Keys ::
      if k in acc && k in t then f(acc[k], t[k]) else if k in acc then acc[k] else t[k]
  }

  function MergeAll<V>(ts: seq<map<int, V>>, f: (V, V) -> V): map<int, V> {
    if ts == [] then map[] else MergeWith(MergeAll(ts[..|ts| - 1], f), ts[|ts| - 1], f)
  }

  /** `t.forEach` on every node result: a null result (a node without a
      cube) is a NullPointerException. */
  function Present<V>(results: seq<Option<map<int, V>>>): Result<seq<map<int, V>>> {
    if results == [] then Ok([])
    else
      var init :- Present(results[..|results| - 1]);
      match results[|results| - 1]
      case None => Err(NullPointer)
      case Some(t) => Ok(init + [t])
  }

  lemma {:induction false} PresentSpec<V>(results: seq<Option<map<int, V>>>)
    ensures Present(results).Ok? <==> forall i :: 0 <= i < |results| ==> results[i].Some?
    ensures Present(results).Err? ==> Present(results).error == NullPointer
    ensures Present(results).Ok? ==> |Present(results).value| == |results|
    ensures Present(results).Ok? ==> forall i :: 0 <= i < |results| ==> Present(results).value[i] == results[i].value
  {
    if results != [] {
      var init := results[..|results| - 1];
      PresentSpec(init);
      assert forall i :: 0 <= i < |init| ==> init[i] == results[i];
    }
  }

  function Restrict<V>(t: map<int, V>, keys: set<int>): map<int, V> {
    map k | k in t && k in keys :: t[k]
  }

  /** `Map.merge(k, v, f)`. */
  function MergeOne<V>(m: map<int, V>, k: int, v: V, f: (V, V) -> V): map<int, V> {
    if k in m then m[k := f(m[k], v)] else m[k := v]
  }

  lemma MergeStep<V>(acc: map<int, V>, t: map<int, V>, done: set<int>, k: int, f: (V, V) -> V)
    requires k in t && k !in done
    ensures MergeOne(MergeWith(acc, Restrict(t, done), f), k, t[k], f) == MergeWith(acc, Restrict(t, done + {k}), f)
  {
    var next := MergeOne(MergeWith(acc, Restrict(t, done), f), k, t[k], f);
    var want := MergeWith(acc, Restrict(t, done + {k}), f);
    assert next.Keys == want.Keys;
    forall j | j in next ensures next[j] == want[j] {
    }
  }

  lemma MergeEnds<V>(acc: map<int, V>, t: map<int, V>, f: (V, V) -> V)
    ensures MergeWith(acc, Restrict(t, {}), f) == acc
    ensures Restrict(t, t.Keys) == t
  {
    assert Restrict(t, {}) == map[];
    assert MergeWith(acc, map[], f) == acc;
  }

  /** `t.forEach((k, v) -> result.merge(k, v, f))`. */
  method MergeInto<V>(result0: map<int, V>, t: map<int, V>, f: (V, V) -> V) returns (result: map<int, V>)
    ensures result == MergeWith(result0, t, f)
  {
    MergeEnds(result0, t, f);
    result := result0;
    var rest := t.Keys;
    ghost var done: set<int> := {};
    while rest != {}
      invariant done + rest == t.Keys && done !! rest
      invariant result == MergeWith(result0, Restrict(t, done), f)
      decreases |rest|
    {
      var k := Choose(rest);
      MergeStep(result0, t, done, k, f);
      result := MergeOne(result, k, t[k], f);
      done := done + {k};
      rest := rest - {k};
    }
  }

  /** The reduction loop of group `sum` and `distinct`: every node's map is
      merged into one `HashMap` with `f`. */
  method Merge<V>(results: seq<Option<map<int, V>>>, f: (V, V) -> V) returns (r: Result<map<int, V>>)
    ensures Present(results).Err? ==> r == Err(NullPointer)
    ensures Present(results).Ok? ==> r == Ok(MergeAll(Present(results).value, f))
  {
    PresentSpec(results);
    var result: map<int, V> := map[];
    ghost var merged: seq<map<int, V>> := [];
    for i := 0 to |results|
      invariant Present(results[..i]) == Ok(merged)
      invariant result == MergeAll(merged, f)
    {
      assert results[..i + 1][..i] == results[..i];
      if results[i].None? {
        assert !results[..i + 1][i].Some?;
        PresentSpec(results[..i + 1]);
        return Err(NullPointer);
      }
      var t := results[i].value;
      result := MergeInto(result, t, f);
      assert (merged + [t])[..|merged|] == merged;
      merged := merged + [t];
    }
    assert results[..|results|] == results;
    return Ok(result);
  }

  lemma {:induction false} MergeAllKeys<V>(ts: seq<map<int, V>>, f: (V, V) -> V)
    ensures forall k :: k in MergeAll(ts, f) <==> exists i :: 0 <= i < |ts| && k in ts[i]
  {
    if ts != [] {
      var init := ts[..|ts| - 1];
      MergeAllKeys(init, f);
      assert forall i :: 0 <= i < |init| ==> init[i] == ts[i];
    }
  }

  function Add(x: real, y: real): real {
    x + y
  }

  function Union(x: set<int>, y: set<int>): set<int> {
    x + y
  }

  /** The values that the nodes report for key `k`, in order. */
  function ValuesAt(ts: seq<map<int, real>>, k: int): seq<real> {
    if ts == [] then []
    else
      var init := ValuesAt(ts[..|ts| - 1], k);
      if k in ts[|ts| - 1] then init + [ts[|ts| - 1][k]] else init
  }

  /** Group sums: each key's merged value is the exact total of the node
      values for that key. */
  lemma {:induction false} GroupMergeValue(ts: seq<map<int, real>>, k: int)
    requires k in MergeAll(ts, Add)
    ensures MergeAll(ts, Add)[k] == Total(ValuesAt(ts, k))
  {
    var init := ts[..|ts| - 1];
    var last := ts[|ts| - 1];
    var prev := MergeAll(init, Add);
    if k in prev {
      GroupMergeValue(init, k);
    } else {
      MergeAllKeys(init, Add);
      NoKeyNoValues(init, k);
    }
    if k in last {
      TotalAppend(ValuesAt(init, k), [last[k]]);
      assert [last[k]][..0] == [];
    }
  }

  lemma {:induction false} NoKeyNoValues(ts: seq<map<int, real>>, k: int)
    requires forall i :: 0 <= i < |ts| ==> k !in ts[i]
    ensures ValuesAt(ts, k) == []
  {
    if ts != [] {
      var init := ts[..|ts| - 1];
      assert forall i :: 0 <= i < |init| ==> init[i] == ts[i];
      NoKeyNoValues(init, k);
    }
  }

  /** Node group sums are at `IND_SCALE`, and the merged sums are too. */
  lemma {:induction false} GroupMergeAtScale(ts: seq<map<int, real>>)
    requires forall i, k :: 0 <= i < |ts| && k in ts[i] ==> AtScale(ts[i][k], IND_SCALE)
    ensures forall k :: k in MergeAll(ts, Add) ==> AtScale(MergeAll(ts, Add)[k], IND_SCALE)
  {
    if ts != [] {
      var init := ts[..|ts| - 1];
      var last := ts[|ts| - 1];
      assert forall i :: 0 <= i < |init| ==> init[i] == ts[i];
      GroupMergeAtScale(init);
      var prev := MergeAll(init, Add);
      forall k | k in MergeAll(ts, Add) ensures AtScale(MergeAll(ts, Add)[k], IND_SCALE) {
        if k in prev && k in last {
          AtScaleAdd(prev[k], last[k], IND_SCALE);
        }
      }
    }
  }

  /** Distinct: each key's merged set is the union of the node sets for that
      key. */
  lemma {:induction false} DistinctMergeValue(ts: seq<map<int, set<int>>>, k: int, x: int)
    requires k in MergeAll(ts, Union)
    ensures x in MergeAll(ts, Union)[k] <==> exists i :: 0 <= i < |ts| && k in ts[i] && x in ts[i][k]
  {
    var init := ts[..|ts| - 1];
    var last := ts[|ts| - 1];
    var prev := MergeAll(init, Union);
    assert forall i :: 0 <= i < |init| ==> init[i] == ts[i];
    if k in prev {
      DistinctMergeValue(init, k, x);
    } else {
      MergeAllKeys(init, Union);
    }
  }

  /** The order of two node replies does not change the merged group sums. */
  lemma GroupMergeSwap(a: map<int, real>, b: map<int, real>, c: map<int, real>)
    ensures MergeWith(MergeWith(a, b, Add), c, Add) == MergeWith(MergeWith(a, c, Add), b, Add)
  {
    var l := MergeWith(MergeWith(a, b, Add), c, Add);
    var r := MergeWith(MergeWith(a, c, Add), b, Add);
    assert l.Keys == r.Keys;
    forall k | k in l ensures l[k] == r[k] {
    }
  }

  /** The order of two node replies does not change the merged sets. */
  lemma DistinctMergeSwap(a: map<int, set<int>>, b: map<int, set<int>>, c: map<int, set<int>>)
    ensures MergeWith(MergeWith(a, b, Union), c, Union) == MergeWith(MergeWith(a, c, Union), b, Union)
  {
    var l := MergeWith(MergeWith(a, b, Union), c, Union);
    var r := MergeWith(MergeWith(a, c, Union), b, Union);
    assert l.Keys == r.Keys;
    forall k | k in l ensures l[k] == r[k] {
    }
  }

  /** `discnt`: the cardinality of each merged set. */
  function Discnt(distinct: map<int, set<int>>): map<int, int> {
    map k | k in distinct :: |distinct[k]|
  }

  /** A key's distinct count is at least what any one node counts. */
  lemma DiscntLowerBound(ts: seq<map<int, set<int>>>, i: int, k: int)
    requires 0 <= i < |ts| && k in ts[i]
    ensures k in Discnt(MergeAll(ts, Union)) && Discnt(MergeAll(ts, Union))[k] >= |ts[i][k]|
  {
    MergeAllKeys(ts, Union);
    var all := MergeAll(ts, Union)[k];
    forall x | x in ts[i][k] ensures x in all {
      DistinctMergeValue(ts, k, x);
    }
    SubsetCard(ts[i][k], all);
  }

  lemma SubsetCard(a: set<int>, b: set<int>)
    requires a <= b
    ensures |a| <= |b|
  {
    assert b == a + (b - a);
  }
}
