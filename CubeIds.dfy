/** The cube-id protocol of the cluster manager. A node publishes the cube it
    holds as `<time series>::<group>@<node address>`, where a node still
    waiting for its first assignment uses the time series `?`. The id is
    parsed back with `String.split`: the text after `@` names the node
    (`split("@")[1]`), the text before `::` the time series
    (`split("::")[0]`). */
module CubeIds {
  import opened Wrappers
  import opened JavaStrings

  /** The time series of a node that has joined but holds no cube yet. */
  const AWAITING: string := "?"

  function CubeId(timeSeries: string, group: string, node: string): string {
    timeSeries + "::" + group + "@" + node
  }

  /** `cubeId.split("@")[1]`. */
  function NodeOf(cubeId: string): Result<string> {
    SplitPart(cubeId, "@", 1)
  }

  /** `cubeId.split("::")[0]`. */
  function DateOf(cubeId: string): Result<string> {
    SplitPart(cubeId, "::", 0)
  }

  /** The parts of an id can be read back when no part holds an `@`, the
      node is not empty and the time series holds no `:`. */
  predicate Separable(timeSeries: string, group: string, node: string) {
    '@' !in timeSeries && '@' !in group && '@' !in node && node != "" && ':' !in timeSeries
  }

  /** The node is recovered from the id. */
  lemma NodeRoundTrip(timeSeries: string, group: string, node: string)
    requires '@' !in timeSeries && '@' !in group && '@' !in node && node != ""
    ensures NodeOf(CubeId(timeSeries, group, node)) == Ok(node)
  {
    var head := timeSeries + "::" + group;
    assert '@' !in head;
    SplitTwo(head, '@', node);
    assert CubeId(timeSeries, group, node) == head + ['@'] + node;
  }

  /** The time series is recovered from the id. */
  lemma DateRoundTrip(timeSeries: string, group: string, node: string)
    requires ':' !in timeSeries
    ensures DateOf(CubeId(timeSeries, group, node)) == Ok(timeSeries)
  {
    var tail := group + "@" + node;
    CubeIdTail(timeSeries, group, node);
    assert forall i :: 0 <= i < |timeSeries| ==> timeSeries[i] != "::"[0];
    SplitHead(timeSeries, "::", tail, '@');
  }

  /** An id is its time series, `::` and a tail that holds an `@`. */
  lemma CubeIdTail(timeSeries: string, group: string, node: string)
    ensures CubeId(timeSeries, group, node) == timeSeries + "::" + (group + "@" + node)
    ensures '@' in group + "@" + node && '@' !in "::"
  {
    assert (group + "@" + node)[|group|] == '@';
  }

  /** Both parts round-trip under `Separable`. */
  lemma CubeIdRoundTrip(timeSeries: string, group: string, node: string)
    requires Separable(timeSeries, group, node)
    ensures NodeOf(CubeId(timeSeries, group, node)) == Ok(node)
    ensures DateOf(CubeId(timeSeries, group, node)) == Ok(timeSeries)
  {
    NodeRoundTrip(timeSeries, group, node);
    DateRoundTrip(timeSeries, group, node);
  }

  /** An id without any `@` names no node: `split("@")[1]` is out of
      bounds. */
  lemma NoNodeWithoutAt(cubeId: string)
    requires '@' !in cubeId
    ensures NodeOf(cubeId) == Err(IndexOutOfBounds)
  {
    ContainsChar(cubeId, '@');
  }

  /** An id starts with `?` exactly when its time series does, so the
      awaiting ids are the ones with time series `?`. */
  lemma AwaitingPrefix(timeSeries: string, group: string, node: string)
    ensures StartsWith(CubeId(timeSeries, group, node), AWAITING)
        <==> |timeSeries| > 0 && timeSeries[0] == '?'
  {
    var id := CubeId(timeSeries, group, node);
    assert id == (timeSeries + "::") + (group + "@" + node);
    assert id[0] == (timeSeries + "::")[0];
  }
}
