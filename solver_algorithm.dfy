/**
 * The focal heuristic of the earlier solver snapshot, which counts vertex conflicts
 * only. Its `construct_path` is the same code as `Algorithm.ConstructPath`.
 */
module SolverAlgorithm {
  import opened Wrappers
  import opened Common
  import Algorithm

  /** 1 when the other agent `k` occupies `position` at `time`; the agent itself counts 0. */
  function VertexHits(agent: nat, position: Cell, time: nat, paths: seq<Path>, k: nat): (h: nat)
    requires k < |paths| && (k == agent || |paths[k]| > 0)
    ensures h <= 1
    ensures h == 1 <==> k != agent && Algorithm.VertexHit(position, time, paths[k])
  {
    if k != agent && Algorithm.VertexHit(position, time, paths[k]) then 1 else 0
  }

  /** The vertex conflicts contributed by the first `n` paths. */
  function VertexCountBefore(agent: nat, position: Cell, time: nat, paths: seq<Path>, n: nat): nat
    requires n <= |paths| && Algorithm.OthersNonEmpty(agent, paths, n)
  {
    if n == 0 then 0
    else VertexCountBefore(agent, position, time, paths, n - 1) + VertexHits(agent, position, time, paths, n - 1)
  }

  function VertexCount(agent: nat, position: Cell, time: nat, paths: seq<Path>): nat
    requires Algorithm.OthersNonEmpty(agent, paths, |paths|)
  {
    VertexCountBefore(agent, position, time, paths, |paths|)
  }

  /**
   * `heuristic_focal`: the number of other agents at `position` at `time`, an agent
   * whose path has ended counting at its last cell. An empty other path fails the `unwrap`.
   */
  method HeuristicFocal(agent: nat, position: Cell, time: nat, paths: seq<Path>) returns (r: Result<nat, Panic>)
    ensures !Algorithm.OthersNonEmpty(agent, paths, |paths|) ==> r == Err(UnwrapNone)
    ensures Algorithm.OthersNonEmpty(agent, paths, |paths|) ==> r == Ok(VertexCount(agent, position, time, paths))
  {
    var count := 0;
    var k := 0;
    while k < |paths|
      invariant k <= |paths|
      invariant Algorithm.OthersNonEmpty(agent, paths, k)
      invariant count == VertexCountBefore(agent, position, time, paths, k)
    {
      var path := paths[k];
      if k != agent {
        if |path| == 0 {
          return Err(UnwrapNone);
        }
        var other := if time < |path| then path[time] else path[|path| - 1];
        if other == position {
          count := count + 1;
        }
      }
      k := k + 1;
    }
    return Ok(count);
  }

  /** Each other agent adds at most one conflict. */
  lemma {:induction false} VertexCountBeforeBounded(agent: nat, position: Cell, time: nat, paths: seq<Path>, n: nat)
    requires n <= |paths| && Algorithm.OthersNonEmpty(agent, paths, n)
    ensures VertexCountBefore(agent, position, time, paths, n) <= (if agent < n then n - 1 else n)
    decreases n
  {
    if n > 0 {
      VertexCountBeforeBounded(agent, position, time, paths, n - 1);
    }
  }

  lemma VertexCountBounded(agent: nat, position: Cell, time: nat, paths: seq<Path>)
    requires Algorithm.OthersNonEmpty(agent, paths, |paths|)
    ensures VertexCount(agent, position, time, paths) <= (if agent < |paths| then |paths| - 1 else |paths|)
  {
    VertexCountBeforeBounded(agent, position, time, paths, |paths|);
  }

  lemma {:induction false} VertexCountBeforeZeroIff(agent: nat, position: Cell, time: nat, paths: seq<Path>, n: nat)
    requires n <= |paths| && Algorithm.OthersNonEmpty(agent, paths, n)
    ensures VertexCountBefore(agent, position, time, paths, n) == 0
        <==> forall k :: 0 <= k < n && k != agent ==> !Algorithm.VertexHit(position, time, paths[k])
    decreases n
  {
    if n > 0 {
      VertexCountBeforeZeroIff(agent, position, time, paths, n - 1);
    }
  }

  /** The heuristic is zero exactly when no other agent occupies the cell at that time. */
  lemma VertexCountZeroIff(agent: nat, position: Cell, time: nat, paths: seq<Path>)
    requires Algorithm.OthersNonEmpty(agent, paths, |paths|)
    ensures VertexCount(agent, position, time, paths) == 0
        <==> forall k :: 0 <= k < |paths| && k != agent ==> !Algorithm.VertexHit(position, time, paths[k])
  {
    VertexCountBeforeZeroIff(agent, position, time, paths, |paths|);
  }

  lemma {:induction false} VertexCountBeforeAtMostFull(agent: nat, position: Cell, prevPosition: Cell, time: nat, paths: seq<Path>, n: nat)
    requires time > 0 && n <= |paths| && Algorithm.OthersNonEmpty(agent, paths, n)
    ensures VertexCountBefore(agent, position, time, paths, n)
         <= Algorithm.CountBefore(agent, position, prevPosition, time, paths, n)
    decreases n
  {
    if n > 0 {
      VertexCountBeforeAtMostFull(agent, position, prevPosition, time, paths, n - 1);
    }
  }

  /**
   * The vertex-only count never exceeds the later snapshot's vertex-and-edge count for the
   * same move: the later heuristic adds the edge conflicts on top.
   */
  lemma VertexCountAtMostFull(agent: nat, position: Cell, prevPosition: Cell, time: nat, paths: seq<Path>)
    requires time > 0 && Algorithm.OthersNonEmpty(agent, paths, |paths|)
    ensures VertexCount(agent, position, time, paths)
         <= Algorithm.ConflictCount(agent, position, prevPosition, time, paths)
  {
    VertexCountBeforeAtMostFull(agent, position, prevPosition, time, paths, |paths|);
  }
}
