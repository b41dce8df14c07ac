/**
 * The helpers the low-level searches share: the focal heuristic that counts the
 * conflicts a move would cause with the other agents' current paths, and the
 * rebuilding of a path from the search's trace of predecessors.
 */
module Algorithm {
  import opened Wrappers
  import opened Common

  /** A search state `((usize, usize), usize)`: a cell and a time step. */
  type State = (Cell, nat)

  /** The trace maps a state to the state it was reached from. */
  type Trace = map<State, State>

  // ---------------------------------------------------------------------------
  // heuristic_focal (vertex and edge conflicts)
  // ---------------------------------------------------------------------------

  /** Each of the first `n` paths other than the agent's own has a last cell to fall back on. */
  predicate OthersNonEmpty(agent: nat, paths: seq<Path>, n: nat)
    requires n <= |paths|
  {
    forall k :: 0 <= k < n && k != agent ==> |paths[k]| > 0
  }

  /** The other agent is at `position` at `time` (or parked there after its path ended). */
  predicate VertexHit(position: Cell, time: nat, p: Path)
    requires |p| > 0
  {
    PaddedAt(p, time) == position
  }

  /** The other agent, still moving at `time`, moves from `position` to `prevPosition`. */
  predicate EdgeHit(position: Cell, prevPosition: Cell, time: nat, p: Path)
    requires time > 0
  {
    time < |p| && p[time] == prevPosition && p[time - 1] == position
  }

  /** The conflicts agent `k` contributes: the agent's own path contributes none. */
  function Hits(agent: nat, position: Cell, prevPosition: Cell, time: nat, paths: seq<Path>, k: nat): (h: nat)
    requires time > 0 && k < |paths| && (k == agent || |paths[k]| > 0)
    ensures h <= 2
    ensures k == agent ==> h == 0
  {
    if k == agent then 0
    else
      (if VertexHit(position, time, paths[k]) then 1 else 0)
      + (if EdgeHit(position, prevPosition, time, paths[k]) then 1 else 0)
  }

  /** The conflicts contributed by the first `n` paths. */
  function CountBefore(agent: nat, position: Cell, prevPosition: Cell, time: nat, paths: seq<Path>, n: nat): nat
    requires time > 0 && n <= |paths| && OthersNonEmpty(agent, paths, n)
  {
    if n == 0 then 0
    else CountBefore(agent, position, prevPosition, time, paths, n - 1) + Hits(agent, position, prevPosition, time, paths, n - 1)
  }

  function ConflictCount(agent: nat, position: Cell, prevPosition: Cell, time: nat, paths: seq<Path>): nat
    requires time > 0 && OthersNonEmpty(agent, paths, |paths|)
  {
    CountBefore(agent, position, prevPosition, time, paths, |paths|)
  }

  /**
   * `heuristic_focal`: the number of vertex and edge conflicts that being at `position`
   * at `time`, having come from `prevPosition`, causes with the other agents' paths.
   * A zero time step fails the `assert_ne!`, and an empty other path the `unwrap`.
   */
  method HeuristicFocal(agent: nat, position: Cell, prevPosition: Cell, time: nat, paths: seq<Path>)
    returns (r: Result<nat, Panic>)
    ensures time == 0 ==> r == Err(AssertionFailed)
    ensures time > 0 && !OthersNonEmpty(agent, paths, |paths|) ==> r == Err(UnwrapNone)
    ensures time > 0 && OthersNonEmpty(agent, paths, |paths|) ==>
      r == Ok(ConflictCount(agent, position, prevPosition, time, paths))
  {
    if time == 0 {
      return Err(AssertionFailed);
    }
    var count := 0;
    var k := 0;
    while k < |paths|
      invariant k <= |paths|
      invariant OthersNonEmpty(agent, paths, k)
      invariant count == CountBefore(agent, position, prevPosition, time, paths, k)
    {
      var path := paths[k];
      if k != agent {
        if |path| == 0 {
          return Err(UnwrapNone);
        }
        var other := if time < |path| then path[time] else path[|path| - 1];
        if other == position {
          count := count + 1;
        }
        if time < |path| {
          var otherPrev := path[time - 1];
          if other == prevPosition && otherPrev == position {
            count := count + 1;
          }
        }
      }
      k := k + 1;
    }
    return Ok(count);
  }

  /** Each other agent adds at most two conflicts, and the agent itself none. */
  lemma {:induction false} CountBeforeBounded(agent: nat, position: Cell, prevPosition: Cell, time: nat, paths: seq<Path>, n: nat)
    requires time > 0 && n <= |paths| && OthersNonEmpty(agent, paths, n)
    ensures CountBefore(agent, position, prevPosition, time, paths, n)
         <= 2 * (if agent < n then n - 1 else n)
    decreases n
  {
    if n > 0 {
      CountBeforeBounded(agent, position, prevPosition, time, paths, n - 1);
    }
  }

  lemma ConflictCountBounded(agent: nat, position: Cell, prevPosition: Cell, time: nat, paths: seq<Path>)
    requires time > 0 && OthersNonEmpty(agent, paths, |paths|)
    ensures ConflictCount(agent, position, prevPosition, time, paths)
         <= 2 * (if agent < |paths| then |paths| - 1 else |paths|)
  {
    CountBeforeBounded(agent, position, prevPosition, time, paths, |paths|);
  }

  /** No agent among the first `n` other than `agent` meets it at the vertex or on the edge. */
  predicate NoConflictBefore(agent: nat, position: Cell, prevPosition: Cell, time: nat, paths: seq<Path>, n: nat)
    requires time > 0 && n <= |paths| && OthersNonEmpty(agent, paths, n)
  {
    forall k :: 0 <= k < n && k != agent ==>
      !VertexHit(position, time, paths[k]) && !EdgeHit(position, prevPosition, time, paths[k])
  }

  lemma {:induction false} CountBeforeZeroIff(agent: nat, position: Cell, prevPosition: Cell, time: nat, paths: seq<Path>, n: nat)
    requires time > 0 && n <= |paths| && OthersNonEmpty(agent, paths, n)
    ensures CountBefore(agent, position, prevPosition, time, paths, n) == 0
        <==> NoConflictBefore(agent, position, prevPosition, time, paths, n)
    decreases n
  {
    if n > 0 {
      CountBeforeZeroIff(agent, position, prevPosition, time, paths, n - 1);
    }
  }

  /** The heuristic is zero exactly when no other agent conflicts with the move. */
  lemma ConflictCountZeroIff(agent: nat, position: Cell, prevPosition: Cell, time: nat, paths: seq<Path>)
    requires time > 0 && OthersNonEmpty(agent, paths, |paths|)
    ensures ConflictCount(agent, position, prevPosition, time, paths) == 0
        <==> NoConflictBefore(agent, position, prevPosition, time, paths, |paths|)
  {
    CountBeforeZeroIff(agent, position, prevPosition, time, paths, |paths|);
  }

  // ---------------------------------------------------------------------------
  // construct_path
  // ---------------------------------------------------------------------------

  /**
   * The trace has no cycle: every recorded predecessor has a smaller rank (the searches
   * record the predecessor with the smaller cost so far).
   */
  ghost predicate Ranked<S>(trace: map<S, S>, rank: S -> nat) {
    forall s :: s in trace ==> rank(trace[s]) < rank(s)
  }

  /**
   * The states met walking the trace back from `current`, listed start first: the first
   * has no trace entry and the last is `current`.
   */
  ghost function Chain<S>(trace: map<S, S>, current: S, rank: S -> nat): (ks: seq<S>)
    requires Ranked(trace, rank)
    ensures |ks| > 0 && ks[|ks| - 1] == current
    decreases rank(current)
  {
    if current in trace then Chain(trace, trace[current], rank) + [current] else [current]
  }

  /** The state at `j` was reached from the state just before it. */
  predicate LinkedAt<S>(trace: map<S, S>, ks: seq<S>, j: nat)
    requires 0 < j < |ks|
  {
    ks[j] in trace && trace[ks[j]] == ks[j - 1]
  }

  /** The chain starts at a state with no trace entry, and each state's predecessor in the trace comes just before it. */
  lemma {:induction false} ChainFollowsTrace<S>(trace: map<S, S>, current: S, rank: S -> nat)
    requires Ranked(trace, rank)
    ensures var ks := Chain(trace, current, rank);
      ks[0] !in trace && forall j :: 0 < j < |ks| ==> LinkedAt(trace, ks, j)
    decreases rank(current)
  {
    if current in trace {
      var rest := Chain(trace, trace[current], rank);
      ChainFollowsTrace(trace, trace[current], rank);
      var ks := Chain(trace, current, rank);
      assert ks == rest + [current];
      assert ks[0] == rest[0];
      forall j | 0 < j < |ks|
        ensures LinkedAt(trace, ks, j)
      {
        if j < |rest| {
          assert LinkedAt(trace, rest, j);
          assert ks[j] == rest[j] && ks[j - 1] == rest[j - 1];
        } else {
          assert ks[j] == current && ks[j - 1] == rest[|rest| - 1];
        }
      }
    }
  }

  function CellsOf(ks: seq<State>): (cs: seq<Cell>)
    ensures |cs| == |ks| && forall i :: 0 <= i < |ks| ==> cs[i] == ks[i].0
  {
    seq(|ks|, i requires 0 <= i < |ks| => ks[i].0)
  }

  function Reversed<T>(s: seq<T>): (r: seq<T>)
    ensures |r| == |s| && forall i :: 0 <= i < |s| ==> r[i] == s[|s| - 1 - i]
  {
    if s == [] then [] else Reversed(s[1..]) + [s[0]]
  }

  /**
   * `construct_path`: pushes the cells met walking the trace back from `current`, then
   * reverses them, so the path runs start first and ends at `current`'s cell.
   */
  method ConstructPath(trace: Trace, current: State, ghost rank: State -> nat) returns (path: Path)
    requires Ranked(trace, rank)
    ensures path == CellsOf(Chain(trace, current, rank))
  {
    var cur := current;
    ghost var walked: seq<State> := [];
    path := [cur.0];
    while cur in trace
      invariant path == CellsOf(walked) + [cur.0]
      invariant Chain(trace, current, rank) == Chain(trace, cur, rank) + Reversed(walked)
      decreases rank(cur)
    {
      var next := trace[cur];
      assert Chain(trace, cur, rank) == Chain(trace, next, rank) + [cur];
      assert Reversed(walked + [cur]) == [cur] + Reversed(walked);
      assert CellsOf(walked + [cur]) == CellsOf(walked) + [cur.0];
      walked := walked + [cur];
      path := path + [next.0];
      cur := next;
    }
    assert Reversed(path) == CellsOf([cur] + Reversed(walked));
    path := Reversed(path);
  }

  /** Without a trace entry for `current` the path is that single cell. */
  lemma ConstructPathUntraced(trace: Trace, current: State, rank: State -> nat)
    requires Ranked(trace, rank) && current !in trace
    ensures CellsOf(Chain(trace, current, rank)) == [current.0]
  {
  }
}
