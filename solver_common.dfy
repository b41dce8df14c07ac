/**
 * The first high-level node of the repository (src/solver/common.rs): paths and
 * constraints kept in maps keyed by agent id, conflicts only at shared cells, and a
 * reference to the parent node a child was made from.
 */
module SolverCommon {
  import opened Wrappers
  import opened Ordering
  import opened Common

  // ---------------------------------------------------------------------------
  // Low-level node

  datatype LowLevelNode = LowLevelNode(position: Cell, fCost: nat, gCost: nat)

  /** `Ord for LowLevelNode`: both comparisons reversed, so a max-heap pops the lowest f first. */
  function CmpLow(a: LowLevelNode, b: LowLevelNode): Ordering {
    Then(CmpNat(b.fCost, a.fCost), CmpNat(b.gCost, a.gCost))
  }

  /**
   * A smaller f cost ranks greater; at equal f the smaller g ranks greater; nodes compare
   * Equal exactly when f and g agree, whatever their positions.
   */
  lemma LowOrderReversed(a: LowLevelNode, b: LowLevelNode)
    ensures a.fCost < b.fCost ==> CmpLow(a, b) == Greater
    ensures a.fCost == b.fCost && a.gCost < b.gCost ==> CmpLow(a, b) == Greater
    ensures CmpLow(a, b) == Equal <==> a.fCost == b.fCost && a.gCost == b.gCost
    ensures CmpLow(a, b) == Reverse(CmpLow(b, a))
  {
  }

  // ---------------------------------------------------------------------------
  // Sums over maps keyed by agent id

  /** The sum of `f` over the values of `m`, in no particular order. */
  ghost function MapSum<V>(m: map<nat, V>, f: V -> nat): nat
    decreases |m.Keys|
  {
    if m == map[] then 0
    else
      var k :| k in m;
      assert (m - {k}).Keys == m.Keys - {k};
      f(m[k]) + MapSum(m - {k}, f)
  }

  /** Any key can be taken out first. */
  lemma {:induction false} MapSumRemove<V>(m: map<nat, V>, f: V -> nat, k: nat)
    requires k in m
    ensures MapSum(m, f) == f(m[k]) + MapSum(m - {k}, f)
    decreases |m.Keys|
  {
    var j :| j in m && MapSum(m, f) == f(m[j]) + MapSum(m - {j}, f);
    if j != k {
      assert (m - {j}).Keys == m.Keys - {j};
      assert (m - {k}).Keys == m.Keys - {k};
      MapSumRemove(m - {j}, f, k);
      MapSumRemove(m - {k}, f, j);
      assert (m - {j}) - {k} == (m - {k}) - {j};
    }
  }

  /** Replacing or adding one value changes the sum by the difference. */
  lemma MapSumUpdate<V>(m: map<nat, V>, f: V -> nat, k: nat, v: V)
    ensures MapSum(m[k := v], f) == MapSum(m, f) - (if k in m then f(m[k]) else 0) + f(v)
  {
    MapSumRemove(m[k := v], f, k);
    assert m[k := v] - {k} == m - {k};
    if k in m {
      MapSumRemove(m, f, k);
    } else {
      assert m - {k} == m;
    }
  }

  // ---------------------------------------------------------------------------
  // High-level node

  datatype Conflict = Conflict(agent1: nat, agent2: nat, position: Cell, timeStep: nat)

  datatype Constraint = Constraint(position: Cell, timeStep: nat)

  datatype HighLevelNode = HighLevelNode(
    agents: seq<Agent>,
    constraints: map<nat, set<Constraint>>,
    paths: map<nat, Path>,
    cost: nat,
    parent: Option<HighLevelNode>)

  /** The search of this module: start, goal and constraints in, maybe a path out. */
  type Search = (Cell, Cell, set<Constraint>) -> Option<Path>

  ghost function ConstraintCount(n: HighLevelNode): nat {
    MapSum(n.constraints, (s: set<Constraint>) => |s|)
  }

  ghost function LengthSum(paths: map<nat, Path>): nat {
    MapSum(paths, (p: Path) => |p|)
  }

  /** `Ord for HighLevelNode`: lower cost ranks greater, then more constraints rank greater. */
  ghost function CmpHigh(a: HighLevelNode, b: HighLevelNode): Ordering {
    Then(CmpNat(b.cost, a.cost), CmpNat(ConstraintCount(a), ConstraintCount(b)))
  }

  lemma HighOrderCostThenConstraints(a: HighLevelNode, b: HighLevelNode)
    ensures a.cost < b.cost ==> CmpHigh(a, b) == Greater
    ensures a.cost == b.cost && ConstraintCount(a) > ConstraintCount(b) ==> CmpHigh(a, b) == Greater
    ensures CmpHigh(a, b) == Equal <==> a.cost == b.cost && ConstraintCount(a) == ConstraintCount(b)
    ensures CmpHigh(a, b) == Reverse(CmpHigh(b, a))
  {
  }

  // ---------------------------------------------------------------------------
  // The root

  /** The paths `new` keeps: each agent's found path under its id, a later agent winning. */
  function FoundPaths(agents: seq<Agent>, search: Search): map<nat, Path>
    decreases |agents|
  {
    if |agents| == 0 then map[]
    else
      var last := agents[|agents| - 1];
      var prev := FoundPaths(agents[..|agents| - 1], search);
      match search(last.start, last.goal, {})
      case None => prev
      case Some(p) => prev[last.id := p]
  }

  /** The total `new` accumulates: full path lengths of the agents whose search succeeded. */
  function FoundLengths(agents: seq<Agent>, search: Search): nat
    decreases |agents|
  {
    if |agents| == 0 then 0
    else
      var last := agents[|agents| - 1];
      FoundLengths(agents[..|agents| - 1], search) +
        match search(last.start, last.goal, {}) case None => 0 case Some(p) => |p|
  }

  /** `HighLevelNode::new`. */
  method New(agents: seq<Agent>, search: Search) returns (n: HighLevelNode)
    ensures n.agents == agents && n.constraints == map[] && n.parent == None
    ensures n.paths == FoundPaths(agents, search) && n.cost == FoundLengths(agents, search)
  {
    var paths: map<nat, Path> := map[];
    var totalCost := 0;
    var k := 0;
    while k < |agents|
      invariant 0 <= k <= |agents|
      invariant paths == FoundPaths(agents[..k], search)
      invariant totalCost == FoundLengths(agents[..k], search)
    {
      var agent := agents[k];
      assert agents[..k + 1][..k] == agents[..k];
      var found := search(agent.start, agent.goal, {});
      if found.Some? {
        totalCost := totalCost + |found.value|;
        paths := paths[agent.id := found.value];
      }
      k := k + 1;
    }
    assert agents[..|agents|] == agents;
    n := HighLevelNode(agents, map[], paths, totalCost, None);
  }

  /** An agent has a path in the root exactly when some agent with its id was found one. */
  lemma {:induction false} FoundPathsKeys(agents: seq<Agent>, search: Search, id: nat)
    ensures id in FoundPaths(agents, search) <==>
      exists t :: 0 <= t < |agents| && agents[t].id == id && search(agents[t].start, agents[t].goal, {}).Some?
    decreases |agents|
  {
    if |agents| > 0 {
      var init := agents[..|agents| - 1];
      FoundPathsKeys(init, search, id);
      assert forall t :: 0 <= t < |init| ==> init[t] == agents[t];
    }
  }

  /**
   * With distinct ids each found agent's path is stored under its id, and the root's cost
   * is the sum of the full lengths of the stored paths (one more per agent than its moves).
   */
  lemma {:induction false} FoundPathsDistinct(agents: seq<Agent>, search: Search)
    requires forall s, t :: 0 <= s < t < |agents| ==> agents[s].id != agents[t].id
    ensures forall t :: 0 <= t < |agents| && search(agents[t].start, agents[t].goal, {}).Some? ==>
      agents[t].id in FoundPaths(agents, search) &&
      FoundPaths(agents, search)[agents[t].id] == search(agents[t].start, agents[t].goal, {}).value
    ensures FoundLengths(agents, search) == LengthSum(FoundPaths(agents, search))
    decreases |agents|
  {
    if |agents| > 0 {
      var init := agents[..|agents| - 1];
      var last := agents[|agents| - 1];
      FoundPathsDistinct(init, search);
      var prev := FoundPaths(init, search);
      FoundPathsKeys(init, search, last.id);
      assert forall t :: 0 <= t < |init| ==> init[t].id != last.id;
      var found := search(last.start, last.goal, {});
      if found.Some? {
        MapSumUpdate(prev, (p: Path) => |p|, last.id, found.value);
      }
      forall t | 0 <= t < |agents| && search(agents[t].start, agents[t].goal, {}).Some?
        ensures agents[t].id in FoundPaths(agents, search) &&
          FoundPaths(agents, search)[agents[t].id] == search(agents[t].start, agents[t].goal, {}).value
      {
        if t < |agents| - 1 {
          assert init[t] == agents[t];
        }
      }
    }
  }

  // ---------------------------------------------------------------------------
  // Conflicts

  /** The shared cells of two paths at steps 0 .. s-1. */
  function StepsBefore(p1: Path, p2: Path, a1: nat, a2: nat, s: nat): seq<Conflict>
    requires s <= |p1| && s <= |p2|
  {
    if s == 0 then []
    else
      var here := if p1[s - 1] == p2[s - 1] then [Conflict(a1, a2, p1[s - 1], s - 1)] else [];
      StepsBefore(p1, p2, a1, a2, s - 1) + here
  }

  function MinLength(p1: Path, p2: Path): nat {
    if |p1| <= |p2| then |p1| else |p2|
  }

  /** The key order `detect_conflicts` walks: every key of `paths` exactly once. */
  predicate Enumerates(ids: seq<nat>, paths: map<nat, Path>) {
    (forall k :: 0 <= k < |ids| ==> ids[k] in paths) &&
    (forall k :: k in paths ==> k in ids) &&
    (forall s, t :: 0 <= s < t < |ids| ==> ids[s] != ids[t])
  }

  function PairConflicts(n: HighLevelNode, a1: nat, a2: nat): seq<Conflict>
    requires a1 in n.paths && a2 in n.paths
  {
    StepsBefore(n.paths[a1], n.paths[a2], a1, a2, MinLength(n.paths[a1], n.paths[a2]))
  }

  function PairsBefore(n: HighLevelNode, ids: seq<nat>, i: nat, j: nat): seq<Conflict>
    requires Enumerates(ids, n.paths) && i < j <= |ids|
    decreases j
  {
    if j == i + 1 then [] else PairsBefore(n, ids, i, j - 1) + PairConflicts(n, ids[i], ids[j - 1])
  }

  function RowsBefore(n: HighLevelNode, ids: seq<nat>, i: nat): seq<Conflict>
    requires Enumerates(ids, n.paths) && i <= |ids|
    decreases i
  {
    if i == 0 then [] else RowsBefore(n, ids, i - 1) + PairsBefore(n, ids, i - 1, |ids|)
  }

  /** Everything `detect_conflicts` finds when the map hands out its keys in the order `ids`. */
  function AllConflicts(n: HighLevelNode, ids: seq<nat>): seq<Conflict>
    requires Enumerates(ids, n.paths)
  {
    RowsBefore(n, ids, |ids|)
  }

  /** `c` is a cell that agents `a1` and `a2` occupy at the same index of their paths. */
  predicate SharedBy(n: HighLevelNode, a1: nat, a2: nat, c: Conflict) {
    c.agent1 == a1 && c.agent2 == a2 && a1 in n.paths && a2 in n.paths &&
    c.timeStep < |n.paths[a1]| && c.timeStep < |n.paths[a2]| &&
    n.paths[a1][c.timeStep] == n.paths[a2][c.timeStep] && c.position == n.paths[a1][c.timeStep]
  }

  /** `c` is a shared cell of agent `ids[i]` and an agent after it in the order `ids`. */
  predicate InRow(n: HighLevelNode, ids: seq<nat>, i: nat, c: Conflict)
    requires i < |ids|
  {
    exists j :: i < j < |ids| && SharedBy(n, ids[i], ids[j], c)
  }

  /** `c` is a shared cell of a pair that comes in the order `ids` with its first agent first. */
  predicate Shared(n: HighLevelNode, ids: seq<nat>, c: Conflict) {
    exists i :: 0 <= i < |ids| && InRow(n, ids, i, c)
  }

  /** `HighLevelNode::detect_conflicts`: `None` for no conflict. */
  method DetectConflicts(n: HighLevelNode, ids: seq<nat>) returns (r: Option<seq<Conflict>>)
    requires Enumerates(ids, n.paths)
    ensures r == if AllConflicts(n, ids) == [] then None else Some(AllConflicts(n, ids))
  {
    var conflicts: seq<Conflict> := [];
    var i := 0;
    while i < |ids|
      invariant 0 <= i <= |ids|
      invariant conflicts == RowsBefore(n, ids, i)
    {
      var row := DetectRow(n, ids, i);
      RowsNext(n, ids, i);
      conflicts := conflicts + row;
      i := i + 1;
    }
    assert conflicts == AllConflicts(n, ids);
    if conflicts == [] {
      return None;
    }
    return Some(conflicts);
  }

  /** One more pair of a row of `detect_conflicts`. */
  lemma PairsNext(n: HighLevelNode, ids: seq<nat>, i: nat, j: nat)
    requires Enumerates(ids, n.paths) && i < j < |ids|
    ensures PairsBefore(n, ids, i, j + 1) == PairsBefore(n, ids, i, j) + PairConflicts(n, ids[i], ids[j])
  {
  }

  /** One more row of `detect_conflicts`. */
  lemma RowsNext(n: HighLevelNode, ids: seq<nat>, i: nat)
    requires Enumerates(ids, n.paths) && i < |ids|
    ensures RowsBefore(n, ids, i + 1) == RowsBefore(n, ids, i) + PairsBefore(n, ids, i, |ids|)
  {
  }

  /** The loop over the agents after `ids[i]` of `detect_conflicts`. */
  method DetectRow(n: HighLevelNode, ids: seq<nat>, i: nat) returns (row: seq<Conflict>)
    requires Enumerates(ids, n.paths) && i < |ids|
    ensures row == PairsBefore(n, ids, i, |ids|)
  {
    var j := i + 1;
    row := [];
    while j < |ids|
      invariant i + 1 <= j <= |ids|
      invariant row == PairsBefore(n, ids, i, j)
    {
      var pair := DetectPair(n.paths[ids[i]], n.paths[ids[j]], ids[i], ids[j]);
      row := row + pair;
      j := j + 1;
    }
  }

  /** The step loop of `detect_conflicts` for one pair of agents. */
  method DetectPair(path1: Path, path2: Path, a1: nat, a2: nat) returns (pair: seq<Conflict>)
    ensures pair == StepsBefore(path1, path2, a1, a2, MinLength(path1, path2))
  {
    var minLength := if |path1| <= |path2| then |path1| else |path2|;
    pair := [];
    var step := 0;
    while step < minLength
      invariant 0 <= step <= minLength
      invariant pair == StepsBefore(path1, path2, a1, a2, step)
    {
      if path1[step] == path2[step] {
        pair := pair + [Conflict(a1, a2, path1[step], step)];
      }
      step := step + 1;
    }
  }

  lemma {:induction false} StepsIff(p1: Path, p2: Path, a1: nat, a2: nat, s: nat, c: Conflict)
    requires s <= |p1| && s <= |p2|
    ensures c in StepsBefore(p1, p2, a1, a2, s) <==>
      c.agent1 == a1 && c.agent2 == a2 && c.timeStep < s && p1[c.timeStep] == p2[c.timeStep] && c.position == p1[c.timeStep]
    decreases s
  {
    if s > 0 {
      StepsIff(p1, p2, a1, a2, s - 1, c);
    }
  }

  lemma {:induction false} PairsIff(n: HighLevelNode, ids: seq<nat>, i: nat, j: nat, c: Conflict)
    requires Enumerates(ids, n.paths) && i < j <= |ids|
    ensures c in PairsBefore(n, ids, i, j) <==> exists j' :: i < j' < j && SharedBy(n, ids[i], ids[j'], c)
    decreases j
  {
    if j > i + 1 {
      PairsNext(n, ids, i, j - 1);
      PairsIff(n, ids, i, j - 1, c);
      var a1, a2 := ids[i], ids[j - 1];
      StepsIff(n.paths[a1], n.paths[a2], a1, a2, MinLength(n.paths[a1], n.paths[a2]), c);
      if SharedBy(n, a1, a2, c) {
        assert c in PairConflicts(n, a1, a2);
      }
    }
  }

  /** `c` is a shared cell in one of the rows below `i`. */
  predicate InRows(n: HighLevelNode, ids: seq<nat>, i: nat, c: Conflict)
    requires i <= |ids|
  {
    exists i' :: 0 <= i' < i && InRow(n, ids, i', c)
  }

  /** The rows below `i` hold a shared cell exactly when those below `i - 1` or row `i - 1` do. */
  lemma RowsStep(n: HighLevelNode, ids: seq<nat>, i: nat, c: Conflict)
    requires 0 < i <= |ids|
    ensures InRows(n, ids, i, c) <==> InRows(n, ids, i - 1, c) || InRow(n, ids, i - 1, c)
  {
    if InRows(n, ids, i - 1, c) {
      var i' :| 0 <= i' < i - 1 && InRow(n, ids, i', c);
      assert 0 <= i' < i && InRow(n, ids, i', c);
    } else if InRow(n, ids, i - 1, c) {
      assert 0 <= i - 1 < i && InRow(n, ids, i - 1, c);
    } else {
      forall i' | 0 <= i' < i ensures !InRow(n, ids, i', c) {
        if i' < i - 1 {
          assert !(0 <= i' < i - 1 && InRow(n, ids, i', c));
        }
      }
    }
  }

  lemma {:induction false} RowsIff(n: HighLevelNode, ids: seq<nat>, i: nat, c: Conflict)
    requires Enumerates(ids, n.paths) && i <= |ids|
    ensures c in RowsBefore(n, ids, i) <==> InRows(n, ids, i, c)
    decreases i
  {
    if i > 0 {
      var earlier, row := RowsBefore(n, ids, i - 1), PairsBefore(n, ids, i - 1, |ids|);
      assert RowsBefore(n, ids, i) == earlier + row;
      RowsIff(n, ids, i - 1, c);
      PairsIff(n, ids, i - 1, |ids|, c);
      RowsStep(n, ids, i, c);
    }
  }

  /** A conflict is reported exactly when its two agents share its cell at its step, from step 0 on. */
  lemma ConflictsIff(n: HighLevelNode, ids: seq<nat>, c: Conflict)
    requires Enumerates(ids, n.paths)
    ensures c in AllConflicts(n, ids) <==> Shared(n, ids, c)
  {
    RowsIff(n, ids, |ids|, c);
  }

  /** `detect_conflicts` returns `None` exactly when no two paths share a cell at the same index. */
  lemma NoConflictIffNoSharedCell(n: HighLevelNode, ids: seq<nat>)
    requires Enumerates(ids, n.paths)
    ensures AllConflicts(n, ids) == [] <==>
      forall a1, a2, t: nat :: a1 in n.paths && a2 in n.paths && a1 != a2 && t < |n.paths[a1]| && t < |n.paths[a2]| ==>
        n.paths[a1][t] != n.paths[a2][t]
  {
    if AllConflicts(n, ids) == [] {
      forall a1, a2, t: nat | a1 in n.paths && a2 in n.paths && a1 != a2 && t < |n.paths[a1]| && t < |n.paths[a2]|
        ensures n.paths[a1][t] != n.paths[a2][t]
      {
        if n.paths[a1][t] == n.paths[a2][t] {
          var i :| 0 <= i < |ids| && ids[i] == a1;
          var j :| 0 <= j < |ids| && ids[j] == a2;
          var c := if i < j then Conflict(a1, a2, n.paths[a1][t], t) else Conflict(a2, a1, n.paths[a1][t], t);
          if i < j {
            assert SharedBy(n, ids[i], ids[j], c) && InRow(n, ids, i, c);
          } else {
            assert SharedBy(n, ids[j], ids[i], c) && InRow(n, ids, j, c);
          }
          ConflictsIff(n, ids, c);
        }
      }
    } else {
      var c := AllConflicts(n, ids)[0];
      ConflictsIff(n, ids, c);
    }
  }

  // ---------------------------------------------------------------------------
  // Children

  function Chosen(c: Conflict, resolveFirst: bool): nat {
    if resolveFirst then c.agent1 else c.agent2
  }

  /** The constraints after `entry(a).or_default().insert(..)`. */
  function AddConstraint(cs: map<nat, set<Constraint>>, a: nat, c: Constraint): (r: map<nat, set<Constraint>>)
    ensures r.Keys == cs.Keys + {a} && r[a] == (if a in cs then cs[a] else {}) + {c}
    ensures forall k :: k in cs && k != a ==> r[k] == cs[k]
  {
    cs[a := (if a in cs then cs[a] else {}) + {c}]
  }

  /** `HighLevelNode::update_constraint`: the parent itself when the search fails. */
  method UpdateConstraint(n: HighLevelNode, conflict: Conflict, resolveFirst: bool, search: Search)
    returns (r: Result<HighLevelNode, Panic>)
    ensures var a := Chosen(conflict, resolveFirst);
      var cs := AddConstraint(n.constraints, a, Constraint(conflict.position, conflict.timeStep));
      var oldLength := if a in n.paths then |n.paths[a]| else 0;
      if a >= |n.agents| then r == Err(IndexOutOfBounds)
      else
        var found := search(n.agents[a].start, n.agents[a].goal, cs[a]);
        if found.None? then r == Ok(n)
        else if n.cost < oldLength then r == Err(SubtractOverflow)
        else r == Ok(HighLevelNode(n.agents, cs, n.paths[a := found.value], n.cost - oldLength + |found.value|, Some(n)))
  {
    var newConstraints := n.constraints;
    var newPaths := n.paths;
    var agentToUpdate := Chosen(conflict, resolveFirst);
    newConstraints := AddConstraint(newConstraints, agentToUpdate, Constraint(conflict.position, conflict.timeStep));
    var constraintsForAgent := newConstraints[agentToUpdate];
    if agentToUpdate >= |n.agents| {
      return Err(IndexOutOfBounds);
    }
    var agent := n.agents[agentToUpdate];
    var newPath := search(agent.start, agent.goal, constraintsForAgent);
    if newPath.None? {
      return Ok(n);
    }
    var oldPathLength := if agentToUpdate in newPaths then |newPaths[agentToUpdate]| else 0;
    newPaths := newPaths[agentToUpdate := newPath.value];
    var newPathLength := |newPaths[agentToUpdate]|;
    if n.cost < oldPathLength {
      return Err(SubtractOverflow);
    }
    var newCost := n.cost - oldPathLength + newPathLength;
    return Ok(HighLevelNode(n.agents, newConstraints, newPaths, newCost, Some(n)));
  }

  /**
   * When the cost is the sum of the path lengths, a successful child keeps it so, without
   * overflow, and has one more constraint unless the new one was already there.
   */
  lemma ChildKeepsCostAndCountsConstraint(n: HighLevelNode, conflict: Conflict, resolveFirst: bool, p: Path)
    requires n.cost == LengthSum(n.paths)
    ensures var a := Chosen(conflict, resolveFirst);
      var c := Constraint(conflict.position, conflict.timeStep);
      var cs := AddConstraint(n.constraints, a, c);
      var oldLength := if a in n.paths then |n.paths[a]| else 0;
      n.cost >= oldLength &&
      n.cost - oldLength + |p| == LengthSum(n.paths[a := p]) &&
      MapSum(cs, (s: set<Constraint>) => |s|) ==
        ConstraintCount(n) + (if a in n.constraints && c in n.constraints[a] then 0 else 1)
  {
    var a := Chosen(conflict, resolveFirst);
    var c := Constraint(conflict.position, conflict.timeStep);
    var size := (s: set<Constraint>) => |s|;
    MapSumUpdate(n.paths, (q: Path) => |q|, a, p);
    if a in n.paths {
      MapSumRemove(n.paths, (q: Path) => |q|, a);
    }
    var before := if a in n.constraints then n.constraints[a] else {};
    MapSumUpdate(n.constraints, size, a, before + {c});
    if c !in before {
      assert |before + {c}| == |before| + 1;
    } else {
      assert before + {c} == before;
    }
  }
}
