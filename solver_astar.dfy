/**
 * The time-expanded A* of the earlier solver snapshot (src/solver/algorithm/astar.rs). A
 * search state is a cell and a time step; with unit moves a node's g cost and time step
 * are always equal. The open list is a `BinaryHeap` of `CommLowLevel` nodes, kept here as
 * a sequence from which a greatest node (the lowest f) is taken; which of several equal
 * nodes the heap yields is not modelled (any greatest one may be taken).
 *
 * The map enters as its heuristic table and its neighbour lists, passed in as functions.
 */
module SolverAStar {
  import opened Wrappers
  import opened Ordering
  import opened Common
  import opened CommLowLevel
  import Algorithm
  import AA = AlgorithmAStar
  import SC = SolverCommon

  type State = Algorithm.State

  type Trace = Algorithm.Trace

  /** The constraint this search is given: a cell at a time step. */
  type Constraint = SC.Constraint

  /** `max_time`: the latest time step of any constraint, or 0 without constraints. */
  function MaxTime(cs: set<Constraint>): (t: nat)
    ensures forall c :: c in cs ==> c.timeStep <= t
    ensures cs == {} ==> t == 0
    ensures cs != {} ==> exists c :: c in cs && c.timeStep == t
  {
    if cs == {} then 0
    else
      var times := set c | c in cs :: c.timeStep;
      var c0 :| c0 in cs;
      assert c0.timeStep in times;
      AA.MaxExists(times);
      var m :| m in times && forall x :: x in times ==> x <= m;
      assert forall c :: c in cs ==> c.timeStep in times;
      m
  }

  /** What the search is given: the agent, the heuristic table, the neighbour lists and the constraints. */
  datatype Env = Env(agent: Agent, heuristic: Cell -> nat, neighbors: Cell -> seq<Cell>, constraints: set<Constraint>)

  /** `to` is a listed neighbour of `from`, and being there at time `t` is not constrained. */
  predicate Moves(env: Env, from: Cell, to: Cell, t: nat) {
    to in env.neighbors(from) && SC.Constraint(to, t) !in env.constraints
  }

  /** A path from the agent's start whose every step is a move into an unconstrained (cell, time). */
  ghost predicate IsPlan(env: Env, p: Path) {
    |p| > 0 && p[0] == env.agent.start && forall t :: 0 < t < |p| ==> Moves(env, p[t - 1], p[t], t)
  }

  /** A returned path is a plan that reaches the goal after the last constrained time step. */
  ghost predicate Delivers(env: Env, p: Path) {
    IsPlan(env, p) && p[|p| - 1] == env.agent.goal && |p| - 1 > MaxTime(env.constraints)
  }

  // ---------------------------------------------------------------------------
  // The trace

  /** A trace entry links a state to a reached state one time step earlier by a move. */
  predicate LinkOk(env: Env, trace: Trace, st: State)
    requires st in trace
  {
    var p := trace[st];
    st.1 == p.1 + 1 && Moves(env, p.0, st.0, st.1)
    && (p.1 == 0 ==> p.0 == env.agent.start) && (p.1 > 0 ==> p in trace)
  }

  ghost predicate TraceOk(env: Env, trace: Trace) {
    forall st {:trigger LinkOk(env, trace, st)} :: st in trace ==> LinkOk(env, trace, st)
  }

  /** A state the search has reached: the start at time 0, or a traced state. */
  predicate Reached(env: Env, trace: Trace, st: State) {
    if st.1 == 0 then st.0 == env.agent.start else st in trace
  }

  lemma TraceRanked(env: Env, trace: Trace)
    requires TraceOk(env, trace)
    ensures Algorithm.Ranked(trace, AA.G)
  {
    forall st | st in trace ensures AA.G(trace[st]) < AA.G(st) {
      assert LinkOk(env, trace, st);
    }
  }

  /** The path rebuilt for a reached state is a plan of one cell per time step, ending there. */
  lemma {:induction false} PlanOfReached(env: Env, trace: Trace, st: State)
    requires TraceOk(env, trace) && Reached(env, trace, st)
    ensures var p := AA.PlanOf(trace, st);
      IsPlan(env, p) && |p| == st.1 + 1 && p[|p| - 1] == st.0
    decreases st.1
  {
    TraceRanked(env, trace);
    var ks := Algorithm.Chain(trace, st, AA.G);
    var p := Algorithm.CellsOf(ks);
    if st.1 == 0 {
      assert st !in trace;
      assert ks == [st];
    } else {
      assert LinkOk(env, trace, st);
      var prev := trace[st];
      PlanOfReached(env, trace, prev);
      var ks0 := Algorithm.Chain(trace, prev, AA.G);
      var p0 := Algorithm.CellsOf(ks0);
      assert ks == ks0 + [st];
      assert p == p0 + [st.0];
      forall t | 0 < t < |p| ensures Moves(env, p[t - 1], p[t], t) {
        if t < |p0| {
          assert p[t - 1] == p0[t - 1] && p[t] == p0[t];
        } else {
          assert p[t - 1] == prev.0 && p[t] == st.0;
        }
      }
    }
  }

  /** Recording a move from a reached state keeps the trace legal. */
  lemma TraceGrows(env: Env, trace: Trace, n: Cell, t: nat, from: Cell)
    requires TraceOk(env, trace) && t > 0 && Moves(env, from, n, t) && Reached(env, trace, (from, t - 1))
    ensures TraceOk(env, trace[(n, t) := (from, t - 1)])
  {
    var tr := trace[(n, t) := (from, t - 1)];
    forall st | st in tr ensures LinkOk(env, tr, st) {
      if st != (n, t) {
        assert LinkOk(env, trace, st);
      }
    }
  }

  // ---------------------------------------------------------------------------
  // Search state

  /** The heap, the closed states, the trace and the best known g cost of each state. */
  datatype Search = Search(open: seq<LowLevelNode>, close: set<State>, trace: Trace, gCost: map<State, nat>)

  /** A waiting node was reached, and its g cost is its time step. */
  predicate NodeOk(env: Env, trace: Trace, n: LowLevelNode) {
    n.gCost == n.time && Reached(env, trace, (n.position, n.time))
  }

  predicate NodeAt(env: Env, s: Search, i: nat)
    requires i < |s.open|
  {
    NodeOk(env, s.trace, s.open[i])
  }

  /** A recorded g cost is the state's time step. */
  predicate CostAt(s: Search, st: State)
    requires st in s.gCost
  {
    s.gCost[st] == st.1
  }

  /** The trace is legal, every waiting node was reached, and every g cost is its time step. */
  ghost predicate Inv(env: Env, s: Search) {
    TraceOk(env, s.trace)
    && (forall i {:trigger NodeAt(env, s, i)} :: 0 <= i < |s.open| ==> NodeAt(env, s, i))
    && (forall st {:trigger CostAt(s, st)} :: st in s.gCost ==> CostAt(s, st))
  }

  /** The node pushed for `position` reached at cost and time `g`. */
  function NodeFor(env: Env, position: Cell, g: nat): (n: LowLevelNode)
    ensures n.position == position && n.gCost == g && n.time == g && n.fCost == g + env.heuristic(position)
  {
    LowLevelNode(position, g + env.heuristic(position), g, env.heuristic(position), None, g)
  }

  /** `g_cost.get(..).unwrap_or(usize::MAX)`. */
  function CostOr(gCost: map<State, nat>, st: State): nat {
    if st in gCost then gCost[st] else UsizeMax
  }

  /**
   * The neighbour `n` of the node `cur` is pushed: its (cell, next time) is not closed, no
   * constraint names it, and the tentative cost beats the best recorded one.
   */
  predicate Improves(env: Env, s: Search, cur: LowLevelNode, n: Cell) {
    var t := cur.time + 1;
    (n, t) !in s.close && SC.Constraint(n, t) !in env.constraints && cur.gCost + 1 < CostOr(s.gCost, (n, t))
  }

  /**
   * Trace and g cost change only on a strict improvement, and since a recorded g cost is
   * the state's own time step, that happens exactly for a state never recorded before:
   * each state is traced and pushed at most once.
   */
  lemma ImprovesOnlyWhenNew(env: Env, s: Search, cur: LowLevelNode, n: Cell)
    requires Inv(env, s) && NodeOk(env, s.trace, cur)
    ensures Improves(env, s, cur, n) <==>
      var t := cur.time + 1;
      (n, t) !in s.close && SC.Constraint(n, t) !in env.constraints && (n, t) !in s.gCost && t < UsizeMax
  {
    var t := cur.time + 1;
    if (n, t) in s.gCost {
      assert CostAt(s, (n, t));
    }
  }

  // ---------------------------------------------------------------------------
  // The search

  /** The index of a greatest node of the heap: what `BinaryHeap::pop` removes. */
  method PopIndex(open: seq<LowLevelNode>) returns (i: nat)
    requires |open| > 0
    ensures i < |open| && forall k :: 0 <= k < |open| ==> Cmp(open[k], open[i]) != Greater
  {
    i := 0;
    var k := 1;
    while k < |open|
      invariant i < k <= |open|
      invariant forall j :: 0 <= j < k ==> Cmp(open[j], open[i]) != Greater
    {
      if Cmp(open[k], open[i]) == Greater {
        i := k;
      }
      k := k + 1;
    }
  }

  /** The node popped has the lowest f of the heap. */
  lemma PoppedIsLowest(open: seq<LowLevelNode>, i: nat)
    requires i < |open| && forall k :: 0 <= k < |open| ==> Cmp(open[k], open[i]) != Greater
    ensures forall k :: 0 <= k < |open| ==> open[i].fCost <= open[k].fCost
  {
    forall k | 0 <= k < |open| ensures open[i].fCost <= open[k].fCost {
      OrderReversedOnF(open[k], open[i]);
    }
  }

  /** The heap without its node at `i`, whose state is closed. */
  function Popped(s: Search, i: nat): (r: Search)
    requires i < |s.open|
    ensures multiset(r.open) + multiset{s.open[i]} == multiset(s.open)
    ensures r.close == s.close + {(s.open[i].position, s.open[i].time)} && r.trace == s.trace && r.gCost == s.gCost
  {
    assert s.open == s.open[..i] + [s.open[i]] + s.open[i + 1..];
    s.(open := s.open[..i] + s.open[i + 1..], close := s.close + {(s.open[i].position, s.open[i].time)})
  }

  /** Popping keeps the invariant, and the popped node was reached. */
  lemma PopKeeps(env: Env, s: Search, i: nat)
    requires Inv(env, s) && i < |s.open|
    ensures Inv(env, Popped(s, i)) && NodeOk(env, s.trace, s.open[i])
  {
    var r := Popped(s, i);
    assert NodeAt(env, s, i);
    forall k | 0 <= k < |r.open| ensures NodeAt(env, r, k) {
      var j := if k < i then k else k + 1;
      assert r.open[k] == s.open[j];
      assert NodeAt(env, s, j);
    }
    forall st | st in r.gCost ensures CostAt(r, st) {
      assert CostAt(s, st);
    }
  }

  /**
   * One neighbour: when it improves, the trace links it back to `cur`, its g cost is
   * recorded and its node is pushed; otherwise nothing changes.
   */
  method VisitNeighbor(env: Env, cur: LowLevelNode, s: Search, n: Cell) returns (r: Search)
    requires Inv(env, s) && NodeOk(env, s.trace, cur) && n in env.neighbors(cur.position)
    ensures Inv(env, r) && NodeOk(env, r.trace, cur) && r.close == s.close
    ensures Improves(env, s, cur, n) ==>
      var t := cur.time + 1;
      r == Search(s.open + [NodeFor(env, n, cur.gCost + 1)], s.close,
                  s.trace[(n, t) := (cur.position, cur.time)], s.gCost[(n, t) := cur.gCost + 1])
    ensures !Improves(env, s, cur, n) ==> r == s
  {
    var nextTime := cur.time + 1;
    var tentative := cur.gCost + 1;
    if (n, nextTime) in s.close || SC.Constraint(n, nextTime) in env.constraints {
      return s;
    }
    if tentative < CostOr(s.gCost, (n, nextTime)) {
      TraceGrows(env, s.trace, n, nextTime, cur.position);
      var node := NodeFor(env, n, tentative);
      r := Search(s.open + [node], s.close, s.trace[(n, nextTime) := (cur.position, cur.time)],
                  s.gCost[(n, nextTime) := tentative]);
      forall i | 0 <= i < |r.open| ensures NodeAt(env, r, i) {
        if i < |s.open| {
          assert NodeAt(env, s, i);
        }
      }
      forall st | st in r.gCost ensures CostAt(r, st) {
        if st != (n, nextTime) {
          assert CostAt(s, st);
        }
      }
      return r;
    }
    return s;
  }

  /** The neighbours of `cur` visited in order. */
  method Expand(env: Env, s0: Search, cur: LowLevelNode) returns (s: Search)
    requires Inv(env, s0) && NodeOk(env, s0.trace, cur)
    ensures Inv(env, s) && s.close == s0.close
  {
    s := s0;
    var ns := env.neighbors(cur.position);
    for i := 0 to |ns|
      invariant Inv(env, s) && NodeOk(env, s.trace, cur) && s.close == s0.close
    {
      s := VisitNeighbor(env, cur, s, ns[i]);
    }
  }

  /** The start node: at the start, cost and time 0, sorted by the start's heuristic. */
  function StartSearch(env: Env): (s: Search)
    ensures Inv(env, s)
  {
    Search([NodeFor(env, env.agent.start, 0)], {}, map[], map[(env.agent.start, 0) := 0])
  }

  /**
   * `a_star_search`, for at most `fuel` pops (each adds one to `low_level_expand_nodes`,
   * counted in `expanded`). A returned path starts at the start, moves along listed
   * neighbours into unconstrained (cell, time) pairs only, and ends at the goal after the
   * last constrained time step; the second component is always `None`. The search cannot
   * panic.
   */
  method AStarSearch(env: Env, fuel: nat) returns (r: Ending<Option<(Path, Option<nat>)>>, expanded: nat)
    ensures expanded <= fuel && (r.OutOfFuel? ==> expanded == fuel) && !r.Panics?
    ensures r.Returns? && r.value.Some? ==> Delivers(env, r.value.value.0) && r.value.value.1 == None
  {
    var maxTime := MaxTime(env.constraints);
    var s := StartSearch(env);
    expanded := 0;
    while |s.open| > 0 && expanded < fuel
      invariant Inv(env, s) && expanded <= fuel
      decreases fuel - expanded
    {
      var i := PopIndex(s.open);
      var current := s.open[i];
      assert NodeAt(env, s, i);
      PopKeeps(env, s, i);
      s := Popped(s, i);
      expanded := expanded + 1;
      if current.position == env.agent.goal && current.time > maxTime {
        TraceRanked(env, s.trace);
        var path := Algorithm.ConstructPath(s.trace, (current.position, current.time), AA.G);
        PlanOfReached(env, s.trace, (current.position, current.time));
        return Returns(Some((path, None))), expanded;
      }
      s := Expand(env, s, current);
    }
    if |s.open| == 0 {
      return Returns(None), expanded;
    }
    return OutOfFuel, expanded;
  }

  /** A returned path has at least two cells, even when the agent starts on its goal. */
  lemma DeliveredMoves(env: Env, p: Path)
    requires Delivers(env, p)
    ensures |p| >= 2
  {
  }

  /**
   * A constraint on the goal at time `t` forces arrival after `t`: the returned path has
   * more than `t + 1` cells.
   */
  lemma GoalConstraintDelays(env: Env, p: Path, t: nat)
    requires Delivers(env, p) && SC.Constraint(env.agent.goal, t) in env.constraints
    ensures |p| >= t + 2
  {
  }
}
