/**
 * The time-expanded A* searches of src/algorithm/astar.rs. A search state is a cell and a
 * time step; the open list is a `BTreeSet` of nodes in the open (or focal) order, which is
 * kept here as a map from each node's order key to the node, so that inserting a node
 * whose key is present changes nothing, as `BTreeSet::insert` does.
 *
 * Each search is given as a specification function that runs the loop for at most `fuel`
 * expansions, and as a method proved to compute it. What this snapshot does not define
 * (the three-argument `Constraint::is_violated`, `Map::get_neighbors` with its wait flag,
 * the map's heuristic table and `construct_mdd`) is passed in.
 */
module AlgorithmAStar {
  import opened Wrappers
  import opened Ordering
  import opened Common
  import opened CommonLowLevel
  import Algorithm

  type State = Algorithm.State

  type Trace = Algorithm.Trace

  /** The constraint these searches take: a vertex at a time step, or an edge into a time step. */
  datatype Constraint =
    | Vertex(position: Cell, timeStep: nat, isPermanent: bool)
    | Edge(fromPosition: Cell, toPosition: Cell, toTimeStep: nat)

  /** The time step a constraint speaks about. */
  function LimitOf(c: Constraint): nat {
    match c
    case Vertex(_, t, _) => t
    case Edge(_, _, t) => t
  }

  lemma {:induction false} MaxExists(s: set<nat>)
    requires s != {}
    ensures exists m :: m in s && forall x :: x in s ==> x <= m
    decreases |s|
  {
    var y :| y in s;
    if s != {y} {
      MaxExists(s - {y});
      var m :| m in s - {y} && forall x :: x in s - {y} ==> x <= m;
      if y > m {
        forall x | x in s ensures x <= y {
          if x != y { assert x in s - {y}; }
        }
      } else {
        forall x | x in s ensures x <= m {
          if x != y { assert x in s - {y}; }
        }
      }
    }
  }

  /** The constraint limit: the latest time step of any constraint, or 0 without constraints. */
  function ConstraintLimit(cs: set<Constraint>): (t: nat)
    ensures forall c :: c in cs ==> LimitOf(c) <= t
    ensures cs == {} ==> t == 0
    ensures cs != {} ==> exists c :: c in cs && LimitOf(c) == t
  {
    if cs == {} then 0
    else
      var times := set c | c in cs :: LimitOf(c);
      var c0 :| c0 in cs;
      assert LimitOf(c0) in times;
      MaxExists(times);
      var m :| m in times && forall x :: x in times ==> x <= m;
      assert forall c :: c in cs ==> LimitOf(c) in times;
      assert exists c :: c in cs && LimitOf(c) == m;
      m
  }

  /**
   * What a search is given: the agent, its heuristic table, the neighbour function (the
   * flag says whether waiting is offered), the violation test, the constraints, the
   * path-length constraint and the constraint limit time step.
   */
  datatype Env = Env(
    agent: Agent,
    heuristic: Cell -> nat,
    neighbors: (Cell, bool) -> seq<Cell>,
    violated: (Constraint, Cell, Cell, nat) -> bool,
    constraints: set<Constraint>,
    pathLengthConstraint: nat,
    limit: nat)

  /** Some constraint forbids moving from `from` to `to` arriving at cost `g`. */
  predicate Violates(env: Env, from: Cell, to: Cell, g: nat) {
    exists c :: c in env.constraints && env.violated(c, from, to, g)
  }

  /** `to` is offered as a neighbour of `from`, and arriving there at time `t` breaks no constraint. */
  predicate Moves(env: Env, from: Cell, to: Cell, t: nat) {
    (to in env.neighbors(from, true) || to in env.neighbors(from, false)) && !Violates(env, from, to, t)
  }

  /** A path from the agent's start in which every step is a move that breaks no constraint. */
  ghost predicate IsPlan(env: Env, p: Path) {
    |p| > 0 && p[0] == env.agent.start && forall t :: 0 < t < |p| ==> Moves(env, p[t - 1], p[t], t)
  }

  /** The rank the trace decreases along: the cost of a state. */
  function G(st: State): nat { st.1 }

  /** A trace entry links a state to a reached state one step cheaper by a legal move. */
  predicate LinkOk(env: Env, trace: Trace, st: State)
    requires st in trace
  {
    var p := trace[st];
    st.1 == p.1 + 1 && Moves(env, p.0, st.0, st.1)
    && (p.1 == 0 ==> p.0 == env.agent.start) && (p.1 > 0 ==> p in trace)
  }

  ghost predicate TraceOk(env: Env, trace: Trace) {
    forall st {:trigger LinkOk(env, trace, st)} :: st in trace ==> LinkOk(env, trace, st)
  }

  /** A state the search has reached: the start at cost 0, or a traced state. */
  predicate Reached(env: Env, trace: Trace, st: State) {
    if st.1 == 0 then st.0 == env.agent.start else st in trace
  }

  lemma TraceRanked(env: Env, trace: Trace)
    requires TraceOk(env, trace)
    ensures Algorithm.Ranked(trace, G)
  {
    forall st | st in trace ensures G(trace[st]) < G(st) {
      assert LinkOk(env, trace, st);
    }
  }

  /** The path `construct_path` rebuilds for `st`. */
  ghost function PlanOf(trace: Trace, st: State): Path {
    if Algorithm.Ranked(trace, G) then Algorithm.CellsOf(Algorithm.Chain(trace, st, G)) else []
  }

  /** The path rebuilt for a reached state is a plan of one cell per time step, ending there. */
  lemma {:induction false} PlanOfReached(env: Env, trace: Trace, st: State)
    requires TraceOk(env, trace) && Reached(env, trace, st)
    ensures var p := PlanOf(trace, st);
      IsPlan(env, p) && |p| == st.1 + 1 && p[|p| - 1] == st.0
    decreases st.1
  {
    TraceRanked(env, trace);
    var ks := Algorithm.Chain(trace, st, G);
    var p := Algorithm.CellsOf(ks);
    if st.1 == 0 {
      assert st !in trace;
      assert ks == [st];
    } else {
      assert LinkOk(env, trace, st);
      var prev := trace[st];
      PlanOfReached(env, trace, prev);
      var ks0 := Algorithm.Chain(trace, prev, G);
      var p0 := Algorithm.CellsOf(ks0);
      assert ks == ks0 + [st];
      assert p == p0 + [st.0];
      forall t | 0 < t < |p| ensures Moves(env, p[t - 1], p[t], t) {
        if t < |p0| {
          assert p[t - 1] == p0[t - 1] && p[t] == p0[t];
        } else {
          assert p[t - 1] == prev.0 && p[t] == st.0;
        }
      }
    }
  }

  // ---------------------------------------------------------------------------
  // Search states
  // ---------------------------------------------------------------------------

  /** The list of waiting nodes by order key, the closed (cell, time step) pairs and the trace. */
  datatype Search = Search(list: map<Key, LowLevelNode>, closed: set<State>, trace: Trace)

  /** The time step after a move: it advances until it passes the constraint limit, then stays. */
  function NextTime(limit: nat, t: nat): nat {
    if t > limit then t else t + 1
  }

  /** The time step of a node reached at cost `g`. */
  function TimeAt(limit: nat, g: nat): nat {
    if g <= limit + 1 then g else limit + 1
  }

  /** Advancing the time step of a node reached at cost `g` gives the time step of cost `g + 1`. */
  lemma NextTimeAt(limit: nat, g: nat)
    ensures NextTime(limit, TimeAt(limit, g)) == TimeAt(limit, g + 1)
  {
  }

  /** A waiting node was reached, its f_open is g plus the heuristic, and its time step belongs to g. */
  predicate NodeOk(env: Env, trace: Trace, n: LowLevelNode) {
    Reached(env, trace, (n.position, n.gCost))
    && n.fOpenCost == n.gCost + env.heuristic(n.position)
    && n.timeStep == TimeAt(env.limit, n.gCost)
  }

  /** A node within the cost bound, when there is one (the start node is exempt). */
  predicate WithinBound(bound: Option<real>, n: LowLevelNode) {
    bound.Some? && n.gCost > 0 ==> n.fOpenCost as real <= bound.value
  }

  ghost predicate Inv(env: Env, s: Search, bound: Option<real>) {
    TraceOk(env, s.trace)
    && forall k :: k in s.list ==> NodeOk(env, s.trace, s.list[k]) && WithinBound(bound, s.list[k])
  }

  /** A popped node keeps its facts, and the rest of the list keeps the invariant. */
  lemma PopKeeps(env: Env, s: Search, bound: Option<real>, k: Key)
    requires Inv(env, s, bound) && k in s.list
    ensures Inv(env, s.(list := s.list - {k}), bound)
    ensures NodeOk(env, s.trace, s.list[k]) && WithinBound(bound, s.list[k])
  {
  }

  /** Closing a state changes nothing the invariant speaks about. */
  lemma CloseKeeps(env: Env, s: Search, bound: Option<real>, st: State)
    requires Inv(env, s, bound)
    ensures Inv(env, s.(closed := s.closed + {st}), bound)
  {
  }

  /** A search ends with the path and its f value, or with `None`. */
  type Found = Option<(Path, nat)>

  /**
   * A found path is a plan that ends at the goal after more moves than the path-length
   * constraint, and `f` is its number of moves plus the goal's heuristic.
   */
  ghost predicate Delivers(env: Env, found: (Path, nat)) {
    var (p, f) := found;
    IsPlan(env, p) && p[|p| - 1] == env.agent.goal && |p| - 1 > env.pathLengthConstraint
    && f == |p| - 1 + env.heuristic(env.agent.goal)
  }

  /** The goal test of both searches, and what they return when it passes. */
  predicate AtGoal(env: Env, n: LowLevelNode) {
    n.position == env.agent.goal && n.gCost > env.pathLengthConstraint
  }

  lemma FoundDelivers(env: Env, s: Search, bound: Option<real>, n: LowLevelNode)
    requires TraceOk(env, s.trace) && NodeOk(env, s.trace, n) && AtGoal(env, n)
    ensures Delivers(env, (PlanOf(s.trace, (n.position, n.gCost)), n.fOpenCost))
  {
    PlanOfReached(env, s.trace, (n.position, n.gCost));
  }

  // ---------------------------------------------------------------------------
  // standard_a_star_search_open_cost
  // ---------------------------------------------------------------------------

  /** The start node: at the start, cost 0, time step 0. */
  function StartNode(env: Env): (n: LowLevelNode)
    ensures n.position == env.agent.start && n.gCost == 0 && n.timeStep == 0 && n.fFocalCost == 0
  {
    CreateOpenNode(env.agent.start, env.heuristic(env.agent.start), 0, 0).node
  }

  function OpenStart(env: Env): Search {
    var n := StartNode(env);
    Search(map[OpenKey(OpenOrderWrapper(n)) := n], {}, map[])
  }

  lemma OpenStartOk(env: Env, bound: Option<real>)
    ensures Inv(env, OpenStart(env), bound)
  {
  }

  /**
   * One neighbour of the open-cost search: skipped when its (cell, time step) is closed
   * or a constraint forbids the move; otherwise inserted, and traced only if the list
   * held no node with its key.
   */
  function OpenVisit(env: Env, cur: LowLevelNode, s: Search, n: Cell): Search {
    var g := cur.gCost + 1;
    var t := NextTime(env.limit, cur.timeStep);
    if (n, t) in s.closed || Violates(env, cur.position, n, g) then s
    else
      var w := CreateOpenNode(n, g + env.heuristic(n), g, t);
      if OpenKey(w) in s.list then s
      else Search(s.list[OpenKey(w) := w.node], s.closed, s.trace[(n, g) := (cur.position, cur.gCost)])
  }

  function OpenVisits(env: Env, cur: LowLevelNode, s: Search, ns: seq<Cell>): Search
    decreases |ns|
  {
    if ns == [] then s else OpenVisit(env, cur, OpenVisits(env, cur, s, ns[..|ns| - 1]), ns[|ns| - 1])
  }

  /** The neighbours a node is expanded to: waiting is offered while within the constraint limit. */
  function Around(env: Env, cur: LowLevelNode): seq<Cell> {
    env.neighbors(cur.position, !(cur.timeStep > env.limit))
  }

  /** Expanding a popped node: close its state, then visit its neighbours in order. */
  function OpenExpand(env: Env, s: Search, cur: LowLevelNode): Search {
    OpenVisits(env, cur, s.(closed := s.closed + {(cur.position, cur.timeStep)}), Around(env, cur))
  }

  lemma TraceGrows(env: Env, trace: Trace, n: Cell, g: nat, from: Cell, gFrom: nat)
    requires TraceOk(env, trace) && g == gFrom + 1 && Moves(env, from, n, g)
    requires Reached(env, trace, (from, gFrom))
    ensures TraceOk(env, trace[(n, g) := (from, gFrom)])
  {
    var t := trace[(n, g) := (from, gFrom)];
    forall st | st in t ensures LinkOk(env, t, st) {
      if st != (n, g) {
        assert LinkOk(env, trace, st);
      }
    }
  }

  /** An offered neighbour of a node is a move from it. */
  lemma AroundMoves(env: Env, cur: LowLevelNode, n: Cell, g: nat)
    requires n in Around(env, cur) && !Violates(env, cur.position, n, g)
    ensures Moves(env, cur.position, n, g)
  {
    if cur.timeStep > env.limit {
      assert n in env.neighbors(cur.position, false);
    } else {
      assert n in env.neighbors(cur.position, true);
    }
  }

  lemma OpenVisitKeeps(env: Env, cur: LowLevelNode, s: Search, n: Cell)
    requires Inv(env, s, None) && NodeOk(env, s.trace, cur) && n in Around(env, cur)
    ensures var r := OpenVisit(env, cur, s, n);
      Inv(env, r, None) && NodeOk(env, r.trace, cur) && s.trace.Keys <= r.trace.Keys
  {
    var g := cur.gCost + 1;
    var t := NextTime(env.limit, cur.timeStep);
    if !((n, t) in s.closed || Violates(env, cur.position, n, g)) {
      var w := CreateOpenNode(n, g + env.heuristic(n), g, t);
      if OpenKey(w) !in s.list {
        AroundMoves(env, cur, n, g);
        TraceGrows(env, s.trace, n, g, cur.position, cur.gCost);
        NextTimeAt(env.limit, cur.gCost);
        var r := OpenVisit(env, cur, s, n);
        assert r.list == s.list[OpenKey(w) := w.node];
        forall k | k in r.list ensures NodeOk(env, r.trace, r.list[k]) {
          if k != OpenKey(w) {
            assert NodeOk(env, s.trace, s.list[k]);
          }
        }
      }
    }
  }

  lemma {:induction false} OpenVisitsKeep(env: Env, cur: LowLevelNode, s: Search, ns: seq<Cell>)
    requires Inv(env, s, None) && NodeOk(env, s.trace, cur) && forall i :: 0 <= i < |ns| ==> ns[i] in Around(env, cur)
    ensures var r := OpenVisits(env, cur, s, ns);
      Inv(env, r, None) && NodeOk(env, r.trace, cur)
    decreases |ns|
  {
    if ns != [] {
      var pre := ns[..|ns| - 1];
      OpenVisitsKeep(env, cur, s, pre);
      OpenVisitKeeps(env, cur, OpenVisits(env, cur, s, pre), ns[|ns| - 1]);
    }
  }

  lemma OpenExpandKeeps(env: Env, s: Search, cur: LowLevelNode)
    requires Inv(env, s, None) && NodeOk(env, s.trace, cur)
    ensures Inv(env, OpenExpand(env, s, cur), None)
  {
    CloseKeeps(env, s, None, (cur.position, cur.timeStep));
    OpenVisitsKeep(env, cur, s.(closed := s.closed + {(cur.position, cur.timeStep)}), Around(env, cur));
  }

  /**
   * The open-cost search from state `s` with `fuel` expansions left: what it returns and
   * how many nodes it pops (each pop adds one to `low_level_expand_open_nodes`).
   */
  ghost function OpenRun(env: Env, s: Search, fuel: nat): (Ending<Found>, nat)
    decreases fuel, 1
  {
    if s.list == map[] then (Returns(None), 0)
    else if fuel == 0 then (OutOfFuel, 0)
    else OpenPop(env, s, fuel)
  }

  /** One pop of the open-cost run, and the run after it. */
  ghost function OpenPop(env: Env, s: Search, fuel: nat): (Ending<Found>, nat)
    requires s.list != map[] && fuel > 0
    decreases fuel, 0
  {
      var k := Least(s.list);
      var cur := s.list[k];
      var rest := s.(list := s.list - {k});
      if AtGoal(env, cur) then (Returns(Some((PlanOf(rest.trace, (cur.position, cur.gCost)), cur.fOpenCost))), 1)
      else
        var next := OpenRun(env, OpenExpand(env, rest, cur), fuel - 1);
        (next.0, next.1 + 1)
  }

  /** A run never panics; it pops at most `fuel` nodes, and exactly `fuel` when it runs out. */
  lemma {:induction false} OpenRunCounts(env: Env, s: Search, fuel: nat)
    ensures var (r, pops) := OpenRun(env, s, fuel);
      !r.Panics? && pops <= fuel && (r.OutOfFuel? ==> pops == fuel)
    decreases fuel
  {
    if s.list != map[] && fuel > 0 {
      OpenRunPops(env, s, fuel);
      var k := Least(s.list);
      var cur := s.list[k];
      if !AtGoal(env, cur) {
        OpenRunCounts(env, OpenExpand(env, s.(list := s.list - {k}), cur), fuel - 1);
      }
    }
  }

  /** What a run from a state keeping the invariant finds is a plan to the goal. */
  lemma {:induction false} OpenRunDelivers(env: Env, s: Search, fuel: nat)
    requires Inv(env, s, None)
    ensures var r := OpenRun(env, s, fuel).0;
      r.Returns? && r.value.Some? ==> Delivers(env, r.value.value)
    decreases fuel
  {
    if s.list != map[] && fuel > 0 {
      OpenRunPops(env, s, fuel);
      var k := Least(s.list);
      var cur := s.list[k];
      var rest := s.(list := s.list - {k});
      PopKeeps(env, s, None, k);
      if AtGoal(env, cur) {
        FoundDelivers(env, rest, None, cur);
      } else {
        OpenExpandKeeps(env, rest, cur);
        OpenRunDelivers(env, OpenExpand(env, rest, cur), fuel - 1);
      }
    }
  }

  /** The first pop of a run on a non-empty list with fuel left. */
  lemma OpenRunPops(env: Env, s: Search, fuel: nat)
    requires s.list != map[] && fuel > 0
    ensures OpenRun(env, s, fuel) == OpenPop(env, s, fuel)
  {
  }

  /**
   * The open-cost loop's state `s`, with `left` expansions to go after `expanded`, is a
   * reachable point of the run whose outcome is `total`.
   */
  ghost predicate OpenLoop(env: Env, s: Search, left: nat, expanded: nat, total: (Ending<Found>, nat)) {
    Inv(env, s, None) && total.0 == OpenRun(env, s, left).0 && total.1 == OpenRun(env, s, left).1 + expanded
  }

  /** The run ends with nothing when the list is empty, and runs out when no expansions are left. */
  lemma OpenLoopExit(env: Env, s: Search, left: nat, expanded: nat, total: (Ending<Found>, nat))
    requires OpenLoop(env, s, left, expanded, total) && (s.list == map[] || left == 0)
    ensures total == (if s.list == map[] then Returns(None) else OutOfFuel, expanded)
  {
  }

  /** `standard_a_star_search_open_cost`, stopping after `fuel` expansions. */
  method StandardAStarSearchOpenCost(env: Env, fuel: nat) returns (r: Ending<Found>, expanded: nat)
    ensures (r, expanded) == OpenRun(env, OpenStart(env), fuel)
  {
    OpenStartOk(env, None);
    r, expanded := OpenSearchFrom(env, OpenStart(env), fuel);
  }

  /** The search loop of `standard_a_star_search_open_cost`, from the list and closed set `s0`. */
  method OpenSearchFrom(env: Env, s0: Search, fuel: nat) returns (r: Ending<Found>, expanded: nat)
    requires Inv(env, s0, None)
    ensures (r, expanded) == OpenRun(env, s0, fuel)
  {
    var s := s0;
    ghost var total := OpenRun(env, s, fuel);
    expanded := 0;
    while s.list != map[] && expanded < fuel
      invariant expanded <= fuel && OpenLoop(env, s, fuel - expanded, expanded, total)
      decreases fuel - expanded
    {
      var stop, next := OpenStep(env, s, fuel - expanded, expanded, total);
      if stop.Some? {
        return stop.value, expanded + 1;
      }
      s, expanded := next, expanded + 1;
    }
    OpenLoopExit(env, s, fuel - expanded, expanded, total);
    r := if s.list == map[] then Returns(None) else OutOfFuel;
  }

  /** One iteration of the search loop: pop the least node, then return the path or expand it. */
  method OpenStep(env: Env, s: Search, left: nat, ghost expanded: nat, ghost total: (Ending<Found>, nat))
    returns (stop: Option<Ending<Found>>, next: Search)
    requires OpenLoop(env, s, left, expanded, total) && s.list != map[] && left > 0
    ensures stop.Some? ==> total == (stop.value, expanded + 1)
    ensures stop.None? ==> OpenLoop(env, next, left - 1, expanded + 1, total)
  {
    OpenRunPops(env, s, left);
    var k := Least(s.list);
    var cur := s.list[k];
    PopKeeps(env, s, None, k);
    var rest := s.(list := s.list - {k});
    if cur.position == env.agent.goal && cur.gCost > env.pathLengthConstraint {
      TraceRanked(env, rest.trace);
      var path := Algorithm.ConstructPath(rest.trace, (cur.position, cur.gCost), G);
      return Some(Returns(Some((path, cur.fOpenCost)))), rest;
    }
    OpenExpandKeeps(env, rest, cur);
    next := ExpandOpen(env, rest, cur);
    stop := None;
  }

  /** The loop over the neighbours of the popped node. */
  method ExpandOpen(env: Env, s0: Search, cur: LowLevelNode) returns (s: Search)
    ensures s == OpenExpand(env, s0, cur)
  {
    s := s0.(closed := s0.closed + {(cur.position, cur.timeStep)});
    ghost var s1 := s;
    var tentativeG := cur.gCost + 1;
    var tentativeTime := if cur.timeStep > env.limit then cur.timeStep else cur.timeStep + 1;
    var ns := env.neighbors(cur.position, !(cur.timeStep > env.limit));
    for i := 0 to |ns|
      invariant s == OpenVisits(env, cur, s1, ns[..i])
    {
      assert ns[..i + 1][..i] == ns[..i];
      var n := ns[i];
      if (n, tentativeTime) !in s.closed && !Violates(env, cur.position, n, tentativeG) {
        var w := CreateOpenNode(n, tentativeG + env.heuristic(n), tentativeG, tentativeTime);
        if OpenKey(w) !in s.list {
          s := Search(s.list[OpenKey(w) := w.node], s.closed, s.trace[(n, tentativeG) := (cur.position, cur.gCost)]);
        }
      }
    }
    assert ns[..|ns|] == ns;
  }

  // ---------------------------------------------------------------------------
  // standard_a_star_search_focal_cost
  // ---------------------------------------------------------------------------

  function FocalStart(env: Env): Search {
    var n := StartNode(env);
    Search(map[FocalKey(FocalOrderWrapper(n)) := n], {}, map[])
  }

  lemma FocalStartOk(env: Env, bound: Option<real>)
    ensures Inv(env, FocalStart(env), bound)
  {
  }

  /** `heuristic_focal` at a time step of at least 1: its only failure is an empty other path. */
  function FocalIncrement(env: Env, paths: seq<Path>, n: Cell, from: Cell, g: nat): (r: Result<nat, Panic>)
    requires g > 0
    ensures r.Err? ==> r.error == UnwrapNone
  {
    if Algorithm.OthersNonEmpty(env.agent.id, paths, |paths|) then
      Ok(Algorithm.ConflictCount(env.agent.id, n, from, g, paths))
    else Err(UnwrapNone)
  }

  /**
   * One neighbour of the focal-cost search: skipped when its f_open exceeds `optCost`, its
   * state is closed or a constraint forbids the move; otherwise its focal cost adds the
   * conflicts of the move, and it is inserted and traced unless the list held its key.
   */
  function FocalCostVisit(env: Env, paths: seq<Path>, optCost: real, cur: LowLevelNode, s: Search, n: Cell)
    : Ending<Search>
  {
    var g := cur.gCost + 1;
    var t := NextTime(env.limit, cur.timeStep);
    var f := g + env.heuristic(n);
    if f as real > optCost || (n, t) in s.closed || Violates(env, cur.position, n, g) then Returns(s)
    else
      match FocalIncrement(env, paths, n, cur.position, g)
      case Err(e) => Panics(e)
      case Ok(h) =>
        var w := CreateFocalNode(n, f, cur.fFocalCost + h, g, t);
        if FocalKey(w) in s.list then Returns(s)
        else Returns(Search(s.list[FocalKey(w) := w.node], s.closed, s.trace[(n, g) := (cur.position, cur.gCost)]))
  }

  function FocalCostVisits(env: Env, paths: seq<Path>, optCost: real, cur: LowLevelNode, s: Search, ns: seq<Cell>)
    : Ending<Search>
    decreases |ns|
  {
    if ns == [] then Returns(s)
    else
      match FocalCostVisits(env, paths, optCost, cur, s, ns[..|ns| - 1])
      case Returns(s') => FocalCostVisit(env, paths, optCost, cur, s', ns[|ns| - 1])
      case e => e
  }

  function FocalCostExpand(env: Env, paths: seq<Path>, optCost: real, s: Search, cur: LowLevelNode): Ending<Search> {
    FocalCostVisits(env, paths, optCost, cur, s.(closed := s.closed + {(cur.position, cur.timeStep)}), Around(env, cur))
  }

  lemma FocalCostVisitKeeps(env: Env, paths: seq<Path>, optCost: real, cur: LowLevelNode, s: Search, n: Cell)
    requires Inv(env, s, Some(optCost)) && NodeOk(env, s.trace, cur) && n in Around(env, cur)
    ensures var r := FocalCostVisit(env, paths, optCost, cur, s, n);
      (r.Panics? ==> r.panic == UnwrapNone) && !r.OutOfFuel?
      && (r.Returns? ==> Inv(env, r.value, Some(optCost)) && NodeOk(env, r.value.trace, cur))
  {
    var g := cur.gCost + 1;
    var t := NextTime(env.limit, cur.timeStep);
    var f := g + env.heuristic(n);
    if !(f as real > optCost || (n, t) in s.closed || Violates(env, cur.position, n, g)) {
      var inc := FocalIncrement(env, paths, n, cur.position, g);
      if inc.Ok? {
        var w := CreateFocalNode(n, f, cur.fFocalCost + inc.value, g, t);
        if FocalKey(w) !in s.list {
          AroundMoves(env, cur, n, g);
          TraceGrows(env, s.trace, n, g, cur.position, cur.gCost);
          NextTimeAt(env.limit, cur.gCost);
          var r := FocalCostVisit(env, paths, optCost, cur, s, n).value;
          assert r.list == s.list[FocalKey(w) := w.node];
          forall k | k in r.list ensures NodeOk(env, r.trace, r.list[k]) && WithinBound(Some(optCost), r.list[k]) {
            if k != FocalKey(w) {
              assert NodeOk(env, s.trace, s.list[k]) && WithinBound(Some(optCost), s.list[k]);
            }
          }
        }
      }
    }
  }

  lemma {:induction false} FocalCostVisitsKeep(env: Env, paths: seq<Path>, optCost: real, cur: LowLevelNode, s: Search, ns: seq<Cell>)
    requires Inv(env, s, Some(optCost)) && NodeOk(env, s.trace, cur)
    requires forall i :: 0 <= i < |ns| ==> ns[i] in Around(env, cur)
    ensures var r := FocalCostVisits(env, paths, optCost, cur, s, ns);
      (r.Panics? ==> r.panic == UnwrapNone) && !r.OutOfFuel?
      && (r.Returns? ==> Inv(env, r.value, Some(optCost)) && NodeOk(env, r.value.trace, cur))
    decreases |ns|
  {
    if ns != [] {
      var pre := ns[..|ns| - 1];
      FocalCostVisitsKeep(env, paths, optCost, cur, s, pre);
      var r := FocalCostVisits(env, paths, optCost, cur, s, pre);
      if r.Returns? {
        FocalCostVisitKeeps(env, paths, optCost, cur, r.value, ns[|ns| - 1]);
      }
    }
  }

  lemma FocalCostExpandKeeps(env: Env, paths: seq<Path>, optCost: real, s: Search, cur: LowLevelNode)
    requires Inv(env, s, Some(optCost)) && NodeOk(env, s.trace, cur)
    ensures var r := FocalCostExpand(env, paths, optCost, s, cur);
      (r.Panics? ==> r.panic == UnwrapNone) && !r.OutOfFuel? && (r.Returns? ==> Inv(env, r.value, Some(optCost)))
  {
    CloseKeeps(env, s, Some(optCost), (cur.position, cur.timeStep));
    FocalCostVisitsKeep(env, paths, optCost, cur, s.(closed := s.closed + {(cur.position, cur.timeStep)}), Around(env, cur));
  }

  /** The focal-cost search from state `s` with `fuel` expansions left, and its pop count. */
  ghost function FocalCostRun(env: Env, paths: seq<Path>, optCost: real, s: Search, fuel: nat): (Ending<Found>, nat)
    decreases fuel, 1
  {
    if s.list == map[] then (Returns(None), 0)
    else if fuel == 0 then (OutOfFuel, 0)
    else FocalCostPop(env, paths, optCost, s, fuel)
  }

  /** One pop of the focal-cost run, and the run after it. */
  ghost function FocalCostPop(env: Env, paths: seq<Path>, optCost: real, s: Search, fuel: nat): (Ending<Found>, nat)
    requires s.list != map[] && fuel > 0
    decreases fuel, 0
  {
      var k := Least(s.list);
      var cur := s.list[k];
      var rest := s.(list := s.list - {k});
      if AtGoal(env, cur) then (Returns(Some((PlanOf(rest.trace, (cur.position, cur.gCost)), cur.fOpenCost))), 1)
      else
        match FocalCostExpand(env, paths, optCost, rest, cur)
        case Returns(s') =>
          var next := FocalCostRun(env, paths, optCost, s', fuel - 1);
          (next.0, next.1 + 1)
        case Panics(e) => (Panics(e), 1)
        case OutOfFuel => (OutOfFuel, 1)
  }

  /**
   * What the focal-cost search finds is a plan to the goal whose f value is within
   * `optCost` unless the start is already the goal; its only panic is `heuristic_focal`'s.
   */
  lemma {:induction false} FocalCostRunSound(env: Env, paths: seq<Path>, optCost: real, s: Search, fuel: nat)
    requires Inv(env, s, Some(optCost))
    ensures var (r, pops) := FocalCostRun(env, paths, optCost, s, fuel);
      (r.Panics? ==> r.panic == UnwrapNone) && pops <= fuel && (r.OutOfFuel? ==> pops == fuel)
      && (r.Returns? && r.value.Some? ==>
            Delivers(env, r.value.value) && (|r.value.value.0| > 1 ==> r.value.value.1 as real <= optCost))
    decreases fuel
  {
    if s.list != map[] && fuel > 0 {
      FocalCostRunPops(env, paths, optCost, s, fuel);
      var k := Least(s.list);
      var cur := s.list[k];
      var rest := s.(list := s.list - {k});
      PopKeeps(env, s, Some(optCost), k);
      if AtGoal(env, cur) {
        FoundDelivers(env, rest, Some(optCost), cur);
      } else {
        FocalCostExpandKeeps(env, paths, optCost, rest, cur);
        var e := FocalCostExpand(env, paths, optCost, rest, cur);
        if e.Returns? {
          FocalCostRunSound(env, paths, optCost, e.value, fuel - 1);
        }
      }
    }
  }

  /** The first pop of a run on a non-empty list with fuel left. */
  lemma FocalCostRunPops(env: Env, paths: seq<Path>, optCost: real, s: Search, fuel: nat)
    requires s.list != map[] && fuel > 0
    ensures FocalCostRun(env, paths, optCost, s, fuel) == FocalCostPop(env, paths, optCost, s, fuel)
  {
  }

  /** The focal-cost loop's counterpart of `OpenLoop`. */
  ghost predicate FocalCostLoop(env: Env, paths: seq<Path>, optCost: real, s: Search, left: nat, expanded: nat,
                                total: (Ending<Found>, nat)) {
    Inv(env, s, Some(optCost))
    && total.0 == FocalCostRun(env, paths, optCost, s, left).0
    && total.1 == FocalCostRun(env, paths, optCost, s, left).1 + expanded
  }

  lemma FocalCostLoopExit(env: Env, paths: seq<Path>, optCost: real, s: Search, left: nat, expanded: nat,
                          total: (Ending<Found>, nat))
    requires FocalCostLoop(env, paths, optCost, s, left, expanded, total) && (s.list == map[] || left == 0)
    ensures total == (if s.list == map[] then Returns(None) else OutOfFuel, expanded)
  {
  }

  /** `standard_a_star_search_focal_cost`, stopping after `fuel` expansions. */
  method StandardAStarSearchFocalCost(env: Env, paths: seq<Path>, optCost: real, fuel: nat)
    returns (r: Ending<Found>, expanded: nat)
    ensures (r, expanded) == FocalCostRun(env, paths, optCost, FocalStart(env), fuel)
  {
    FocalStartOk(env, Some(optCost));
    r, expanded := FocalCostSearchFrom(env, paths, optCost, FocalStart(env), fuel);
  }

  /** The search loop of `standard_a_star_search_focal_cost`, from the list and closed set `s0`. */
  method FocalCostSearchFrom(env: Env, paths: seq<Path>, optCost: real, s0: Search, fuel: nat)
    returns (r: Ending<Found>, expanded: nat)
    requires Inv(env, s0, Some(optCost))
    ensures (r, expanded) == FocalCostRun(env, paths, optCost, s0, fuel)
  {
    var s := s0;
    ghost var total := FocalCostRun(env, paths, optCost, s, fuel);
    expanded := 0;
    while s.list != map[] && expanded < fuel
      invariant expanded <= fuel && FocalCostLoop(env, paths, optCost, s, fuel - expanded, expanded, total)
      decreases fuel - expanded
    {
      var stop, next := FocalCostStep(env, paths, optCost, s, fuel - expanded, expanded, total);
      if stop.Some? {
        return stop.value, expanded + 1;
      }
      s, expanded := next, expanded + 1;
    }
    FocalCostLoopExit(env, paths, optCost, s, fuel - expanded, expanded, total);
    r := if s.list == map[] then Returns(None) else OutOfFuel;
  }

  /** One iteration of the search loop: pop the least node, then return the path or expand it. */
  method FocalCostStep(env: Env, paths: seq<Path>, optCost: real, s: Search, left: nat,
                       ghost expanded: nat, ghost total: (Ending<Found>, nat))
    returns (stop: Option<Ending<Found>>, next: Search)
    requires FocalCostLoop(env, paths, optCost, s, left, expanded, total) && s.list != map[] && left > 0
    ensures stop.Some? ==> total == (stop.value, expanded + 1)
    ensures stop.None? ==> FocalCostLoop(env, paths, optCost, next, left - 1, expanded + 1, total)
  {
    FocalCostRunPops(env, paths, optCost, s, left);
    var k := Least(s.list);
    var cur := s.list[k];
    PopKeeps(env, s, Some(optCost), k);
    var rest := s.(list := s.list - {k});
    if cur.position == env.agent.goal && cur.gCost > env.pathLengthConstraint {
      TraceRanked(env, rest.trace);
      var path := Algorithm.ConstructPath(rest.trace, (cur.position, cur.gCost), G);
      return Some(Returns(Some((path, cur.fOpenCost)))), rest;
    }
    FocalCostExpandKeeps(env, paths, optCost, rest, cur);
    var e := ExpandFocalCost(env, paths, optCost, rest, cur);
    if e.Panics? {
      return Some(Panics(e.panic)), rest;
    }
    stop, next := None, e.value;
  }

  /** Once a neighbour panics, the rest of the neighbours are not visited. */
  lemma {:induction false} FocalCostVisitsStop(env: Env, paths: seq<Path>, optCost: real, cur: LowLevelNode, s: Search,
                                            ns: seq<Cell>, j: nat)
    requires j <= |ns| && FocalCostVisits(env, paths, optCost, cur, s, ns[..j]).Panics?
    ensures FocalCostVisits(env, paths, optCost, cur, s, ns) == FocalCostVisits(env, paths, optCost, cur, s, ns[..j])
    decreases |ns|
  {
    if j < |ns| {
      var pre := ns[..|ns| - 1];
      assert pre[..j] == ns[..j];
      FocalCostVisitsStop(env, paths, optCost, cur, s, pre, j);
    } else {
      assert ns[..j] == ns;
    }
  }

  /** The loop over the neighbours of the popped node; a panic of `heuristic_focal` ends it. */
  method ExpandFocalCost(env: Env, paths: seq<Path>, optCost: real, s0: Search, cur: LowLevelNode)
    returns (r: Ending<Search>)
    ensures r == FocalCostExpand(env, paths, optCost, s0, cur)
  {
    var s := s0.(closed := s0.closed + {(cur.position, cur.timeStep)});
    ghost var s1 := s;
    var tentativeG := cur.gCost + 1;
    var tentativeTime := if cur.timeStep > env.limit then cur.timeStep else cur.timeStep + 1;
    var ns := env.neighbors(cur.position, !(cur.timeStep > env.limit));
    for i := 0 to |ns|
      invariant FocalCostVisits(env, paths, optCost, cur, s1, ns[..i]) == Returns(s)
    {
      assert ns[..i + 1][..i] == ns[..i];
      var n := ns[i];
      var f := tentativeG + env.heuristic(n);
      if !(f as real > optCost) && (n, tentativeTime) !in s.closed && !Violates(env, cur.position, n, tentativeG) {
        var h := Algorithm.HeuristicFocal(env.agent.id, n, cur.position, tentativeG, paths);
        if h.Err? {
          FocalCostVisitsStop(env, paths, optCost, cur, s1, ns, i + 1);
          return Panics(h.error);
        }
        var w := CreateFocalNode(n, f, cur.fFocalCost + h.value, tentativeG, tentativeTime);
        if FocalKey(w) !in s.list {
          s := Search(s.list[FocalKey(w) := w.node], s.closed, s.trace[(n, tentativeG) := (cur.position, cur.gCost)]);
        }
      }
    }
    assert ns[..|ns|] == ns;
    return Returns(s);
  }

  // ---------------------------------------------------------------------------
  // a_star_search
  // ---------------------------------------------------------------------------

  /**
   * The wrapping `a_star_search` applies: without `build_mdd` the result is returned as
   * `Standard`; with it, a failure is `WithMDD(None)`, and a found path must have exactly
   * `f_min` moves (the `assert_eq!`, after the `usize` subtraction) before its MDD is built.
   */
  function WithOptionalMdd(buildMdd: bool, e: Ending<Found>, constructMdd: nat -> Mdd): Ending<SearchResult> {
    match e
    case OutOfFuel => OutOfFuel
    case Panics(p) => Panics(p)
    case Returns(found) =>
      if !buildMdd then Returns(Standard(found))
      else match found
        case None => Returns(WithMdd(None))
        case Some((path, fMin)) =>
          if |path| == 0 then Panics(SubtractOverflow)
          else if |path| - 1 != fMin then Panics(AssertionFailed)
          else Returns(WithMdd(Some((path, fMin, constructMdd(fMin)))))
  }

  /** The search environment `a_star_search` builds: its limit is the constraints' latest time step. */
  function SearchEnv(agent: Agent, heuristic: Cell -> nat, neighbors: (Cell, bool) -> seq<Cell>,
                     violated: (Constraint, Cell, Cell, nat) -> bool, constraints: set<Constraint>,
                     pathLengthConstraint: nat): (env: Env)
    ensures env.limit == ConstraintLimit(constraints) && env.agent == agent && env.constraints == constraints
  {
    Env(agent, heuristic, neighbors, violated, constraints, pathLengthConstraint, ConstraintLimit(constraints))
  }

  /** `a_star_search`: the open-cost search, wrapped as `build_mdd` asks. */
  method AStarSearch(agent: Agent, heuristic: Cell -> nat, neighbors: (Cell, bool) -> seq<Cell>,
                     violated: (Constraint, Cell, Cell, nat) -> bool, constraints: set<Constraint>,
                     pathLengthConstraint: nat, buildMdd: bool, constructMdd: nat -> Mdd, fuel: nat)
    returns (r: Ending<SearchResult>, expanded: nat)
    ensures var env := SearchEnv(agent, heuristic, neighbors, violated, constraints, pathLengthConstraint);
      var run := OpenRun(env, OpenStart(env), fuel);
      r == WithOptionalMdd(buildMdd, run.0, constructMdd) && expanded == run.1
  {
    var env := SearchEnv(agent, heuristic, neighbors, violated, constraints, pathLengthConstraint);
    var found;
    found, expanded := StandardAStarSearchOpenCost(env, fuel);
    r := WithOptionalMdd(buildMdd, found, constructMdd);
  }

  /**
   * What `a_star_search` returns: a `Standard` result exactly when no MDD is asked for;
   * a found path is a plan to the goal; an MDD comes with a path of exactly `f_min`
   * moves and is built for `f_min`; and when the goal's heuristic is 0 the assertion
   * never fails, so the search never panics.
   */
  lemma AStarSearchSound(env: Env, buildMdd: bool, constructMdd: nat -> Mdd, fuel: nat)
    ensures var r := WithOptionalMdd(buildMdd, OpenRun(env, OpenStart(env), fuel).0, constructMdd);
      (r.Returns? ==> (r.value.Standard? <==> !buildMdd))
      && (r.Returns? && r.value.Standard? && r.value.found.Some? ==> Delivers(env, r.value.found.value))
      && (r.Returns? && r.value.WithMdd? && r.value.withMdd.Some? ==>
            var (p, f, m) := r.value.withMdd.value;
            Delivers(env, (p, f)) && |p| - 1 == f && m == constructMdd(f))
      && (r.Panics? ==> buildMdd && r.panic == AssertionFailed && env.heuristic(env.agent.goal) != 0)
  {
    OpenStartOk(env, None);
    OpenRunCounts(env, OpenStart(env), fuel);
    OpenRunDelivers(env, OpenStart(env), fuel);
  }
}
