/**
 * The focal A* of src/algorithm/astarfocal.rs: `standard_focal_a_star_search` keeps an
 * open list (by f_open) and a focal list (by f_focal) of the same nodes, expands the
 * least focal node, and admits nodes into focal while their f_open is within
 * `f_min * subopt_factor`; `standard_focal_double_search` runs the two searches of
 * src/algorithm/astar.rs one after the other; `focal_a_star_search` picks one and wraps
 * its result for the MDD.
 */
module AlgorithmAStarFocal {
  import opened Wrappers
  import opened Ordering
  import opened Common
  import opened CommonLowLevel
  import Algorithm
  import opened AlgorithmAStar

  function Max(a: nat, b: nat): nat { if a >= b then a else b }

  function OpenKeyOf(n: LowLevelNode): Key { OpenKey(OpenOrderWrapper(n)) }

  function FocalKeyOf(n: LowLevelNode): Key { FocalKey(FocalOrderWrapper(n)) }

  /**
   * `f as f64 * w`, the bound of the focal list, written as `w` added `f` times so that
   * the proofs about it stay linear; it is the product (ScaleIsProduct).
   */
  function Scale(f: nat, w: real): real {
    if f == 0 then 0.0 else Scale(f - 1, w) + w
  }

  lemma {:induction false} ScaleIsProduct(f: nat, w: real)
    ensures Scale(f, w) == f as real * w
  {
    if f > 0 {
      ScaleIsProduct(f - 1, w);
      assert (f - 1) as real * w + w == f as real * w;
    }
  }

  /**
   * The state of `standard_focal_a_star_search`: the open and focal lists by order key,
   * the closed (cell, time step) pairs, the trace, the recorded focal cost of every
   * (cell, g) put into open, and `f_min`.
   */
  datatype Focal = Focal(
    open: map<Key, LowLevelNode>,
    focal: map<Key, LowLevelNode>,
    closed: set<State>,
    trace: Trace,
    focalCost: map<State, nat>,
    fMin: nat)

  /** The start node sits in both lists with focal cost 0, and `f_min` starts at 0. */
  function SearchStart(env: Env): Focal {
    var (o, f) := CreateOpenFocalNode(env.agent.start, env.heuristic(env.agent.start), 0, 0, 0);
    Focal(map[OpenKey(o) := o.node], map[FocalKey(f) := f.node], {}, map[], map[(env.agent.start, 0) := 0], 0)
  }

  /** Two nodes have the same open key exactly when they agree on position, g and f_open. */
  lemma OpenKeyOfInjective(a: LowLevelNode, b: LowLevelNode)
    ensures OpenKeyOf(a) == OpenKeyOf(b) <==>
      a.position == b.position && a.gCost == b.gCost && a.fOpenCost == b.fOpenCost
  {
    if OpenKeyOf(a) == OpenKeyOf(b) {
      assert OpenKeyOf(a).items[0] == OpenKeyOf(b).items[0];
      assert OpenKeyOf(a).items[1] == OpenKeyOf(b).items[1];
      assert OpenKeyOf(a).items[2].items[0] == OpenKeyOf(b).items[2].items[0];
      assert OpenKeyOf(a).items[2].items[1] == OpenKeyOf(b).items[2].items[1];
    }
  }

  /** Two nodes have the same focal key exactly when they agree on everything but the time step. */
  lemma FocalKeyOfInjective(a: LowLevelNode, b: LowLevelNode)
    ensures FocalKeyOf(a) == FocalKeyOf(b) <==>
      a.position == b.position && a.gCost == b.gCost && a.fOpenCost == b.fOpenCost && a.fFocalCost == b.fFocalCost
  {
    if FocalKeyOf(a) == FocalKeyOf(b) {
      assert FocalKeyOf(a).items[0] == FocalKeyOf(b).items[0];
      assert FocalKeyOf(a).items[1] == FocalKeyOf(b).items[1];
      assert FocalKeyOf(a).items[2] == FocalKeyOf(b).items[2];
      assert FocalKeyOf(a).items[3].items[0] == FocalKeyOf(b).items[3].items[0];
      assert FocalKeyOf(a).items[3].items[1] == FocalKeyOf(b).items[3].items[1];
    }
  }

  // ---------------------------------------------------------------------------
  // One neighbour
  // ---------------------------------------------------------------------------

  /**
   * The decrease-key of a rediscovered node, as its comment describes it: when the new
   * focal cost is lower it is recorded, and the node's focal entry under the prior cost, if
   * the focal list holds it, is replaced by the entry under the new cost. Nothing else
   * changes, and an entry that enters the focal list stands for the same open node as
   * the one it replaces.
   */
  function DecreaseKey(s: Focal, node: LowLevelNode, prior: nat, t: nat): (r: Focal)
    ensures r.open == s.open && r.trace == s.trace && r.fMin == s.fMin && r.closed == s.closed
    ensures r.focalCost.Keys == s.focalCost.Keys + (if node.fFocalCost < prior then {(node.position, node.gCost)} else {})
    ensures forall k :: k in r.focal && k !in s.focal ==>
      OpenKeyOf(r.focal[k]) == OpenKeyOf(node)
      && FocalKeyOf(LowLevelNode(node.position, node.fOpenCost, prior, node.gCost, t)) in s.focal
    ensures forall k :: k in s.focal && k !in r.focal ==>
      k == FocalKeyOf(LowLevelNode(node.position, node.fOpenCost, prior, node.gCost, t))
  {
    if node.fFocalCost < prior then
      var stale := CreateFocalNode(node.position, node.fOpenCost, prior, node.gCost, t);
      var renewed := CreateFocalNode(node.position, node.fOpenCost, node.fFocalCost, node.gCost, t);
      var cost := s.focalCost[(node.position, node.gCost) := node.fFocalCost];
      if FocalKey(stale) in s.focal then
        s.(focalCost := cost, focal := Insert(s.focal - {FocalKey(stale)}, FocalKey(renewed), renewed.node))
      else s.(focalCost := cost)
    else s
  }

  /**
   * The decrease-key as written: `create_focal_node` receives the prior focal cost where
   * f_open belongs, so the entry removed and re-inserted is a node whose f_open is the
   * prior focal cost; it enters the focal list whether or not the node was there.
   */
  function DecreaseKeyAsWritten(s: Focal, node: LowLevelNode, prior: nat, t: nat): (r: Focal)
    ensures node.fFocalCost < prior ==>
      var bogus := LowLevelNode(node.position, prior, node.fFocalCost, node.gCost, t);
      FocalKeyOf(bogus) in r.focal && r.focal[FocalKeyOf(bogus)].fOpenCost == prior
    ensures node.fFocalCost >= prior ==> r == s
  {
    if node.fFocalCost < prior then
      var w := CreateFocalNode(node.position, prior, node.fFocalCost, node.gCost, t);
      s.(focalCost := s.focalCost[(node.position, node.gCost) := node.fFocalCost],
         focal := Insert(s.focal - {FocalKey(w)}, FocalKey(w), w.node))
    else s
  }

  /**
   * One neighbour `n` of the expanded node `cur`: skipped when its (cell, time step) is
   * closed or a constraint forbids the move; otherwise its focal cost adds the conflicts
   * of the move (`heuristic_focal`, which may panic). The node made for it has time step
   * g. A node new to the open list is inserted there, traced, has its focal cost recorded,
   * and enters focal when its f_open is within `f_min * w`; a node already in open goes
   * through the decrease-key, whose lookup of the recorded cost panics when there is none.
   */
  function FocalVisit(env: Env, paths: seq<Path>, w: real, cur: LowLevelNode, s: Focal, n: Cell): Result<Focal, Panic> {
    var g := cur.gCost + 1;
    var t := NextTime(env.limit, cur.timeStep);
    if (n, t) in s.closed || Violates(env, cur.position, n, g) then Ok(s)
    else match FocalIncrement(env, paths, n, cur.position, g)
      case Err(e) => Err(e)
      case Ok(inc) => Enter(env, w, cur, s, n, inc)
  }

  /** The node made for a neighbour whose focal cost adds `inc`, and its discovery. */
  function Enter(env: Env, w: real, cur: LowLevelNode, s: Focal, n: Cell, inc: nat): Result<Focal, Panic> {
    var g := cur.gCost + 1;
    Discover(s, CreateOpenFocalNode(n, g + env.heuristic(n), cur.fFocalCost + inc, g, g).0.node,
             (cur.position, cur.gCost), NextTime(env.limit, cur.timeStep), Scale(s.fMin, w))
  }

  /**
   * The node made for a neighbour, reached from `prev` at time step `t`: admitted when
   * it is new to the open list, and otherwise put through the decrease-key, whose lookup
   * of the recorded focal cost panics when there is none.
   */
  function Discover(s: Focal, node: LowLevelNode, prev: State, t: nat, bound: real): Result<Focal, Panic> {
    if OpenKeyOf(node) !in s.open then Ok(Admit(s, node, prev, node.fOpenCost as real <= bound))
    else if (node.position, node.gCost) !in s.focalCost then Err(UnwrapNone)
    else Ok(DecreaseKey(s, node, s.focalCost[(node.position, node.gCost)], t))
  }

  /**
   * A node new to the open list: inserted there, traced back to `prev`, its focal cost
   * recorded, and inserted into focal when `within` the bound.
   */
  function Admit(s: Focal, node: LowLevelNode, prev: State, within: bool): Focal {
    s.(open := s.open[OpenKeyOf(node) := node],
       trace := s.trace[(node.position, node.gCost) := prev],
       focalCost := s.focalCost[(node.position, node.gCost) := node.fFocalCost],
       focal := if within then Insert(s.focal, FocalKeyOf(node), node) else s.focal)
  }

  /** The neighbours visited in order; the first panic ends the loop. */
  function FocalVisits(env: Env, paths: seq<Path>, w: real, cur: LowLevelNode, s: Focal, ns: seq<Cell>): Result<Focal, Panic>
    decreases |ns|
  {
    if ns == [] then Ok(s)
    else match FocalVisits(env, paths, w, cur, s, ns[..|ns| - 1])
      case Err(e) => Err(e)
      case Ok(s') => FocalVisit(env, paths, w, cur, s', ns[|ns| - 1])
  }

  // ---------------------------------------------------------------------------
  // The focal band
  // ---------------------------------------------------------------------------

  /**
   * The `for_each` over the open list, in ascending key order over the keys `keys` not
   * yet visited: each node whose f_open lies in (lo, hi] is inserted into focal.
   */
  function BandFrom(open: map<Key, LowLevelNode>, keys: set<Key>, lo: real, hi: real, focal: map<Key, LowLevelNode>)
    : map<Key, LowLevelNode>
    requires keys <= open.Keys
    decreases |keys|
  {
    if keys == {} then focal
    else
      var k := MinKey(keys);
      var n := open[k];
      BandFrom(open, keys - {k}, lo, hi, if lo < n.fOpenCost as real <= hi then Insert(focal, FocalKeyOf(n), n) else focal)
  }

  /** When the open minimum has risen above `f_min`, the nodes of the risen band enter focal. */
  function Band(s: Focal, w: real): Focal {
    if s.open == map[] then s
    else
      var newMin := s.open[Least(s.open)].fOpenCost;
      if s.fMin < newMin then s.(focal := BandFrom(s.open, s.open.Keys, Scale(s.fMin, w), Scale(newMin, w), s.focal))
      else s
  }

  // ---------------------------------------------------------------------------
  // The search loop
  // ---------------------------------------------------------------------------

  /** `f_min` raised to the open list's minimum f_open: it never decreases. */
  function RaisedFMin(s: Focal): (f: nat)
    requires s.open != map[]
    ensures f >= s.fMin && f >= s.open[Least(s.open)].fOpenCost
    ensures f == s.fMin || f == s.open[Least(s.open)].fOpenCost
  {
    Max(s.open[Least(s.open)].fOpenCost, s.fMin)
  }

  /** The state after popping focal key `k`: closed, `f_min` raised, and removed from both lists. */
  function Popped(s: Focal, k: Key): Focal
    requires k in s.focal && s.open != map[]
  {
    var cur := s.focal[k];
    s.(focal := s.focal - {k}, open := s.open - {OpenKeyOf(cur)},
       closed := s.closed + {(cur.position, cur.timeStep)}, fMin := RaisedFMin(s))
  }

  /**
   * The search from state `s` with `fuel` expansions left: what it returns and how many
   * nodes it pops (each pop adds one to `low_level_expand_focal_nodes`).
   */
  ghost function FocalRun(env: Env, paths: seq<Path>, w: real, s: Focal, fuel: nat): (Ending<Found>, nat)
    decreases fuel, 1
  {
    if s.focal == map[] then (Returns(None), 0)
    else if fuel == 0 then (OutOfFuel, 0)
    else FocalPop(env, paths, w, s, fuel)
  }

  /**
   * One pop: the least focal node is closed, `f_min` is raised (the `unwrap` of the open
   * list's first node panics when open is empty), the node is removed from open (the
   * `assert!` panics when it is not there), and it is returned with `f_min` at the goal,
   * or expanded, after which the band is maintained.
   */
  ghost function FocalPop(env: Env, paths: seq<Path>, w: real, s: Focal, fuel: nat): (Ending<Found>, nat)
    requires s.focal != map[] && fuel > 0
    decreases fuel, 0
  {
    var k := Least(s.focal);
    var cur := s.focal[k];
    if s.open == map[] then (Panics(UnwrapNone), 1)
    else if OpenKeyOf(cur) !in s.open then (Panics(AssertionFailed), 1)
    else
      var rest := Popped(s, k);
      if AtGoal(env, cur) then (Returns(Some((PlanOf(rest.trace, (cur.position, cur.gCost)), rest.fMin))), 1)
      else match FocalVisits(env, paths, w, cur, rest, Around(env, cur))
        case Err(e) => (Panics(e), 1)
        case Ok(s') =>
          var next := FocalRun(env, paths, w, Band(s', w), fuel - 1);
          (next.0, next.1 + 1)
  }

  /** The first pop of a run on a non-empty focal list with fuel left. */
  lemma FocalRunPops(env: Env, paths: seq<Path>, w: real, s: Focal, fuel: nat)
    requires s.focal != map[] && fuel > 0
    ensures FocalRun(env, paths, w, s, fuel) == FocalPop(env, paths, w, s, fuel)
  {
  }

  /** A run pops at most `fuel` nodes, and exactly `fuel` when it runs out. */
  lemma {:induction false} FocalRunCounts(env: Env, paths: seq<Path>, w: real, s: Focal, fuel: nat)
    ensures var (r, pops) := FocalRun(env, paths, w, s, fuel);
      pops <= fuel && (r.OutOfFuel? ==> pops == fuel) && (pops == 0 <==> s.focal == map[] || fuel == 0)
    decreases fuel
  {
    if s.focal != map[] && fuel > 0 {
      FocalRunPops(env, paths, w, s, fuel);
      var k := Least(s.focal);
      var cur := s.focal[k];
      if s.open != map[] && OpenKeyOf(cur) in s.open && !AtGoal(env, cur) {
        var e := FocalVisits(env, paths, w, cur, Popped(s, k), Around(env, cur));
        if e.Ok? {
          FocalRunCounts(env, paths, w, Band(e.value, w), fuel - 1);
        }
      }
    }
  }

  // ---------------------------------------------------------------------------
  // Invariants
  // ---------------------------------------------------------------------------

  /** An open entry is stored under its own key, and its state was reached. */
  predicate OpenAt(env: Env, trace: Trace, open: map<Key, LowLevelNode>, k: Key)
    requires k in open
  {
    k == OpenKeyOf(open[k]) && Reached(env, trace, (open[k].position, open[k].gCost))
  }

  /** A focal entry is stored under its own key, and its state was reached. */
  predicate FocalAt(env: Env, trace: Trace, focal: map<Key, LowLevelNode>, k: Key)
    requires k in focal
  {
    k == FocalKeyOf(focal[k]) && Reached(env, trace, (focal[k].position, focal[k].gCost))
  }

  predicate OpensAt(env: Env, trace: Trace, open: map<Key, LowLevelNode>) {
    forall k {:trigger OpenAt(env, trace, open, k)} :: k in open ==> OpenAt(env, trace, open, k)
  }

  predicate FocalsAt(env: Env, trace: Trace, focal: map<Key, LowLevelNode>) {
    forall k {:trigger FocalAt(env, trace, focal, k)} :: k in focal ==> FocalAt(env, trace, focal, k)
  }

  /** The trace links are legal moves, and every listed node was reached. */
  ghost predicate Traced(env: Env, s: Focal) {
    TraceOk(env, s.trace) && OpensAt(env, s.trace, s.open) && FocalsAt(env, s.trace, s.focal)
  }

  /** An open node's f_open is g plus the heuristic, and its focal cost is recorded. */
  predicate OpenLinked(env: Env, costs: map<State, nat>, open: map<Key, LowLevelNode>, k: Key)
    requires k in open
  {
    open[k].fOpenCost == open[k].gCost + env.heuristic(open[k].position) && (open[k].position, open[k].gCost) in costs
  }

  /** A focal node is still in the open list. */
  predicate FocalLinked(open: map<Key, LowLevelNode>, focal: map<Key, LowLevelNode>, k: Key)
    requires k in focal
  {
    OpenKeyOf(focal[k]) in open
  }

  predicate OpensLinked(env: Env, costs: map<State, nat>, open: map<Key, LowLevelNode>) {
    forall k {:trigger OpenLinked(env, costs, open, k)} :: k in open ==> OpenLinked(env, costs, open, k)
  }

  predicate FocalsLinked(open: map<Key, LowLevelNode>, focal: map<Key, LowLevelNode>) {
    forall k {:trigger FocalLinked(open, focal, k)} :: k in focal ==> FocalLinked(open, focal, k)
  }

  /** No two focal entries stand for the same open node. */
  predicate Distinct(focal: map<Key, LowLevelNode>) {
    forall k1, k2 :: k1 in focal && k2 in focal && OpenKeyOf(focal[k1]) == OpenKeyOf(focal[k2]) ==> k1 == k2
  }

  /** The focal list is a set of distinct open nodes, each with its focal cost recorded. */
  predicate Linked(env: Env, s: Focal) {
    OpensLinked(env, s.focalCost, s.open) && FocalsLinked(s.open, s.focal) && Distinct(s.focal)
  }

  /** Every focal node's f_open is at most `bound`. */
  predicate Bounded(focal: map<Key, LowLevelNode>, bound: real) {
    forall k :: k in focal ==> focal[k].fOpenCost as real <= bound
  }

  /** The focal list is linked and within `bound`. */
  predicate Kept(env: Env, s: Focal, bound: real) {
    Linked(env, s) && Bounded(s.focal, bound)
  }

  /** The `f_min` the next pop computes. */
  function Bound(s: Focal): (b: nat)
    ensures b >= s.fMin
  {
    if s.open == map[] then s.fMin else RaisedFMin(s)
  }

  /** The invariant of the search loop for a suboptimality factor `w`. */
  ghost predicate Safe(env: Env, w: real, s: Focal) {
    Traced(env, s) && Linked(env, s) && Bounded(s.focal, Scale(Bound(s), w))
  }

  /** The start state keeps the invariant once the factor is at least 1. */
  lemma StartSafe(env: Env, w: real)
    requires w >= 1.0
    ensures Safe(env, w, SearchStart(env))
  {
    var s := SearchStart(env);
    var n := StartNode(env);
    assert s.open == map[OpenKeyOf(n) := n] && s.focal == map[FocalKeyOf(n) := n];
    assert OpenKeyOf(n) in s.open;
    assert Least(s.open) == OpenKeyOf(n);
    assert Bound(s) == env.heuristic(env.agent.start);
    ScaleAtLeast(Bound(s), w);
  }

  /** The start state keeps the part of the invariant that does not depend on the factor. */
  lemma StartTraced(env: Env)
    ensures Traced(env, SearchStart(env))
  {
  }

  // Facts about the lists, one change at a time.

  lemma OpensAtGrow(env: Env, trace: Trace, trace': Trace, open: map<Key, LowLevelNode>)
    requires OpensAt(env, trace, open) && trace.Keys <= trace'.Keys
    ensures OpensAt(env, trace', open)
  {
    forall k | k in open ensures OpenAt(env, trace', open, k) {
      assert OpenAt(env, trace, open, k);
    }
  }

  lemma FocalsAtGrow(env: Env, trace: Trace, trace': Trace, focal: map<Key, LowLevelNode>)
    requires FocalsAt(env, trace, focal) && trace.Keys <= trace'.Keys
    ensures FocalsAt(env, trace', focal)
  {
    forall k | k in focal ensures FocalAt(env, trace', focal, k) {
      assert FocalAt(env, trace, focal, k);
    }
  }

  lemma OpensLinkedGrow(env: Env, costs: map<State, nat>, costs': map<State, nat>, open: map<Key, LowLevelNode>)
    requires OpensLinked(env, costs, open) && costs.Keys <= costs'.Keys
    ensures OpensLinked(env, costs', open)
  {
    forall k | k in open ensures OpenLinked(env, costs', open, k) {
      assert OpenLinked(env, costs, open, k);
    }
  }

  lemma FocalsLinkedGrow(open: map<Key, LowLevelNode>, open': map<Key, LowLevelNode>, focal: map<Key, LowLevelNode>)
    requires FocalsLinked(open, focal) && open.Keys <= open'.Keys
    ensures FocalsLinked(open', focal)
  {
    forall k | k in focal ensures FocalLinked(open', focal, k) {
      assert FocalLinked(open, focal, k);
    }
  }

  /** A reached node under its own key joins the focal list. */
  lemma FocalsAtInsert(env: Env, trace: Trace, focal: map<Key, LowLevelNode>, v: LowLevelNode)
    requires FocalsAt(env, trace, focal) && Reached(env, trace, (v.position, v.gCost))
    ensures FocalsAt(env, trace, Insert(focal, FocalKeyOf(v), v))
  {
    var f := Insert(focal, FocalKeyOf(v), v);
    forall k | k in f ensures FocalAt(env, trace, f, k) {
      if k in focal {
        assert FocalAt(env, trace, focal, k);
      }
    }
  }

  lemma FocalsAtRemove(env: Env, trace: Trace, focal: map<Key, LowLevelNode>, k0: Key)
    requires FocalsAt(env, trace, focal)
    ensures FocalsAt(env, trace, focal - {k0})
  {
    var f := focal - {k0};
    forall k | k in f ensures FocalAt(env, trace, f, k) {
      assert FocalAt(env, trace, focal, k);
    }
  }

  /** A node whose open key is in the open list joins the focal list, which stays linked. */
  lemma FocalsLinkedInsert(open: map<Key, LowLevelNode>, focal: map<Key, LowLevelNode>, k0: Key, v: LowLevelNode)
    requires FocalsLinked(open, focal) && OpenKeyOf(v) in open
    ensures FocalsLinked(open, Insert(focal, k0, v))
  {
    var f := Insert(focal, k0, v);
    forall k | k in f ensures FocalLinked(open, f, k) {
      if k in focal {
        assert FocalLinked(open, focal, k);
      }
    }
  }

  lemma FocalsLinkedRemove(open: map<Key, LowLevelNode>, focal: map<Key, LowLevelNode>, k0: Key)
    requires FocalsLinked(open, focal)
    ensures FocalsLinked(open, focal - {k0})
  {
    var f := focal - {k0};
    forall k | k in f ensures FocalLinked(open, f, k) {
      assert FocalLinked(open, focal, k);
    }
  }

  /** An entry for a node no focal entry stands for keeps the focal list distinct. */
  lemma DistinctInsert(focal: map<Key, LowLevelNode>, k0: Key, v: LowLevelNode)
    requires Distinct(focal) && forall k :: k in focal ==> OpenKeyOf(focal[k]) != OpenKeyOf(v)
    ensures Distinct(Insert(focal, k0, v))
  {
  }

  lemma BoundedInsert(focal: map<Key, LowLevelNode>, k0: Key, v: LowLevelNode, bound: real)
    requires Bounded(focal, bound) && v.fOpenCost as real <= bound
    ensures Bounded(Insert(focal, k0, v), bound)
  {
  }

  /** Replacing the entry `sk` by a node for the same open node keeps the list distinct. */
  lemma DistinctReplace(focal: map<Key, LowLevelNode>, sk: Key, k0: Key, v: LowLevelNode)
    requires Distinct(focal) && sk in focal && OpenKeyOf(v) == OpenKeyOf(focal[sk])
    ensures Distinct(Insert(focal - {sk}, k0, v))
  {
    var f := focal - {sk};
    forall k | k in f ensures OpenKeyOf(f[k]) != OpenKeyOf(v) {
    }
    DistinctInsert(f, k0, v);
  }

  lemma OpensAtInsert(env: Env, trace: Trace, open: map<Key, LowLevelNode>, v: LowLevelNode)
    requires OpensAt(env, trace, open) && Reached(env, trace, (v.position, v.gCost))
    ensures OpensAt(env, trace, open[OpenKeyOf(v) := v])
  {
    var o := open[OpenKeyOf(v) := v];
    forall k | k in o ensures OpenAt(env, trace, o, k) {
      if k != OpenKeyOf(v) {
        assert OpenAt(env, trace, open, k);
      }
    }
  }

  lemma OpensAtRemove(env: Env, trace: Trace, open: map<Key, LowLevelNode>, k0: Key)
    requires OpensAt(env, trace, open)
    ensures OpensAt(env, trace, open - {k0})
  {
    var o := open - {k0};
    forall k | k in o ensures OpenAt(env, trace, o, k) {
      assert OpenAt(env, trace, open, k);
    }
  }

  lemma OpensLinkedInsert(env: Env, costs: map<State, nat>, open: map<Key, LowLevelNode>, v: LowLevelNode)
    requires OpensLinked(env, costs, open)
    requires v.fOpenCost == v.gCost + env.heuristic(v.position) && (v.position, v.gCost) in costs
    ensures OpensLinked(env, costs, open[OpenKeyOf(v) := v])
  {
    var o := open[OpenKeyOf(v) := v];
    forall k | k in o ensures OpenLinked(env, costs, o, k) {
      if k != OpenKeyOf(v) {
        assert OpenLinked(env, costs, open, k);
      }
    }
  }

  lemma OpensLinkedRemove(env: Env, costs: map<State, nat>, open: map<Key, LowLevelNode>, k0: Key)
    requires OpensLinked(env, costs, open)
    ensures OpensLinked(env, costs, open - {k0})
  {
    var o := open - {k0};
    forall k | k in o ensures OpenLinked(env, costs, o, k) {
      assert OpenLinked(env, costs, open, k);
    }
  }

  /** Popping a focal entry and its open node leaves the other focal entries linked. */
  lemma FocalsLinkedPop(open: map<Key, LowLevelNode>, focal: map<Key, LowLevelNode>, k0: Key)
    requires FocalsLinked(open, focal) && Distinct(focal) && k0 in focal
    ensures FocalsLinked(open - {OpenKeyOf(focal[k0])}, focal - {k0})
  {
    var o, f := open - {OpenKeyOf(focal[k0])}, focal - {k0};
    forall k | k in f ensures FocalLinked(o, f, k) {
      assert FocalLinked(open, focal, k);
    }
  }

  // The two changes a neighbour makes.

  /** Admitting a new node keeps every listed node reached once its trace link is legal. */
  lemma AdmitTraced(env: Env, s: Focal, node: LowLevelNode, prev: State, within: bool)
    requires Traced(env, s) && node.gCost > 0 && TraceOk(env, s.trace[(node.position, node.gCost) := prev])
    ensures Traced(env, Admit(s, node, prev, within))
  {
    var trace' := s.trace[(node.position, node.gCost) := prev];
    OpensAtGrow(env, s.trace, trace', s.open);
    OpensAtInsert(env, trace', s.open, node);
    FocalsAtGrow(env, s.trace, trace', s.focal);
    if within {
      FocalsAtInsert(env, trace', s.focal, node);
    }
  }

  /** Admitting a node new to the open list keeps the focal list linked and bounded. */
  lemma AdmitLinked(env: Env, s: Focal, node: LowLevelNode, prev: State, within: bool, bound: real)
    requires Linked(env, s) && Bounded(s.focal, bound) && OpenKeyOf(node) !in s.open
    requires node.fOpenCost == node.gCost + env.heuristic(node.position) && (within ==> node.fOpenCost as real <= bound)
    ensures Linked(env, Admit(s, node, prev, within)) && Bounded(Admit(s, node, prev, within).focal, bound)
  {
    var r := Admit(s, node, prev, within);
    OpensLinkedGrow(env, s.focalCost, r.focalCost, s.open);
    OpensLinkedInsert(env, r.focalCost, s.open, node);
    FocalsLinkedGrow(s.open, r.open, s.focal);
    if within {
      FocalsLinkedInsert(r.open, s.focal, FocalKeyOf(node), node);
      forall k | k in s.focal ensures OpenKeyOf(s.focal[k]) != OpenKeyOf(node) {
        assert FocalLinked(s.open, s.focal, k);
      }
      DistinctInsert(s.focal, FocalKeyOf(node), node);
      BoundedInsert(s.focal, FocalKeyOf(node), node, bound);
    }
  }

  /** The entry a decrease-key puts in place of the stale one. */
  function Renewed(node: LowLevelNode, t: nat): LowLevelNode {
    LowLevelNode(node.position, node.fOpenCost, node.fFocalCost, node.gCost, t)
  }

  /** The focal key of a node's entry under focal cost `prior`. */
  function StaleKey(node: LowLevelNode, prior: nat, t: nat): Key {
    FocalKeyOf(LowLevelNode(node.position, node.fOpenCost, prior, node.gCost, t))
  }

  /** What a decrease-key does to the focal list. */
  lemma DecreaseKeyFocal(s: Focal, node: LowLevelNode, prior: nat, t: nat)
    requires node.fFocalCost < prior
    ensures DecreaseKey(s, node, prior, t).focal ==
      if StaleKey(node, prior, t) in s.focal
      then Insert(s.focal - {StaleKey(node, prior, t)}, FocalKeyOf(Renewed(node, t)), Renewed(node, t))
      else s.focal
  {
  }

  /** The stale entry of a decrease-key is the same open node as the rediscovered one. */
  lemma StaleEntry(env: Env, s: Focal, node: LowLevelNode, prior: nat, t: nat)
    requires FocalsAt(env, s.trace, s.focal) && StaleKey(node, prior, t) in s.focal
    ensures var e := s.focal[StaleKey(node, prior, t)];
      e.position == node.position && e.gCost == node.gCost && e.fOpenCost == node.fOpenCost
      && OpenKeyOf(e) == OpenKeyOf(Renewed(node, t)) && Reached(env, s.trace, (node.position, node.gCost))
  {
    var sk := StaleKey(node, prior, t);
    assert FocalAt(env, s.trace, s.focal, sk);
    FocalKeyOfInjective(s.focal[sk], LowLevelNode(node.position, node.fOpenCost, prior, node.gCost, t));
    OpenKeyOfInjective(s.focal[sk], Renewed(node, t));
  }

  /** A decrease-key keeps every listed node reached. */
  lemma DecreaseKeyTraced(env: Env, s: Focal, node: LowLevelNode, prior: nat, t: nat)
    requires Traced(env, s)
    ensures Traced(env, DecreaseKey(s, node, prior, t))
  {
    var sk := StaleKey(node, prior, t);
    if node.fFocalCost < prior && sk in s.focal {
      DecreaseKeyFocal(s, node, prior, t);
      StaleEntry(env, s, node, prior, t);
      FocalsAtRemove(env, s.trace, s.focal, sk);
      FocalsAtInsert(env, s.trace, s.focal - {sk}, Renewed(node, t));
    }
  }

  /** A decrease-key keeps the focal list linked and bounded. */
  lemma DecreaseKeyLinked(env: Env, s: Focal, node: LowLevelNode, prior: nat, t: nat, bound: real)
    requires FocalsAt(env, s.trace, s.focal) && Linked(env, s) && Bounded(s.focal, bound)
    ensures Linked(env, DecreaseKey(s, node, prior, t)) && Bounded(DecreaseKey(s, node, prior, t).focal, bound)
  {
    var r := DecreaseKey(s, node, prior, t);
    OpensLinkedGrow(env, s.focalCost, r.focalCost, s.open);
    var sk := StaleKey(node, prior, t);
    if node.fFocalCost < prior && sk in s.focal {
      DecreaseKeyFocal(s, node, prior, t);
      StaleEntry(env, s, node, prior, t);
      assert FocalLinked(s.open, s.focal, sk);
      FocalsLinkedRemove(s.open, s.focal, sk);
      FocalsLinkedInsert(s.open, s.focal - {sk}, FocalKeyOf(Renewed(node, t)), Renewed(node, t));
      DistinctReplace(s.focal, sk, FocalKeyOf(Renewed(node, t)), Renewed(node, t));
      BoundedInsert(s.focal - {sk}, FocalKeyOf(Renewed(node, t)), Renewed(node, t), bound);
    }
  }

  // One neighbour, then all of them.

  lemma DiscoverAdmits(s: Focal, node: LowLevelNode, prev: State, t: nat, bound: real)
    requires OpenKeyOf(node) !in s.open
    ensures Discover(s, node, prev, t, bound) == Ok(Admit(s, node, prev, node.fOpenCost as real <= bound))
  {
  }

  lemma DiscoverDecreases(s: Focal, node: LowLevelNode, prev: State, t: nat, bound: real)
    requires OpenKeyOf(node) in s.open && (node.position, node.gCost) in s.focalCost
    ensures Discover(s, node, prev, t, bound) == Ok(DecreaseKey(s, node, s.focalCost[(node.position, node.gCost)], t))
  {
  }

  lemma DiscoverTraced(env: Env, s: Focal, node: LowLevelNode, prev: State, t: nat, bound: real)
    requires Traced(env, s) && node.gCost > 0 && TraceOk(env, s.trace[(node.position, node.gCost) := prev])
    ensures var r := Discover(s, node, prev, t, bound);
      r.Ok? ==> Traced(env, r.value) && s.trace.Keys <= r.value.trace.Keys
  {
    if OpenKeyOf(node) !in s.open {
      DiscoverAdmits(s, node, prev, t, bound);
      AdmitTraced(env, s, node, prev, node.fOpenCost as real <= bound);
    } else if (node.position, node.gCost) in s.focalCost {
      DiscoverDecreases(s, node, prev, t, bound);
      DecreaseKeyTraced(env, s, node, s.focalCost[(node.position, node.gCost)], t);
    }
  }

  lemma DiscoverLinked(env: Env, s: Focal, node: LowLevelNode, prev: State, t: nat, bound: real)
    requires FocalsAt(env, s.trace, s.focal) && Kept(env, s, bound)
    requires node.fOpenCost == node.gCost + env.heuristic(node.position)
    ensures var r := Discover(s, node, prev, t, bound);
      r.Ok? ==> Kept(env, r.value, bound) && r.value.fMin == s.fMin
  {
    if OpenKeyOf(node) !in s.open {
      DiscoverAdmits(s, node, prev, t, bound);
      AdmitLinked(env, s, node, prev, node.fOpenCost as real <= bound, bound);
    } else if (node.position, node.gCost) in s.focalCost {
      DiscoverDecreases(s, node, prev, t, bound);
      DecreaseKeyLinked(env, s, node, s.focalCost[(node.position, node.gCost)], t, bound);
    }
  }

  /** A node already in the open list always has its focal cost recorded. */
  lemma DiscoverRecorded(env: Env, s: Focal, node: LowLevelNode, prev: State, t: nat, bound: real)
    requires OpensAt(env, s.trace, s.open) && OpensLinked(env, s.focalCost, s.open)
    ensures Discover(s, node, prev, t, bound).Ok?
  {
    var ok := OpenKeyOf(node);
    if ok in s.open {
      assert OpenAt(env, s.trace, s.open, ok) && OpenLinked(env, s.focalCost, s.open, ok);
      OpenKeyOfInjective(s.open[ok], node);
    }
  }

  lemma EnterTraced(env: Env, w: real, cur: LowLevelNode, s: Focal, n: Cell, inc: nat)
    requires Traced(env, s) && Reached(env, s.trace, (cur.position, cur.gCost))
    requires Moves(env, cur.position, n, cur.gCost + 1)
    ensures var r := Enter(env, w, cur, s, n, inc);
      r.Ok? ==> Traced(env, r.value) && s.trace.Keys <= r.value.trace.Keys
  {
    var g, b := cur.gCost + 1, Scale(s.fMin, w);
    var node := CreateOpenFocalNode(n, g + env.heuristic(n), cur.fFocalCost + inc, g, g).0.node;
    var d := Discover(s, node, (cur.position, cur.gCost), NextTime(env.limit, cur.timeStep), b);
    TraceGrows(env, s.trace, n, g, cur.position, cur.gCost);
    DiscoverTraced(env, s, node, (cur.position, cur.gCost), NextTime(env.limit, cur.timeStep), b);
    assert Enter(env, w, cur, s, n, inc) == d;
    if d.Ok? {
      TracedSame(env, d.value, Enter(env, w, cur, s, n, inc).value);
    }
  }

  lemma TracedSame(env: Env, a: Focal, a': Focal)
    requires a == a' && Traced(env, a)
    ensures Traced(env, a')
  {
  }

  lemma EnterLinked(env: Env, w: real, cur: LowLevelNode, s: Focal, n: Cell, inc: nat)
    requires FocalsAt(env, s.trace, s.focal) && Kept(env, s, Scale(s.fMin, w))
    ensures var r := Enter(env, w, cur, s, n, inc);
      r.Ok? ==> Kept(env, r.value, Scale(s.fMin, w)) && r.value.fMin == s.fMin
  {
    var g, b := cur.gCost + 1, Scale(s.fMin, w);
    var node := CreateOpenFocalNode(n, g + env.heuristic(n), cur.fFocalCost + inc, g, g).0.node;
    var d := Discover(s, node, (cur.position, cur.gCost), NextTime(env.limit, cur.timeStep), b);
    DiscoverLinked(env, s, node, (cur.position, cur.gCost), NextTime(env.limit, cur.timeStep), b);
    assert Enter(env, w, cur, s, n, inc) == d;
    if d.Ok? {
      KeptSame(env, d.value, Enter(env, w, cur, s, n, inc).value, b);
    }
  }

  lemma KeptSame(env: Env, a: Focal, a': Focal, bound: real)
    requires a == a' && Kept(env, a, bound)
    ensures Kept(env, a', bound)
  {
  }

  lemma EnterRecorded(env: Env, w: real, cur: LowLevelNode, s: Focal, n: Cell, inc: nat)
    requires OpensAt(env, s.trace, s.open) && OpensLinked(env, s.focalCost, s.open)
    ensures Enter(env, w, cur, s, n, inc).Ok?
  {
    var g := cur.gCost + 1;
    var node := CreateOpenFocalNode(n, g + env.heuristic(n), cur.fFocalCost + inc, g, g).0.node;
    DiscoverRecorded(env, s, node, (cur.position, cur.gCost), NextTime(env.limit, cur.timeStep), Scale(s.fMin, w));
  }

  /** A visit skips a closed or forbidden neighbour, fails with `heuristic_focal`, or enters it. */
  lemma VisitOutcome(env: Env, paths: seq<Path>, w: real, cur: LowLevelNode, s: Focal, n: Cell)
    ensures var g, t := cur.gCost + 1, NextTime(env.limit, cur.timeStep);
      var inc := FocalIncrement(env, paths, n, cur.position, g);
      FocalVisit(env, paths, w, cur, s, n)
      == if (n, t) in s.closed || Violates(env, cur.position, n, g) then Ok(s)
         else if inc.Err? then Err(inc.error) else Enter(env, w, cur, s, n, inc.value)
  {
  }

  /** A visit keeps every listed node reached, and the trace only grows. */
  lemma VisitTraced(env: Env, paths: seq<Path>, w: real, cur: LowLevelNode, s: Focal, n: Cell)
    requires Traced(env, s) && Reached(env, s.trace, (cur.position, cur.gCost)) && n in Around(env, cur)
    ensures var r := FocalVisit(env, paths, w, cur, s, n);
      r.Ok? ==> Traced(env, r.value) && s.trace.Keys <= r.value.trace.Keys
  {
    VisitOutcome(env, paths, w, cur, s, n);
    var g := cur.gCost + 1;
    var inc := FocalIncrement(env, paths, n, cur.position, g);
    if !((n, NextTime(env.limit, cur.timeStep)) in s.closed || Violates(env, cur.position, n, g)) && inc.Ok? {
      AroundMoves(env, cur, n, g);
      EnterTraced(env, w, cur, s, n, inc.value);
    }
  }

  /** A visit keeps the focal list linked and within `f_min * w`, and leaves `f_min` alone. */
  lemma VisitLinked(env: Env, paths: seq<Path>, w: real, cur: LowLevelNode, s: Focal, n: Cell)
    requires FocalsAt(env, s.trace, s.focal) && Kept(env, s, Scale(s.fMin, w))
    ensures var r := FocalVisit(env, paths, w, cur, s, n);
      r.Ok? ==> Kept(env, r.value, Scale(s.fMin, w)) && r.value.fMin == s.fMin
  {
    VisitOutcome(env, paths, w, cur, s, n);
    var inc := FocalIncrement(env, paths, n, cur.position, cur.gCost + 1);
    if inc.Ok? {
      EnterLinked(env, w, cur, s, n, inc.value);
    }
  }

  /** A visit panics only in `heuristic_focal`, when another agent's path is empty. */
  lemma VisitPanics(env: Env, paths: seq<Path>, w: real, cur: LowLevelNode, s: Focal, n: Cell)
    requires OpensAt(env, s.trace, s.open) && OpensLinked(env, s.focalCost, s.open)
    ensures var r := FocalVisit(env, paths, w, cur, s, n);
      r.Err? ==> r.error == UnwrapNone && !Algorithm.OthersNonEmpty(env.agent.id, paths, |paths|)
  {
    VisitOutcome(env, paths, w, cur, s, n);
    var inc := FocalIncrement(env, paths, n, cur.position, cur.gCost + 1);
    if inc.Ok? {
      EnterRecorded(env, w, cur, s, n, inc.value);
    }
  }

  /** All of a node's neighbours: the combined invariant of the visits. */
  ghost predicate Visitable(env: Env, w: real, cur: LowLevelNode, s: Focal) {
    Traced(env, s) && Reached(env, s.trace, (cur.position, cur.gCost))
    && Kept(env, s, Scale(s.fMin, w))
  }

  lemma {:induction false} VisitsKeep(env: Env, paths: seq<Path>, w: real, cur: LowLevelNode, s: Focal, ns: seq<Cell>)
    requires Visitable(env, w, cur, s) && forall i :: 0 <= i < |ns| ==> ns[i] in Around(env, cur)
    ensures var r := FocalVisits(env, paths, w, cur, s, ns);
      (r.Ok? ==> Visitable(env, w, cur, r.value) && r.value.fMin == s.fMin)
      && (r.Err? ==> r.error == UnwrapNone && !Algorithm.OthersNonEmpty(env.agent.id, paths, |paths|))
    decreases |ns|
  {
    if ns != [] {
      var pre := ns[..|ns| - 1];
      VisitsKeep(env, paths, w, cur, s, pre);
      var r := FocalVisits(env, paths, w, cur, s, pre);
      if r.Ok? {
        var s' := r.value;
        var n := ns[|ns| - 1];
        VisitTraced(env, paths, w, cur, s', n);
        VisitLinked(env, paths, w, cur, s', n);
        VisitPanics(env, paths, w, cur, s', n);
      }
    }
  }

  // Popping.

  /** The popped node was reached, is an open node, and its f_open is its g plus heuristic. */
  lemma PopNode(env: Env, s: Focal, k: Key)
    requires Traced(env, s) && Linked(env, s) && k in s.focal
    ensures var cur := s.focal[k];
      Reached(env, s.trace, (cur.position, cur.gCost)) && OpenKeyOf(cur) in s.open
      && cur.fOpenCost == cur.gCost + env.heuristic(cur.position)
  {
    var cur := s.focal[k];
    assert FocalAt(env, s.trace, s.focal, k) && FocalLinked(s.open, s.focal, k);
    var ok := OpenKeyOf(cur);
    assert OpenAt(env, s.trace, s.open, ok) && OpenLinked(env, s.focalCost, s.open, ok);
    OpenKeyOfInjective(s.open[ok], cur);
  }

  /** Popping keeps the invariant: the pop's `f_min` is the bound the focal list kept. */
  lemma PopKeeps(env: Env, w: real, s: Focal, k: Key)
    requires Safe(env, w, s) && k in s.focal && s.open != map[]
    ensures var cur, r := s.focal[k], Popped(s, k);
      Traced(env, r) && Linked(env, r) && Bounded(r.focal, Scale(r.fMin, w))
      && cur.fOpenCost as real <= Scale(r.fMin, w)
  {
    var cur := s.focal[k];
    PoppedShape(s, k);
    OpensAtRemove(env, s.trace, s.open, OpenKeyOf(cur));
    FocalsAtRemove(env, s.trace, s.focal, k);
    OpensLinkedRemove(env, s.focalCost, s.open, OpenKeyOf(cur));
    FocalsLinkedPop(s.open, s.focal, k);
    var r, b := Popped(s, k), Scale(Bound(s), w);
    BoundedRemove(s.focal, k, b);
    assert r.focal == s.focal - {k} && Scale(r.fMin, w) == b;
  }

  lemma PoppedShape(s: Focal, k: Key)
    requires k in s.focal && s.open != map[]
    ensures var cur := s.focal[k];
      Popped(s, k) == Focal(s.open - {OpenKeyOf(cur)}, s.focal - {k}, s.closed + {(cur.position, cur.timeStep)},
                            s.trace, s.focalCost, Bound(s))
  {
  }

  lemma BoundedRemove(focal: map<Key, LowLevelNode>, k0: Key, bound: real)
    requires Bounded(focal, bound) && k0 in focal
    ensures Bounded(focal - {k0}, bound) && focal[k0].fOpenCost as real <= bound
  {
  }

  // The band.

  /** Every open entry is stored under its own open key. */
  predicate Keyed(open: map<Key, LowLevelNode>) {
    forall k :: k in open ==> k == OpenKeyOf(open[k])
  }

  lemma OpensKeyed(env: Env, trace: Trace, open: map<Key, LowLevelNode>)
    requires OpensAt(env, trace, open)
    ensures Keyed(open)
  {
    forall k | k in open ensures k == OpenKeyOf(open[k]) {
      assert OpenAt(env, trace, open, k);
    }
  }

  /** One step of the band's walk over the open list. */
  lemma BandStep(open: map<Key, LowLevelNode>, keys: set<Key>, lo: real, hi: real, focal: map<Key, LowLevelNode>)
    requires keys <= open.Keys && keys != {}
    ensures var k := MinKey(keys);
      var n := open[k];
      BandFrom(open, keys, lo, hi, focal)
      == BandFrom(open, keys - {k}, lo, hi, if lo < n.fOpenCost as real <= hi then Insert(focal, FocalKeyOf(n), n) else focal)
  {
  }

  lemma {:induction false} BandFocalsAt(env: Env, trace: Trace, open: map<Key, LowLevelNode>, keys: set<Key>, lo: real, hi: real,
                                       focal: map<Key, LowLevelNode>)
    requires keys <= open.Keys && OpensAt(env, trace, open) && FocalsAt(env, trace, focal)
    ensures FocalsAt(env, trace, BandFrom(open, keys, lo, hi, focal))
    decreases |keys|
  {
    if keys != {} {
      var k := MinKey(keys);
      var n := open[k];
      BandStep(open, keys, lo, hi, focal);
      assert OpenAt(env, trace, open, k);
      if lo < n.fOpenCost as real <= hi {
        FocalsAtInsert(env, trace, focal, n);
        BandFocalsAt(env, trace, open, keys - {k}, lo, hi, Insert(focal, FocalKeyOf(n), n));
      } else {
        BandFocalsAt(env, trace, open, keys - {k}, lo, hi, focal);
      }
    }
  }

  lemma {:induction false} BandFocalsLinked(open: map<Key, LowLevelNode>, keys: set<Key>, lo: real, hi: real,
                                           focal: map<Key, LowLevelNode>)
    requires keys <= open.Keys && Keyed(open) && FocalsLinked(open, focal)
    ensures FocalsLinked(open, BandFrom(open, keys, lo, hi, focal))
    decreases |keys|
  {
    if keys != {} {
      var k := MinKey(keys);
      var n := open[k];
      BandStep(open, keys, lo, hi, focal);
      if lo < n.fOpenCost as real <= hi {
        FocalsLinkedInsert(open, focal, FocalKeyOf(n), n);
        BandFocalsLinked(open, keys - {k}, lo, hi, Insert(focal, FocalKeyOf(n), n));
      } else {
        BandFocalsLinked(open, keys - {k}, lo, hi, focal);
      }
    }
  }

  /** Each focal entry is below the band, or stands for an open node the walk has passed. */
  predicate Passed(focal: map<Key, LowLevelNode>, keys: set<Key>, lo: real) {
    forall k :: k in focal ==> focal[k].fOpenCost as real <= lo || OpenKeyOf(focal[k]) !in keys
  }

  lemma {:induction false} BandDistinct(open: map<Key, LowLevelNode>, keys: set<Key>, lo: real, hi: real,
                                       focal: map<Key, LowLevelNode>)
    requires keys <= open.Keys && Keyed(open) && Distinct(focal) && Passed(focal, keys, lo)
    ensures Distinct(BandFrom(open, keys, lo, hi, focal))
    decreases |keys|
  {
    if keys != {} {
      var k := MinKey(keys);
      var n := open[k];
      BandStep(open, keys, lo, hi, focal);
      if lo < n.fOpenCost as real <= hi {
        forall j | j in focal ensures OpenKeyOf(focal[j]) != OpenKeyOf(n) {
          if focal[j].fOpenCost as real <= lo {
            OpenKeyOfInjective(focal[j], n);
          }
        }
        DistinctInsert(focal, FocalKeyOf(n), n);
        BandDistinct(open, keys - {k}, lo, hi, Insert(focal, FocalKeyOf(n), n));
      } else {
        BandDistinct(open, keys - {k}, lo, hi, focal);
      }
    }
  }

  lemma {:induction false} BandBounded(open: map<Key, LowLevelNode>, keys: set<Key>, lo: real, hi: real,
                                      focal: map<Key, LowLevelNode>, bound: real)
    requires keys <= open.Keys && Bounded(focal, bound) && hi <= bound
    ensures Bounded(BandFrom(open, keys, lo, hi, focal), bound)
    decreases |keys|
  {
    if keys != {} {
      var k := MinKey(keys);
      var n := open[k];
      BandStep(open, keys, lo, hi, focal);
      if lo < n.fOpenCost as real <= hi {
        BoundedInsert(focal, FocalKeyOf(n), n, bound);
        BandBounded(open, keys - {k}, lo, hi, Insert(focal, FocalKeyOf(n), n), bound);
      } else {
        BandBounded(open, keys - {k}, lo, hi, focal, bound);
      }
    }
  }

  lemma {:induction false} ScaleAtLeast(f: nat, w: real)
    requires w >= 1.0
    ensures f as real <= Scale(f, w)
  {
    if f > 0 {
      ScaleAtLeast(f - 1, w);
    }
  }

  lemma {:induction false} ScaleMonotone(a: nat, b: nat, w: real)
    requires a <= b && w >= 0.0
    ensures Scale(a, w) <= Scale(b, w)
    decreases b
  {
    if a < b {
      ScaleMonotone(a, b - 1, w);
    }
  }

  lemma BoundedWeaken(focal: map<Key, LowLevelNode>, bound: real, bound': real)
    requires Bounded(focal, bound) && bound <= bound'
    ensures Bounded(focal, bound')
  {
  }

  /** When the open minimum has risen above `f_min`, the band is walked and becomes the bound. */
  lemma BandShape(s: Focal, w: real)
    requires s.open != map[] && s.fMin < s.open[Least(s.open)].fOpenCost
    ensures var newMin := s.open[Least(s.open)].fOpenCost;
      var r := Band(s, w);
      r == s.(focal := BandFrom(s.open, s.open.Keys, Scale(s.fMin, w), Scale(newMin, w), s.focal))
      && Bound(r) == newMin
  {
  }

  /** Without a risen minimum the band leaves the state alone, and the bound is `f_min`. */
  lemma BandStays(s: Focal, w: real)
    requires !(s.open != map[] && s.fMin < s.open[Least(s.open)].fOpenCost)
    ensures Band(s, w) == s && Bound(s) == s.fMin
  {
  }

  /** The walk over the open list keeps the focal list's invariants and raises its bound to `hi`. */
  lemma BandFromKeeps(env: Env, trace: Trace, open: map<Key, LowLevelNode>, lo: real, hi: real, focal: map<Key, LowLevelNode>)
    requires OpensAt(env, trace, open) && FocalsAt(env, trace, focal) && FocalsLinked(open, focal) && Distinct(focal)
    requires Bounded(focal, lo) && lo <= hi
    ensures var f := BandFrom(open, open.Keys, lo, hi, focal);
      FocalsAt(env, trace, f) && FocalsLinked(open, f) && Distinct(f) && Bounded(f, hi)
  {
    OpensKeyed(env, trace, open);
    BandFocalsAt(env, trace, open, open.Keys, lo, hi, focal);
    BandFocalsLinked(open, open.Keys, lo, hi, focal);
    BandDistinct(open, open.Keys, lo, hi, focal);
    BoundedWeaken(focal, lo, hi);
    BandBounded(open, open.Keys, lo, hi, focal, hi);
  }

  /** Maintaining the band restores the invariant the next pop relies on. */
  lemma BandKeeps(env: Env, w: real, s: Focal)
    requires w >= 0.0 && Traced(env, s) && Kept(env, s, Scale(s.fMin, w))
    ensures Safe(env, w, Band(s, w))
  {
    if s.open != map[] && s.fMin < s.open[Least(s.open)].fOpenCost {
      var newMin := s.open[Least(s.open)].fOpenCost;
      BandShape(s, w);
      ScaleMonotone(s.fMin, newMin, w);
      BandFromKeeps(env, s.trace, s.open, Scale(s.fMin, w), Scale(newMin, w), s.focal);
    } else {
      BandStays(s, w);
    }
  }

  // ---------------------------------------------------------------------------
  // What the search returns
  // ---------------------------------------------------------------------------

  /**
   * A path the focal search returns with `f_min` = `f`: a plan to the goal after more
   * moves than the path-length constraint, whose f value is within `f * w`.
   */
  ghost predicate FocalDelivers(env: Env, w: real, found: (Path, nat)) {
    var (p, f) := found;
    IsPlan(env, p) && p[|p| - 1] == env.agent.goal && |p| - 1 > env.pathLengthConstraint
    && (|p| - 1 + env.heuristic(env.agent.goal)) as real <= f as real * w
  }

  /** The outcome of a search is sound: `heuristic_focal`'s panic only, and delivered paths. */
  ghost predicate FocalSound(env: Env, paths: seq<Path>, w: real, r: Ending<Found>) {
    (r.Panics? ==> r.panic == UnwrapNone && !Algorithm.OthersNonEmpty(env.agent.id, paths, |paths|))
    && (r.Returns? && r.value.Some? ==> FocalDelivers(env, w, r.value.value))
  }

  lemma SoundSame(env: Env, paths: seq<Path>, w: real, r: Ending<Found>, r': Ending<Found>)
    requires r == r' && FocalSound(env, paths, w, r)
    ensures FocalSound(env, paths, w, r')
  {
  }

  /** A popped goal node is returned as a plan within `f * w` when its f_open is. */
  lemma GoalDelivers(env: Env, w: real, trace: Trace, cur: LowLevelNode, f: nat)
    requires TraceOk(env, trace) && Reached(env, trace, (cur.position, cur.gCost)) && AtGoal(env, cur)
    requires cur.fOpenCost == cur.gCost + env.heuristic(cur.position) && cur.fOpenCost as real <= Scale(f, w)
    ensures FocalDelivers(env, w, (PlanOf(trace, (cur.position, cur.gCost)), f))
  {
    PlanOfReached(env, trace, (cur.position, cur.gCost));
    WithinProduct(cur.fOpenCost, f, w);
  }

  lemma WithinProduct(x: nat, f: nat, w: real)
    requires x as real <= Scale(f, w)
    ensures x as real <= f as real * w
  {
    ScaleIsProduct(f, w);
  }

  /**
   * From a state that keeps the invariant, the search's only panic is `heuristic_focal`'s
   * on an empty other path (the `unwrap` of the open list's first node and the `assert!`
   * on the removal never fail), and what it returns is a plan within `f_min * w`.
   */
  lemma {:induction false} FocalRunSound(env: Env, paths: seq<Path>, w: real, s: Focal, fuel: nat)
    requires w >= 0.0 && Safe(env, w, s)
    ensures FocalSound(env, paths, w, FocalRun(env, paths, w, s, fuel).0)
    decreases fuel
  {
    if s.focal != map[] && fuel > 0 {
      FocalRunPops(env, paths, w, s, fuel);
      var k := Least(s.focal);
      var cur := s.focal[k];
      PopNode(env, s, k);
      var rest := Popped(s, k);
      PopKeeps(env, w, s, k);
      ghost var out: Ending<Found>;
      if AtGoal(env, cur) {
        GoalDelivers(env, w, rest.trace, cur, rest.fMin);
        out := Returns(Some((PlanOf(rest.trace, (cur.position, cur.gCost)), rest.fMin)));
      } else {
        VisitsKeep(env, paths, w, cur, rest, Around(env, cur));
        var e := FocalVisits(env, paths, w, cur, rest, Around(env, cur));
        if e.Ok? {
          BandKeeps(env, w, e.value);
          FocalRunSound(env, paths, w, Band(e.value, w), fuel - 1);
          out := FocalRun(env, paths, w, Band(e.value, w), fuel - 1).0;
        } else {
          out := Panics(e.error);
        }
      }
      assert FocalRun(env, paths, w, s, fuel).0 == out;
      SoundSame(env, paths, w, out, FocalRun(env, paths, w, s, fuel).0);
    }
  }

  // ---------------------------------------------------------------------------
  // standard_focal_a_star_search as a loop
  // ---------------------------------------------------------------------------

  /** Popping keeps every listed node reached, and the popped node was reached. */
  lemma PopTraced(env: Env, s: Focal, k: Key)
    requires Traced(env, s) && k in s.focal && s.open != map[]
    ensures var cur := s.focal[k];
      Traced(env, Popped(s, k)) && Reached(env, s.trace, (cur.position, cur.gCost))
  {
    var cur := s.focal[k];
    PoppedShape(s, k);
    assert FocalAt(env, s.trace, s.focal, k);
    OpensAtRemove(env, s.trace, s.open, OpenKeyOf(cur));
    FocalsAtRemove(env, s.trace, s.focal, k);
  }

  lemma {:induction false} VisitsTraced(env: Env, paths: seq<Path>, w: real, cur: LowLevelNode, s: Focal, ns: seq<Cell>)
    requires Traced(env, s) && Reached(env, s.trace, (cur.position, cur.gCost))
    requires forall i :: 0 <= i < |ns| ==> ns[i] in Around(env, cur)
    ensures var r := FocalVisits(env, paths, w, cur, s, ns);
      r.Ok? ==> Traced(env, r.value) && s.trace.Keys <= r.value.trace.Keys
    decreases |ns|
  {
    if ns != [] {
      var pre := ns[..|ns| - 1];
      VisitsTraced(env, paths, w, cur, s, pre);
      var r := FocalVisits(env, paths, w, cur, s, pre);
      if r.Ok? {
        VisitTraced(env, paths, w, cur, r.value, ns[|ns| - 1]);
      }
    }
  }

  /** The band only adds open nodes to focal, so every listed node stays reached. */
  lemma BandTraced(env: Env, w: real, s: Focal)
    requires Traced(env, s)
    ensures Traced(env, Band(s, w))
  {
    if s.open != map[] && s.fMin < s.open[Least(s.open)].fOpenCost {
      BandShape(s, w);
      BandFocalsAt(env, s.trace, s.open, s.open.Keys, Scale(s.fMin, w), Scale(s.open[Least(s.open)].fOpenCost, w), s.focal);
    } else {
      BandStays(s, w);
    }
  }

  /**
   * The loop's state `s`, with `left` expansions to go after `expanded`, is a reachable
   * point of the run whose outcome is `total`.
   */
  ghost predicate FocalLoop(env: Env, paths: seq<Path>, w: real, s: Focal, left: nat, expanded: nat,
                            total: (Ending<Found>, nat)) {
    Traced(env, s) && total.0 == FocalRun(env, paths, w, s, left).0
    && total.1 == FocalRun(env, paths, w, s, left).1 + expanded
  }

  /** The run ends with nothing when focal is empty, and runs out when no expansions are left. */
  lemma FocalLoopExit(env: Env, paths: seq<Path>, w: real, s: Focal, left: nat, expanded: nat,
                      total: (Ending<Found>, nat))
    requires FocalLoop(env, paths, w, s, left, expanded, total) && (s.focal == map[] || left == 0)
    ensures total == (if s.focal == map[] then Returns(None) else OutOfFuel, expanded)
  {
  }

  /** `standard_focal_a_star_search`, stopping after `fuel` expansions. */
  method StandardFocalAStarSearch(env: Env, paths: seq<Path>, w: real, fuel: nat) returns (r: Ending<Found>, expanded: nat)
    ensures (r, expanded) == FocalRun(env, paths, w, SearchStart(env), fuel)
  {
    var (o, f) := CreateOpenFocalNode(env.agent.start, env.heuristic(env.agent.start), 0, 0, 0);
    var s := Focal(map[OpenKey(o) := o.node], map[FocalKey(f) := f.node], {}, map[], map[(env.agent.start, 0) := 0], 0);
    assert s == SearchStart(env);
    StartTraced(env);
    r, expanded := FocalSearchFrom(env, paths, w, s, fuel);
  }

  /** The search loop of `standard_focal_a_star_search`, from the state `s0`. */
  method FocalSearchFrom(env: Env, paths: seq<Path>, w: real, s0: Focal, fuel: nat) returns (r: Ending<Found>, expanded: nat)
    requires Traced(env, s0)
    ensures (r, expanded) == FocalRun(env, paths, w, s0, fuel)
  {
    var s := s0;
    ghost var total := FocalRun(env, paths, w, s, fuel);
    expanded := 0;
    while s.focal != map[] && expanded < fuel
      invariant expanded <= fuel && FocalLoop(env, paths, w, s, fuel - expanded, expanded, total)
      decreases fuel - expanded
    {
      var stop, next := FocalStep(env, paths, w, s, fuel - expanded, expanded, total);
      if stop.Some? {
        return stop.value, expanded + 1;
      }
      s, expanded := next, expanded + 1;
    }
    FocalLoopExit(env, paths, w, s, fuel - expanded, expanded, total);
    r := if s.focal == map[] then Returns(None) else OutOfFuel;
  }

  /**
   * One iteration: pop the least focal node, close it, raise `f_min`, remove the node
   * from open, then return the path or expand the node and maintain the band.
   */
  method FocalStep(env: Env, paths: seq<Path>, w: real, s: Focal, left: nat,
                   ghost expanded: nat, ghost total: (Ending<Found>, nat))
    returns (stop: Option<Ending<Found>>, next: Focal)
    requires FocalLoop(env, paths, w, s, left, expanded, total) && s.focal != map[] && left > 0
    ensures stop.Some? ==> total == (stop.value, expanded + 1)
    ensures stop.None? ==> FocalLoop(env, paths, w, next, left - 1, expanded + 1, total)
  {
    FocalRunPops(env, paths, w, s, left);
    var k := Least(s.focal);
    var cur := s.focal[k];
    var closed := s.closed + {(cur.position, cur.timeStep)};
    if s.open == map[] {
      return Some(Panics(UnwrapNone)), s;
    }
    var fMin := Max(s.open[Least(s.open)].fOpenCost, s.fMin);
    if OpenKeyOf(cur) !in s.open {
      return Some(Panics(AssertionFailed)), s;
    }
    var rest := Focal(s.open - {OpenKeyOf(cur)}, s.focal - {k}, closed, s.trace, s.focalCost, fMin);
    PoppedShape(s, k);
    PopTraced(env, s, k);
    if cur.position == env.agent.goal && cur.gCost > env.pathLengthConstraint {
      TraceRanked(env, rest.trace);
      var path := Algorithm.ConstructPath(rest.trace, (cur.position, cur.gCost), G);
      return Some(Returns(Some((path, fMin)))), rest;
    }
    VisitsTraced(env, paths, w, cur, rest, Around(env, cur));
    var e := ExpandFocal(env, paths, w, rest, cur);
    if e.Err? {
      return Some(Panics(e.error)), rest;
    }
    BandTraced(env, w, e.value);
    next := MaintainBand(e.value, w);
    stop := None;
  }

  /** Once a neighbour panics, the rest of the neighbours are not visited. */
  lemma {:induction false} FocalVisitsStop(env: Env, paths: seq<Path>, w: real, cur: LowLevelNode, s: Focal,
                                           ns: seq<Cell>, j: nat)
    requires j <= |ns| && FocalVisits(env, paths, w, cur, s, ns[..j]).Err?
    ensures FocalVisits(env, paths, w, cur, s, ns) == FocalVisits(env, paths, w, cur, s, ns[..j])
    decreases |ns|
  {
    if j < |ns| {
      var pre := ns[..|ns| - 1];
      assert pre[..j] == ns[..j];
      FocalVisitsStop(env, paths, w, cur, s, pre, j);
    } else {
      assert ns[..j] == ns;
    }
  }

  /** The loop over the neighbours of the popped node; the first panic ends it. */
  method ExpandFocal(env: Env, paths: seq<Path>, w: real, s0: Focal, cur: LowLevelNode) returns (r: Result<Focal, Panic>)
    ensures r == FocalVisits(env, paths, w, cur, s0, Around(env, cur))
  {
    var s := s0;
    var ns := env.neighbors(cur.position, !(cur.timeStep > env.limit));
    for i := 0 to |ns|
      invariant FocalVisits(env, paths, w, cur, s0, ns[..i]) == Ok(s)
    {
      assert ns[..i + 1][..i] == ns[..i];
      var v := VisitNeighbor(env, paths, w, cur, s, ns[i]);
      if v.Err? {
        FocalVisitsStop(env, paths, w, cur, s0, ns, i + 1);
        return v;
      }
      s := v.value;
    }
    assert ns[..|ns|] == ns;
    return Ok(s);
  }

  /**
   * One neighbour: a new node is admitted, a known one goes through the decrease-key,
   * and `heuristic_focal` or the lookup of the recorded focal cost may panic.
   */
  method VisitNeighbor(env: Env, paths: seq<Path>, w: real, cur: LowLevelNode, s: Focal, n: Cell)
    returns (r: Result<Focal, Panic>)
    ensures r == FocalVisit(env, paths, w, cur, s, n)
  {
    VisitOutcome(env, paths, w, cur, s, n);
    var tentativeG := cur.gCost + 1;
    var tentativeTime := if cur.timeStep > env.limit then cur.timeStep else cur.timeStep + 1;
    if (n, tentativeTime) in s.closed || Violates(env, cur.position, n, tentativeG) {
      return Ok(s);
    }
    var h := Algorithm.HeuristicFocal(env.agent.id, n, cur.position, tentativeG, paths);
    if h.Err? {
      return Err(h.error);
    }
    var fOpen := tentativeG + env.heuristic(n);
    var (o, f) := CreateOpenFocalNode(n, fOpen, cur.fFocalCost + h.value, tentativeG, tentativeG);
    if OpenKey(o) !in s.open {
      r := Ok(Admit(s, o.node, (cur.position, cur.gCost), fOpen as real <= Scale(s.fMin, w)));
    } else if (n, tentativeG) !in s.focalCost {
      r := Err(UnwrapNone);
    } else {
      r := Ok(DecreaseKey(s, o.node, s.focalCost[(n, tentativeG)], tentativeTime));
    }
  }

  /**
   * The focal list's maintenance after an expansion: when the open minimum has risen
   * above `f_min`, the open nodes are walked in ascending order and those whose f_open
   * lies in the risen band enter focal.
   */
  method MaintainBand(s: Focal, w: real) returns (r: Focal)
    ensures r == Band(s, w)
  {
    if s.open == map[] {
      return s;
    }
    var newMin := s.open[Least(s.open)].fOpenCost;
    if !(s.fMin < newMin) {
      return s;
    }
    var lo, hi := Scale(s.fMin, w), Scale(newMin, w);
    var focal := s.focal;
    var keys := s.open.Keys;
    while keys != {}
      invariant keys <= s.open.Keys
      invariant BandFrom(s.open, keys, lo, hi, focal) == BandFrom(s.open, s.open.Keys, lo, hi, s.focal)
      decreases |keys|
    {
      BandStep(s.open, keys, lo, hi, focal);
      var k := MinKey(keys);
      var n := s.open[k];
      if lo < n.fOpenCost as real <= hi {
        focal := Insert(focal, FocalKeyOf(n), n);
      }
      keys := keys - {k};
    }
    BandShape(s, w);
    r := s.(focal := focal);
  }

  // ---------------------------------------------------------------------------
  // standard_focal_double_search
  // ---------------------------------------------------------------------------

  /**
   * `standard_focal_double_search`: the open-cost search finds the optimal f_min, then the
   * focal-cost search looks for a path whose f_open stays within `f_min * w`. Each search
   * gets `fuel` expansions, and both count into `low_level_expand_open_nodes`.
   */
  ghost function DoubleRun(env: Env, paths: seq<Path>, w: real, fuel: nat): (Ending<Found>, nat) {
    var first := OpenRun(env, OpenStart(env), fuel);
    if first.0.Returns? && first.0.value.Some? then
      var second := FocalCostRun(env, paths, Scale(first.0.value.value.1, w), FocalStart(env), fuel);
      (second.0, first.1 + second.1)
    else first
  }

  method StandardFocalDoubleSearch(env: Env, paths: seq<Path>, w: real, fuel: nat) returns (r: Ending<Found>, expanded: nat)
    ensures (r, expanded) == DoubleRun(env, paths, w, fuel)
  {
    var first, n := StandardAStarSearchOpenCost(env, fuel);
    if first.Returns? && first.value.Some? {
      var second, m := StandardAStarSearchFocalCost(env, paths, Scale(first.value.value.1, w), fuel);
      return second, n + m;
    }
    return first, n;
  }

  /**
   * The double search returns a path only when the open-cost search found one, and then
   * a plan to the goal within that search's `f_min * w` (unless it is the start alone);
   * its only panic is `heuristic_focal`'s, and each search expands at most `fuel` nodes.
   */
  lemma DoubleRunSound(env: Env, paths: seq<Path>, w: real, fuel: nat)
    ensures var first := OpenRun(env, OpenStart(env), fuel).0;
      var (r, n) := DoubleRun(env, paths, w, fuel);
      n <= 2 * fuel
      && (r.Panics? ==> r.panic == UnwrapNone && first.Returns? && first.value.Some?)
      && (r.Returns? && r.value.Some? ==>
            first.Returns? && first.value.Some? && Delivers(env, r.value.value)
            && (|r.value.value.0| > 1 ==> r.value.value.1 as real <= first.value.value.1 as real * w))
  {
    OpenRunCounts(env, OpenStart(env), fuel);
    var first := OpenRun(env, OpenStart(env), fuel);
    if first.0.Returns? && first.0.value.Some? {
      var optCost := Scale(first.0.value.value.1, w);
      ScaleIsProduct(first.0.value.value.1, w);
      FocalStartOk(env, Some(optCost));
      FocalCostRunSound(env, paths, optCost, FocalStart(env), fuel);
      var second := FocalCostRun(env, paths, optCost, FocalStart(env), fuel);
      assert DoubleRun(env, paths, w, fuel) == (second.0, first.1 + second.1);
    } else {
      assert DoubleRun(env, paths, w, fuel) == first;
    }
  }

  // ---------------------------------------------------------------------------
  // focal_a_star_search
  // ---------------------------------------------------------------------------

  /**
   * The wrapping `focal_a_star_search` applies to the search's result: nothing found is
   * `WithMDD(None)` or `Standard(None)` as `build_mdd` asks; without `build_mdd` a path is
   * returned as `Standard`; with it, the path must have at most `f_min * w` moves (the
   * `assert!`, after the `usize` subtraction), and an MDD is built only when it has
   * exactly `f_min` moves.
   */
  function WithFocalMdd(buildMdd: bool, w: real, e: Ending<Found>, constructMdd: nat -> Mdd): (r: Ending<SearchResult>)
    ensures r.Returns? && !buildMdd ==> r.value.Standard?
    ensures r.Returns? && r.value.WithMdd? && r.value.withMdd.Some? ==>
      var (p, f, m) := r.value.withMdd.value;
      e == Returns(Some((p, f))) && |p| - 1 == f && m == constructMdd(f)
    ensures r.Panics? ==>
      e == Panics(r.panic)
      || (buildMdd && e.Returns? && e.value.Some? && var (p, f) := e.value.value;
          if |p| == 0 then r.panic == SubtractOverflow
          else r.panic == AssertionFailed && (|p| - 1) as real > f as real * w)
  {
    match e
    case OutOfFuel => OutOfFuel
    case Panics(p) => Panics(p)
    case Returns(None) => if buildMdd then Returns(WithMdd(None)) else Returns(Standard(None))
    case Returns(Some((path, fMin))) =>
      if !buildMdd then Returns(Standard(Some((path, fMin))))
      else if |path| == 0 then Panics(SubtractOverflow)
      else if !((|path| - 1) as real <= fMin as real * w) then Panics(AssertionFailed)
      else if |path| - 1 == fMin then Returns(WithMdd(Some((path, fMin, constructMdd(fMin)))))
      else Returns(Standard(Some((path, fMin))))
  }

  /** `focal_a_star_search`: one of the two searches, wrapped as `build_mdd` asks. */
  method FocalAStarSearch(agent: Agent, heuristic: Cell -> nat, neighbors: (Cell, bool) -> seq<Cell>,
                          violated: (Constraint, Cell, Cell, nat) -> bool, w: real, constraints: set<Constraint>,
                          pathLengthConstraint: nat, paths: seq<Path>, buildMdd: bool, doubleSearch: bool,
                          constructMdd: nat -> Mdd, fuel: nat)
    returns (r: Ending<SearchResult>, openExpanded: nat, focalExpanded: nat)
    ensures var env := SearchEnv(agent, heuristic, neighbors, violated, constraints, pathLengthConstraint);
      var run := if doubleSearch then DoubleRun(env, paths, w, fuel) else FocalRun(env, paths, w, SearchStart(env), fuel);
      r == WithFocalMdd(buildMdd, w, run.0, constructMdd)
      && (openExpanded, focalExpanded) == (if doubleSearch then (run.1, 0) else (0, run.1))
  {
    var env := SearchEnv(agent, heuristic, neighbors, violated, constraints, pathLengthConstraint);
    var found, expanded;
    if doubleSearch {
      found, expanded := StandardFocalDoubleSearch(env, paths, w, fuel);
      openExpanded, focalExpanded := expanded, 0;
    } else {
      found, expanded := StandardFocalAStarSearch(env, paths, w, fuel);
      openExpanded, focalExpanded := 0, expanded;
    }
    r := WithFocalMdd(buildMdd, w, found, constructMdd);
  }

  /** A plan to the goal after more moves than the path-length constraint. */
  ghost predicate Plans(env: Env, p: Path) {
    IsPlan(env, p) && p[|p| - 1] == env.agent.goal && |p| - 1 > env.pathLengthConstraint
  }

  /**
   * A search outcome whose only panic is `heuristic_focal`'s and whose path is a plan
   * within `f_min * w` moves: the wrapping then keeps the plan, builds an MDD only for a
   * path of exactly `f_min` moves, and adds no panic of its own.
   */
  lemma WithFocalMddSound(env: Env, buildMdd: bool, w: real, e: Ending<Found>, constructMdd: nat -> Mdd)
    requires e.Panics? ==> e.panic == UnwrapNone
    requires e.Returns? && e.value.Some? ==> Plans(env, e.value.value.0) && (|e.value.value.0| - 1) as real <= e.value.value.1 as real * w
    ensures var r := WithFocalMdd(buildMdd, w, e, constructMdd);
      (r.Returns? && (r.value == Standard(None) || r.value == WithMdd(None)) ==> e == Returns(None))
      && (r.Returns? && r.value.Standard? && r.value.found.Some? ==> Plans(env, r.value.found.value.0))
      && (r.Returns? && r.value.WithMdd? && r.value.withMdd.Some? ==>
            var (p, f, m) := r.value.withMdd.value;
            Plans(env, p) && |p| - 1 == f && m == constructMdd(f))
      && (r.Panics? ==> r.panic == UnwrapNone)
  {
  }

  /**
   * What `focal_a_star_search` returns once `w` is at least 1: a found path is a plan to
   * the goal, an MDD comes with a path of exactly `f_min` moves and is built for `f_min`,
   * and the only panic is `heuristic_focal`'s on an empty other path: the `assert!` and
   * the subtraction never fail.
   */
  lemma FocalAStarSearchSound(env: Env, paths: seq<Path>, w: real, buildMdd: bool, doubleSearch: bool,
                              constructMdd: nat -> Mdd, fuel: nat)
    requires w >= 1.0
    ensures var run := if doubleSearch then DoubleRun(env, paths, w, fuel) else FocalRun(env, paths, w, SearchStart(env), fuel);
      var r := WithFocalMdd(buildMdd, w, run.0, constructMdd);
      (r.Returns? && (r.value == Standard(None) || r.value == WithMdd(None)) ==> run.0 == Returns(None))
      && (r.Returns? && r.value.Standard? && r.value.found.Some? ==> Plans(env, r.value.found.value.0))
      && (r.Returns? && r.value.WithMdd? && r.value.withMdd.Some? ==>
            var (p, f, m) := r.value.withMdd.value;
            Plans(env, p) && |p| - 1 == f && m == constructMdd(f))
      && (r.Panics? ==> r.panic == UnwrapNone)
  {
    var e := if doubleSearch then DoubleRun(env, paths, w, fuel).0 else FocalRun(env, paths, w, SearchStart(env), fuel).0;
    if doubleSearch {
      DoubleRunSound(env, paths, w, fuel);
      if e.Returns? && e.value.Some? {
        WithinFactor(|e.value.value.0| - 1, e.value.value.1, w);
      }
    } else {
      StartSafe(env, w);
      FocalRunSound(env, paths, w, SearchStart(env), fuel);
      if e.Returns? && e.value.Some? {
        var (p, f) := e.value.value;
        assert (|p| - 1) as real <= (|p| - 1 + env.heuristic(env.agent.goal)) as real;
      }
    }
    WithFocalMddSound(env, buildMdd, w, e, constructMdd);
  }

  /** A path of `x` moves within `f` moves is within `f * w` once `w` is at least 1. */
  lemma WithinFactor(x: nat, f: nat, w: real)
    requires x <= f && w >= 1.0
    ensures x as real <= f as real * w
  {
    ScaleAtLeast(f, w);
    ScaleIsProduct(f, w);
  }

  // ---------------------------------------------------------------------------
  // The decrease-key as written
  // ---------------------------------------------------------------------------

  /**
   * A node in open but outside focal, rediscovered with a lower focal cost: the
   * decrease-key as written puts into focal an entry whose f_open is the prior focal cost,
   * which stands for no open node, so popping it fails the `assert!` on the removal from
   * open; the corrected decrease-key only records the new cost.
   */
  lemma DecreaseKeyAsWrittenPanics(env: Env, paths: seq<Path>, w: real)
    ensures var n := LowLevelNode((0, 0), 3, 5, 1, 1);
      var s := Focal(map[OpenKeyOf(n) := n], map[], {}, map[], map[((0, 0), 1) := 5], 0);
      var better := LowLevelNode((0, 0), 3, 4, 1, 1);
      FocalRun(env, paths, w, DecreaseKeyAsWritten(s, better, 5, 1), 1) == (Panics(AssertionFailed), 1)
      && DecreaseKey(s, better, 5, 1) == s.(focalCost := map[((0, 0), 1) := 4])
  {
    var n := LowLevelNode((0, 0), 3, 5, 1, 1);
    var s := Focal(map[OpenKeyOf(n) := n], map[], {}, map[], map[((0, 0), 1) := 5], 0);
    var better := LowLevelNode((0, 0), 3, 4, 1, 1);
    var bogus := LowLevelNode((0, 0), 5, 4, 1, 1);
    var r := DecreaseKeyAsWritten(s, better, 5, 1);
    assert r.focal == map[FocalKeyOf(bogus) := bogus];
    assert Least(r.focal) == FocalKeyOf(bogus);
    OpenKeyOfInjective(bogus, n);
    assert r.open == s.open && OpenKeyOf(n) in r.open && OpenKeyOf(bogus) !in r.open;
    assert r.focal[Least(r.focal)] == bogus;
    FocalRunPops(env, paths, w, r, 1);
    assert FocalPop(env, paths, w, r, 1) == (Panics(AssertionFailed), 1);
    assert map[((0, 0), 1) := 5][((0, 0), 1) := 4] == map[((0, 0), 1) := 4];
  }
}
