/**
 * The focal A* of the earlier solver snapshot (src/solver/algorithm/astarfocal.rs).
 * `focal_a_star_search` keeps an open list of (position, f_open, g) nodes and a focal
 * list of (position, f_focal, f_open, g) nodes, expands the least focal node, admits a
 * node into focal while its f_open is within `f_min * subopt_factor`, and widens the focal
 * band when the open minimum rises; `focal_a_star_double_search` fixes `f_min` from a
 * plain A* first. Both lists are `BTreeSet`s, kept as maps from each node's order key to
 * the node. The node types themselves are not part of this snapshot; their orders are
 * taken as (f_open, g, position) for open nodes, as the source's comment states, and
 * (f_focal, f_open, g, position) for focal nodes.
 */
module SolverAStarFocal {
  import opened Wrappers
  import opened Ordering
  import opened Common
  import Algorithm
  import AA = AlgorithmAStar
  import AF = AlgorithmAStarFocal
  import SA = SolverAStar
  import SC = SolverCommon
  import SolverAlgorithm

  type State = Algorithm.State

  datatype OpenNode = OpenNode(position: Cell, fOpenCost: nat, gCost: nat)

  datatype FocalNode = FocalNode(position: Cell, fFocalCost: nat, fOpenCost: nat, gCost: nat)

  function OpenKey(n: OpenNode): Key {
    KSeq([KNat(n.fOpenCost), KNat(n.gCost), CellKey(n.position)])
  }

  function FocalKey(n: FocalNode): Key {
    KSeq([KNat(n.fFocalCost), KNat(n.fOpenCost), KNat(n.gCost), CellKey(n.position)])
  }

  /** Distinct open nodes have distinct keys, so the map holds each node at most once. */
  lemma OpenKeyInjective(a: OpenNode, b: OpenNode)
    ensures OpenKey(a) == OpenKey(b) <==> a == b
  {
    if OpenKey(a) == OpenKey(b) {
      assert OpenKey(a).items[0] == OpenKey(b).items[0];
      assert OpenKey(a).items[1] == OpenKey(b).items[1];
      assert OpenKey(a).items[2].items[0] == OpenKey(b).items[2].items[0];
      assert OpenKey(a).items[2].items[1] == OpenKey(b).items[2].items[1];
    }
  }

  lemma FocalKeyInjective(a: FocalNode, b: FocalNode)
    ensures FocalKey(a) == FocalKey(b) <==> a == b
  {
    if FocalKey(a) == FocalKey(b) {
      assert FocalKey(a).items[0] == FocalKey(b).items[0];
      assert FocalKey(a).items[1] == FocalKey(b).items[1];
      assert FocalKey(a).items[2] == FocalKey(b).items[2];
      assert FocalKey(a).items[3].items[0] == FocalKey(b).items[3].items[0];
      assert FocalKey(a).items[3].items[1] == FocalKey(b).items[3].items[1];
    }
  }

  /**
   * The state of a search: the open and focal lists, the closed (cell, g) pairs, the
   * trace, and the recorded focal cost of every (cell, g) put into open.
   */
  datatype Focal = Focal(
    open: map<Key, OpenNode>,
    focal: map<Key, FocalNode>,
    closed: set<State>,
    trace: Algorithm.Trace,
    focalCost: map<State, nat>)

  /** The start node sits in both lists with focal cost 0 and f_open its heuristic. */
  function Start(env: SA.Env): Focal {
    var h := env.heuristic(env.agent.start);
    var o := OpenNode(env.agent.start, h, 0);
    var f := FocalNode(env.agent.start, 0, h, 0);
    Focal(map[OpenKey(o) := o], map[FocalKey(f) := f], {}, map[], map[(env.agent.start, 0) := 0])
  }

  // ---------------------------------------------------------------------------
  // Invariant

  /** An open entry is stored under its own key, and its state was reached. */
  predicate OpenAt(env: SA.Env, s: Focal, k: Key)
    requires k in s.open
  {
    k == OpenKey(s.open[k]) && SA.Reached(env, s.trace, (s.open[k].position, s.open[k].gCost))
  }

  /** A focal entry is stored under its own key, and its state was reached. */
  predicate FocalAt(env: SA.Env, s: Focal, k: Key)
    requires k in s.focal
  {
    k == FocalKey(s.focal[k]) && SA.Reached(env, s.trace, (s.focal[k].position, s.focal[k].gCost))
  }

  /** The trace links are legal moves, and every listed node was reached. */
  ghost predicate Traced(env: SA.Env, s: Focal) {
    SA.TraceOk(env, s.trace)
    && (forall k {:trigger OpenAt(env, s, k)} :: k in s.open ==> OpenAt(env, s, k))
    && (forall k {:trigger FocalAt(env, s, k)} :: k in s.focal ==> FocalAt(env, s, k))
  }

  lemma StartTraced(env: SA.Env)
    ensures Traced(env, Start(env))
  {
  }

  // ---------------------------------------------------------------------------
  // Removing the popped node from open

  /** The open node standing for a focal node. */
  function OpenOf(n: FocalNode): OpenNode {
    OpenNode(n.position, n.fOpenCost, n.gCost)
  }

  /** The popped node's own open entry removed, as `focal_a_star_double_search` does. */
  function OpenAfterPop(open: map<Key, OpenNode>, cur: FocalNode): map<Key, OpenNode> {
    open - {OpenKey(OpenOf(cur))}
  }

  /**
   * `focal_a_star_search` as written: the node removed is the popped one with its f_open
   * replaced by `f_min`.
   */
  function OpenAfterPopAsWritten(open: map<Key, OpenNode>, cur: FocalNode, fMin: nat): map<Key, OpenNode> {
    open - {OpenKey(OpenNode(cur.position, fMin, cur.gCost))}
  }

  /** The corrected removal takes the popped node out of open and leaves every other node. */
  lemma PoppedLeavesOpen(open: map<Key, OpenNode>, cur: FocalNode)
    ensures var r := OpenAfterPop(open, cur);
      OpenKey(OpenOf(cur)) !in r && forall k :: k in open && open[k] != OpenOf(cur) && k == OpenKey(open[k]) ==> k in r
  {
    forall k | k in open && open[k] != OpenOf(cur) && k == OpenKey(open[k]) ensures k in OpenAfterPop(open, cur) {
      OpenKeyInjective(open[k], OpenOf(cur));
    }
  }

  /**
   * As written, whenever the popped node's f_open differs from `f_min` (a node inside the
   * band but above the open minimum) its open entry survives the removal: the node stays
   * in open although it is closed.
   */
  lemma StaleNodeStaysOpen(open: map<Key, OpenNode>, cur: FocalNode, fMin: nat)
    requires OpenKey(OpenOf(cur)) in open && fMin != cur.fOpenCost
    ensures OpenKey(OpenOf(cur)) in OpenAfterPopAsWritten(open, cur, fMin)
  {
    OpenKeyInjective(OpenOf(cur), OpenNode(cur.position, fMin, cur.gCost));
  }

  /**
   * For instance, with the open minimum at f_open 5 and a focal factor of 1.5, the node
   * of f_open 6 is within the band and, when it is popped first, f_min is 5 and it
   * stays in open.
   */
  lemma StaleNodeExample()
    ensures var low, cur := OpenNode((0, 0), 5, 1), FocalNode((1, 0), 0, 6, 1);
      var open := map[OpenKey(low) := low, OpenKey(OpenOf(cur)) := OpenOf(cur)];
      OpenKey(OpenOf(cur)) in OpenAfterPopAsWritten(open, cur, 5)
      && 6.0 <= AF.Scale(5, 1.5) && OpenKey(OpenOf(cur)) !in OpenAfterPop(open, cur)
  {
    var low, cur := OpenNode((0, 0), 5, 1), FocalNode((1, 0), 0, 6, 1);
    var open := map[OpenKey(low) := low, OpenKey(OpenOf(cur)) := OpenOf(cur)];
    StaleNodeStaysOpen(open, cur, 5);
    AF.ScaleIsProduct(5, 1.5);
  }

  // ---------------------------------------------------------------------------
  // One neighbour

  /**
   * A focal entry is admitted under the bound `f_min * w`, or replaces the entry of the
   * same open node under a higher focal cost.
   */
  predicate Admitted(s: Focal, r: Focal, bound: real, k: Key)
    requires k in r.focal
  {
    var m := r.focal[k];
    m.fOpenCost as real <= bound
    || exists j :: j in s.focal && OpenOf(s.focal[j]) == OpenOf(m) && s.focal[j].fFocalCost > m.fFocalCost
  }

  /** A focal entry that leaves is replaced by an entry of the same open node under a lower focal cost. */
  predicate Replaced(s: Focal, r: Focal, k: Key)
    requires k in s.focal
  {
    exists j :: j in r.focal && OpenOf(r.focal[j]) == OpenOf(s.focal[k]) && r.focal[j].fFocalCost < s.focal[k].fFocalCost
  }

  /** Every recorded focal cost stays recorded and never rises. */
  predicate CostsKept(s: Focal, r: Focal) {
    forall st :: st in s.focalCost ==> st in r.focalCost && r.focalCost[st] <= s.focalCost[st]
  }

  /**
   * One neighbour `n` of the expanded node `cur`: skipped when (n, g + 1) is closed or
   * constrained; otherwise its focal cost adds `heuristic_focal` (which may panic). A node
   * new to open is inserted there, traced, its focal cost recorded, and it enters focal when
   * its f_open is within `f_min * w`. A node already in open has its recorded focal cost
   * looked up (a panic when there is none); a lower cost is recorded, and the focal entry
   * under the older cost, when present, is replaced by one under the new cost.
   */
  method VisitNeighbor(env: SA.Env, paths: seq<Path>, w: real, fMin: nat, cur: FocalNode, s: Focal, n: Cell)
    returns (r: Result<Focal, Panic>)
    requires Traced(env, s) && SA.Reached(env, s.trace, (cur.position, cur.gCost)) && n in env.neighbors(cur.position)
    ensures r.Err? ==> r.error == UnwrapNone
    ensures r.Ok? ==> var v := r.value;
      Traced(env, v) && SA.Reached(env, v.trace, (cur.position, cur.gCost)) && v.closed == s.closed
      && s.open.Keys <= v.open.Keys
      && (forall k :: k in v.focal && k !in s.focal ==> Admitted(s, v, AF.Scale(fMin, w), k))
      && (forall k :: k in s.focal && k !in v.focal ==> Replaced(s, v, k))
    ensures r.Ok? && OpenKey(OpenNode(n, cur.gCost + 1 + env.heuristic(n), cur.gCost + 1)) in s.open ==> CostsKept(s, r.value)
    ensures (n, cur.gCost + 1) in s.closed || SC.Constraint(n, cur.gCost + 1) in env.constraints ==> r == Ok(s)
  {
    var tentative := cur.gCost + 1;
    if (n, tentative) in s.closed || SC.Constraint(n, tentative) in env.constraints {
      return Ok(s);
    }
    var fOpen := tentative + env.heuristic(n);
    var h := SolverAlgorithm.HeuristicFocal(env.agent.id, n, tentative, paths);
    if h.Err? {
      return Err(h.error);
    }
    var fFocal := cur.fFocalCost + h.value;
    var o := OpenNode(n, fOpen, tentative);
    var f := FocalNode(n, fFocal, fOpen, tentative);
    if OpenKey(o) !in s.open {
      SA.TraceGrows(env, s.trace, n, tentative, cur.position);
      var v := s.(open := s.open[OpenKey(o) := o],
                  trace := s.trace[(n, tentative) := (cur.position, cur.gCost)],
                  focalCost := s.focalCost[(n, tentative) := fFocal]);
      if fOpen as real <= AF.Scale(fMin, w) {
        v := v.(focal := Insert(v.focal, FocalKey(f), f));
      }
      forall k | k in v.open ensures OpenAt(env, v, k) {
        if k != OpenKey(o) { assert OpenAt(env, s, k); }
      }
      forall k | k in v.focal ensures FocalAt(env, v, k) {
        if k in s.focal { assert FocalAt(env, s, k); }
      }
      return Ok(v);
    }
    if (n, tentative) !in s.focalCost {
      return Err(UnwrapNone);
    }
    var prior := s.focalCost[(n, tentative)];
    if !(fFocal < prior) {
      return Ok(s);
    }
    var v := LowerFocalCost(env, s, o, f, AF.Scale(fMin, w));
    return Ok(v);
  }

  /**
   * The decrease-key step of `focal_a_star_search` for a node `o` already in open whose focal cost
   * falls: the lower cost is recorded, and the focal entry under the older cost, when
   * present, is replaced by `f`. Open, the trace and the closed set are unchanged.
   */
  method LowerFocalCost(env: SA.Env, s: Focal, o: OpenNode, f: FocalNode, ghost bound: real) returns (v: Focal)
    requires Traced(env, s) && OpenKey(o) in s.open && OpenOf(f) == o
    requires (o.position, o.gCost) in s.focalCost && f.fFocalCost < s.focalCost[(o.position, o.gCost)]
    ensures Traced(env, v) && v.open == s.open && v.trace == s.trace && v.closed == s.closed && CostsKept(s, v)
    ensures v.focalCost == s.focalCost[(o.position, o.gCost) := f.fFocalCost]
    ensures forall k :: k in v.focal && k !in s.focal ==> Admitted(s, v, bound, k)
    ensures forall k :: k in s.focal && k !in v.focal ==> Replaced(s, v, k)
  {
    var n, tentative, fOpen, fFocal := o.position, o.gCost, o.fOpenCost, f.fFocalCost;
    var prior := s.focalCost[(n, tentative)];
    assert OpenAt(env, s, OpenKey(o));
    OpenKeyInjective(s.open[OpenKey(o)], o);
    v := s.(focalCost := s.focalCost[(n, tentative) := fFocal]);
    var stale := FocalNode(n, prior, fOpen, tentative);
    if FocalKey(stale) in s.focal {
      var j := FocalKey(stale);
      var kept := s.focal - {j};
      assert forall k :: k in kept ==> k in s.focal && kept[k] == s.focal[k];
      v := v.(focal := Insert(kept, FocalKey(f), f));
      forall k | k in v.focal && k !in s.focal ensures Admitted(s, v, bound, k) {
        assert v.focal[k] == f;
        assert FocalAt(env, s, j);
        FocalKeyInjective(s.focal[j], stale);
      }
      forall k | k in v.focal ensures FocalAt(env, v, k) {
        if k in kept { assert FocalAt(env, s, k); }
      }
      forall k | k in s.focal && k !in v.focal ensures Replaced(s, v, k) {
        assert k == j && FocalAt(env, s, j);
        FocalKeyInjective(s.focal[j], stale);
        if FocalKey(f) in kept {
          assert FocalAt(env, s, FocalKey(f));
          FocalKeyInjective(s.focal[FocalKey(f)], f);
        }
        assert v.focal[FocalKey(f)] == f;
      }
    }
    forall k | k in v.open ensures OpenAt(env, v, k) {
      assert OpenAt(env, s, k);
    }
    forall k | k in v.focal && k in s.focal && v.focal[k] == s.focal[k] ensures FocalAt(env, v, k) {
      assert FocalAt(env, s, k);
    }
  }

  /** The neighbours of the popped node visited in order; the first panic ends the loop. */
  method ExpandFocal(env: SA.Env, paths: seq<Path>, w: real, fMin: nat, cur: FocalNode, s0: Focal)
    returns (r: Result<Focal, Panic>)
    requires Traced(env, s0) && SA.Reached(env, s0.trace, (cur.position, cur.gCost))
    ensures r.Err? ==> r.error == UnwrapNone
    ensures r.Ok? ==> Traced(env, r.value) && r.value.closed == s0.closed
  {
    var s := s0;
    var ns := env.neighbors(cur.position);
    for i := 0 to |ns|
      invariant Traced(env, s) && SA.Reached(env, s.trace, (cur.position, cur.gCost)) && s.closed == s0.closed
    {
      var v := VisitNeighbor(env, paths, w, fMin, cur, s, ns[i]);
      if v.Err? {
        return v;
      }
      s := v.value;
    }
    return Ok(s);
  }

  // ---------------------------------------------------------------------------
  // The focal band

  /** A focal entry added by the band maintenance: in the band, under its recorded cost. */
  predicate Banded(s: Focal, lo: real, hi: real, m: FocalNode) {
    lo < m.fOpenCost as real <= hi
    && (m.position, m.gCost) in s.focalCost && m.fFocalCost == s.focalCost[(m.position, m.gCost)]
    && OpenKey(OpenOf(m)) in s.open
  }

  /**
   * The maintenance after an expansion: when the open minimum has risen above `f_min`,
   * every open node whose f_open lies in (f_min * w, new minimum * w] enters focal with its
   * recorded focal cost, whose lookup panics when there is none. Open keys are visited in
   * ascending order.
   */
  method MaintainBand(env: SA.Env, w: real, fMin: nat, s: Focal) returns (r: Result<Focal, Panic>)
    requires Traced(env, s)
    ensures r.Err? ==> r.error == UnwrapNone
    ensures r.Ok? ==> var v := r.value;
      Traced(env, v) && v == s.(focal := v.focal) && s.focal.Keys <= v.focal.Keys
      && (s.open == map[] || s.open[Least(s.open)].fOpenCost <= fMin ==> v == s)
      && forall k :: k in v.focal && k !in s.focal ==>
        Banded(s, AF.Scale(fMin, w), AF.Scale(s.open[Least(s.open)].fOpenCost, w), v.focal[k])
  {
    if s.open == map[] {
      return Ok(s);
    }
    var newMin := s.open[Least(s.open)].fOpenCost;
    if !(fMin < newMin) {
      return Ok(s);
    }
    var lo, hi := AF.Scale(fMin, w), AF.Scale(newMin, w);
    var focal := s.focal;
    var keys := s.open.Keys;
    while keys != {}
      invariant keys <= s.open.Keys && s.focal.Keys <= focal.Keys
      invariant forall k :: k in focal && k !in s.focal ==> Banded(s, lo, hi, focal[k]) && k == FocalKey(focal[k])
      invariant forall k :: k in s.focal ==> focal[k] == s.focal[k]
      decreases |keys|
    {
      var k := MinKey(keys);
      var n := s.open[k];
      if lo < n.fOpenCost as real <= hi {
        if (n.position, n.gCost) !in s.focalCost {
          return Err(UnwrapNone);
        }
        var m := FocalNode(n.position, s.focalCost[(n.position, n.gCost)], n.fOpenCost, n.gCost);
        assert OpenAt(env, s, k);
        focal := Insert(focal, FocalKey(m), m);
      }
      keys := keys - {k};
    }
    r := Ok(s.(focal := focal));
    forall k | k in focal ensures FocalAt(env, r.value, k) {
      if k in s.focal {
        assert FocalAt(env, s, k);
      } else {
        var m := focal[k];
        assert Banded(s, lo, hi, m);
        assert OpenAt(env, s, OpenKey(OpenOf(m)));
        OpenKeyInjective(s.open[OpenKey(OpenOf(m))], OpenOf(m));
      }
    }
    forall k | k in s.open ensures OpenAt(env, r.value, k) {
      assert OpenAt(env, s, k);
    }
  }

  // ---------------------------------------------------------------------------
  // The search loop

  /** A found path ends at the goal after the last constraint, with the `f_min` paired with it. */
  ghost predicate Sound(env: SA.Env, least: nat, fixed: bool, r: Ending<Option<(Path, nat)>>) {
    (r.Panics? ==> r.panic == UnwrapNone)
    && (r.Returns? && r.value.Some? ==>
          SA.Delivers(env, r.value.value.0) && r.value.value.1 >= least && (fixed ==> r.value.value.1 == least))
  }

  /**
   * The loop both searches share, for at most `fuel` pops (each adds one to
   * `low_level_expand_focal_nodes`). The least focal node is popped and closed; `f_min`
   * is the larger of the open minimum (whose `unwrap` panics on an empty open list) and
   * `fMin0`, or `fMin0` itself when `fixed` (the double search); the popped node leaves
   * open; at the goal after the last constraint its path is returned with `f_min`;
   * otherwise it is expanded and the focal band maintained.
   */
  method SearchFrom(env: SA.Env, paths: seq<Path>, w: real, fMin0: nat, fixed: bool, s0: Focal, fuel: nat)
    returns (r: Ending<Option<(Path, nat)>>, expanded: nat)
    requires Traced(env, s0)
    ensures expanded <= fuel && (r.OutOfFuel? ==> expanded == fuel)
    ensures Sound(env, fMin0, fixed, r)
  {
    var maxTime := SA.MaxTime(env.constraints);
    var s := s0;
    expanded := 0;
    while s.focal != map[] && expanded < fuel
      invariant Traced(env, s) && expanded <= fuel
      decreases fuel - expanded
    {
      var k := Least(s.focal);
      var cur := s.focal[k];
      assert FocalAt(env, s, k);
      expanded := expanded + 1;
      var fMin := fMin0;
      if !fixed {
        if s.open == map[] {
          return Panics(UnwrapNone), expanded;
        }
        fMin := AF.Max(s.open[Least(s.open)].fOpenCost, fMin0);
      }
      var open := OpenAfterPop(s.open, cur);
      forall j | j in open ensures OpenAt(env, s.(open := open), j) {
        assert OpenAt(env, s, j);
      }
      ghost var s1 := s;
      s := Focal(open, s.focal - {k}, s.closed + {(cur.position, cur.gCost)}, s.trace, s.focalCost);
      forall j | j in s.focal ensures FocalAt(env, s, j) {
        assert FocalAt(env, s1, j);
      }
      if cur.position == env.agent.goal && cur.gCost > maxTime {
        SA.TraceRanked(env, s.trace);
        var path := Algorithm.ConstructPath(s.trace, (cur.position, cur.gCost), AA.G);
        SA.PlanOfReached(env, s.trace, (cur.position, cur.gCost));
        return Returns(Some((path, fMin))), expanded;
      }
      var e := ExpandFocal(env, paths, w, fMin, cur, s);
      if e.Err? {
        return Panics(e.error), expanded;
      }
      var b := MaintainBand(env, w, fMin, e.value);
      if b.Err? {
        return Panics(b.error), expanded;
      }
      s := b.value;
    }
    if s.focal == map[] {
      return Returns(None), expanded;
    }
    return OutOfFuel, expanded;
  }

  /**
   * `focal_a_star_search` with the popped node's own open entry removed: a returned path
   * is a plan that reaches the goal after the last constraint, paired with an `f_min` no
   * lower than `last_search_f_min`; the only panic is an `unwrap` on `None`.
   */
  method FocalAStarSearch(env: SA.Env, paths: seq<Path>, lastSearchFMin: nat, w: real, fuel: nat)
    returns (r: Ending<Option<(Path, nat)>>, expanded: nat)
    ensures expanded <= fuel && (r.OutOfFuel? ==> expanded == fuel)
    ensures Sound(env, lastSearchFMin, false, r)
  {
    StartTraced(env);
    r, expanded := SearchFrom(env, paths, w, lastSearchFMin, false, Start(env), fuel);
  }

  // ---------------------------------------------------------------------------
  // The double search

  /**
   * `a_star_search(..).unwrap().1` as written: the `unwrap` panics when the plain A* finds
   * nothing; otherwise the value is the result's second component, an `Option<usize>`.
   */
  function FirstFMinAsWritten(found: Option<(Path, Option<nat>)>): (r: Result<Option<nat>, Panic>)
    ensures r.Err? <==> found.None?
    ensures r.Err? ==> r.error == UnwrapNone
    ensures r.Ok? ==> r.value == found.value.1
  {
    match found
    case None => Err(UnwrapNone)
    case Some((_, f)) => Ok(f)
  }

  /**
   * The first statement of the double search as written: the plain A* runs and its `unwrap`
   * panics when it finds nothing; otherwise `f_min` is the second component of its result,
   * which is always `None`. The source goes on to use `f_min` as a `usize` (in the focal
   * threshold and in the returned pair), so the function as written does not type-check,
   * and the rest of it is modelled only in its evidently intended reading.
   */
  method FocalAStarDoubleSearchAsWritten(env: SA.Env, fuel: nat)
    returns (fMin: Ending<Option<nat>>, openExpanded: nat)
    ensures openExpanded <= fuel
    ensures fMin.Panics? ==> fMin.panic == UnwrapNone
    ensures fMin.Returns? ==> fMin.value == None
  {
    var first;
    first, openExpanded := SA.AStarSearch(env, fuel);
    if first.OutOfFuel? {
      return OutOfFuel, openExpanded;
    }
    var f := FirstFMinAsWritten(first.value);
    if f.Err? {
      return Panics(f.error), openExpanded;
    }
    return Returns(f.value), openExpanded;
  }

  /** The A* path's cost: its moves plus the goal's heuristic, the sort key of its goal node. */
  function FirstFMin(env: SA.Env, found: Option<(Path, Option<nat>)>): (r: Result<nat, Panic>)
    requires found.Some? ==> |found.value.0| > 0
    ensures r.Err? <==> found.None?
    ensures r.Ok? ==> r.value == |found.value.0| - 1 + env.heuristic(env.agent.goal)
  {
    match found
    case None => Err(UnwrapNone)
    case Some((p, _)) => Ok(|p| - 1 + env.heuristic(env.agent.goal))
  }

  /**
   * `focal_a_star_double_search` with `f_min` taken as the cost of the path the plain A*
   * finds: a path is returned paired with exactly that `f_min`, the cost of a path the A*
   * delivered; the `unwrap` panics when the A* finds none.
   */
  method FocalAStarDoubleSearch(env: SA.Env, paths: seq<Path>, w: real, fuel: nat)
    returns (r: Ending<Option<(Path, nat)>>, openExpanded: nat, focalExpanded: nat)
    ensures openExpanded <= fuel && focalExpanded <= fuel
    ensures r.Panics? ==> r.panic == UnwrapNone
    ensures r.Returns? && r.value.Some? ==>
      SA.Delivers(env, r.value.value.0)
      && exists q :: SA.Delivers(env, q) && r.value.value.1 == |q| - 1 + env.heuristic(env.agent.goal)
  {
    var first;
    first, openExpanded := SA.AStarSearch(env, fuel);
    focalExpanded := 0;
    if first.OutOfFuel? {
      return OutOfFuel, openExpanded, focalExpanded;
    }
    var fMin := FirstFMin(env, first.value);
    if fMin.Err? {
      return Panics(fMin.error), openExpanded, focalExpanded;
    }
    ghost var q := first.value.value.0;
    StartTraced(env);
    r, focalExpanded := SearchFrom(env, paths, w, fMin.value, true, Start(env), fuel);
    assert SA.Delivers(env, q);
  }
}
