/**
 * Conflict-based search (src/solver/cbs.rs): best-first over constraint-tree nodes ordered by
 * cost, resolving one conflict per expansion by replanning each of its two agents, and
 * optionally bypassing a non-cardinal conflict when a replanned child keeps the cost and has
 * fewer conflicts.
 */
module SolverCbs {
  import opened Wrappers
  import opened Ordering
  import opened Common
  import Config
  import CHL = CommonHighLevel
  import opened SolverHighLevel

  /** The bypass test of one child (cbs.rs:78-83): a non-cardinal conflict, the parent's cost, fewer conflicts. */
  predicate Bypasses(config: Config.Config, conflict: CHL.Conflict, n: CHL.OpenNode, child: Option<CHL.OpenNode>) {
    config.opBypassConflicts && conflict.cardinalType != CHL.Cardinal && child.Some? &&
    child.value.cost == n.cost && |child.value.conflicts| < |n.conflicts|
  }

  /**
   * The nodes one expansion inserts into open, in order: the bypass nodes of the children
   * that bypass, or else both children that exist.
   */
  function Inserts(config: Config.Config, conflict: CHL.Conflict, n: CHL.OpenNode,
                   c1: Option<CHL.OpenNode>, c2: Option<CHL.OpenNode>): seq<CHL.OpenNode>
    requires CHL.Shaped(n) && conflict.agent1 < |n.agents| && conflict.agent2 < |n.agents|
    requires ChildShaped(n, c1) && ChildShaped(n, c2)
  {
    var b1 := Bypasses(config, conflict, n, c1);
    var b2 := Bypasses(config, conflict, n, c2);
    if b1 || b2 then
      (if b1 then [CHL.UpdateBypassNode(n, c1.value, conflict.agent1)] else []) +
      (if b2 then [CHL.UpdateBypassNode(n, c2.value, conflict.agent2)] else [])
    else Existing(c1) + Existing(c2)
  }

  /**
   * What an expansion inserts: when a child bypasses, only bypass nodes, each with the
   * parent's cost and constraints, fewer conflicts than the parent and a bypassing child's
   * paths; otherwise exactly the children found. Every inserted node is well formed and fits.
   */
  lemma InsertsFit(agents: seq<Agent>, n: CHL.OpenNode, conflict: CHL.Conflict, config: Config.Config,
                   search: CHL.Query -> SearchResult, isSingleton: (Mdd, nat, Cell) -> bool,
                   c1: Option<CHL.OpenNode>, c2: Option<CHL.OpenNode>)
    requires Fits(agents, n) && CHL.WellFormed(n) && conflict.agent1 < |n.agents| && conflict.agent2 < |n.agents|
    requires Replanned(n, conflict, true, config, search, isSingleton, c1)
    requires Replanned(n, conflict, false, config, search, isSingleton, c2)
    ensures ChildShaped(n, c1) && ChildShaped(n, c2)
    ensures var ins := Inserts(config, conflict, n, c1, c2);
      |ins| <= 2 &&
      (forall x :: x in ins ==> Fits(agents, x) && CHL.WellFormed(x)) &&
      (Bypasses(config, conflict, n, c1) || Bypasses(config, conflict, n, c2) ==>
         forall x :: x in ins ==>
           x.cost == n.cost && |x.conflicts| < |n.conflicts| && x.constraints == n.constraints &&
           x.pathLengthConstraints == n.pathLengthConstraints &&
           ((Bypasses(config, conflict, n, c1) && x.paths == c1.value.paths) ||
            (Bypasses(config, conflict, n, c2) && x.paths == c2.value.paths))) &&
      (!Bypasses(config, conflict, n, c1) && !Bypasses(config, conflict, n, c2) ==>
         ins == Existing(c1) + Existing(c2))
  {
    ChildFits(agents, n, conflict, true, config, search, isSingleton, c1);
    ChildFits(agents, n, conflict, false, config, search, isSingleton, c2);
    if Bypasses(config, conflict, n, c1) {
      BypassFits(agents, n, conflict, true, config, search, isSingleton, c1);
    }
    if Bypasses(config, conflict, n, c2) {
      BypassFits(agents, n, conflict, false, config, search, isSingleton, c2);
    }
    if Bypasses(config, conflict, n, c1) || Bypasses(config, conflict, n, c2) {
      BypassInsertsFit(agents, n, conflict, config, c1, c2);
    }
  }

  /** The bypass nodes an expansion inserts fit, keep the parent's cost and constraints, have fewer conflicts, and carry a bypassing child's paths. */
  lemma BypassInsertsFit(agents: seq<Agent>, n: CHL.OpenNode, conflict: CHL.Conflict, config: Config.Config,
                         c1: Option<CHL.OpenNode>, c2: Option<CHL.OpenNode>)
    requires CHL.Shaped(n) && conflict.agent1 < |n.agents| && conflict.agent2 < |n.agents|
    requires ChildShaped(n, c1) && ChildShaped(n, c2)
    requires Bypasses(config, conflict, n, c1) ==> BypassOk(agents, n, c1.value, conflict.agent1)
    requires Bypasses(config, conflict, n, c2) ==> BypassOk(agents, n, c2.value, conflict.agent2)
    requires Bypasses(config, conflict, n, c1) || Bypasses(config, conflict, n, c2)
    ensures var ins := Inserts(config, conflict, n, c1, c2);
      |ins| <= 2 &&
      forall x :: x in ins ==>
        Fits(agents, x) && CHL.WellFormed(x) &&
        x.cost == n.cost && |x.conflicts| < |n.conflicts| && x.constraints == n.constraints &&
        x.pathLengthConstraints == n.pathLengthConstraints &&
        ((Bypasses(config, conflict, n, c1) && x.paths == c1.value.paths) ||
         (Bypasses(config, conflict, n, c2) && x.paths == c2.value.paths))
  {
  }

  /**
   * One expansion of `n` on `conflict` (cbs.rs:64-148): both children are replanned, and the
   * nodes `Inserts` lists go into open, each counted as an expanded node.
   */
  method Expand(open: map<Key, CHL.OpenNode>, n: CHL.OpenNode, conflict: CHL.Conflict, config: Config.Config,
                search: CHL.Query -> SearchResult, isSingleton: (Mdd, nat, Cell) -> bool)
    returns (r: Result<map<Key, CHL.OpenNode>, Panic>, child1: Option<CHL.OpenNode>, child2: Option<CHL.OpenNode>,
             inserted: nat)
    requires CHL.WellFormed(n) && conflict.agent1 < |n.agents| && conflict.agent2 < |n.agents|
    requires CHL.NonEmptyPaths(search)
    ensures r.Ok? <==> CHL.Dispatches(config.solver, config)
    ensures r.Err? ==> r.error == DispatchPanic(config.solver)
    ensures r.Ok? ==>
      Replanned(n, conflict, true, config, search, isSingleton, child1) &&
      Replanned(n, conflict, false, config, search, isSingleton, child2) &&
      ChildShaped(n, child1) && ChildShaped(n, child2) &&
      Extends(open, r.value, Inserts(config, conflict, n, child1, child2), CHL.OpenKey) &&
      inserted == |Inserts(config, conflict, n, child1, child2)|
  {
    child1, child2, inserted := None, None, 0;
    var u1 := CHL.UpdateConstraint(n, conflict, true, config, search, isSingleton);
    if u1.Err? {
      return Err(u1.error), child1, child2, inserted;
    }
    child1 := u1.value;
    var u2 := CHL.UpdateConstraint(n, conflict, false, config, search, isSingleton);
    if u2.Err? {
      // Both calls dispatch on the same solver.
      assert false;
    }
    child2 := u2.value;
    assert ChildShaped(n, child1) && ChildShaped(n, child2);
    var o;
    o, inserted := InsertChildren(open, n, conflict, config, child1, child2);
    r := Ok(o);
  }

  /** The insertions of cbs.rs:78-148, once both children are known. */
  method InsertChildren(open: map<Key, CHL.OpenNode>, n: CHL.OpenNode, conflict: CHL.Conflict, config: Config.Config,
                        child1: Option<CHL.OpenNode>, child2: Option<CHL.OpenNode>)
    returns (o: map<Key, CHL.OpenNode>, inserted: nat)
    requires CHL.Shaped(n) && conflict.agent1 < |n.agents| && conflict.agent2 < |n.agents|
    requires ChildShaped(n, child1) && ChildShaped(n, child2)
    ensures Extends(open, o, Inserts(config, conflict, n, child1, child2), CHL.OpenKey)
    ensures inserted == |Inserts(config, conflict, n, child1, child2)|
  {
    o, inserted := open, 0;
    ghost var xs: seq<CHL.OpenNode> := [];
    ExtendsNothing(open, CHL.OpenKey);
    var b1 := Bypasses(config, conflict, n, child1);
    var b2 := Bypasses(config, conflict, n, child2);
    if b1 {
      o, xs, inserted := InsertOne(open, o, xs, inserted, CHL.UpdateBypassNode(n, child1.value, conflict.agent1));
    }
    if b2 {
      o, xs, inserted := InsertOne(open, o, xs, inserted, CHL.UpdateBypassNode(n, child2.value, conflict.agent2));
    }
    if !b1 && !b2 {
      if child1.Some? {
        o, xs, inserted := InsertOne(open, o, xs, inserted, child1.value);
      }
      if child2.Some? {
        o, xs, inserted := InsertOne(open, o, xs, inserted, child2.value);
      }
    }
    assert xs == Inserts(config, conflict, n, child1, child2);
  }

  /** One `open.insert` of the expansion, counted in `high_level_expand_nodes`. */
  method InsertOne(ghost open: map<Key, CHL.OpenNode>, o: map<Key, CHL.OpenNode>, ghost xs: seq<CHL.OpenNode>,
                   inserted: nat, x: CHL.OpenNode)
    returns (o': map<Key, CHL.OpenNode>, ghost xs': seq<CHL.OpenNode>, inserted': nat)
    requires Extends(open, o, xs, CHL.OpenKey)
    ensures Extends(open, o', xs', CHL.OpenKey) && xs' == xs + [x] && inserted' == inserted + 1
  {
    o', xs' := Put(open, o, xs, CHL.OpenKey, x);
    inserted' := inserted + 1;
  }

  /**
   * `CBS::solve`. A returned solution has one collision-free path per agent and `costs` is
   * its sum of path costs; a panic is either a root search over agent ids that are not
   * indices or a solver `update_constraint` does not dispatch. Each iteration inserts at most
   * two nodes.
   */
  method Solve(agents: seq<Agent>, config: Config.Config, search: CHL.Query -> SearchResult,
               isSingleton: (Mdd, nat, Cell) -> bool, fuel: nat)
    returns (r: Ending<Option<seq<Path>>>, expandNodes: nat, costs: nat)
    requires CHL.NonEmptyPaths(search)
    ensures r.Panics? ==>
      !IdsAreIndices(agents) || (!CHL.Dispatches(config.solver, config) && r.panic == DispatchPanic(config.solver))
    ensures IdsAreIndices(agents) && CHL.Dispatches(config.solver, config) ==> !r.Panics?
    ensures r.Returns? && r.value.Some? ==>
      |r.value.value| == |agents| && CollisionFree(agents, r.value.value) && costs == SumOfCosts(r.value.value)
    ensures expandNodes <= 2 * fuel
  {
    expandNodes, costs := 0, 0;
    var root := CHL.New(agents, config, "cbs", search, isSingleton);
    if root.Err? {
      return Panics(root.error), expandNodes, costs;
    }
    if root.value.None? {
      return Returns(None), expandNodes, costs;
    }
    DetectedFits(agents, root.value.value, isSingleton);
    var open := map[CHL.OpenKey(root.value.value) := root.value.value];
    var steps := 0;
    while steps < fuel
      invariant OpenOk(agents, open, true) && steps <= fuel && expandNodes <= 2 * steps
    {
      if open == map[] {
        return Returns(None), expandNodes, costs;
      }
      var k := Least(open);
      var cur := open[k];
      assert OpenAt(agents, open, k, true);
      open := open - {k};
      var chosen := ChooseConflict(cur.conflicts, config.opPrioritizeConflicts);
      if chosen.None? {
        return Returns(Some(cur.paths)), expandNodes, cur.cost;
      }
      var conflict := cur.conflicts[chosen.value];
      var e, c1, c2, added := Expand(open, cur, conflict, config, search, isSingleton);
      if e.Err? {
        return Panics(e.error), expandNodes, costs;
      }
      InsertsFit(agents, cur, conflict, config, search, isSingleton, c1, c2);
      ExtendsOpenOk(agents, open, e.value, Inserts(config, conflict, cur, c1, c2), true);
      open := e.value;
      expandNodes := expandNodes + added;
      steps := steps + 1;
    }
    r := OutOfFuel;
  }
}
