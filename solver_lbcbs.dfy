/**
 * Lower-bound conflict-based search (src/solver/lbcbs.rs): cbs over nodes whose paths the
 * focal low-level search plans, always resolving the first conflict, and bypassing with the
 * first child that keeps the cost and has fewer conflicts, before the second is replanned.
 */
module SolverLbcbs {
  import opened Wrappers
  import opened Ordering
  import opened Common
  import Config
  import CHL = CommonHighLevel
  import opened SolverHighLevel

  /** The bypass test of lbcbs.rs:48-52: the parent's cost and fewer conflicts. */
  predicate Bypasses(config: Config.Config, n: CHL.OpenNode, child: Option<CHL.OpenNode>) {
    config.opBypassConflicts && child.Some? && child.value.cost == n.cost && |child.value.conflicts| < |n.conflicts|
  }

  /**
   * The nodes one expansion inserts into open: the bypass node of the first child if it
   * bypasses, else that of the second if it does, else both children that exist.
   */
  function Inserts(config: Config.Config, conflict: CHL.Conflict, n: CHL.OpenNode,
                   c1: Option<CHL.OpenNode>, c2: Option<CHL.OpenNode>): seq<CHL.OpenNode>
    requires CHL.Shaped(n) && conflict.agent1 < |n.agents| && conflict.agent2 < |n.agents|
    requires ChildShaped(n, c1) && ChildShaped(n, c2)
  {
    if Bypasses(config, n, c1) then [CHL.UpdateBypassNode(n, c1.value, conflict.agent1)]
    else if Bypasses(config, n, c2) then [CHL.UpdateBypassNode(n, c2.value, conflict.agent2)]
    else Existing(c1) + Existing(c2)
  }

  /**
   * What an expansion inserts: a single bypass node with the parent's cost and constraints,
   * fewer conflicts and the bypassing child's paths, or else exactly the children found.
   * Every inserted node is well formed and fits.
   */
  lemma InsertsFit(agents: seq<Agent>, n: CHL.OpenNode, conflict: CHL.Conflict, config: Config.Config,
                   search: CHL.Query -> SearchResult, isSingleton: (Mdd, nat, Cell) -> bool,
                   c1: Option<CHL.OpenNode>, c2: Option<CHL.OpenNode>)
    requires Fits(agents, n) && CHL.WellFormed(n) && conflict.agent1 < |n.agents| && conflict.agent2 < |n.agents|
    requires Replanned(n, conflict, true, config, search, isSingleton, c1)
    requires !Bypasses(config, n, c1) ==> Replanned(n, conflict, false, config, search, isSingleton, c2)
    requires Bypasses(config, n, c1) ==> c2.None?
    ensures ChildShaped(n, c1) && ChildShaped(n, c2)
    ensures var ins := Inserts(config, conflict, n, c1, c2);
      |ins| <= 2 &&
      (forall x :: x in ins ==> Fits(agents, x) && CHL.WellFormed(x)) &&
      (Bypasses(config, n, c1) ==>
         |ins| == 1 && ins[0].paths == c1.value.paths && ins[0].cost == n.cost &&
         ins[0].constraints == n.constraints && |ins[0].conflicts| < |n.conflicts|) &&
      (!Bypasses(config, n, c1) && Bypasses(config, n, c2) ==>
         |ins| == 1 && ins[0].paths == c2.value.paths && ins[0].cost == n.cost &&
         ins[0].constraints == n.constraints && |ins[0].conflicts| < |n.conflicts|) &&
      (!Bypasses(config, n, c1) && !Bypasses(config, n, c2) ==> ins == Existing(c1) + Existing(c2))
  {
    ChildFits(agents, n, conflict, true, config, search, isSingleton, c1);
    if Bypasses(config, n, c1) {
      BypassFits(agents, n, conflict, true, config, search, isSingleton, c1);
    } else {
      ChildFits(agents, n, conflict, false, config, search, isSingleton, c2);
      if Bypasses(config, n, c2) {
        BypassFits(agents, n, conflict, false, config, search, isSingleton, c2);
      }
    }
  }

  /**
   * One expansion of `n` on `conflict` (lbcbs.rs:37-92): the first child is replanned and
   * bypasses if it can; otherwise the second is replanned too, and the nodes `Inserts`
   * lists go into open, each counted as an expanded node.
   */
  method Expand(open: map<Key, CHL.OpenNode>, n: CHL.OpenNode, conflict: CHL.Conflict, config: Config.Config,
                search: CHL.Query -> SearchResult, isSingleton: (Mdd, nat, Cell) -> bool)
    returns (r: Result<map<Key, CHL.OpenNode>, Panic>, child1: Option<CHL.OpenNode>, child2: Option<CHL.OpenNode>,
             inserted: nat)
    requires CHL.WellFormed(n) && conflict.agent1 < |n.agents| && conflict.agent2 < |n.agents|
    requires CHL.NonEmptyPaths(search)
    ensures r.Ok? <==> CHL.Dispatches(config.solver, config)
    ensures r.Err? ==> r.error == DispatchPanic(config.solver)
    ensures r.Ok? ==>
      Replanned(n, conflict, true, config, search, isSingleton, child1) &&
      (!Bypasses(config, n, child1) ==> Replanned(n, conflict, false, config, search, isSingleton, child2)) &&
      (Bypasses(config, n, child1) ==> child2.None?) &&
      ChildShaped(n, child1) && ChildShaped(n, child2) &&
      Extends(open, r.value, Inserts(config, conflict, n, child1, child2), CHL.OpenKey) &&
      inserted == |Inserts(config, conflict, n, child1, child2)|
  {
    child1, child2, inserted := None, None, 0;
    var u1 := CHL.UpdateConstraint(n, conflict, true, config, search, isSingleton);
    if u1.Err? {
      return Err(u1.error), child1, child2, inserted;
    }
    child1 := u1.value;
    if !Bypasses(config, n, child1) {
      var u2 := CHL.UpdateConstraint(n, conflict, false, config, search, isSingleton);
      if u2.Err? {
        // Both calls dispatch on the same solver.
        assert false;
      }
      child2 := u2.value;
    }
    assert ChildShaped(n, child1) && ChildShaped(n, child2);
    var o;
    o, inserted := InsertChildren(open, n, conflict, config, child1, child2);
    r := Ok(o);
  }

  /** The insertions of lbcbs.rs:48-92, once the children are known. */
  method InsertChildren(open: map<Key, CHL.OpenNode>, n: CHL.OpenNode, conflict: CHL.Conflict, config: Config.Config,
                        child1: Option<CHL.OpenNode>, child2: Option<CHL.OpenNode>)
    returns (o: map<Key, CHL.OpenNode>, inserted: nat)
    requires CHL.Shaped(n) && conflict.agent1 < |n.agents| && conflict.agent2 < |n.agents|
    requires ChildShaped(n, child1) && ChildShaped(n, child2)
    ensures Extends(open, o, Inserts(config, conflict, n, child1, child2), CHL.OpenKey)
    ensures inserted == |Inserts(config, conflict, n, child1, child2)|
  {
    o, inserted := open, 0;
    ghost var xs: seq<CHL.OpenNode> := [];
    ExtendsNothing(open, CHL.OpenKey);
    if Bypasses(config, n, child1) {
      o, xs := Put(open, o, xs, CHL.OpenKey, CHL.UpdateBypassNode(n, child1.value, conflict.agent1));
      inserted := inserted + 1;
    } else if Bypasses(config, n, child2) {
      o, xs := Put(open, o, xs, CHL.OpenKey, CHL.UpdateBypassNode(n, child2.value, conflict.agent2));
      inserted := inserted + 1;
    } else {
      if child1.Some? {
        o, xs := Put(open, o, xs, CHL.OpenKey, child1.value);
        inserted := inserted + 1;
      }
      if child2.Some? {
        o, xs := Put(open, o, xs, CHL.OpenKey, child2.value);
        inserted := inserted + 1;
      }
    }
    assert xs == Inserts(config, conflict, n, child1, child2);
  }

  /**
   * `LBCBS::solve`. A returned solution has one collision-free path per agent and `costs` is
   * its sum of path costs; a panic is either a root search over agent ids that are not
   * indices, a missing low-level bound, or a solver `update_constraint` does not dispatch.
   */
  method Solve(agents: seq<Agent>, config: Config.Config, search: CHL.Query -> SearchResult,
               isSingleton: (Mdd, nat, Cell) -> bool, fuel: nat)
    returns (r: Ending<Option<seq<Path>>>, expandNodes: nat, costs: nat)
    requires CHL.NonEmptyPaths(search)
    ensures r.Panics? ==>
      !IdsAreIndices(agents) ||
      (|agents| > 0 && !CHL.Dispatches("lbcbs", config) && r.panic == UnwrapNone) ||
      (!CHL.Dispatches(config.solver, config) && r.panic == DispatchPanic(config.solver))
    ensures IdsAreIndices(agents) && CHL.Dispatches("lbcbs", config) && CHL.Dispatches(config.solver, config) ==>
      !r.Panics?
    ensures |agents| > 0 && !CHL.Dispatches("lbcbs", config) ==> r == Panics(UnwrapNone)
    ensures r.Returns? && r.value.Some? ==>
      |r.value.value| == |agents| && CollisionFree(agents, r.value.value) && costs == SumOfCosts(r.value.value)
    ensures expandNodes <= 2 * fuel
  {
    expandNodes, costs := 0, 0;
    var root := CHL.New(agents, config, "lbcbs", search, isSingleton);
    if root.Err? {
      return Panics(root.error), expandNodes, costs;
    }
    if root.value.None? {
      return Returns(None), expandNodes, costs;
    }
    DetectedFits(agents, root.value.value, isSingleton);
    var open := map[CHL.OpenKey(root.value.value) := root.value.value];
    var steps := 0;
    while steps < fuel
      invariant OpenOk(agents, open, true) && steps <= fuel && expandNodes <= 2 * steps
    {
      if open == map[] {
        return Returns(None), expandNodes, costs;
      }
      var k := Least(open);
      var cur := open[k];
      assert OpenAt(agents, open, k, true);
      open := open - {k};
      if cur.conflicts == [] {
        return Returns(Some(cur.paths)), expandNodes, cur.cost;
      }
      var conflict := cur.conflicts[0];
      var e, c1, c2, added := Expand(open, cur, conflict, config, search, isSingleton);
      if e.Err? {
        return Panics(e.error), expandNodes, costs;
      }
      InsertsFit(agents, cur, conflict, config, search, isSingleton, c1, c2);
      ExtendsOpenOk(agents, open, e.value, Inserts(config, conflict, cur, c1, c2), true);
      open := e.value;
      expandNodes := expandNodes + added;
      steps := steps + 1;
    }
    r := OutOfFuel;
  }
}
