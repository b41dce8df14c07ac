/**
 * High-level bounded conflict-based search (src/solver/hbcbs.rs): nodes are expanded from a
 * focal list ordered by conflict count, a child enters focal when its cost is within `w`
 * times the least cost in open, and the first conflict is resolved, bypassing with a child
 * that has fewer conflicts and no greater cost.
 *
 * hbcbs calls `update_bypass_path` on the nodes of src/common/highlevel.rs, where only
 * src/solver/comm/highlevel.rs defines it; the model gives those nodes the same operation.
 * A bypass node keeps its parent's cost while taking the child's paths, so the nodes of
 * this solver only keep a cost at least that of their paths.
 */
module SolverHbcbs {
  import opened Wrappers
  import opened Ordering
  import opened Common
  import Config
  import CHL = CommonHighLevel
  import opened SolverHighLevel

  /**
   * `update_bypass_path` (src/solver/comm/highlevel.rs:361-371): a copy of `n` with agent
   * `a`'s path and the conflict list replaced, and everything else, the cost included, kept.
   */
  function UpdateBypassPath(n: CHL.OpenNode, path: Path, conflicts: seq<CHL.Conflict>, a: nat): (r: CHL.OpenNode)
    requires a < |n.paths|
    ensures r.paths == n.paths[a := path] && r.conflicts == conflicts
    ensures r == n.(paths := r.paths, conflicts := conflicts)
  {
    n.(paths := n.paths[a := path], conflicts := conflicts)
  }

  /**
   * The bypass node of a child of `n` whose cost is no greater than `n`'s fits: it has the
   * child's paths and conflicts under `n`'s cost and constraints.
   */
  lemma BypassPathFits(agents: seq<Agent>, n: CHL.OpenNode, conflict: CHL.Conflict, resolveFirst: bool,
                       config: Config.Config, search: CHL.Query -> SearchResult, isSingleton: (Mdd, nat, Cell) -> bool,
                       c: Option<CHL.OpenNode>)
    requires Fits(agents, n) && conflict.agent1 < |n.agents| && conflict.agent2 < |n.agents|
    requires Replanned(n, conflict, resolveFirst, config, search, isSingleton, c) && c.Some? && c.value.cost <= n.cost
    ensures var a := CHL.Chosen(conflict, resolveFirst);
      var b := UpdateBypassPath(n, c.value.paths[a], c.value.conflicts, a);
      Fits(agents, b) && Fits(agents, c.value) &&
      b.paths == c.value.paths && b.conflicts == c.value.conflicts && b.cost == n.cost &&
      b.constraints == n.constraints && b.pathLengthConstraints == n.pathLengthConstraints
  {
    ChildFits(agents, n, conflict, resolveFirst, config, search, isSingleton, c);
  }

  /** The bypass test of the first child (hbcbs.rs:58-62): the parent's cost and fewer conflicts. */
  predicate FirstBypasses(config: Config.Config, n: CHL.OpenNode, child: Option<CHL.OpenNode>) {
    config.opBypassConflicts && child.Some? && child.value.cost == n.cost && |child.value.conflicts| < |n.conflicts|
  }

  /** The bypass test of the second child (hbcbs.rs:83-87): no greater cost and fewer conflicts. */
  predicate SecondBypasses(config: Config.Config, n: CHL.OpenNode, child: Option<CHL.OpenNode>) {
    config.opBypassConflicts && child.Some? && child.value.cost <= n.cost && |child.value.conflicts| < |n.conflicts|
  }

  /** The nodes one expansion inserts into open. */
  function OpenInserts(config: Config.Config, conflict: CHL.Conflict, n: CHL.OpenNode,
                       c1: Option<CHL.OpenNode>, c2: Option<CHL.OpenNode>): seq<CHL.OpenNode>
    requires CHL.Shaped(n) && conflict.agent1 < |n.agents| && conflict.agent2 < |n.agents|
    requires ChildShaped(n, c1) && ChildShaped(n, c2)
  {
    if FirstBypasses(config, n, c1) then
      [UpdateBypassPath(n, c1.value.paths[conflict.agent1], c1.value.conflicts, conflict.agent1)]
    else if SecondBypasses(config, n, c2) then
      [UpdateBypassPath(n, c2.value.paths[conflict.agent2], c2.value.conflicts, conflict.agent2)]
    else Existing(c1) + Existing(c2)
  }

  /** The nodes one expansion inserts into focal. */
  function FocalInserts(config: Config.Config, n: CHL.OpenNode, c1: Option<CHL.OpenNode>, c2: Option<CHL.OpenNode>,
                        w: real, fMin: nat): seq<CHL.FocalNode>
  {
    if FirstBypasses(config, n, c1) then [CHL.ToFocalNode(c1.value)]
    else if SecondBypasses(config, n, c2) then [CHL.ToFocalNode(c2.value)]
    else Admitted(c1, fMin, w) + Admitted(c2, fMin, w)
  }

  /**
   * What an expansion inserts. Every node fits. A bypass inserts one node into open, with
   * the bypassing child's paths and conflicts under the parent's cost and constraints, and
   * that child's view into focal; otherwise open receives exactly the children found, and
   * focal exactly the views of those within `w` times `fMin`.
   */
  lemma InsertsFit(agents: seq<Agent>, n: CHL.OpenNode, conflict: CHL.Conflict, config: Config.Config,
                   search: CHL.Query -> SearchResult, isSingleton: (Mdd, nat, Cell) -> bool,
                   c1: Option<CHL.OpenNode>, c2: Option<CHL.OpenNode>, w: real, fMin: nat)
    requires Fits(agents, n) && conflict.agent1 < |n.agents| && conflict.agent2 < |n.agents|
    requires Replanned(n, conflict, true, config, search, isSingleton, c1)
    requires !FirstBypasses(config, n, c1) ==> Replanned(n, conflict, false, config, search, isSingleton, c2)
    requires FirstBypasses(config, n, c1) ==> c2.None?
    ensures ChildShaped(n, c1) && ChildShaped(n, c2)
    ensures var xs := OpenInserts(config, conflict, n, c1, c2);
      var ys := FocalInserts(config, n, c1, c2, w, fMin);
      |xs| <= 2 &&
      (forall x :: x in xs ==> Fits(agents, x)) &&
      (forall y :: y in ys ==> ViewOk(agents, y, false)) &&
      (FirstBypasses(config, n, c1) || SecondBypasses(config, n, c2) ==>
         |xs| == 1 && |ys| == 1 && CHL.ToOpenNode(ys[0]) in Existing(c1) + Existing(c2) &&
         xs[0].paths == ys[0].paths && xs[0].conflicts == ys[0].conflicts && ys[0].cost <= n.cost &&
         xs[0].cost == n.cost && xs[0].constraints == n.constraints) &&
      (!FirstBypasses(config, n, c1) && !SecondBypasses(config, n, c2) ==>
         xs == Existing(c1) + Existing(c2) &&
         (forall y :: y in ys ==> Within(y.cost, fMin, w) && CHL.ToOpenNode(y) in xs) &&
         (forall c :: c in xs && Within(c.cost, fMin, w) ==> CHL.ToFocalNode(c) in ys))
  {
    ChildFits(agents, n, conflict, true, config, search, isSingleton, c1);
    if c1.Some? {
      ViewFits(agents, c1.value, false);
    }
    if FirstBypasses(config, n, c1) {
      BypassPathFits(agents, n, conflict, true, config, search, isSingleton, c1);
    } else {
      ChildFits(agents, n, conflict, false, config, search, isSingleton, c2);
      if c2.Some? {
        ViewFits(agents, c2.value, false);
      }
      if SecondBypasses(config, n, c2) {
        BypassPathFits(agents, n, conflict, false, config, search, isSingleton, c2);
      } else {
        PlainInsertsFit(agents, n, conflict, config, c1, c2, w, fMin);
      }
    }
  }

  /** Without a bypass, open receives the children found and focal the views of those within the threshold. */
  lemma PlainInsertsFit(agents: seq<Agent>, n: CHL.OpenNode, conflict: CHL.Conflict, config: Config.Config,
                        c1: Option<CHL.OpenNode>, c2: Option<CHL.OpenNode>, w: real, fMin: nat)
    requires CHL.Shaped(n) && conflict.agent1 < |n.agents| && conflict.agent2 < |n.agents|
    requires ChildShaped(n, c1) && ChildShaped(n, c2)
    requires c1.Some? ==> Fits(agents, c1.value) && ViewOk(agents, CHL.ToFocalNode(c1.value), false)
    requires c1.Some? ==> CHL.ToOpenNode(CHL.ToFocalNode(c1.value)) == c1.value
    requires c2.Some? ==> Fits(agents, c2.value) && ViewOk(agents, CHL.ToFocalNode(c2.value), false)
    requires c2.Some? ==> CHL.ToOpenNode(CHL.ToFocalNode(c2.value)) == c2.value
    requires !FirstBypasses(config, n, c1) && !SecondBypasses(config, n, c2)
    ensures var xs := OpenInserts(config, conflict, n, c1, c2);
      var ys := FocalInserts(config, n, c1, c2, w, fMin);
      xs == Existing(c1) + Existing(c2) && |xs| <= 2 &&
      (forall x :: x in xs ==> Fits(agents, x)) &&
      (forall y :: y in ys ==> ViewOk(agents, y, false)) &&
      (forall y :: y in ys ==> Within(y.cost, fMin, w) && CHL.ToOpenNode(y) in xs) &&
      (forall c :: c in xs && Within(c.cost, fMin, w) ==> CHL.ToFocalNode(c) in ys)
  {
  }

  /**
   * One expansion of `n` on `conflict` (hbcbs.rs:47-114): the first child is replanned and
   * bypasses if it can; otherwise the second is replanned too, and the nodes the two insert
   * functions list go into open and focal, each open insertion counted as an expanded node.
   */
  method Expand(open: map<Key, CHL.OpenNode>, focal: map<Key, CHL.FocalNode>, n: CHL.OpenNode,
                conflict: CHL.Conflict, config: Config.Config, search: CHL.Query -> SearchResult,
                isSingleton: (Mdd, nat, Cell) -> bool, w: real, fMin: nat)
    returns (r: Result<(map<Key, CHL.OpenNode>, map<Key, CHL.FocalNode>), Panic>,
             child1: Option<CHL.OpenNode>, child2: Option<CHL.OpenNode>, inserted: nat)
    requires CHL.Costed(n) && conflict.agent1 < |n.agents| && conflict.agent2 < |n.agents|
    requires CHL.NonEmptyPaths(search)
    ensures r.Ok? <==> CHL.Dispatches(config.solver, config)
    ensures r.Err? ==> r.error == DispatchPanic(config.solver)
    ensures r.Ok? ==>
      Replanned(n, conflict, true, config, search, isSingleton, child1) &&
      (!FirstBypasses(config, n, child1) ==> Replanned(n, conflict, false, config, search, isSingleton, child2)) &&
      (FirstBypasses(config, n, child1) ==> child2.None?) &&
      ChildShaped(n, child1) && ChildShaped(n, child2) &&
      Extends(open, r.value.0, OpenInserts(config, conflict, n, child1, child2), CHL.OpenKey) &&
      Extends(focal, r.value.1, FocalInserts(config, n, child1, child2, w, fMin), CHL.FocalKey) &&
      inserted == |OpenInserts(config, conflict, n, child1, child2)|
  {
    child1, child2, inserted := None, None, 0;
    var u1 := CHL.UpdateConstraint(n, conflict, true, config, search, isSingleton);
    if u1.Err? {
      return Err(u1.error), child1, child2, inserted;
    }
    child1 := u1.value;
    if !FirstBypasses(config, n, child1) {
      var u2 := CHL.UpdateConstraint(n, conflict, false, config, search, isSingleton);
      if u2.Err? {
        // Both calls dispatch on the same solver.
        assert false;
      }
      child2 := u2.value;
    }
    assert ChildShaped(n, child1) && ChildShaped(n, child2);
    var o, f;
    o, f, inserted := InsertChildren(open, focal, n, conflict, config, child1, child2, w, fMin);
    r := Ok((o, f));
  }

  /** The insertions of hbcbs.rs:58-114, once the children are known. */
  method InsertChildren(open: map<Key, CHL.OpenNode>, focal: map<Key, CHL.FocalNode>, n: CHL.OpenNode,
                        conflict: CHL.Conflict, config: Config.Config,
                        child1: Option<CHL.OpenNode>, child2: Option<CHL.OpenNode>, w: real, fMin: nat)
    returns (o: map<Key, CHL.OpenNode>, f: map<Key, CHL.FocalNode>, inserted: nat)
    requires CHL.Shaped(n) && conflict.agent1 < |n.agents| && conflict.agent2 < |n.agents|
    requires ChildShaped(n, child1) && ChildShaped(n, child2)
    ensures Extends(open, o, OpenInserts(config, conflict, n, child1, child2), CHL.OpenKey)
    ensures Extends(focal, f, FocalInserts(config, n, child1, child2, w, fMin), CHL.FocalKey)
    ensures inserted == |OpenInserts(config, conflict, n, child1, child2)|
  {
    if FirstBypasses(config, n, child1) {
      o, f := InsertBypass(open, focal, n, child1.value, conflict.agent1);
      inserted := 1;
    } else if SecondBypasses(config, n, child2) {
      o, f := InsertBypass(open, focal, n, child2.value, conflict.agent2);
      inserted := 1;
    } else {
      o, f, inserted := open, focal, 0;
      ghost var xs: seq<CHL.OpenNode> := [];
      ghost var ys: seq<CHL.FocalNode> := [];
      ExtendsNothing(open, CHL.OpenKey);
      ExtendsNothing(focal, CHL.FocalKey);
      o, f, xs, ys, inserted := InsertChild(open, focal, o, f, xs, ys, inserted, child1, w, fMin);
      o, f, xs, ys, inserted := InsertChild(open, focal, o, f, xs, ys, inserted, child2, w, fMin);
      assert xs == Existing(child1) + Existing(child2);
      assert ys == Admitted(child1, fMin, w) + Admitted(child2, fMin, w);
    }
  }

  /** hbcbs.rs:63-69 and 88-94: the bypass node goes into open, the bypassing child's view into focal. */
  method InsertBypass(open: map<Key, CHL.OpenNode>, focal: map<Key, CHL.FocalNode>, n: CHL.OpenNode,
                      child: CHL.OpenNode, a: nat)
    returns (o: map<Key, CHL.OpenNode>, f: map<Key, CHL.FocalNode>)
    requires a < |n.paths| && a < |child.paths|
    ensures Extends(open, o, [UpdateBypassPath(n, child.paths[a], child.conflicts, a)], CHL.OpenKey)
    ensures Extends(focal, f, [CHL.ToFocalNode(child)], CHL.FocalKey)
  {
    var b := UpdateBypassPath(n, child.paths[a], child.conflicts, a);
    o := Insert(open, CHL.OpenKey(b), b);
    f := Insert(focal, CHL.FocalKey(CHL.ToFocalNode(child)), CHL.ToFocalNode(child));
    ExtendsInsert(open, b, CHL.OpenKey);
    ExtendsInsert(focal, CHL.ToFocalNode(child), CHL.FocalKey);
  }

  /** hbcbs.rs:100-106: a found child enters focal when within the threshold, and always open. */
  method InsertChild(ghost open: map<Key, CHL.OpenNode>, ghost focal: map<Key, CHL.FocalNode>,
                     o: map<Key, CHL.OpenNode>, f: map<Key, CHL.FocalNode>,
                     ghost xs: seq<CHL.OpenNode>, ghost ys: seq<CHL.FocalNode>, inserted: nat,
                     child: Option<CHL.OpenNode>, w: real, fMin: nat)
    returns (o': map<Key, CHL.OpenNode>, f': map<Key, CHL.FocalNode>,
             ghost xs': seq<CHL.OpenNode>, ghost ys': seq<CHL.FocalNode>, inserted': nat)
    requires Extends(open, o, xs, CHL.OpenKey) && Extends(focal, f, ys, CHL.FocalKey)
    ensures Extends(open, o', xs', CHL.OpenKey) && Extends(focal, f', ys', CHL.FocalKey)
    ensures xs' == xs + Existing(child) && ys' == ys + Admitted(child, fMin, w)
    ensures inserted' == inserted + |Existing(child)|
  {
    o', f', xs', ys', inserted' := o, f, xs, ys, inserted;
    if child.Some? {
      if Within(child.value.cost, fMin, w) {
        f', ys' := Put(focal, f', ys', CHL.FocalKey, CHL.ToFocalNode(child.value));
      }
      o', xs' := Put(open, o', xs', CHL.OpenKey, child.value);
      inserted' := inserted' + 1;
    }
  }

  /**
   * The rest of an iteration once the focal node `n` is popped and removed from open
   * (hbcbs.rs:47-140): the expansion on `conflict`, then, unless a child bypassed, the
   * widening of focal when the least cost in open has risen above `fMin`. Both lists stay
   * valid.
   */
  method Step(agents: seq<Agent>, open: map<Key, CHL.OpenNode>, focal: map<Key, CHL.FocalNode>, n: CHL.OpenNode,
              conflict: CHL.Conflict, config: Config.Config, search: CHL.Query -> SearchResult,
              isSingleton: (Mdd, nat, Cell) -> bool, w: real, fMin: nat)
    returns (r: Result<(map<Key, CHL.OpenNode>, map<Key, CHL.FocalNode>), Panic>, added: nat)
    requires OpenOk(agents, open, false) && FocalOk(agents, focal, false)
    requires Fits(agents, n) && conflict in n.conflicts && CHL.NonEmptyPaths(search)
    ensures r.Ok? <==> CHL.Dispatches(config.solver, config)
    ensures r.Err? ==> r.error == DispatchPanic(config.solver)
    ensures r.Ok? ==> OpenOk(agents, r.value.0, false) && FocalOk(agents, r.value.1, false)
    ensures r.Ok? ==> open.Keys <= r.value.0.Keys && focal.Keys <= r.value.1.Keys
    ensures added <= 2
  {
    var e, c1, c2;
    e, c1, c2, added := Expand(open, focal, n, conflict, config, search, isSingleton, w, fMin);
    if e.Err? {
      return Err(e.error), 0;
    }
    InsertsFit(agents, n, conflict, config, search, isSingleton, c1, c2, w, fMin);
    ExtendsOpenOk(agents, open, e.value.0, OpenInserts(config, conflict, n, c1, c2), false);
    ExtendsFocalOk(agents, focal, e.value.1, FocalInserts(config, n, c1, c2, w, fMin), false);
    var o, f := e.value.0, e.value.1;
    if !FirstBypasses(config, n, c1) && !SecondBypasses(config, n, c2) && o != map[] {
      var newFMin := o[Least(o)].cost;
      if fMin < newFMin {
        var f' := ExtendFocal(o, f, (m: CHL.OpenNode) => m.cost, CHL.ToFocalNode, CHL.FocalKey, fMin, newFMin, w);
        BandKeepsFocal(agents, o, f, f', fMin, newFMin, w, false);
        f := f';
      }
    }
    r := Ok((o, f));
  }

  /**
   * `HBCBS::solve`. It unwraps the high-level bound first. A returned solution has one
   * collision-free path per agent and `costs`, the popped node's cost, is at least its sum
   * of path costs. Besides the panics of `new` and `update_constraint`, `open.first().unwrap()`
   * panics when a popped focal node leaves open empty.
   */
  method Solve(agents: seq<Agent>, config: Config.Config, search: CHL.Query -> SearchResult,
               isSingleton: (Mdd, nat, Cell) -> bool, fuel: nat)
    returns (r: Ending<Option<seq<Path>>>, expandNodes: nat, costs: nat)
    requires CHL.NonEmptyPaths(search)
    ensures config.subOptimal.0.None? ==> r == Panics(UnwrapNone)
    ensures r.Panics? ==>
      r.panic == UnwrapNone || !IdsAreIndices(agents) ||
      (!CHL.Dispatches(config.solver, config) && r.panic == DispatchPanic(config.solver))
    ensures r.Returns? && r.value.Some? ==>
      |r.value.value| == |agents| && CollisionFree(agents, r.value.value) && costs >= SumOfCosts(r.value.value)
    ensures expandNodes <= 2 * fuel
  {
    expandNodes, costs := 0, 0;
    if config.subOptimal.0.None? {
      return Panics(UnwrapNone), expandNodes, costs;
    }
    var w := config.subOptimal.0.value;
    var root := CHL.New(agents, config, "hbcbs", search, isSingleton);
    if root.Err? {
      return Panics(root.error), expandNodes, costs;
    }
    if root.value.None? {
      return Returns(None), expandNodes, costs;
    }
    DetectedFits(agents, root.value.value, isSingleton);
    var open, focal := InitLists(agents, root.value.value, false);
    var steps := 0;
    while steps < fuel
      invariant OpenOk(agents, open, false) && FocalOk(agents, focal, false)
      invariant steps <= fuel && expandNodes <= 2 * steps
    {
      if focal == map[] {
        return Returns(None), expandNodes, costs;
      }
      var cur, first;
      cur, first, open, focal := PopFocal(agents, open, focal, false);
      if first.None? {
        return Panics(UnwrapNone), expandNodes, costs;
      }
      var oldFMin := first.value.cost;
      if cur.conflicts == [] {
        return Returns(Some(cur.paths)), expandNodes, cur.cost;
      }
      var e, added := Step(agents, open, focal, cur, cur.conflicts[0], config, search, isSingleton, w, oldFMin);
      if e.Err? {
        return Panics(e.error), expandNodes, costs;
      }
      open, focal := e.value.0, e.value.1;
      expandNodes := expandNodes + added;
      steps := steps + 1;
    }
    r := OutOfFuel;
  }
}
