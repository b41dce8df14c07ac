/**
 * Focal-list conflict-based search with bounded-suboptimal bypassing (src/solver/acbs.rs):
 * nodes are expanded from a focal list ordered by conflict count; a child enters focal when
 * its cost is within `w` times the least `f_min` sum in open, and the focal list is widened
 * whenever that minimum rises. The bypass test `sub_optimal_bypass_comparation` is not part
 * of this model and is a parameter `compare`.
 */
module SolverAcbs {
  import opened Wrappers
  import opened Ordering
  import opened Common
  import Config
  import CHL = CommonHighLevel
  import opened SolverHighLevel

  /** The bypass test of acbs.rs:88-95 for the child replanning agent `a`. */
  predicate Bypasses(config: Config.Config, n: CHL.OpenNode, child: Option<CHL.OpenNode>, a: nat, w: real,
                     compare: (CHL.OpenNode, CHL.OpenNode, nat, real) -> bool)
  {
    config.opBypassConflicts && child.Some? && compare(n, child.value, a, w)
  }

  /** Either child bypasses: the expansion ends there (acbs.rs:142-144). */
  predicate AnyBypass(config: Config.Config, conflict: CHL.Conflict, n: CHL.OpenNode,
                      c1: Option<CHL.OpenNode>, c2: Option<CHL.OpenNode>, w: real,
                      compare: (CHL.OpenNode, CHL.OpenNode, nat, real) -> bool)
  {
    Bypasses(config, n, c1, conflict.agent1, w, compare) || Bypasses(config, n, c2, conflict.agent2, w, compare)
  }

  /** The nodes one expansion inserts into open: bypass nodes, or else both children that exist. */
  function OpenInserts(config: Config.Config, conflict: CHL.Conflict, n: CHL.OpenNode,
                       c1: Option<CHL.OpenNode>, c2: Option<CHL.OpenNode>, w: real,
                       compare: (CHL.OpenNode, CHL.OpenNode, nat, real) -> bool): seq<CHL.OpenNode>
    requires CHL.Shaped(n) && conflict.agent1 < |n.agents| && conflict.agent2 < |n.agents|
    requires ChildShaped(n, c1) && ChildShaped(n, c2)
  {
    var b1 := Bypasses(config, n, c1, conflict.agent1, w, compare);
    var b2 := Bypasses(config, n, c2, conflict.agent2, w, compare);
    if b1 || b2 then
      (if b1 then [CHL.UpdateBypassNode(n, c1.value, conflict.agent1)] else []) +
      (if b2 then [CHL.UpdateBypassNode(n, c2.value, conflict.agent2)] else [])
    else Existing(c1) + Existing(c2)
  }

  /** The nodes one expansion inserts into focal: the bypassing children, or else the admitted ones. */
  function FocalInserts(config: Config.Config, conflict: CHL.Conflict, n: CHL.OpenNode,
                        c1: Option<CHL.OpenNode>, c2: Option<CHL.OpenNode>, w: real,
                        compare: (CHL.OpenNode, CHL.OpenNode, nat, real) -> bool, fMin: nat): seq<CHL.FocalNode>
  {
    var b1 := Bypasses(config, n, c1, conflict.agent1, w, compare);
    var b2 := Bypasses(config, n, c2, conflict.agent2, w, compare);
    if b1 || b2 then
      (if b1 then [CHL.ToFocalNode(c1.value)] else []) + (if b2 then [CHL.ToFocalNode(c2.value)] else [])
    else Admitted(c1, fMin, w) + Admitted(c2, fMin, w)
  }

  /**
   * Every node an expansion inserts is well formed and fits, and every focal insertion is the
   * focal view of such a node whose key is among the open insertions.
   */
  lemma InsertsFit(agents: seq<Agent>, n: CHL.OpenNode, conflict: CHL.Conflict, config: Config.Config,
                   search: CHL.Query -> SearchResult, isSingleton: (Mdd, nat, Cell) -> bool,
                   c1: Option<CHL.OpenNode>, c2: Option<CHL.OpenNode>, w: real,
                   compare: (CHL.OpenNode, CHL.OpenNode, nat, real) -> bool, fMin: nat)
    requires Fits(agents, n) && CHL.WellFormed(n) && conflict.agent1 < |n.agents| && conflict.agent2 < |n.agents|
    requires Replanned(n, conflict, true, config, search, isSingleton, c1)
    requires Replanned(n, conflict, false, config, search, isSingleton, c2)
    ensures ChildShaped(n, c1) && ChildShaped(n, c2)
    ensures var xs := OpenInserts(config, conflict, n, c1, c2, w, compare);
      var ys := FocalInserts(config, conflict, n, c1, c2, w, compare, fMin);
      |xs| <= 2 &&
      (forall x :: x in xs ==> Fits(agents, x) && CHL.WellFormed(x)) &&
      (forall y :: y in ys ==> ViewOk(agents, y, true)) &&
      (forall y :: y in ys ==> exists x :: x in xs && CHL.OpenKey(x) == CHL.OpenKey(CHL.ToOpenNode(y)))
  {
    ChildFits(agents, n, conflict, true, config, search, isSingleton, c1);
    ChildFits(agents, n, conflict, false, config, search, isSingleton, c2);
    var xs := OpenInserts(config, conflict, n, c1, c2, w, compare);
    var ys := FocalInserts(config, conflict, n, c1, c2, w, compare, fMin);
    if AnyBypass(config, conflict, n, c1, c2, w, compare) {
      if Bypasses(config, n, c1, conflict.agent1, w, compare) {
        BypassFits(agents, n, conflict, true, config, search, isSingleton, c1);
      }
      if Bypasses(config, n, c2, conflict.agent2, w, compare) {
        BypassFits(agents, n, conflict, false, config, search, isSingleton, c2);
      }
      BypassInsertsFit(agents, n, conflict, config, c1, c2, w, compare, fMin);
    } else {
      assert xs == Existing(c1) + Existing(c2);
      forall y | y in ys
        ensures ViewOk(agents, y, true) && CHL.ToOpenNode(y) in xs
      {
        if c1.Some? && y == CHL.ToFocalNode(c1.value) {
          ViewFits(agents, c1.value, true);
        } else {
          assert c2.Some? && y == CHL.ToFocalNode(c2.value);
          ViewFits(agents, c2.value, true);
        }
      }
    }
  }

  lemma BypassInsertsFit(agents: seq<Agent>, n: CHL.OpenNode, conflict: CHL.Conflict, config: Config.Config,
                         c1: Option<CHL.OpenNode>, c2: Option<CHL.OpenNode>, w: real,
                         compare: (CHL.OpenNode, CHL.OpenNode, nat, real) -> bool, fMin: nat)
    requires CHL.Shaped(n) && conflict.agent1 < |n.agents| && conflict.agent2 < |n.agents|
    requires ChildShaped(n, c1) && ChildShaped(n, c2)
    requires c1.Some? ==> Fits(agents, c1.value) && CHL.WellFormed(c1.value)
    requires c2.Some? ==> Fits(agents, c2.value) && CHL.WellFormed(c2.value)
    requires Bypasses(config, n, c1, conflict.agent1, w, compare) ==> BypassOk(agents, n, c1.value, conflict.agent1)
    requires Bypasses(config, n, c2, conflict.agent2, w, compare) ==> BypassOk(agents, n, c2.value, conflict.agent2)
    requires AnyBypass(config, conflict, n, c1, c2, w, compare)
    ensures var xs := OpenInserts(config, conflict, n, c1, c2, w, compare);
      var ys := FocalInserts(config, conflict, n, c1, c2, w, compare, fMin);
      |xs| <= 2 &&
      (forall x :: x in xs ==> Fits(agents, x) && CHL.WellFormed(x)) &&
      (forall y :: y in ys ==> ViewOk(agents, y, true)) &&
      (forall y :: y in ys ==> exists x :: x in xs && CHL.OpenKey(x) == CHL.OpenKey(CHL.ToOpenNode(y))) &&
      (forall x :: x in xs ==>
         exists c :: c in Existing(c1) + Existing(c2) &&
           x == c.(constraints := n.constraints, pathLengthConstraints := n.pathLengthConstraints))
  {
    var b1 := Bypasses(config, n, c1, conflict.agent1, w, compare);
    var b2 := Bypasses(config, n, c2, conflict.agent2, w, compare);
    var xs := OpenInserts(config, conflict, n, c1, c2, w, compare);
    var ys := FocalInserts(config, conflict, n, c1, c2, w, compare, fMin);
    if b1 {
      ViewFits(agents, c1.value, true);
    }
    if b2 {
      ViewFits(agents, c2.value, true);
    }
    forall y | y in ys
      ensures ViewOk(agents, y, true) && exists x :: x in xs && CHL.OpenKey(x) == CHL.OpenKey(CHL.ToOpenNode(y))
    {
      if b1 && y == CHL.ToFocalNode(c1.value) {
        assert CHL.UpdateBypassNode(n, c1.value, conflict.agent1) in xs;
      } else {
        assert b2 && y == CHL.ToFocalNode(c2.value);
        assert CHL.UpdateBypassNode(n, c2.value, conflict.agent2) in xs;
      }
    }
    forall x | x in xs
      ensures exists c :: c in Existing(c1) + Existing(c2) &&
                          x == c.(constraints := n.constraints, pathLengthConstraints := n.pathLengthConstraints)
    {
      if b1 && x == CHL.UpdateBypassNode(n, c1.value, conflict.agent1) {
        assert c1.value in Existing(c1) + Existing(c2);
      } else {
        assert c2.value in Existing(c1) + Existing(c2);
      }
    }
  }

  /**
   * Without a bypass, open receives exactly the children found, and focal exactly the views
   * of those within `w` times `fMin`.
   */
  lemma InsertsWithoutBypass(config: Config.Config, conflict: CHL.Conflict, n: CHL.OpenNode,
                             c1: Option<CHL.OpenNode>, c2: Option<CHL.OpenNode>, w: real,
                             compare: (CHL.OpenNode, CHL.OpenNode, nat, real) -> bool, fMin: nat)
    requires CHL.Shaped(n) && conflict.agent1 < |n.agents| && conflict.agent2 < |n.agents|
    requires ChildShaped(n, c1) && ChildShaped(n, c2)
    requires !AnyBypass(config, conflict, n, c1, c2, w, compare)
    ensures var xs := OpenInserts(config, conflict, n, c1, c2, w, compare);
      var ys := FocalInserts(config, conflict, n, c1, c2, w, compare, fMin);
      xs == Existing(c1) + Existing(c2) &&
      (forall y :: y in ys ==> Within(y.cost, fMin, w) && CHL.ToOpenNode(y) in xs) &&
      (forall c :: c in xs && Within(c.cost, fMin, w) ==> CHL.ToFocalNode(c) in ys)
  {
    if c1.Some? {
      CHL.OpenFocalRoundTrip(c1.value);
    }
    if c2.Some? {
      CHL.OpenFocalRoundTrip(c2.value);
    }
  }

  /**
   * One expansion of `n` on `conflict` (acbs.rs:74-168): both children are replanned, and
   * the nodes `OpenInserts` and `FocalInserts` list go into open and focal, each open
   * insertion counted as an expanded node.
   */
  method Expand(open: map<Key, CHL.OpenNode>, focal: map<Key, CHL.FocalNode>, n: CHL.OpenNode,
                conflict: CHL.Conflict, config: Config.Config, search: CHL.Query -> SearchResult,
                isSingleton: (Mdd, nat, Cell) -> bool, w: real,
                compare: (CHL.OpenNode, CHL.OpenNode, nat, real) -> bool, fMin: nat)
    returns (r: Result<(map<Key, CHL.OpenNode>, map<Key, CHL.FocalNode>), Panic>,
             child1: Option<CHL.OpenNode>, child2: Option<CHL.OpenNode>, inserted: nat)
    requires CHL.WellFormed(n) && conflict.agent1 < |n.agents| && conflict.agent2 < |n.agents|
    requires CHL.NonEmptyPaths(search)
    ensures r.Ok? <==> CHL.Dispatches(config.solver, config)
    ensures r.Err? ==> r.error == DispatchPanic(config.solver)
    ensures r.Ok? ==>
      Replanned(n, conflict, true, config, search, isSingleton, child1) &&
      Replanned(n, conflict, false, config, search, isSingleton, child2) &&
      ChildShaped(n, child1) && ChildShaped(n, child2) &&
      Extends(open, r.value.0, OpenInserts(config, conflict, n, child1, child2, w, compare), CHL.OpenKey) &&
      Extends(focal, r.value.1, FocalInserts(config, conflict, n, child1, child2, w, compare, fMin), CHL.FocalKey) &&
      inserted == |OpenInserts(config, conflict, n, child1, child2, w, compare)|
  {
    child1, child2, inserted := None, None, 0;
    var u1 := CHL.UpdateConstraint(n, conflict, true, config, search, isSingleton);
    if u1.Err? {
      return Err(u1.error), child1, child2, inserted;
    }
    child1 := u1.value;
    var u2 := CHL.UpdateConstraint(n, conflict, false, config, search, isSingleton);
    if u2.Err? {
      // Both calls dispatch on the same solver.
      assert false;
    }
    child2 := u2.value;
    assert ChildShaped(n, child1) && ChildShaped(n, child2);
    var o, f;
    o, f, inserted := InsertChildren(open, focal, n, conflict, config, child1, child2, w, compare, fMin);
    r := Ok((o, f));
  }

  /** The insertions of acbs.rs:88-168, once both children are known. */
  method InsertChildren(open: map<Key, CHL.OpenNode>, focal: map<Key, CHL.FocalNode>, n: CHL.OpenNode,
                        conflict: CHL.Conflict, config: Config.Config,
                        child1: Option<CHL.OpenNode>, child2: Option<CHL.OpenNode>, w: real,
                        compare: (CHL.OpenNode, CHL.OpenNode, nat, real) -> bool, fMin: nat)
    returns (o: map<Key, CHL.OpenNode>, f: map<Key, CHL.FocalNode>, inserted: nat)
    requires CHL.Shaped(n) && conflict.agent1 < |n.agents| && conflict.agent2 < |n.agents|
    requires ChildShaped(n, child1) && ChildShaped(n, child2)
    ensures Extends(open, o, OpenInserts(config, conflict, n, child1, child2, w, compare), CHL.OpenKey)
    ensures Extends(focal, f, FocalInserts(config, conflict, n, child1, child2, w, compare, fMin), CHL.FocalKey)
    ensures inserted == |OpenInserts(config, conflict, n, child1, child2, w, compare)|
  {
    o, f, inserted := open, focal, 0;
    ghost var xs: seq<CHL.OpenNode> := [];
    ghost var ys: seq<CHL.FocalNode> := [];
    ExtendsNothing(open, CHL.OpenKey);
    ExtendsNothing(focal, CHL.FocalKey);
    var b1 := Bypasses(config, n, child1, conflict.agent1, w, compare);
    var b2 := Bypasses(config, n, child2, conflict.agent2, w, compare);
    if b1 || b2 {
      if b1 {
        o, f, xs, ys, inserted := InsertBypass(open, focal, o, f, xs, ys, inserted, n, child1.value, conflict.agent1);
      }
      if b2 {
        o, f, xs, ys, inserted := InsertBypass(open, focal, o, f, xs, ys, inserted, n, child2.value, conflict.agent2);
      }
    } else {
      o, f, xs, ys, inserted := InsertChild(open, focal, o, f, xs, ys, inserted, child1, w, fMin);
      o, f, xs, ys, inserted := InsertChild(open, focal, o, f, xs, ys, inserted, child2, w, fMin);
      assert xs == Existing(child1) + Existing(child2);
      assert ys == Admitted(child1, fMin, w) + Admitted(child2, fMin, w);
    }
  }

  /** acbs.rs:100-105 and 132-137: the bypass node goes into open, the bypassing child's view into focal, and both are counted once. */
  method InsertBypass(ghost open: map<Key, CHL.OpenNode>, ghost focal: map<Key, CHL.FocalNode>,
                      o: map<Key, CHL.OpenNode>, f: map<Key, CHL.FocalNode>,
                      ghost xs: seq<CHL.OpenNode>, ghost ys: seq<CHL.FocalNode>, inserted: nat,
                      n: CHL.OpenNode, child: CHL.OpenNode, a: nat)
    returns (o': map<Key, CHL.OpenNode>, f': map<Key, CHL.FocalNode>,
             ghost xs': seq<CHL.OpenNode>, ghost ys': seq<CHL.FocalNode>, inserted': nat)
    requires CHL.Shaped(n) && CHL.Shaped(child) && |child.agents| == |n.agents| && a < |n.agents|
    requires Extends(open, o, xs, CHL.OpenKey) && Extends(focal, f, ys, CHL.FocalKey)
    ensures Extends(open, o', xs', CHL.OpenKey) && Extends(focal, f', ys', CHL.FocalKey)
    ensures xs' == xs + [CHL.UpdateBypassNode(n, child, a)] && ys' == ys + [CHL.ToFocalNode(child)]
    ensures inserted' == inserted + 1
  {
    o', xs' := Put(open, o, xs, CHL.OpenKey, CHL.UpdateBypassNode(n, child, a));
    f', ys' := Put(focal, f, ys, CHL.FocalKey, CHL.ToFocalNode(child));
    inserted' := inserted + 1;
  }

  /** acbs.rs:146-156: a found child enters focal when within the threshold, and always open. */
  method InsertChild(ghost open: map<Key, CHL.OpenNode>, ghost focal: map<Key, CHL.FocalNode>,
                     o: map<Key, CHL.OpenNode>, f: map<Key, CHL.FocalNode>,
                     ghost xs: seq<CHL.OpenNode>, ghost ys: seq<CHL.FocalNode>, inserted: nat,
                     child: Option<CHL.OpenNode>, w: real, fMin: nat)
    returns (o': map<Key, CHL.OpenNode>, f': map<Key, CHL.FocalNode>,
             ghost xs': seq<CHL.OpenNode>, ghost ys': seq<CHL.FocalNode>, inserted': nat)
    requires Extends(open, o, xs, CHL.OpenKey) && Extends(focal, f, ys, CHL.FocalKey)
    ensures Extends(open, o', xs', CHL.OpenKey) && Extends(focal, f', ys', CHL.FocalKey)
    ensures xs' == xs + Existing(child) && ys' == ys + Admitted(child, fMin, w)
    ensures inserted' == inserted + |Existing(child)|
  {
    o', f', xs', ys', inserted' := o, f, xs, ys, inserted;
    if child.Some? {
      if Within(child.value.cost, fMin, w) {
        f', ys' := Put(focal, f', ys', CHL.FocalKey, CHL.ToFocalNode(child.value));
      }
      o', xs' := Put(open, o', xs', CHL.OpenKey, child.value);
      inserted' := inserted' + 1;
    }
  }

  /**
   * The rest of an iteration once the focal node `n` is popped and removed from open
   * (acbs.rs:74-194): the expansion on `conflict`, then, unless a child bypassed, the
   * widening of focal when the least `f_min` sum in open has risen above `fMin`. Both lists
   * stay valid and focal stays backed by open.
   */
  method Step(agents: seq<Agent>, open: map<Key, CHL.OpenNode>, focal: map<Key, CHL.FocalNode>, n: CHL.OpenNode,
              conflict: CHL.Conflict, config: Config.Config, search: CHL.Query -> SearchResult,
              isSingleton: (Mdd, nat, Cell) -> bool, w: real,
              compare: (CHL.OpenNode, CHL.OpenNode, nat, real) -> bool, fMin: nat)
    returns (r: Result<(map<Key, CHL.OpenNode>, map<Key, CHL.FocalNode>), Panic>, added: nat)
    requires OpenOk(agents, open, true) && FocalOk(agents, focal, true) && Backed(focal, open)
    requires Fits(agents, n) && CHL.WellFormed(n) && conflict in n.conflicts && CHL.NonEmptyPaths(search)
    ensures r.Ok? <==> CHL.Dispatches(config.solver, config)
    ensures r.Err? ==> r.error == DispatchPanic(config.solver)
    ensures r.Ok? ==> OpenOk(agents, r.value.0, true) && FocalOk(agents, r.value.1, true) && Backed(r.value.1, r.value.0)
    ensures r.Ok? ==> open.Keys <= r.value.0.Keys && focal.Keys <= r.value.1.Keys
    ensures added <= 2
  {
    var e, c1, c2;
    e, c1, c2, added := Expand(open, focal, n, conflict, config, search, isSingleton, w, compare, fMin);
    if e.Err? {
      return Err(e.error), 0;
    }
    InsertsFit(agents, n, conflict, config, search, isSingleton, c1, c2, w, compare, fMin);
    ghost var xs := OpenInserts(config, conflict, n, c1, c2, w, compare);
    ghost var ys := FocalInserts(config, conflict, n, c1, c2, w, compare, fMin);
    ExtendsOpenOk(agents, open, e.value.0, xs, true);
    ExtendsFocalOk(agents, focal, e.value.1, ys, true);
    ExtendsKeepsBacked(focal, open, e.value.1, e.value.0, ys, xs);
    var o, f := e.value.0, e.value.1;
    if !AnyBypass(config, conflict, n, c1, c2, w, compare) && o != map[] {
      var newFMin := SumFMins(o[Least(o)].fMins);
      if fMin < newFMin {
        var f' := ExtendFocal(o, f, (m: CHL.OpenNode) => m.cost, CHL.ToFocalNode, CHL.FocalKey, fMin, newFMin, w);
        BandKeepsFocal(agents, o, f, f', fMin, newFMin, w, true);
        f := f';
      }
    }
    r := Ok((o, f));
  }

  /**
   * The loop of `ACBS::solve` (acbs.rs:39-195) from a fitting, well-formed root. The
   * `open.first().unwrap()` of each iteration never panics, since the popped focal node's
   * node is still in open. A returned solution has one collision-free path per agent and
   * `costs` is its sum of path costs.
   */
  method Search(agents: seq<Agent>, root: CHL.OpenNode, config: Config.Config, search: CHL.Query -> SearchResult,
                isSingleton: (Mdd, nat, Cell) -> bool, w: real,
                compare: (CHL.OpenNode, CHL.OpenNode, nat, real) -> bool, fuel: nat)
    returns (r: Ending<Option<seq<Path>>>, expandNodes: nat, costs: nat)
    requires CHL.NonEmptyPaths(search) && Fits(agents, root) && CHL.WellFormed(root)
    ensures r.Panics? ==> !CHL.Dispatches(config.solver, config) && r.panic == DispatchPanic(config.solver)
    ensures r.Returns? && r.value.Some? ==>
      |r.value.value| == |agents| && CollisionFree(agents, r.value.value) && costs == SumOfCosts(r.value.value)
    ensures expandNodes <= 2 * fuel
  {
    expandNodes, costs := 0, 0;
    var open, focal := InitLists(agents, root, true);
    var steps := 0;
    while steps < fuel
      invariant OpenOk(agents, open, true) && FocalOk(agents, focal, true) && Backed(focal, open)
      invariant steps <= fuel && expandNodes <= 2 * steps
    {
      if focal == map[] {
        return Returns(None), expandNodes, costs;
      }
      var cur, first;
      cur, first, open, focal := PopFocal(agents, open, focal, true);
      var oldFMin := SumFMins(first.value.fMins);
      var chosen := ChooseConflict(cur.conflicts, config.opPrioritizeConflicts);
      if chosen.None? {
        return Returns(Some(cur.paths)), expandNodes, cur.cost;
      }
      var e, added := Step(agents, open, focal, cur, cur.conflicts[chosen.value], config, search, isSingleton,
                           w, compare, oldFMin);
      if e.Err? {
        return Panics(e.error), expandNodes, costs;
      }
      open, focal := e.value.0, e.value.1;
      expandNodes := expandNodes + added;
      steps := steps + 1;
    }
    r := OutOfFuel;
  }

  /**
   * `ACBS::solve`. It unwraps the low-level bound first, then builds the root with solver
   * name "acbs", which `new` does not dispatch: every non-empty instance panics.
   */
  method Solve(agents: seq<Agent>, config: Config.Config, search: CHL.Query -> SearchResult,
               isSingleton: (Mdd, nat, Cell) -> bool,
               compare: (CHL.OpenNode, CHL.OpenNode, nat, real) -> bool, fuel: nat)
    returns (r: Ending<Option<seq<Path>>>, expandNodes: nat, costs: nat)
    requires CHL.NonEmptyPaths(search)
    ensures config.subOptimal.1.None? ==> r == Panics(UnwrapNone)
    ensures config.subOptimal.1.Some? && |agents| > 0 ==> r == Panics(Unreachable)
    ensures r.Returns? && r.value.Some? ==>
      |r.value.value| == |agents| && CollisionFree(agents, r.value.value) && costs == SumOfCosts(r.value.value)
  {
    expandNodes, costs := 0, 0;
    if config.subOptimal.1.None? {
      return Panics(UnwrapNone), expandNodes, costs;
    }
    var w := config.subOptimal.1.value;
    var root := CHL.New(agents, config, "acbs", search, isSingleton);
    if root.Err? {
      return Panics(root.error), expandNodes, costs;
    }
    if root.value.None? {
      return Returns(None), expandNodes, costs;
    }
    DetectedFits(agents, root.value.value, isSingleton);
    r, expandNodes, costs := Search(agents, root.value.value, config, search, isSingleton, w, compare, fuel);
  }
}
