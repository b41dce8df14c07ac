/**
 * Bounded conflict-based search (src/solver/bcbs.rs): focal search over the nodes of
 * src/solver/comm/highlevel.rs. The focal threshold is the popped node's own cost times
 * the high-level bound, expanded nodes are kept in a closed set, and children already
 * closed are discarded.
 *
 * bcbs calls `new` and `update_constraint` without a solver name or target-reasoning flag,
 * which src/solver/comm/highlevel.rs requires; the model passes "bcbs" and no target
 * reasoning.
 */
module SolverBcbs {
  import opened Wrappers
  import opened Ordering
  import opened Common
  import Comm = CommHighLevel
  import opened SolverHighLevel

  /** A child that was found and is not in the closed set (bcbs.rs:60, 79), as a list. */
  function Fresh(closed: set<Comm.OpenNode>, c: Option<Comm.OpenNode>): seq<Comm.OpenNode> {
    if c.Some? && c.value !in closed then [c.value] else []
  }

  /** The focal view of a fresh child whose cost is within the high-level bound times `fMin`. */
  function Admitted(closed: set<Comm.OpenNode>, c: Option<Comm.OpenNode>, fMin: nat, high: Option<real>): seq<Comm.FocalNode> {
    if c.Some? && c.value !in closed && high.Some? && Within(c.value.cost, fMin, high.value) then [Comm.ToFocalNode(c.value)]
    else []
  }

  /**
   * One expansion of `n` on `conflict` (bcbs.rs:52-89): both children are replanned; each
   * fresh one goes into open, is counted, and goes into focal when within the threshold.
   * Admitting a fresh child unwraps the high-level bound.
   */
  method Expand(open: map<Key, Comm.OpenNode>, focal: map<Key, Comm.FocalNode>, closed: set<Comm.OpenNode>,
                n: Comm.OpenNode, conflict: Comm.Conflict, low: Option<real>, high: Option<real>,
                search: Comm.Query -> Option<(Path, nat)>, fMin: nat)
    returns (r: Result<(map<Key, Comm.OpenNode>, map<Key, Comm.FocalNode>), Panic>,
             child1: Option<Comm.OpenNode>, child2: Option<Comm.OpenNode>, inserted: nat)
    requires Comm.WellFormed(n) && conflict.agent1 < |n.agents| && conflict.agent2 < |n.agents|
    requires Comm.NonEmptyPaths(search)
    ensures r.Ok? <==> low.Some? && (high.Some? || Fresh(closed, child1) + Fresh(closed, child2) == [])
    ensures r.Err? ==> r.error == UnwrapNone
    ensures low.Some? ==> CommReplanned(n, conflict, true, low, "bcbs", false, search, child1)
    ensures r.Ok? ==>
      CommReplanned(n, conflict, false, low, "bcbs", false, search, child2) &&
      Extends(open, r.value.0, Fresh(closed, child1) + Fresh(closed, child2), Comm.OpenKey) &&
      Extends(focal, r.value.1, Admitted(closed, child1, fMin, high) + Admitted(closed, child2, fMin, high),
              Comm.FocalKey) &&
      inserted == |Fresh(closed, child1) + Fresh(closed, child2)|
  {
    child1, child2, inserted := None, None, 0;
    var u1 := Comm.UpdateConstraint(n, conflict, true, low, "bcbs", false, search);
    if u1.Err? {
      return Err(u1.error), child1, child2, inserted;
    }
    child1 := u1.value;
    if Fresh(closed, child1) != [] && high.None? {
      return Err(UnwrapNone), child1, child2, inserted;
    }
    var u2 := Comm.UpdateConstraint(n, conflict, false, low, "bcbs", false, search);
    if u2.Err? {
      // Both calls dispatch on the same solver.
      assert false;
    }
    child2 := u2.value;
    if Fresh(closed, child2) != [] && high.None? {
      return Err(UnwrapNone), child1, child2, inserted;
    }
    var o, f;
    o, f, inserted := InsertChildren(open, focal, closed, child1, child2, high, fMin);
    r := Ok((o, f));
  }

  /** The insertions of bcbs.rs:60-89, once both children are known. */
  method InsertChildren(open: map<Key, Comm.OpenNode>, focal: map<Key, Comm.FocalNode>, closed: set<Comm.OpenNode>,
                        child1: Option<Comm.OpenNode>, child2: Option<Comm.OpenNode>, high: Option<real>, fMin: nat)
    returns (o: map<Key, Comm.OpenNode>, f: map<Key, Comm.FocalNode>, inserted: nat)
    requires Fresh(closed, child1) + Fresh(closed, child2) != [] ==> high.Some?
    ensures Extends(open, o, Fresh(closed, child1) + Fresh(closed, child2), Comm.OpenKey)
    ensures Extends(focal, f, Admitted(closed, child1, fMin, high) + Admitted(closed, child2, fMin, high), Comm.FocalKey)
    ensures inserted == |Fresh(closed, child1) + Fresh(closed, child2)|
  {
    o, f, inserted := open, focal, 0;
    ghost var xs: seq<Comm.OpenNode> := [];
    ghost var ys: seq<Comm.FocalNode> := [];
    ExtendsNothing(open, Comm.OpenKey);
    ExtendsNothing(focal, Comm.FocalKey);
    o, f, xs, ys, inserted := InsertChild(open, focal, closed, o, f, xs, ys, inserted, child1, high, fMin);
    o, f, xs, ys, inserted := InsertChild(open, focal, closed, o, f, xs, ys, inserted, child2, high, fMin);
  }

  /** bcbs.rs:60-69: a fresh child goes into open, is counted, and goes into focal when within the threshold. */
  method InsertChild(ghost open: map<Key, Comm.OpenNode>, ghost focal: map<Key, Comm.FocalNode>, closed: set<Comm.OpenNode>,
                     o: map<Key, Comm.OpenNode>, f: map<Key, Comm.FocalNode>,
                     ghost xs: seq<Comm.OpenNode>, ghost ys: seq<Comm.FocalNode>, inserted: nat,
                     child: Option<Comm.OpenNode>, high: Option<real>, fMin: nat)
    returns (o': map<Key, Comm.OpenNode>, f': map<Key, Comm.FocalNode>,
             ghost xs': seq<Comm.OpenNode>, ghost ys': seq<Comm.FocalNode>, inserted': nat)
    requires Extends(open, o, xs, Comm.OpenKey) && Extends(focal, f, ys, Comm.FocalKey)
    requires Fresh(closed, child) != [] ==> high.Some?
    ensures Extends(open, o', xs', Comm.OpenKey) && Extends(focal, f', ys', Comm.FocalKey)
    ensures xs' == xs + Fresh(closed, child) && ys' == ys + Admitted(closed, child, fMin, high)
    ensures inserted' == inserted + |Fresh(closed, child)|
  {
    o', f', xs', ys', inserted' := o, f, xs, ys, inserted;
    if child.Some? && child.value !in closed {
      o', xs' := Put(open, o', xs', Comm.OpenKey, child.value);
      inserted' := inserted' + 1;
      if Within(child.value.cost, fMin, high.value) {
        f', ys' := Put(focal, f', ys', Comm.FocalKey, Comm.ToFocalNode(child.value));
      }
    }
  }

  /**
   * What an expansion inserts: the fresh children, each fitting, none of them closed; and
   * into focal the views of exactly those fresh children within the threshold.
   */
  lemma InsertsFit(agents: seq<Agent>, n: Comm.OpenNode, conflict: Comm.Conflict, low: Option<real>,
                   search: Comm.Query -> Option<(Path, nat)>, closed: set<Comm.OpenNode>,
                   c1: Option<Comm.OpenNode>, c2: Option<Comm.OpenNode>, w: real, fMin: nat)
    requires CommFits(agents, n) && conflict.agent1 < |n.agents| && conflict.agent2 < |n.agents|
    requires CommReplanned(n, conflict, true, low, "bcbs", false, search, c1)
    requires CommReplanned(n, conflict, false, low, "bcbs", false, search, c2)
    ensures var xs := Fresh(closed, c1) + Fresh(closed, c2);
      var ys := Admitted(closed, c1, fMin, Some(w)) + Admitted(closed, c2, fMin, Some(w));
      |xs| <= 2 &&
      (forall x :: x in xs ==> CommFits(agents, x) && x !in closed) &&
      (forall y :: y in ys ==> y == Comm.ToFocalNode(Comm.ToOpenNode(y)) && Comm.ToOpenNode(y) in xs) &&
      (forall y :: y in ys ==> Within(y.cost, fMin, w)) &&
      (forall x :: x in xs && Within(x.cost, fMin, w) ==> Comm.ToFocalNode(x) in ys)
  {
    CommChildFits(agents, n, conflict, true, low, "bcbs", false, search, c1);
    CommChildFits(agents, n, conflict, false, low, "bcbs", false, search, c2);
  }

  /**
   * The rest of an iteration once the focal node `n` is popped, removed from open and
   * closed (bcbs.rs:52-117): the expansion on `conflict`, then the widening of focal when
   * the least cost in open has risen above `fMin`, which unwraps the high-level bound.
   */
  method Step(agents: seq<Agent>, open: map<Key, Comm.OpenNode>, focal: map<Key, Comm.FocalNode>,
              closed: set<Comm.OpenNode>, n: Comm.OpenNode, conflict: Comm.Conflict,
              low: Option<real>, high: Option<real>, search: Comm.Query -> Option<(Path, nat)>, fMin: nat)
    returns (r: Result<(map<Key, Comm.OpenNode>, map<Key, Comm.FocalNode>), Panic>, added: nat)
    requires CommOpenOk(agents, open) && CommFocalOk(agents, focal)
    requires CommFits(agents, n) && conflict in n.conflicts && Comm.NonEmptyPaths(search)
    ensures r.Err? ==> r.error == UnwrapNone && (low.None? || high.None?)
    ensures low.Some? && high.Some? ==> r.Ok?
    ensures r.Ok? ==> CommOpenOk(agents, r.value.0) && CommFocalOk(agents, r.value.1)
    ensures r.Ok? ==> open.Keys <= r.value.0.Keys && focal.Keys <= r.value.1.Keys
    ensures r.Ok? ==> forall k :: k in r.value.0 && k !in open ==> r.value.0[k] !in closed
    ensures added <= 2
  {
    var e, c1, c2;
    e, c1, c2, added := Expand(open, focal, closed, n, conflict, low, high, search, fMin);
    if e.Err? {
      return Err(e.error), 0;
    }
    var xs := Fresh(closed, c1) + Fresh(closed, c2);
    var ys := Admitted(closed, c1, fMin, high) + Admitted(closed, c2, fMin, high);
    if high.Some? {
      InsertsFit(agents, n, conflict, low, search, closed, c1, c2, high.value, fMin);
    } else {
      CommChildFits(agents, n, conflict, true, low, "bcbs", false, search, c1);
      CommChildFits(agents, n, conflict, false, low, "bcbs", false, search, c2);
    }
    CommExtendsOpenOk(agents, open, e.value.0, xs);
    CommExtendsFocalOk(agents, focal, e.value.1, ys);
    var o, f := e.value.0, e.value.1;
    if o != map[] {
      var newFMin := o[Least(o)].cost;
      if fMin < newFMin {
        if high.None? {
          return Err(UnwrapNone), added;
        }
        var w := high.value;
        var f' := ExtendFocal(o, f, (m: Comm.OpenNode) => m.cost, Comm.ToFocalNode, Comm.FocalKey, fMin, newFMin, w);
        CommBandKeepsFocal(agents, o, f, f', fMin, newFMin, w);
        f := f';
      }
    }
    r := Ok((o, f));
  }

  /**
   * `BCBS::solve` with `subOptimal` = (high-level bound, low-level bound). A returned
   * solution has one collision-free path per agent and `costs` is its sum of path costs.
   * Every expanded node is closed, and a closed node is never inserted again. The only
   * panics are a missing bound, and with both bounds an instance whose ids are indices
   * never panics.
   */
  method Solve(agents: seq<Agent>, subOptimal: (Option<real>, Option<real>),
               search: Comm.Query -> Option<(Path, nat)>, fuel: nat)
    returns (r: Ending<Option<seq<Path>>>, expandNodes: nat, costs: nat, closed: set<Comm.OpenNode>)
    requires Comm.NonEmptyPaths(search)
    ensures r.Panics? ==> !IdsAreIndices(agents) || (r.panic == UnwrapNone && (subOptimal.0.None? || subOptimal.1.None?))
    ensures IdsAreIndices(agents) && subOptimal.0.Some? && subOptimal.1.Some? ==> !r.Panics?
    ensures |agents| > 0 && subOptimal.1.None? ==> r == Panics(UnwrapNone)
    ensures r.Returns? && r.value.Some? ==>
      |r.value.value| == |agents| && CollisionFree(agents, r.value.value) && costs == SumOfCosts(r.value.value)
    ensures |closed| <= fuel + 1
    ensures expandNodes <= 2 * fuel
  {
    expandNodes, costs, closed := 0, 0, {};
    var low, high := subOptimal.1, subOptimal.0;
    var root := Comm.New(agents, low, "bcbs", search);
    if root.Err? {
      return Panics(root.error), expandNodes, costs, closed;
    }
    if root.value.None? {
      return Returns(None), expandNodes, costs, closed;
    }
    CommDetectedFits(agents, root.value.value);
    var open, focal := CommInitLists(agents, root.value.value);
    var steps := 0;
    while steps < fuel
      invariant CommOpenOk(agents, open) && CommFocalOk(agents, focal)
      invariant steps <= fuel && expandNodes <= 2 * steps && |closed| <= steps
      invariant |agents| > 0 ==> low.Some?
    {
      if focal == map[] {
        return Returns(None), expandNodes, costs, closed;
      }
      var cur, first;
      cur, first, open, focal := CommPopFocal(agents, open, focal);
      var oldFMin := cur.cost;
      closed := closed + {cur};
      if cur.conflicts == [] {
        return Returns(Some(cur.paths)), expandNodes, cur.cost, closed;
      }
      assert cur.conflicts[0].agent1 < |agents|;
      var e, added := Step(agents, open, focal, closed, cur, cur.conflicts[0], low, high, search, oldFMin);
      if e.Err? {
        return Panics(e.error), expandNodes, costs, closed;
      }
      open, focal := e.value.0, e.value.1;
      expandNodes := expandNodes + added;
      steps := steps + 1;
    }
    r := OutOfFuel;
  }
}
