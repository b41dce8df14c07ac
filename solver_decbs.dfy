/**
 * Double-search explicit-estimation conflict-based search (src/solver/decbs.rs): focal
 * search over the nodes of src/solver/comm/highlevel.rs whose paths the double focal
 * low-level search plans. The focal threshold is the least `f_min` sum in open times the
 * low-level bound, and the first conflict is resolved with both children.
 */
module SolverDecbs {
  import opened Wrappers
  import opened Ordering
  import opened Common
  import Config
  import CHL = CommonHighLevel
  import Comm = CommHighLevel
  import opened SolverHighLevel

  /**
   * One expansion of `n` on `conflict` (decbs.rs:54-90): both children are replanned with
   * solver "decbs"; each one found goes into open, is counted, and goes into focal when its
   * cost is within the bound times `fMin`. The bound is known once a replanning dispatched.
   */
  method Expand(open: map<Key, Comm.OpenNode>, focal: map<Key, Comm.FocalNode>, n: Comm.OpenNode,
                conflict: Comm.Conflict, lowSubOptimal: Option<real>, opTr: bool,
                search: Comm.Query -> Option<(Path, nat)>, fMin: nat)
    returns (r: Result<(map<Key, Comm.OpenNode>, map<Key, Comm.FocalNode>), Panic>,
             child1: Option<Comm.OpenNode>, child2: Option<Comm.OpenNode>, inserted: nat)
    requires Comm.WellFormed(n) && conflict.agent1 < |n.agents| && conflict.agent2 < |n.agents|
    requires Comm.NonEmptyPaths(search)
    ensures r.Ok? <==> lowSubOptimal.Some?
    ensures r.Err? ==> r.error == UnwrapNone
    ensures r.Ok? ==>
      CommReplanned(n, conflict, true, lowSubOptimal, "decbs", opTr, search, child1) &&
      CommReplanned(n, conflict, false, lowSubOptimal, "decbs", opTr, search, child2) &&
      Extends(open, r.value.0, CommExisting(child1) + CommExisting(child2), Comm.OpenKey) &&
      Extends(focal, r.value.1,
              CommAdmitted(child1, fMin, lowSubOptimal.value) + CommAdmitted(child2, fMin, lowSubOptimal.value),
              Comm.FocalKey) &&
      inserted == |CommExisting(child1) + CommExisting(child2)|
  {
    child1, child2, inserted := None, None, 0;
    var u1 := Comm.UpdateConstraint(n, conflict, true, lowSubOptimal, "decbs", opTr, search);
    if u1.Err? {
      return Err(u1.error), child1, child2, inserted;
    }
    child1 := u1.value;
    var u2 := Comm.UpdateConstraint(n, conflict, false, lowSubOptimal, "decbs", opTr, search);
    if u2.Err? {
      // Both calls dispatch on the same solver.
      assert false;
    }
    child2 := u2.value;
    var w := lowSubOptimal.value;
    var o, f := open, focal;
    ghost var xs: seq<Comm.OpenNode> := [];
    ghost var ys: seq<Comm.FocalNode> := [];
    ExtendsNothing(open, Comm.OpenKey);
    ExtendsNothing(focal, Comm.FocalKey);
    o, f, xs, ys, inserted := InsertChild(open, focal, o, f, xs, ys, inserted, child1, w, fMin);
    o, f, xs, ys, inserted := InsertChild(open, focal, o, f, xs, ys, inserted, child2, w, fMin);
    r := Ok((o, f));
  }

  /** decbs.rs:63-70: a found child goes into open, is counted, and goes into focal when within the threshold. */
  method InsertChild(ghost open: map<Key, Comm.OpenNode>, ghost focal: map<Key, Comm.FocalNode>,
                     o: map<Key, Comm.OpenNode>, f: map<Key, Comm.FocalNode>,
                     ghost xs: seq<Comm.OpenNode>, ghost ys: seq<Comm.FocalNode>, inserted: nat,
                     child: Option<Comm.OpenNode>, w: real, fMin: nat)
    returns (o': map<Key, Comm.OpenNode>, f': map<Key, Comm.FocalNode>,
             ghost xs': seq<Comm.OpenNode>, ghost ys': seq<Comm.FocalNode>, inserted': nat)
    requires Extends(open, o, xs, Comm.OpenKey) && Extends(focal, f, ys, Comm.FocalKey)
    ensures Extends(open, o', xs', Comm.OpenKey) && Extends(focal, f', ys', Comm.FocalKey)
    ensures xs' == xs + CommExisting(child) && ys' == ys + CommAdmitted(child, fMin, w)
    ensures inserted' == inserted + |CommExisting(child)|
  {
    o', f', xs', ys', inserted' := o, f, xs, ys, inserted;
    if child.Some? {
      o', xs' := Put(open, o', xs', Comm.OpenKey, child.value);
      inserted' := inserted' + 1;
      if Within(child.value.cost, fMin, w) {
        f', ys' := Put(focal, f', ys', Comm.FocalKey, Comm.ToFocalNode(child.value));
      }
    }
  }

  /**
   * What an expansion inserts: every child found fits, and the focal insertions are the
   * views of exactly those children within `w` times `fMin`, each one also inserted into open.
   */
  lemma InsertsFit(agents: seq<Agent>, n: Comm.OpenNode, conflict: Comm.Conflict, lowSubOptimal: Option<real>,
                   opTr: bool, search: Comm.Query -> Option<(Path, nat)>,
                   c1: Option<Comm.OpenNode>, c2: Option<Comm.OpenNode>, w: real, fMin: nat)
    requires CommFits(agents, n) && conflict.agent1 < |n.agents| && conflict.agent2 < |n.agents|
    requires CommReplanned(n, conflict, true, lowSubOptimal, "decbs", opTr, search, c1)
    requires CommReplanned(n, conflict, false, lowSubOptimal, "decbs", opTr, search, c2)
    ensures var xs := CommExisting(c1) + CommExisting(c2);
      var ys := CommAdmitted(c1, fMin, w) + CommAdmitted(c2, fMin, w);
      |xs| <= 2 &&
      (forall x :: x in xs ==> CommFits(agents, x)) &&
      (forall y :: y in ys ==> y == Comm.ToFocalNode(Comm.ToOpenNode(y)) && Comm.ToOpenNode(y) in xs) &&
      (forall y :: y in ys ==> Within(y.cost, fMin, w)) &&
      (forall x :: x in xs && Within(x.cost, fMin, w) ==> Comm.ToFocalNode(x) in ys)
  {
    CommChildFits(agents, n, conflict, true, lowSubOptimal, "decbs", opTr, search, c1);
    CommChildFits(agents, n, conflict, false, lowSubOptimal, "decbs", opTr, search, c2);
  }

  /**
   * The rest of an iteration once the focal node `n` is popped and removed from open
   * (decbs.rs:51-118): the expansion on `conflict`, then the widening of focal when the
   * least `f_min` sum in open has risen above `fMin`. Both lists stay valid and focal stays
   * backed by open.
   */
  method Step(agents: seq<Agent>, open: map<Key, Comm.OpenNode>, focal: map<Key, Comm.FocalNode>, n: Comm.OpenNode,
              conflict: Comm.Conflict, lowSubOptimal: Option<real>, opTr: bool,
              search: Comm.Query -> Option<(Path, nat)>, fMin: nat)
    returns (r: Result<(map<Key, Comm.OpenNode>, map<Key, Comm.FocalNode>), Panic>, added: nat)
    requires CommOpenOk(agents, open) && CommFocalOk(agents, focal) && CommBacked(focal, open)
    requires CommFits(agents, n) && conflict in n.conflicts && Comm.NonEmptyPaths(search)
    ensures r.Ok? <==> lowSubOptimal.Some?
    ensures r.Err? ==> r.error == UnwrapNone
    ensures r.Ok? ==> CommOpenOk(agents, r.value.0) && CommFocalOk(agents, r.value.1) && CommBacked(r.value.1, r.value.0)
    ensures r.Ok? ==> open.Keys <= r.value.0.Keys && focal.Keys <= r.value.1.Keys
    ensures added <= 2
  {
    var e, c1, c2;
    e, c1, c2, added := Expand(open, focal, n, conflict, lowSubOptimal, opTr, search, fMin);
    if e.Err? {
      return Err(e.error), 0;
    }
    var w := lowSubOptimal.value;
    InsertsFit(agents, n, conflict, lowSubOptimal, opTr, search, c1, c2, w, fMin);
    ghost var xs := CommExisting(c1) + CommExisting(c2);
    ghost var ys := CommAdmitted(c1, fMin, w) + CommAdmitted(c2, fMin, w);
    CommExtendsOpenOk(agents, open, e.value.0, xs);
    CommExtendsFocalOk(agents, focal, e.value.1, ys);
    CommExtendsKeepsBacked(focal, open, e.value.1, e.value.0, ys, xs);
    var o, f := e.value.0, e.value.1;
    if o != map[] {
      var newFMin := SumFMins(o[Least(o)].fMins);
      if fMin < newFMin {
        var f' := ExtendFocal(o, f, (m: Comm.OpenNode) => m.cost, Comm.ToFocalNode, Comm.FocalKey, fMin, newFMin, w);
        CommBandKeepsFocal(agents, o, f, f', fMin, newFMin, w);
        f := f';
      }
    }
    r := Ok((o, f));
  }

  /**
   * `DECBS::solve`. A returned solution has one collision-free path per agent and `costs` is
   * its sum of path costs. The `open.first().unwrap()` of each iteration never panics, since
   * the popped focal node's node is still in open; the only panic is a missing low-level
   * bound, and an instance whose ids are indices panics only then.
   */
  method Solve(agents: seq<Agent>, lowSubOptimal: Option<real>, config: Config.Config,
               search: Comm.Query -> Option<(Path, nat)>, fuel: nat)
    returns (r: Ending<Option<seq<Path>>>, expandNodes: nat, costs: nat)
    requires Comm.NonEmptyPaths(search)
    ensures r.Panics? ==> !IdsAreIndices(agents) || (|agents| > 0 && lowSubOptimal.None? && r.panic == UnwrapNone)
    ensures IdsAreIndices(agents) && lowSubOptimal.Some? ==> !r.Panics?
    ensures |agents| > 0 && lowSubOptimal.None? ==> r == Panics(UnwrapNone)
    ensures r.Returns? && r.value.Some? ==>
      |r.value.value| == |agents| && CollisionFree(agents, r.value.value) && costs == SumOfCosts(r.value.value)
    ensures expandNodes <= 2 * fuel
  {
    expandNodes, costs := 0, 0;
    var root := Comm.New(agents, lowSubOptimal, "decbs", search);
    if root.Err? {
      return Panics(root.error), expandNodes, costs;
    }
    if root.value.None? {
      return Returns(None), expandNodes, costs;
    }
    CommDetectedFits(agents, root.value.value);
    var open, focal := CommInitLists(agents, root.value.value);
    var steps := 0;
    while steps < fuel
      invariant CommOpenOk(agents, open) && CommFocalOk(agents, focal) && CommBacked(focal, open)
      invariant steps <= fuel && expandNodes <= 2 * steps
      invariant |agents| > 0 ==> lowSubOptimal.Some?
    {
      if focal == map[] {
        return Returns(None), expandNodes, costs;
      }
      var cur, first;
      cur, first, open, focal := CommPopFocal(agents, open, focal);
      var oldFMin := SumFMins(first.value.fMins);
      if cur.conflicts == [] {
        return Returns(Some(cur.paths)), expandNodes, cur.cost;
      }
      assert cur.conflicts[0].agent1 < |agents|;
      var e, added := Step(agents, open, focal, cur, cur.conflicts[0], lowSubOptimal, config.opTargetReasoning,
                           search, oldFMin);
      if e.Err? {
        // A conflict names an agent, so the root's searches dispatched on the bound.
        assert false;
      }
      open, focal := e.value.0, e.value.1;
      expandNodes := expandNodes + added;
      steps := steps + 1;
    }
    r := OutOfFuel;
  }
}
