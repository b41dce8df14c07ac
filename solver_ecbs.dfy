/**
 * Explicit-estimation conflict-based search (src/solver/ecbs.rs): focal search whose open
 * list is a map keyed by (`f_min` sum, cost, conflict hash), whose focal list is a heap,
 * and which closes every expanded node and resolves every conflict of it.
 *
 * ecbs uses `comm::HighLevelNode`, which is not part of this model. Its nodes are modelled
 * as the nodes of src/solver/comm/highlevel.rs, built by `new` and `update_constraint` with
 * solver name "ecbs" and no target reasoning. The node's `conflicts_hash` is an oracle
 * `hash`, and the heap order, also not shown, is an oracle `pick` naming the element
 * `pop` takes.
 */
module SolverEcbs {
  import opened Wrappers
  import opened Ordering
  import opened Common
  import Comm = CommHighLevel
  import opened SolverHighLevel

  /** The open list's key (ecbs.rs:44-51): the `f_min` sum, the cost, and the hash or 0. */
  function OpenKey(n: Comm.OpenNode, hash: Comm.OpenNode -> Option<nat>): (k: Key)
    ensures k.KSeq? && |k.items| == 3 && k.items[0] == KNat(SumFMins(n.fMins))
  {
    KSeq([KNat(SumFMins(n.fMins)), KNat(n.cost), KNat(if hash(n).Some? then hash(n).value else 0)])
  }

  /** Every open entry sits under its own key and fits. */
  ghost predicate OpenOk(agents: seq<Agent>, open: map<Key, Comm.OpenNode>, hash: Comm.OpenNode -> Option<nat>) {
    forall k :: k in open ==> OpenAt(agents, open, k, hash)
  }

  ghost predicate OpenAt(agents: seq<Agent>, open: map<Key, Comm.OpenNode>, k: Key, hash: Comm.OpenNode -> Option<nat>)
    requires k in open
  {
    k == OpenKey(open[k], hash) && CommFits(agents, open[k])
  }

  /** Every node on the focal heap fits. */
  ghost predicate FocalOk(agents: seq<Agent>, focal: seq<Comm.OpenNode>) {
    forall i :: 0 <= i < |focal| ==> CommFits(agents, focal[i])
  }

  /** `pick` names an element of every non-empty heap. */
  ghost predicate Picks(pick: seq<Comm.OpenNode> -> nat) {
    forall s :: |s| > 0 ==> pick(s) < |s|
  }

  /** A child that was found and is not closed (ecbs.rs:70, 96), as a list. */
  function Fresh(closed: set<Comm.OpenNode>, c: Option<Comm.OpenNode>): seq<Comm.OpenNode> {
    if c.Some? && c.value !in closed then [c.value] else []
  }

  /** A fresh child whose cost is within `w` times `fMin` (ecbs.rs:81-85, 107-111), as a list. */
  function Admitted(closed: set<Comm.OpenNode>, c: Option<Comm.OpenNode>, fMin: nat, w: real): seq<Comm.OpenNode> {
    if c.Some? && c.value !in closed && Within(c.value.cost, fMin, w) then [c.value] else []
  }

  /**
   * `BTreeMap::insert` of each of `xs` in turn under its key: the entries under other keys
   * are kept, every element's key is present, and each new or replaced entry is one of `xs`.
   */
  function Replace(m: map<Key, Comm.OpenNode>, xs: seq<Comm.OpenNode>, hash: Comm.OpenNode -> Option<nat>)
    : (r: map<Key, Comm.OpenNode>)
    ensures m.Keys <= r.Keys
    ensures forall x :: x in xs ==> OpenKey(x, hash) in r
    ensures forall k :: k in r ==> (k in m && r[k] == m[k]) || (k == OpenKey(r[k], hash) && r[k] in xs)
    decreases |xs|
  {
    if xs == [] then m
    else
      var r := Replace(m[OpenKey(xs[0], hash) := xs[0]], xs[1..], hash);
      assert forall x :: x in xs[1..] ==> x in xs;
      r
  }

  /** Inserting fitting nodes keeps the open list valid. */
  lemma ReplaceOk(agents: seq<Agent>, open: map<Key, Comm.OpenNode>, xs: seq<Comm.OpenNode>,
                  hash: Comm.OpenNode -> Option<nat>)
    requires OpenOk(agents, open, hash) && forall x :: x in xs ==> CommFits(agents, x)
    ensures OpenOk(agents, Replace(open, xs, hash), hash)
  {
    var r := Replace(open, xs, hash);
    forall k | k in r ensures OpenAt(agents, r, k, hash) {
      if !(r[k] in xs && k == OpenKey(r[k], hash)) {
        assert OpenAt(agents, open, k, hash);
      }
    }
  }

  /** Replacing along a concatenation is replacing along each part in turn. */
  lemma {:induction false} ReplaceAppend(m: map<Key, Comm.OpenNode>, xs: seq<Comm.OpenNode>, ys: seq<Comm.OpenNode>,
                                         hash: Comm.OpenNode -> Option<nat>)
    ensures Replace(m, xs + ys, hash) == Replace(Replace(m, xs, hash), ys, hash)
    decreases |xs|
  {
    if xs == [] {
      assert xs + ys == ys;
    } else {
      assert (xs + ys)[1..] == xs[1..] + ys;
      ReplaceAppend(m[OpenKey(xs[0], hash) := xs[0]], xs[1..], ys, hash);
    }
  }

  /**
   * Both children of one conflict (ecbs.rs:63-113): each is replanned; a fresh one replaces
   * the open entry under its key, is counted, and is pushed onto focal when within `w`
   * times `fMin`.
   */
  method ExpandConflict(open: map<Key, Comm.OpenNode>, focal: seq<Comm.OpenNode>, closed: set<Comm.OpenNode>,
                        n: Comm.OpenNode, conflict: Comm.Conflict, low: Option<real>,
                        search: Comm.Query -> Option<(Path, nat)>, hash: Comm.OpenNode -> Option<nat>, fMin: nat)
    returns (r: Result<(map<Key, Comm.OpenNode>, seq<Comm.OpenNode>), Panic>,
             child1: Option<Comm.OpenNode>, child2: Option<Comm.OpenNode>, inserted: nat)
    requires Comm.WellFormed(n) && conflict.agent1 < |n.agents| && conflict.agent2 < |n.agents|
    requires Comm.NonEmptyPaths(search)
    ensures r.Ok? <==> low.Some?
    ensures r.Err? ==> r.error == UnwrapNone
    ensures r.Ok? ==>
      CommReplanned(n, conflict, true, low, "ecbs", false, search, child1) &&
      CommReplanned(n, conflict, false, low, "ecbs", false, search, child2) &&
      r.value.0 == Replace(open, Fresh(closed, child1) + Fresh(closed, child2), hash) &&
      r.value.1 == focal + Admitted(closed, child1, fMin, low.value) + Admitted(closed, child2, fMin, low.value) &&
      inserted == |Fresh(closed, child1) + Fresh(closed, child2)|
  {
    child1, child2, inserted := None, None, 0;
    var u1 := Comm.UpdateConstraint(n, conflict, true, low, "ecbs", false, search);
    if u1.Err? {
      return Err(u1.error), child1, child2, inserted;
    }
    child1 := u1.value;
    var u2 := Comm.UpdateConstraint(n, conflict, false, low, "ecbs", false, search);
    if u2.Err? {
      // Both calls dispatch on the same solver.
      assert false;
    }
    child2 := u2.value;
    var o, f, k := InsertChild(open, focal, closed, child1, low.value, hash, fMin);
    var o', f', k' := InsertChild(o, f, closed, child2, low.value, hash, fMin);
    ReplaceAppend(open, Fresh(closed, child1), Fresh(closed, child2), hash);
    r, inserted := Ok((o', f')), k + k';
  }

  /** ecbs.rs:70-86: a fresh child replaces the open entry under its key, is counted, and goes onto focal when within the threshold. */
  method InsertChild(open: map<Key, Comm.OpenNode>, focal: seq<Comm.OpenNode>, closed: set<Comm.OpenNode>,
                     child: Option<Comm.OpenNode>, w: real, hash: Comm.OpenNode -> Option<nat>, fMin: nat)
    returns (o: map<Key, Comm.OpenNode>, f: seq<Comm.OpenNode>, inserted: nat)
    ensures o == Replace(open, Fresh(closed, child), hash)
    ensures f == focal + Admitted(closed, child, fMin, w)
    ensures inserted == |Fresh(closed, child)|
  {
    o, f, inserted := open, focal, 0;
    if child.Some? && !(child.value in closed) {
      o := open[OpenKey(child.value, hash) := child.value];
      inserted := 1;
      if Within(child.value.cost, fMin, w) {
        f := focal + [child.value];
      }
    }
  }

  /**
   * What the expansion of a node has done so far to the lists `open` and `focal`, now `o`
   * and `f`: open stays valid and keeps its keys, an entry that is new or replaced is not
   * closed, focal only grows, and what it gains are fitting nodes, not closed, within `w`
   * times `fMin`.
   */
  ghost predicate Grown(agents: seq<Agent>, open: map<Key, Comm.OpenNode>, focal: seq<Comm.OpenNode>,
                        closed: set<Comm.OpenNode>, o: map<Key, Comm.OpenNode>, f: seq<Comm.OpenNode>,
                        fMin: nat, w: real, hash: Comm.OpenNode -> Option<nat>) {
    OpenOk(agents, o, hash) && FocalOk(agents, f) && open.Keys <= o.Keys &&
    (forall k :: k in o ==> (k in open && o[k] == open[k]) || o[k] !in closed) &&
    |focal| <= |f| && f[..|focal|] == focal &&
    (forall j :: |focal| <= j < |f| ==> f[j] !in closed && Within(f[j].cost, fMin, w))
  }

  lemma GrownNothing(agents: seq<Agent>, open: map<Key, Comm.OpenNode>, focal: seq<Comm.OpenNode>,
                     closed: set<Comm.OpenNode>, fMin: nat, w: real, hash: Comm.OpenNode -> Option<nat>)
    requires OpenOk(agents, open, hash) && FocalOk(agents, focal)
    ensures Grown(agents, open, focal, closed, open, focal, fMin, w, hash)
  {
    assert focal[..|focal|] == focal;
  }

  /** The fitting children of one more conflict keep the lists grown. */
  lemma GrownStep(agents: seq<Agent>, open: map<Key, Comm.OpenNode>, focal: seq<Comm.OpenNode>,
                  closed: set<Comm.OpenNode>, o: map<Key, Comm.OpenNode>, f: seq<Comm.OpenNode>,
                  fMin: nat, w: real, hash: Comm.OpenNode -> Option<nat>,
                  c1: Option<Comm.OpenNode>, c2: Option<Comm.OpenNode>)
    requires Grown(agents, open, focal, closed, o, f, fMin, w, hash)
    requires c1.Some? ==> CommFits(agents, c1.value)
    requires c2.Some? ==> CommFits(agents, c2.value)
    ensures Grown(agents, open, focal, closed, Replace(o, Fresh(closed, c1) + Fresh(closed, c2), hash),
                  f + Admitted(closed, c1, fMin, w) + Admitted(closed, c2, fMin, w), fMin, w, hash)
  {
    FreshFit(agents, closed, c1, c2, fMin, w);
    var xs := Fresh(closed, c1) + Fresh(closed, c2);
    var ys := Admitted(closed, c1, fMin, w) + Admitted(closed, c2, fMin, w);
    ReplaceKeeps(agents, o, closed, xs, hash);
    PushKeeps(agents, f, closed, ys, fMin, w);
    var f' := f + ys;
    assert f' == f + Admitted(closed, c1, fMin, w) + Admitted(closed, c2, fMin, w);
    assert f'[..|focal|] == f'[..|f|][..|focal|];
  }

  /** The fresh children of fitting nodes fit and are not closed; the admitted ones are also within the threshold. */
  lemma FreshFit(agents: seq<Agent>, closed: set<Comm.OpenNode>, c1: Option<Comm.OpenNode>, c2: Option<Comm.OpenNode>,
                 fMin: nat, w: real)
    requires c1.Some? ==> CommFits(agents, c1.value)
    requires c2.Some? ==> CommFits(agents, c2.value)
    ensures forall x :: x in Fresh(closed, c1) + Fresh(closed, c2) ==> CommFits(agents, x) && x !in closed
    ensures forall y :: y in Admitted(closed, c1, fMin, w) + Admitted(closed, c2, fMin, w) ==>
      CommFits(agents, y) && y !in closed && Within(y.cost, fMin, w)
  {
  }

  /** Replacing along fitting nodes that are not closed keeps open valid, keeps its keys, and brings in no closed node. */
  lemma ReplaceKeeps(agents: seq<Agent>, open: map<Key, Comm.OpenNode>, closed: set<Comm.OpenNode>,
                     xs: seq<Comm.OpenNode>, hash: Comm.OpenNode -> Option<nat>)
    requires OpenOk(agents, open, hash)
    requires forall x :: x in xs ==> CommFits(agents, x) && x !in closed
    ensures var o := Replace(open, xs, hash);
      OpenOk(agents, o, hash) && open.Keys <= o.Keys &&
      forall k :: k in o ==> (k in open && o[k] == open[k]) || o[k] !in closed
  {
    ReplaceOk(agents, open, xs, hash);
  }

  /** Pushing fitting nodes that are not closed and are within the threshold keeps focal valid and extends it. */
  lemma PushKeeps(agents: seq<Agent>, focal: seq<Comm.OpenNode>, closed: set<Comm.OpenNode>, ys: seq<Comm.OpenNode>,
                  fMin: nat, w: real)
    requires FocalOk(agents, focal)
    requires forall y :: y in ys ==> CommFits(agents, y) && y !in closed && Within(y.cost, fMin, w)
    ensures var f := focal + ys;
      FocalOk(agents, f) && f[..|focal|] == focal &&
      forall j :: |focal| <= j < |f| ==> f[j] !in closed && Within(f[j].cost, fMin, w)
  {
    var f := focal + ys;
    forall j | 0 <= j < |f| ensures CommFits(agents, f[j]) && (j >= |focal| ==> f[j] !in closed && Within(f[j].cost, fMin, w)) {
      if j >= |focal| {
        assert f[j] == ys[j - |focal|];
      }
    }
    assert f[..|focal|] == focal;
  }

  /** The fresh children of the expanded conflicts, in order: the nodes open receives. */
  function FreshAll(closed: set<Comm.OpenNode>, children: seq<(Option<Comm.OpenNode>, Option<Comm.OpenNode>)>)
    : seq<Comm.OpenNode>
  {
    if children == [] then []
    else
      var last := children[|children| - 1];
      FreshAll(closed, children[..|children| - 1]) + Fresh(closed, last.0) + Fresh(closed, last.1)
  }

  /** The admitted children of the expanded conflicts, in order: the nodes pushed onto focal. */
  function AdmittedAll(closed: set<Comm.OpenNode>, children: seq<(Option<Comm.OpenNode>, Option<Comm.OpenNode>)>,
                       fMin: nat, w: real): seq<Comm.OpenNode>
  {
    if children == [] then []
    else
      var last := children[|children| - 1];
      AdmittedAll(closed, children[..|children| - 1], fMin, w) + Admitted(closed, last.0, fMin, w)
        + Admitted(closed, last.1, fMin, w)
  }

  /** `children` holds, pair by pair, the two replanned children of the first conflicts of `n`. */
  ghost predicate ChildrenOf(n: Comm.OpenNode, low: Option<real>, search: Comm.Query -> Option<(Path, nat)>,
                             children: seq<(Option<Comm.OpenNode>, Option<Comm.OpenNode>)>)
    requires Comm.WellFormed(n) && forall c :: c in n.conflicts ==> c.agent1 < |n.agents| && c.agent2 < |n.agents|
  {
    |children| <= |n.conflicts| &&
    forall i :: 0 <= i < |children| ==>
      CommReplanned(n, n.conflicts[i], true, low, "ecbs", false, search, children[i].0) &&
      CommReplanned(n, n.conflicts[i], false, low, "ecbs", false, search, children[i].1)
  }

  /** The next conflict's replanned children extend the pairs. */
  lemma ChildrenSnoc(n: Comm.OpenNode, low: Option<real>, search: Comm.Query -> Option<(Path, nat)>,
                     children: seq<(Option<Comm.OpenNode>, Option<Comm.OpenNode>)>,
                     c1: Option<Comm.OpenNode>, c2: Option<Comm.OpenNode>)
    requires Comm.WellFormed(n) && forall c :: c in n.conflicts ==> c.agent1 < |n.agents| && c.agent2 < |n.agents|
    requires ChildrenOf(n, low, search, children) && |children| < |n.conflicts|
    requires CommReplanned(n, n.conflicts[|children|], true, low, "ecbs", false, search, c1)
    requires CommReplanned(n, n.conflicts[|children|], false, low, "ecbs", false, search, c2)
    ensures ChildrenOf(n, low, search, children + [(c1, c2)])
  {
    var next := children + [(c1, c2)];
    forall i | 0 <= i < |next|
      ensures CommReplanned(n, n.conflicts[i], true, low, "ecbs", false, search, next[i].0) &&
              CommReplanned(n, n.conflicts[i], false, low, "ecbs", false, search, next[i].1)
    {
      if i < |children| {
        assert next[i] == children[i];
      }
    }
  }

  /**
   * `o`, `f` and `added` are open, focal and the count after expanding the conflicts
   * whose children are `children`.
   */
  ghost predicate Expanded(open: map<Key, Comm.OpenNode>, focal: seq<Comm.OpenNode>, closed: set<Comm.OpenNode>,
                           children: seq<(Option<Comm.OpenNode>, Option<Comm.OpenNode>)>, fMin: nat, w: real,
                           hash: Comm.OpenNode -> Option<nat>, o: map<Key, Comm.OpenNode>, f: seq<Comm.OpenNode>, added: nat)
  {
    o == Replace(open, FreshAll(closed, children), hash) &&
    f == focal + AdmittedAll(closed, children, fMin, w) && added == |FreshAll(closed, children)|
  }

  /** Expanding one more conflict extends the expansion by that conflict's children. */
  lemma ExpandedStep(open: map<Key, Comm.OpenNode>, focal: seq<Comm.OpenNode>, closed: set<Comm.OpenNode>,
                     children: seq<(Option<Comm.OpenNode>, Option<Comm.OpenNode>)>, c1: Option<Comm.OpenNode>,
                     c2: Option<Comm.OpenNode>, fMin: nat, w: real, hash: Comm.OpenNode -> Option<nat>,
                     o: map<Key, Comm.OpenNode>, f: seq<Comm.OpenNode>, added: nat)
    requires Expanded(open, focal, closed, children, fMin, w, hash, o, f, added)
    ensures Expanded(open, focal, closed, children + [(c1, c2)], fMin, w, hash,
                     Replace(o, Fresh(closed, c1) + Fresh(closed, c2), hash),
                     f + Admitted(closed, c1, fMin, w) + Admitted(closed, c2, fMin, w),
                     added + |Fresh(closed, c1) + Fresh(closed, c2)|)
  {
    var xs, ys := FreshAll(closed, children), Fresh(closed, c1) + Fresh(closed, c2);
    AllSnoc(closed, children, c1, c2, fMin, w);
    ReplaceThen(open, o, xs, ys, FreshAll(closed, children + [(c1, c2)]), hash);
    PushThen(focal, f, AdmittedAll(closed, children, fMin, w), Admitted(closed, c1, fMin, w), Admitted(closed, c2, fMin, w));
  }

  /** Pushing `ys` and then `a` and `b` is pushing their concatenation. */
  lemma PushThen(focal: seq<Comm.OpenNode>, f: seq<Comm.OpenNode>, ys: seq<Comm.OpenNode>, a: seq<Comm.OpenNode>,
                 b: seq<Comm.OpenNode>)
    requires f == focal + ys
    ensures f + a + b == focal + (ys + (a + b))
  {
  }

  /** Inserting `xs` and then `ys` is inserting their concatenation `zs`. */
  lemma ReplaceThen(open: map<Key, Comm.OpenNode>, o: map<Key, Comm.OpenNode>, xs: seq<Comm.OpenNode>,
                    ys: seq<Comm.OpenNode>, zs: seq<Comm.OpenNode>, hash: Comm.OpenNode -> Option<nat>)
    requires o == Replace(open, xs, hash) && zs == xs + ys
    ensures Replace(o, ys, hash) == Replace(open, zs, hash)
  {
    ReplaceAppend(open, xs, ys, hash);
  }

  /** One more conflict's children extend both lists by that conflict's lists. */
  lemma AllSnoc(closed: set<Comm.OpenNode>, children: seq<(Option<Comm.OpenNode>, Option<Comm.OpenNode>)>,
                c1: Option<Comm.OpenNode>, c2: Option<Comm.OpenNode>, fMin: nat, w: real)
    ensures FreshAll(closed, children + [(c1, c2)]) == FreshAll(closed, children) + (Fresh(closed, c1) + Fresh(closed, c2))
    ensures AdmittedAll(closed, children + [(c1, c2)], fMin, w)
      == AdmittedAll(closed, children, fMin, w) + (Admitted(closed, c1, fMin, w) + Admitted(closed, c2, fMin, w))
  {
    assert (children + [(c1, c2)])[..|children|] == children;
  }

  /** Expanding the next conflict of `n` keeps the loop's three facts. */
  lemma ConflictExpanded(agents: seq<Agent>, open: map<Key, Comm.OpenNode>, focal: seq<Comm.OpenNode>,
                         closed: set<Comm.OpenNode>, n: Comm.OpenNode, low: Option<real>,
                         search: Comm.Query -> Option<(Path, nat)>, hash: Comm.OpenNode -> Option<nat>, fMin: nat,
                         children: seq<(Option<Comm.OpenNode>, Option<Comm.OpenNode>)>,
                         c1: Option<Comm.OpenNode>, c2: Option<Comm.OpenNode>,
                         o: map<Key, Comm.OpenNode>, f: seq<Comm.OpenNode>, added: nat,
                         o': map<Key, Comm.OpenNode>, f': seq<Comm.OpenNode>, added': nat)
    requires CommFits(agents, n) && low.Some? && |children| < |n.conflicts|
    requires Grown(agents, open, focal, closed, o, f, fMin, low.value, hash)
    requires Expanded(open, focal, closed, children, fMin, low.value, hash, o, f, added)
    requires ChildrenOf(n, low, search, children)
    requires CommReplanned(n, n.conflicts[|children|], true, low, "ecbs", false, search, c1)
    requires CommReplanned(n, n.conflicts[|children|], false, low, "ecbs", false, search, c2)
    requires o' == Replace(o, Fresh(closed, c1) + Fresh(closed, c2), hash)
    requires f' == f + Admitted(closed, c1, fMin, low.value) + Admitted(closed, c2, fMin, low.value)
    requires added' == added + |Fresh(closed, c1) + Fresh(closed, c2)|
    ensures Grown(agents, open, focal, closed, o', f', fMin, low.value, hash)
    ensures Expanded(open, focal, closed, children + [(c1, c2)], fMin, low.value, hash, o', f', added')
    ensures ChildrenOf(n, low, search, children + [(c1, c2)])
  {
    var conflict := n.conflicts[|children|];
    CommChildFits(agents, n, conflict, true, low, "ecbs", false, search, c1);
    CommChildFits(agents, n, conflict, false, low, "ecbs", false, search, c2);
    GrownStep(agents, open, focal, closed, o, f, fMin, low.value, hash, c1, c2);
    ExpandedStep(open, focal, closed, children, c1, c2, fMin, low.value, hash, o, f, added);
    ChildrenSnoc(n, low, search, children, c1, c2);
  }

  /**
   * Every conflict of `n` in turn (ecbs.rs:62-114), each with both children. Without a
   * low-level bound the first conflict panics. With one, `children` holds the two
   * replanned children of each conflict; open receives each fresh one under its key,
   * focal those within the threshold, both in conflict order, and each fresh one is counted.
   */
  method ExpandAll(agents: seq<Agent>, open: map<Key, Comm.OpenNode>, focal: seq<Comm.OpenNode>,
                   closed: set<Comm.OpenNode>, n: Comm.OpenNode, low: Option<real>,
                   search: Comm.Query -> Option<(Path, nat)>, hash: Comm.OpenNode -> Option<nat>, fMin: nat)
    returns (r: Result<(map<Key, Comm.OpenNode>, seq<Comm.OpenNode>), Panic>, added: nat,
             ghost children: seq<(Option<Comm.OpenNode>, Option<Comm.OpenNode>)>)
    requires OpenOk(agents, open, hash) && FocalOk(agents, focal) && CommFits(agents, n)
    requires Comm.NonEmptyPaths(search)
    ensures r.Err? <==> low.None? && |n.conflicts| > 0
    ensures r.Err? ==> r.error == UnwrapNone
    ensures r.Ok? && low.None? ==> r.value == (open, focal)
    ensures r.Ok? && low.Some? ==>
      |children| == |n.conflicts| && ChildrenOf(n, low, search, children) &&
      r.value == (Replace(open, FreshAll(closed, children), hash), focal + AdmittedAll(closed, children, fMin, low.value)) &&
      added == |FreshAll(closed, children)|
    ensures r.Ok? && low.Some? ==> Grown(agents, open, focal, closed, r.value.0, r.value.1, fMin, low.value, hash)
    ensures added <= 2 * |n.conflicts|
  {
    if low.Some? {
      var o, f;
      o, f, added, children := ExpandEach(agents, open, focal, closed, n, low, search, hash, fMin);
      return Ok((o, f)), added, children;
    }
    added, children := 0, [];
    if |n.conflicts| == 0 {
      return Ok((open, focal)), added, children;
    }
    // The first conflict's `update_constraint` unwraps the missing bound.
    var e, _, _, _ := ExpandConflict(open, focal, closed, n, n.conflicts[0], low, search, hash, fMin);
    r := Err(e.error);
  }

  /** The conflicts of `n` expanded in turn under a low-level bound: the loop of ecbs.rs:62-114. */
  method ExpandEach(agents: seq<Agent>, open: map<Key, Comm.OpenNode>, focal: seq<Comm.OpenNode>,
                    closed: set<Comm.OpenNode>, n: Comm.OpenNode, low: Option<real>,
                    search: Comm.Query -> Option<(Path, nat)>, hash: Comm.OpenNode -> Option<nat>, fMin: nat)
    returns (o: map<Key, Comm.OpenNode>, f: seq<Comm.OpenNode>, added: nat,
             ghost children: seq<(Option<Comm.OpenNode>, Option<Comm.OpenNode>)>)
    requires OpenOk(agents, open, hash) && FocalOk(agents, focal) && CommFits(agents, n) && low.Some?
    requires Comm.NonEmptyPaths(search)
    ensures |children| == |n.conflicts| && ChildrenOf(n, low, search, children)
    ensures Expanded(open, focal, closed, children, fMin, low.value, hash, o, f, added)
    ensures Grown(agents, open, focal, closed, o, f, fMin, low.value, hash)
    ensures added <= 2 * |n.conflicts|
  {
    o, f := open, focal;
    added := 0;
    children := [];
    GrownNothing(agents, open, focal, closed, fMin, low.value, hash);
    for i := 0 to |n.conflicts|
      invariant Grown(agents, open, focal, closed, o, f, fMin, low.value, hash)
      invariant added <= 2 * i && |children| == i
      invariant ChildrenOf(n, low, search, children)
      invariant Expanded(open, focal, closed, children, fMin, low.value, hash, o, f, added)
    {
      o, f, added, children := ExpandNext(agents, open, focal, closed, n, low, search, hash, fMin, i, children, o, f, added);
    }
  }

  /** One turn of the loop of ExpandEach: the next conflict of `n` expanded. */
  method ExpandNext(agents: seq<Agent>, open: map<Key, Comm.OpenNode>, focal: seq<Comm.OpenNode>,
                    closed: set<Comm.OpenNode>, n: Comm.OpenNode, low: Option<real>,
                    search: Comm.Query -> Option<(Path, nat)>, hash: Comm.OpenNode -> Option<nat>, fMin: nat, i: nat,
                    ghost children: seq<(Option<Comm.OpenNode>, Option<Comm.OpenNode>)>,
                    o: map<Key, Comm.OpenNode>, f: seq<Comm.OpenNode>, added: nat)
    returns (o': map<Key, Comm.OpenNode>, f': seq<Comm.OpenNode>, added': nat,
             ghost children': seq<(Option<Comm.OpenNode>, Option<Comm.OpenNode>)>)
    requires CommFits(agents, n) && low.Some? && i == |children| < |n.conflicts| && Comm.NonEmptyPaths(search)
    requires Grown(agents, open, focal, closed, o, f, fMin, low.value, hash)
    requires Expanded(open, focal, closed, children, fMin, low.value, hash, o, f, added)
    requires ChildrenOf(n, low, search, children)
    ensures |children'| == |children| + 1 && children'[..|children|] == children && added' <= added + 2
    ensures Grown(agents, open, focal, closed, o', f', fMin, low.value, hash)
    ensures Expanded(open, focal, closed, children', fMin, low.value, hash, o', f', added')
    ensures ChildrenOf(n, low, search, children')
  {
    var e, c1, c2, k := ExpandConflict(o, f, closed, n, n.conflicts[i], low, search, hash, fMin);
    ConflictExpanded(agents, open, focal, closed, n, low, search, hash, fMin, children, c1, c2, o, f, added,
                     e.value.0, e.value.1, added + k);
    o', f', added', children' := e.value.0, e.value.1, added + k, children + [(c1, c2)];
  }

  /**
   * The nodes of open under `keys` whose `f_min` sum lies in (w * low, w * high], in
   * ascending key order, each once: what `open.iter()` visits and the band test keeps.
   */
  function BandOf(open: map<Key, Comm.OpenNode>, keys: set<Key>, low: nat, high: nat, w: real): seq<Comm.OpenNode>
    requires keys <= open.Keys
    decreases |keys|
  {
    if keys == {} then []
    else
      var k := MinKey(keys);
      (if InBand(SumFMins(open[k].fMins), low, high, w) then [open[k]] else []) + BandOf(open, keys - {k}, low, high, w)
  }

  /** The band holds exactly the nodes under `keys` that lie in the band. */
  lemma {:induction false} BandMembers(open: map<Key, Comm.OpenNode>, keys: set<Key>, low: nat, high: nat, w: real)
    requires keys <= open.Keys
    ensures forall x :: x in BandOf(open, keys, low, high, w) ==>
      InBand(SumFMins(x.fMins), low, high, w) && exists k :: k in keys && open[k] == x
    ensures forall k :: k in keys && InBand(SumFMins(open[k].fMins), low, high, w) ==> open[k] in BandOf(open, keys, low, high, w)
    decreases |keys|
  {
    if keys != {} {
      BandMembers(open, keys - {MinKey(keys)}, low, high, w);
    }
  }

  /** The nodes come in strictly ascending order of their open keys. */
  predicate Ascending(b: seq<Comm.OpenNode>, hash: Comm.OpenNode -> Option<nat>)
  {
    forall i, j :: 0 <= i < j < |b| ==> KeyLt(OpenKey(b[i], hash), OpenKey(b[j], hash))
  }

  /**
   * Where every entry sits under its own key, the band comes in strictly ascending key
   * order, so no node is pushed twice.
   */
  lemma {:induction false} BandOrdered(open: map<Key, Comm.OpenNode>, keys: set<Key>, low: nat, high: nat, w: real,
                                       hash: Comm.OpenNode -> Option<nat>)
    requires keys <= open.Keys && forall k :: k in keys ==> OpenKey(open[k], hash) == k
    ensures Ascending(BandOf(open, keys, low, high, w), hash)
    decreases |keys|
  {
    if keys != {} {
      var m := MinKey(keys);
      var rest := BandOf(open, keys - {m}, low, high, w);
      BandOrdered(open, keys - {m}, low, high, w, hash);
      BandMembers(open, keys - {m}, low, high, w);
      if InBand(SumFMins(open[m].fMins), low, high, w) {
        forall y | y in rest ensures KeyLt(m, OpenKey(y, hash)) {
          var k :| k in keys - {m} && open[k] == y;
          CmpKeyEqual(m, k);
        }
        AscendingCons(open[m], rest, hash);
      }
    }
  }

  /** A node below every node of an ascending sequence extends it at the front. */
  lemma AscendingCons(x: Comm.OpenNode, rest: seq<Comm.OpenNode>, hash: Comm.OpenNode -> Option<nat>)
    requires Ascending(rest, hash)
    requires forall y :: y in rest ==> KeyLt(OpenKey(x, hash), OpenKey(y, hash))
    ensures Ascending([x] + rest, hash)
  {
    var b := [x] + rest;
    forall i, j | 0 <= i < j < |b| ensures KeyLt(OpenKey(b[i], hash), OpenKey(b[j], hash)) {
      assert b[j] == rest[j - 1] && b[j] in rest;
      if 0 < i {
        assert b[i] == rest[i - 1];
      }
    }
  }

  /** Ascending keys are distinct keys, so no node occurs twice. */
  lemma AscendingDistinct(b: seq<Comm.OpenNode>, hash: Comm.OpenNode -> Option<nat>)
    requires Ascending(b, hash)
    ensures forall i, j :: 0 <= i < j < |b| ==> b[i] != b[j]
  {
    forall i, j | 0 <= i < j < |b| ensures b[i] != b[j] {
      CmpKeyEqual(OpenKey(b[i], hash), OpenKey(b[j], hash));
    }
  }

  /**
   * The maintenance of ecbs.rs:128-141: every open node whose key's `f_min` sum lies in
   * (w * low, w * high] is pushed onto focal, visiting open in ascending key order.
   */
  method PushBand(open: map<Key, Comm.OpenNode>, focal: seq<Comm.OpenNode>, low: nat, high: nat, w: real)
    returns (r: seq<Comm.OpenNode>)
    ensures r == focal + BandOf(open, open.Keys, low, high, w)
    ensures |focal| <= |r| && r[..|focal|] == focal
    ensures forall i :: |focal| <= i < |r| ==>
      r[i] in open.Values && InBand(SumFMins(r[i].fMins), low, high, w)
    ensures forall k :: k in open && InBand(SumFMins(open[k].fMins), low, high, w) ==> open[k] in r[|focal|..]
  {
    r := focal;
    var keys := open.Keys;
    while keys != {}
      invariant keys <= open.Keys
      invariant r + BandOf(open, keys, low, high, w) == focal + BandOf(open, open.Keys, low, high, w)
      decreases |keys|
    {
      var k := MinKey(keys);
      var n := open[k];
      ghost var head := if InBand(SumFMins(n.fMins), low, high, w) then [n] else [];
      assert BandOf(open, keys, low, high, w) == head + BandOf(open, keys - {k}, low, high, w);
      if InBand(SumFMins(n.fMins), low, high, w) {
        r := r + [n];
      }
      keys := keys - {k};
    }
    assert BandOf(open, keys, low, high, w) == [];
    BandPushed(open, focal, r, low, high, w);
  }

  /** Focal followed by the band keeps focal as a prefix and gains exactly the band's open nodes. */
  lemma BandPushed(open: map<Key, Comm.OpenNode>, focal: seq<Comm.OpenNode>, r: seq<Comm.OpenNode>, low: nat, high: nat,
                   w: real)
    requires r == focal + BandOf(open, open.Keys, low, high, w)
    ensures |focal| <= |r| && r[..|focal|] == focal
    ensures forall i :: |focal| <= i < |r| ==>
      r[i] in open.Values && InBand(SumFMins(r[i].fMins), low, high, w)
    ensures forall k :: k in open && InBand(SumFMins(open[k].fMins), low, high, w) ==> open[k] in r[|focal|..]
  {
    var b := BandOf(open, open.Keys, low, high, w);
    BandMembers(open, open.Keys, low, high, w);
    assert r[|focal|..] == b;
    forall i | |focal| <= i < |r| ensures r[i] in open.Values && InBand(SumFMins(r[i].fMins), low, high, w) {
      assert r[i] == b[i - |focal|] && b[i - |focal|] in b;
    }
  }

  /**
   * ecbs.rs:128-141: when open is non-empty and its least key's `f_min` sum has risen above
   * `fMin`, the band of open nodes above the old threshold and within the new one is pushed
   * onto focal; otherwise focal is unchanged. Focal stays valid.
   */
  method MaintainFocal(ghost agents: seq<Agent>, open: map<Key, Comm.OpenNode>, focal: seq<Comm.OpenNode>,
                       fMin: nat, w: real, ghost hash: Comm.OpenNode -> Option<nat>)
    returns (f: seq<Comm.OpenNode>)
    requires OpenOk(agents, open, hash) && FocalOk(agents, focal)
    ensures FocalOk(agents, f) && |focal| <= |f| && f[..|focal|] == focal
    ensures open == map[] || SumFMins(open[Least(open)].fMins) <= fMin ==> f == focal
    ensures open != map[] && fMin < SumFMins(open[Least(open)].fMins) ==>
      var newFMin := SumFMins(open[Least(open)].fMins);
      f == focal + BandOf(open, open.Keys, fMin, newFMin, w) &&
      (forall i :: |focal| <= i < |f| ==> f[i] in open.Values && InBand(SumFMins(f[i].fMins), fMin, newFMin, w)) &&
      (forall k :: k in open && InBand(SumFMins(open[k].fMins), fMin, newFMin, w) ==> open[k] in f[|focal|..]) &&
      (forall i, j :: |focal| <= i < j < |f| ==> KeyLt(OpenKey(f[i], hash), OpenKey(f[j], hash)) && f[i] != f[j])
  {
    f := focal;
    if open != map[] {
      var newFMin := SumFMins(open[Least(open)].fMins);
      if fMin < newFMin {
        f := PushBand(open, focal, fMin, newFMin, w);
        ghost var b := BandOf(open, open.Keys, fMin, newFMin, w);
        BandOrdered(open, open.Keys, fMin, newFMin, w, hash);
        AscendingDistinct(b, hash);
        forall i, j | |focal| <= i < j < |f| ensures KeyLt(OpenKey(f[i], hash), OpenKey(f[j], hash)) && f[i] != f[j] {
          assert f[i] == b[i - |focal|] && f[j] == b[j - |focal|];
        }
        forall j | 0 <= j < |f| ensures CommFits(agents, f[j]) {
          if j < |focal| {
            assert f[j] == f[..|focal|][j];
          } else {
            var k :| k in open && open[k] == f[j];
            assert OpenAt(agents, open, k, hash);
          }
        }
      }
    }
    assert f[..|focal|] == focal;
  }

  /**
   * ecbs.rs:53-59: `focal.pop()` takes the element `pick` names, and its key is removed
   * from open. The heap loses exactly that element, and both lists stay valid.
   */
  method PopFocal(ghost agents: seq<Agent>, open: map<Key, Comm.OpenNode>, focal: seq<Comm.OpenNode>,
                  pick: seq<Comm.OpenNode> -> nat, hash: Comm.OpenNode -> Option<nat>)
    returns (cur: Comm.OpenNode, open': map<Key, Comm.OpenNode>, focal': seq<Comm.OpenNode>)
    requires Picks(pick) && focal != [] && OpenOk(agents, open, hash) && FocalOk(agents, focal)
    ensures cur == focal[pick(focal)] && multiset(focal') + multiset{cur} == multiset(focal)
    ensures open' == open - {OpenKey(cur, hash)}
    ensures CommFits(agents, cur) && OpenOk(agents, open', hash) && FocalOk(agents, focal')
  {
    var i := pick(focal);
    cur := focal[i];
    focal' := focal[..i] + focal[i + 1..];
    FocalDrop(agents, focal, i);
    open' := open - {OpenKey(cur, hash)};
    OpenDrop(agents, open, OpenKey(cur, hash), hash);
  }

  /** Removing the element at `i` from a valid heap leaves a valid heap without it. */
  lemma FocalDrop(agents: seq<Agent>, focal: seq<Comm.OpenNode>, i: nat)
    requires FocalOk(agents, focal) && i < |focal|
    ensures CommFits(agents, focal[i]) && FocalOk(agents, focal[..i] + focal[i + 1..])
    ensures multiset(focal[..i] + focal[i + 1..]) + multiset{focal[i]} == multiset(focal)
  {
    var rest := focal[..i] + focal[i + 1..];
    assert focal == focal[..i] + [focal[i]] + focal[i + 1..];
    forall j | 0 <= j < |rest| ensures CommFits(agents, rest[j]) {
      assert rest[j] == if j < i then focal[j] else focal[j + 1];
    }
  }

  /** Removing a key from a valid open set leaves it valid. */
  lemma OpenDrop(agents: seq<Agent>, open: map<Key, Comm.OpenNode>, key: Key, hash: Comm.OpenNode -> Option<nat>)
    requires OpenOk(agents, open, hash)
    ensures OpenOk(agents, open - {key}, hash)
  {
    forall k | k in open - {key} ensures OpenAt(agents, open - {key}, k, hash) {
      assert OpenAt(agents, open, k, hash);
    }
  }

  /**
   * `ECBS::solve`. A returned solution has one collision-free path per agent and `costs` is
   * its sum of path costs. Every node popped is closed first. The only panic is a missing
   * low-level bound, since every `unwrap` of it follows a replanning that dispatched on it,
   * and an instance whose ids are indices panics only then.
   */
  method Solve(agents: seq<Agent>, subOptimal: (Option<real>, Option<real>),
               search: Comm.Query -> Option<(Path, nat)>, hash: Comm.OpenNode -> Option<nat>,
               pick: seq<Comm.OpenNode> -> nat, fuel: nat)
    returns (r: Ending<Option<seq<Path>>>, expandNodes: nat, costs: nat, closed: set<Comm.OpenNode>)
    requires Comm.NonEmptyPaths(search) && Picks(pick)
    ensures r.Panics? ==> !IdsAreIndices(agents) || (|agents| > 0 && subOptimal.1.None? && r.panic == UnwrapNone)
    ensures IdsAreIndices(agents) && subOptimal.1.Some? ==> !r.Panics?
    ensures |agents| > 0 && subOptimal.1.None? ==> r == Panics(UnwrapNone)
    ensures r.Returns? && r.value.Some? ==>
      |r.value.value| == |agents| && CollisionFree(agents, r.value.value) && costs == SumOfCosts(r.value.value)
    ensures |closed| <= fuel + 1
  {
    expandNodes, costs, closed := 0, 0, {};
    var low := subOptimal.1;
    var root := Comm.New(agents, low, "ecbs", search);
    if root.Err? {
      return Panics(root.error), expandNodes, costs, closed;
    }
    if root.value.None? {
      return Returns(None), expandNodes, costs, closed;
    }
    CommDetectedFits(agents, root.value.value);
    var open := map[OpenKey(root.value.value, hash) := root.value.value];
    var focal := [root.value.value];
    var steps := 0;
    while steps < fuel
      invariant OpenOk(agents, open, hash) && FocalOk(agents, focal)
      invariant steps <= fuel && |closed| <= steps
      invariant |agents| > 0 ==> low.Some?
    {
      if focal == [] {
        return Returns(None), expandNodes, costs, closed;
      }
      var cur;
      cur, open, focal := PopFocal(agents, open, focal, pick, hash);
      var fMin := SumFMins(cur.fMins);
      closed := closed + {cur};
      if cur.conflicts == [] {
        return Returns(Some(cur.paths)), expandNodes, cur.cost, closed;
      }
      assert cur.conflicts[0].agent1 < |agents|;
      var e, added;
      ghost var children;
      e, added, children := ExpandAll(agents, open, focal, closed, cur, low, search, hash, fMin);
      if e.Err? {
        // A conflict names an agent, so the root's searches dispatched on the bound.
        assert false;
      }
      open, focal := e.value.0, e.value.1;
      expandNodes := expandNodes + added;
      focal := MaintainFocal(agents, open, focal, fMin, low.value, hash);
      steps := steps + 1;
    }
    r := OutOfFuel;
  }
}
