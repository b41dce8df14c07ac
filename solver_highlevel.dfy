/**
 * What the high-level solvers of src/solver share: the choice of the conflict to resolve,
 * what a conflict-free node guarantees about its paths, the invariant every node put into
 * an open or focal list keeps, what `pop_first` of a key-ordered list finds, and the focal
 * list's admission threshold and band.
 *
 * Each solver's `solve` loops until a list empties; the models bound the number of
 * iterations by `fuel`. Every `f64` comparison `cost as f64 <= f_min as f64 * w` is taken
 * over the reals, with the product written `AF.Scale(f_min, w)`.
 */
module SolverHighLevel {
  import opened Wrappers
  import opened Ordering
  import opened Common
  import Config
  import CHL = CommonHighLevel
  import Comm = CommHighLevel
  import AF = AlgorithmAStarFocal

  // ---------------------------------------------------------------------------
  // Choosing the conflict

  /** The order in which `op_prioritize_conflicts` looks for a cardinal type. */
  function Rank(t: CHL.CardinalType): nat {
    match t
    case Cardinal => 0
    case SemiCardinal => 1
    case NonCardinal => 2
    case Unknown => 3
  }

  /** `conflicts.iter().find(|c| c.cardinal_type == t)`, as an index. */
  function FindFirst(cs: seq<CHL.Conflict>, t: CHL.CardinalType): (r: Option<nat>)
    ensures r.Some? ==> r.value < |cs| && cs[r.value].cardinalType == t
    ensures r.Some? ==> forall j :: 0 <= j < r.value ==> cs[j].cardinalType != t
    ensures r.None? ==> forall j :: 0 <= j < |cs| ==> cs[j].cardinalType != t
  {
    if cs == [] then None
    else if cs[0].cardinalType == t then Some(0)
    else
      match FindFirst(cs[1..], t)
      case None => None
      case Some(i) => Some(i + 1)
  }

  /**
   * The index of the conflict cbs and acbs resolve: with prioritisation the first Cardinal,
   * else the first SemiCardinal, else the first NonCardinal, else the first conflict; without
   * it the first conflict. So a prioritised choice is the first conflict of the least rank.
   */
  function ChooseConflict(cs: seq<CHL.Conflict>, prioritize: bool): (r: Option<nat>)
    ensures r.None? <==> cs == []
    ensures r.Some? ==> r.value < |cs|
    ensures !prioritize && cs != [] ==> r == Some(0)
    ensures prioritize && r.Some? ==>
      (forall j :: 0 <= j < |cs| ==> Rank(cs[r.value].cardinalType) <= Rank(cs[j].cardinalType)) &&
      (forall j :: 0 <= j < r.value ==> Rank(cs[r.value].cardinalType) < Rank(cs[j].cardinalType))
  {
    if cs == [] then None
    else if !prioritize then Some(0)
    else
      match FindFirst(cs, CHL.Cardinal)
      case Some(i) => Some(i)
      case None =>
        match FindFirst(cs, CHL.SemiCardinal)
        case Some(i) => Some(i)
        case None =>
          match FindFirst(cs, CHL.NonCardinal)
          case Some(i) => Some(i)
          case None => Some(0)
  }

  // ---------------------------------------------------------------------------
  // Collision freedom

  /** The longer of two path lengths: the steps `detect_conflicts` compares. */
  function Longer(p: Path, q: Path): nat { if |p| >= |q| then |p| else |q| }

  /**
   * No two of the first `|agents|` paths stand on one cell at a step from 1 until the longer
   * of the two has ended (a finished agent waits on its last cell), and no two swap cells
   * between consecutive steps.
   */
  predicate CollisionFree(agents: seq<Agent>, paths: seq<Path>) {
    |paths| >= |agents| && (forall k :: 0 <= k < |agents| ==> |paths[k]| > 0) &&
    (forall i, j, t :: 0 <= i < j < |agents| && 1 <= t < Longer(paths[i], paths[j]) ==>
       PaddedAt(paths[i], t) != PaddedAt(paths[j], t)) &&
    (forall i, j, t :: 0 <= i < j < |agents| && 1 <= t < |paths[i]| && t < |paths[j]| ==>
       !(paths[i][t - 1] == paths[j][t] && paths[j][t - 1] == paths[i][t]))
  }

  lemma SharedCellDetected(n: CHL.OpenNode, i: nat, j: nat, t: nat, isSingleton: (Mdd, nat, Cell) -> bool)
    requires CHL.ConflictsDefined(n) && i < j < |n.agents| && 1 <= t < Longer(n.paths[i], n.paths[j])
    ensures PaddedAt(n.paths[i], t) == PaddedAt(n.paths[j], t) ==> CHL.Conflicts(n, isSingleton) != []
  {
    if PaddedAt(n.paths[i], t) == PaddedAt(n.paths[j], t) {
      CHL.SharedCellReported(n, i, j, t, isSingleton);
    }
  }

  lemma SwapDetected(n: CHL.OpenNode, i: nat, j: nat, t: nat, isSingleton: (Mdd, nat, Cell) -> bool)
    requires CHL.ConflictsDefined(n) && i < j < |n.agents| && 1 <= t < |n.paths[i]| && t < |n.paths[j]|
    ensures n.paths[i][t - 1] == n.paths[j][t] && n.paths[j][t - 1] == n.paths[i][t] ==>
      CHL.Conflicts(n, isSingleton) != []
  {
    if n.paths[i][t - 1] == n.paths[j][t] && n.paths[j][t - 1] == n.paths[i][t] {
      CHL.SwapReported(n, i, j, t, isSingleton);
    }
  }

  /** When `detect_conflicts` finds nothing, the paths are collision free. */
  lemma NoConflictsCollisionFree(n: CHL.OpenNode, isSingleton: (Mdd, nat, Cell) -> bool)
    requires CHL.ConflictsDefined(n) && CHL.Conflicts(n, isSingleton) == []
    ensures CollisionFree(n.agents, n.paths)
  {
    forall i, j, t | 0 <= i < j < |n.agents| && 1 <= t < Longer(n.paths[i], n.paths[j])
      ensures PaddedAt(n.paths[i], t) != PaddedAt(n.paths[j], t)
    {
      SharedCellDetected(n, i, j, t, isSingleton);
    }
    forall i, j, t | 0 <= i < j < |n.agents| && 1 <= t < |n.paths[i]| && t < |n.paths[j]|
      ensures !(n.paths[i][t - 1] == n.paths[j][t] && n.paths[j][t - 1] == n.paths[i][t])
    {
      SwapDetected(n, i, j, t, isSingleton);
    }
  }

  lemma CommSharedCellDetected(n: Comm.OpenNode, i: nat, j: nat, t: nat)
    requires Comm.ConflictsDefined(n) && i < j < |n.agents| && 1 <= t < Longer(n.paths[i], n.paths[j])
    ensures PaddedAt(n.paths[i], t) == PaddedAt(n.paths[j], t) ==> Comm.Conflicts(n) != []
  {
    if PaddedAt(n.paths[i], t) == PaddedAt(n.paths[j], t) {
      Comm.SharedCellReported(n, i, j, t);
    }
  }

  lemma CommSwapDetected(n: Comm.OpenNode, i: nat, j: nat, t: nat)
    requires Comm.ConflictsDefined(n) && i < j < |n.agents| && 1 <= t < |n.paths[i]| && t < |n.paths[j]|
    ensures n.paths[i][t - 1] == n.paths[j][t] && n.paths[j][t - 1] == n.paths[i][t] ==> Comm.Conflicts(n) != []
  {
    if n.paths[i][t - 1] == n.paths[j][t] && n.paths[j][t - 1] == n.paths[i][t] {
      Comm.SwapReported(n, i, j, t);
    }
  }

  /** The same for the detector of src/solver/comm. */
  lemma CommNoConflictsCollisionFree(n: Comm.OpenNode)
    requires Comm.ConflictsDefined(n) && Comm.Conflicts(n) == []
    ensures CollisionFree(n.agents, n.paths)
  {
    forall i, j, t | 0 <= i < j < |n.agents| && 1 <= t < Longer(n.paths[i], n.paths[j])
      ensures PaddedAt(n.paths[i], t) != PaddedAt(n.paths[j], t)
    {
      CommSharedCellDetected(n, i, j, t);
    }
    forall i, j, t | 0 <= i < j < |n.agents| && 1 <= t < |n.paths[i]| && t < |n.paths[j]|
      ensures !(n.paths[i][t - 1] == n.paths[j][t] && n.paths[j][t - 1] == n.paths[i][t])
    {
      CommSwapDetected(n, i, j, t);
    }
  }

  // ---------------------------------------------------------------------------
  // The node invariant

  /**
   * What every node a solver puts into a list keeps: its agents are the instance's, it has
   * a path and a slot per agent and at least the cost of its paths, every conflict names two
   * of its agents, and an empty conflict list means collision-free paths.
   */
  ghost predicate Fits(agents: seq<Agent>, n: CHL.OpenNode) {
    n.agents == agents && CHL.Costed(n) &&
    (forall c :: c in n.conflicts ==> c.agent1 < |agents| && c.agent2 < |agents|) &&
    (n.conflicts == [] ==> CollisionFree(agents, n.paths))
  }

  /** A node carrying the conflicts detected on its own paths fits. */
  lemma DetectedFits(agents: seq<Agent>, n: CHL.OpenNode, isSingleton: (Mdd, nat, Cell) -> bool)
    requires n.agents == agents && CHL.Costed(n) && n.conflicts == CHL.Conflicts(n, isSingleton)
    ensures Fits(agents, n)
  {
    CHL.ConflictsSound(n, isSingleton);
    if n.conflicts == [] {
      NoConflictsCollisionFree(n, isSingleton);
    }
  }

  ghost predicate CommFits(agents: seq<Agent>, n: Comm.OpenNode) {
    n.agents == agents && Comm.WellFormed(n) &&
    (forall c :: c in n.conflicts ==> c.agent1 < |agents| && c.agent2 < |agents|) &&
    (n.conflicts == [] ==> CollisionFree(agents, n.paths))
  }

  lemma CommDetectedFits(agents: seq<Agent>, n: Comm.OpenNode)
    requires n.agents == agents && Comm.WellFormed(n) && n.conflicts == Comm.Conflicts(n)
    ensures CommFits(agents, n)
  {
    forall c | c in n.conflicts ensures c.agent1 < |agents| && c.agent2 < |agents| {
      Comm.ConflictsSound(n, c);
    }
    if n.conflicts == [] {
      CommNoConflictsCollisionFree(n);
    }
  }

  /** Every entry of an open list sits under its own key and fits; `exact` adds a cost equal to the paths'. */
  ghost predicate OpenOk(agents: seq<Agent>, open: map<Key, CHL.OpenNode>, exact: bool) {
    forall k :: k in open ==> OpenAt(agents, open, k, exact)
  }

  ghost predicate OpenAt(agents: seq<Agent>, open: map<Key, CHL.OpenNode>, k: Key, exact: bool)
    requires k in open
  {
    k == CHL.OpenKey(open[k]) && Fits(agents, open[k]) && (exact ==> CHL.WellFormed(open[k]))
  }

  /** Every entry of a focal list sits under its own key and is the focal view of a fitting node. */
  ghost predicate FocalOk(agents: seq<Agent>, focal: map<Key, CHL.FocalNode>, exact: bool) {
    forall k :: k in focal ==> FocalAt(agents, focal, k, exact)
  }

  ghost predicate FocalAt(agents: seq<Agent>, focal: map<Key, CHL.FocalNode>, k: Key, exact: bool)
    requires k in focal
  {
    k == CHL.FocalKey(focal[k]) && ViewOk(agents, focal[k], exact)
  }

  /** `y` is the focal view of a fitting node; `exact` adds a cost equal to the paths'. */
  ghost predicate ViewOk(agents: seq<Agent>, y: CHL.FocalNode, exact: bool) {
    var n := CHL.ToOpenNode(y);
    y == CHL.ToFocalNode(n) && Fits(agents, n) && (exact ==> CHL.WellFormed(n))
  }

  lemma ViewFits(agents: seq<Agent>, c: CHL.OpenNode, exact: bool)
    requires Fits(agents, c) && (exact ==> CHL.WellFormed(c))
    ensures ViewOk(agents, CHL.ToFocalNode(c), exact) && CHL.ToOpenNode(CHL.ToFocalNode(c)) == c
  {
    CHL.OpenFocalRoundTrip(c);
  }

  ghost predicate CommOpenOk(agents: seq<Agent>, open: map<Key, Comm.OpenNode>) {
    forall k :: k in open ==> CommOpenAt(agents, open, k)
  }

  ghost predicate CommOpenAt(agents: seq<Agent>, open: map<Key, Comm.OpenNode>, k: Key)
    requires k in open
  {
    k == Comm.OpenKey(open[k]) && CommFits(agents, open[k])
  }

  ghost predicate CommFocalOk(agents: seq<Agent>, focal: map<Key, Comm.FocalNode>) {
    forall k :: k in focal ==> CommFocalAt(agents, focal, k)
  }

  ghost predicate CommFocalAt(agents: seq<Agent>, focal: map<Key, Comm.FocalNode>, k: Key)
    requires k in focal
  {
    var n := Comm.ToOpenNode(focal[k]);
    k == Comm.FocalKey(focal[k]) && focal[k] == Comm.ToFocalNode(n) && CommFits(agents, n)
  }

  /** The child `update_constraint` returned, if any, as a list. */
  function Existing(c: Option<CHL.OpenNode>): seq<CHL.OpenNode> {
    if c.Some? then [c.value] else []
  }

  ghost predicate ChildShaped(n: CHL.OpenNode, c: Option<CHL.OpenNode>) {
    c.Some? ==> CHL.Shaped(c.value) && |c.value.agents| == |n.agents|
  }

  /** The panic `update_constraint` and `new` raise for a solver they do not dispatch. */
  function DispatchPanic(solver: string): Panic {
    if CHL.FocalSolver(solver) then UnwrapNone else Unreachable
  }

  /** `c` is what `update_constraint` returns for one side of `conflict`: a child exactly when the replanning search finds a path. */
  ghost predicate Replanned(n: CHL.OpenNode, conflict: CHL.Conflict, resolveFirst: bool, config: Config.Config,
                            search: CHL.Query -> SearchResult, isSingleton: (Mdd, nat, Cell) -> bool,
                            c: Option<CHL.OpenNode>)
    requires CHL.Shaped(n) && CHL.Chosen(conflict, resolveFirst) < |n.agents|
  {
    (c.None? <==> CHL.ChildFound(n, conflict, resolveFirst, config, search).None?) &&
    (c.Some? ==> CHL.IsChild(n, c.value, conflict, resolveFirst, config.opTargetReasoning,
                             CHL.ChildFound(n, conflict, resolveFirst, config, search).value, isSingleton))
  }

  /** A child of a fitting node fits, and is well formed when its parent is. */
  lemma ChildFits(agents: seq<Agent>, n: CHL.OpenNode, conflict: CHL.Conflict, resolveFirst: bool, config: Config.Config,
                  search: CHL.Query -> SearchResult, isSingleton: (Mdd, nat, Cell) -> bool, c: Option<CHL.OpenNode>)
    requires Fits(agents, n) && CHL.Chosen(conflict, resolveFirst) < |n.agents|
    requires Replanned(n, conflict, resolveFirst, config, search, isSingleton, c)
    ensures c.Some? ==> Fits(agents, c.value) && (CHL.WellFormed(n) ==> CHL.WellFormed(c.value))
  {
    if c.Some? {
      DetectedFits(agents, c.value, isSingleton);
    }
  }

  /** The bypass node built from child `c` of `n` replanning agent `a` fits, is well formed, and is `c` under `n`'s constraints. */
  ghost predicate BypassOk(agents: seq<Agent>, n: CHL.OpenNode, c: CHL.OpenNode, a: nat)
    requires a < |n.paths| && a < |n.mdds| && a < |n.fMins| && a < |c.paths| && a < |c.mdds| && a < |c.fMins|
  {
    var b := CHL.UpdateBypassNode(n, c, a);
    Fits(agents, b) && CHL.WellFormed(b) &&
    b == c.(constraints := n.constraints, pathLengthConstraints := n.pathLengthConstraints)
  }

  /**
   * The bypass node `update_bypass_node` builds from a child of a well-formed node fits, is
   * well formed, and is that child under the parent's constraints.
   */
  lemma BypassFits(agents: seq<Agent>, n: CHL.OpenNode, conflict: CHL.Conflict, resolveFirst: bool, config: Config.Config,
                   search: CHL.Query -> SearchResult, isSingleton: (Mdd, nat, Cell) -> bool, c: Option<CHL.OpenNode>)
    requires Fits(agents, n) && CHL.WellFormed(n) && CHL.Chosen(conflict, resolveFirst) < |n.agents|
    requires Replanned(n, conflict, resolveFirst, config, search, isSingleton, c) && c.Some?
    ensures BypassOk(agents, n, c.value, CHL.Chosen(conflict, resolveFirst))
  {
    var a := CHL.Chosen(conflict, resolveFirst);
    CHL.BypassIsChildWithParentConstraints(n, c.value, conflict, resolveFirst, config.opTargetReasoning,
                                           CHL.ChildFound(n, conflict, resolveFirst, config, search).value, isSingleton);
    DetectedFits(agents, CHL.UpdateBypassNode(n, c.value, a), isSingleton);
  }

  // ---------------------------------------------------------------------------
  // Inserting into and popping from key-ordered lists

  /**
   * `r` is `m` after `BTreeSet::insert` of every element of `xs`: old entries are kept, every
   * element's key is present, and every new entry is one of `xs` under its own key.
   */
  ghost predicate Extends<T>(m: map<Key, T>, r: map<Key, T>, xs: seq<T>, key: T -> Key) {
    m.Keys <= r.Keys && (forall k :: k in m ==> r[k] == m[k]) &&
    (forall x :: x in xs ==> key(x) in r) &&
    (forall k :: k in r && k !in m ==> k == key(r[k]) && r[k] in xs)
  }

  lemma ExtendsInsert<T>(m: map<Key, T>, x: T, key: T -> Key)
    ensures Extends(m, Insert(m, key(x), x), [x], key)
  {
  }

  lemma ExtendsNothing<T>(m: map<Key, T>, key: T -> Key)
    ensures Extends(m, m, [], key)
  {
  }

  lemma ExtendsChain<T>(m: map<Key, T>, r1: map<Key, T>, r2: map<Key, T>, xs: seq<T>, ys: seq<T>, key: T -> Key)
    requires Extends(m, r1, xs, key) && Extends(r1, r2, ys, key)
    ensures Extends(m, r2, xs + ys, key)
  {
  }

  /** `insert(x)`, recording `x` among the elements inserted since `m0`. */
  method Put<T>(ghost m0: map<Key, T>, m: map<Key, T>, ghost xs: seq<T>, key: T -> Key, x: T)
    returns (m': map<Key, T>, ghost xs': seq<T>)
    requires Extends(m0, m, xs, key)
    ensures m' == Insert(m, key(x), x) && xs' == xs + [x] && Extends(m0, m', xs', key)
  {
    m' := Insert(m, key(x), x);
    xs' := xs + [x];
    ExtendsInsert(m, x, key);
    ExtendsChain(m0, m, m', xs, [x], key);
  }

  /** Inserting fitting nodes keeps an open list's invariant. */
  lemma ExtendsOpenOk(agents: seq<Agent>, open: map<Key, CHL.OpenNode>, r: map<Key, CHL.OpenNode>,
                      xs: seq<CHL.OpenNode>, exact: bool)
    requires OpenOk(agents, open, exact) && Extends(open, r, xs, CHL.OpenKey)
    requires forall x :: x in xs ==> Fits(agents, x) && (exact ==> CHL.WellFormed(x))
    ensures OpenOk(agents, r, exact)
  {
    forall j | j in r ensures OpenAt(agents, r, j, exact) {
      if j in open {
        assert OpenAt(agents, open, j, exact);
      } else {
        assert r[j] in xs;
      }
    }
  }

  /** Inserting the focal views of fitting nodes keeps a focal list's invariant. */
  lemma ExtendsFocalOk(agents: seq<Agent>, focal: map<Key, CHL.FocalNode>, r: map<Key, CHL.FocalNode>,
                       xs: seq<CHL.FocalNode>, exact: bool)
    requires FocalOk(agents, focal, exact) && Extends(focal, r, xs, CHL.FocalKey)
    requires forall x :: x in xs ==> ViewOk(agents, x, exact)
    ensures FocalOk(agents, r, exact)
  {
    forall j | j in r ensures FocalAt(agents, r, j, exact) {
      if j in focal {
        assert FocalAt(agents, focal, j, exact);
      } else {
        assert r[j] in xs;
      }
    }
  }

  lemma CommExtendsOpenOk(agents: seq<Agent>, open: map<Key, Comm.OpenNode>, r: map<Key, Comm.OpenNode>,
                          xs: seq<Comm.OpenNode>)
    requires CommOpenOk(agents, open) && Extends(open, r, xs, Comm.OpenKey)
    requires forall x :: x in xs ==> CommFits(agents, x)
    ensures CommOpenOk(agents, r)
  {
    forall j | j in r ensures CommOpenAt(agents, r, j) {
      if j in open {
        assert CommOpenAt(agents, open, j);
      } else {
        assert r[j] in xs;
      }
    }
  }

  lemma CommExtendsFocalOk(agents: seq<Agent>, focal: map<Key, Comm.FocalNode>, r: map<Key, Comm.FocalNode>,
                           xs: seq<Comm.FocalNode>)
    requires CommFocalOk(agents, focal) && Extends(focal, r, xs, Comm.FocalKey)
    requires forall x :: x in xs ==> x == Comm.ToFocalNode(Comm.ToOpenNode(x)) && CommFits(agents, Comm.ToOpenNode(x))
    ensures CommFocalOk(agents, r)
  {
    forall j | j in r ensures CommFocalAt(agents, r, j) {
      if j in focal {
        assert CommFocalAt(agents, focal, j);
      } else {
        assert r[j] in xs;
      }
    }
  }

  /** Every focal entry's node is still in open under its open key (so `open.first()` finds something). */
  ghost predicate Backed(focal: map<Key, CHL.FocalNode>, open: map<Key, CHL.OpenNode>) {
    forall k :: k in focal ==> CHL.OpenKey(CHL.ToOpenNode(focal[k])) in open
  }

  /** Nodes with one open key have one focal key. */
  lemma FocalKeyOfOpenKey(a: CHL.OpenNode, b: CHL.OpenNode)
    ensures CHL.OpenKey(a) == CHL.OpenKey(b) ==> CHL.FocalKey(CHL.ToFocalNode(a)) == CHL.FocalKey(CHL.ToFocalNode(b))
  {
    CmpKeyEqual(CHL.OpenKey(a), CHL.OpenKey(b));
    CHL.OpenOrderEqual(a, b);
  }

  /**
   * Popping the least focal node and removing its node from open leaves every other focal
   * entry backed.
   */
  lemma PopKeepsBacked(agents: seq<Agent>, focal: map<Key, CHL.FocalNode>, open: map<Key, CHL.OpenNode>,
                       kf: Key, exact: bool)
    requires FocalOk(agents, focal, exact) && Backed(focal, open) && kf in focal
    ensures Backed(focal - {kf}, open - {CHL.OpenKey(CHL.ToOpenNode(focal[kf]))})
  {
    var cur := CHL.ToOpenNode(focal[kf]);
    forall k | k in focal - {kf}
      ensures CHL.OpenKey(CHL.ToOpenNode(focal[k])) in open - {CHL.OpenKey(cur)}
    {
      assert FocalAt(agents, focal, k, exact) && FocalAt(agents, focal, kf, exact);
      FocalKeyOfOpenKey(CHL.ToOpenNode(focal[k]), cur);
    }
  }

  /** Inserting into both lists keeps focal backed when every focal insertion's node has its key among the open insertions. */
  lemma ExtendsKeepsBacked(focal: map<Key, CHL.FocalNode>, open: map<Key, CHL.OpenNode>,
                           f: map<Key, CHL.FocalNode>, o: map<Key, CHL.OpenNode>,
                           ys: seq<CHL.FocalNode>, xs: seq<CHL.OpenNode>)
    requires Backed(focal, open) && Extends(open, o, xs, CHL.OpenKey) && Extends(focal, f, ys, CHL.FocalKey)
    requires forall y :: y in ys ==> exists x :: x in xs && CHL.OpenKey(x) == CHL.OpenKey(CHL.ToOpenNode(y))
    ensures Backed(f, o)
  {
    forall k | k in f ensures CHL.OpenKey(CHL.ToOpenNode(f[k])) in o {
      if k !in focal {
        var x :| x in xs && CHL.OpenKey(x) == CHL.OpenKey(CHL.ToOpenNode(f[k]));
      }
    }
  }

  /** `open.insert(root)` and `focal.insert(root.to_focal_node())` into empty lists. */
  method InitLists(agents: seq<Agent>, root: CHL.OpenNode, exact: bool)
    returns (open: map<Key, CHL.OpenNode>, focal: map<Key, CHL.FocalNode>)
    requires Fits(agents, root) && (exact ==> CHL.WellFormed(root))
    ensures open == map[CHL.OpenKey(root) := root]
    ensures focal == map[CHL.FocalKey(CHL.ToFocalNode(root)) := CHL.ToFocalNode(root)]
    ensures OpenOk(agents, open, exact) && FocalOk(agents, focal, exact) && Backed(focal, open)
  {
    CHL.OpenFocalRoundTrip(root);
    open := map[CHL.OpenKey(root) := root];
    focal := map[CHL.FocalKey(CHL.ToFocalNode(root)) := CHL.ToFocalNode(root)];
    assert OpenAt(agents, open, CHL.OpenKey(root), exact);
    assert FocalAt(agents, focal, CHL.FocalKey(CHL.ToFocalNode(root)), exact);
  }

  /**
   * The start of an iteration of the focal solvers: `focal.pop_first()`, then `open.first()`
   * (`first`, which finds a node whenever focal is backed by open), then `open.remove` of
   * the popped node.
   */
  method PopFocal(agents: seq<Agent>, open: map<Key, CHL.OpenNode>, focal: map<Key, CHL.FocalNode>, exact: bool)
    returns (cur: CHL.OpenNode, first: Option<CHL.OpenNode>, open': map<Key, CHL.OpenNode>,
             focal': map<Key, CHL.FocalNode>)
    requires focal != map[] && OpenOk(agents, open, exact) && FocalOk(agents, focal, exact)
    ensures cur == CHL.ToOpenNode(focal[Least(focal)]) && focal[Least(focal)] == CHL.ToFocalNode(cur)
    ensures Fits(agents, cur) && (exact ==> CHL.WellFormed(cur))
    ensures first.None? <==> open == map[]
    ensures first.Some? ==> open != map[] && first.value == open[Least(open)]
    ensures open' == open - {CHL.OpenKey(cur)} && focal' == focal - {Least(focal)}
    ensures OpenOk(agents, open', exact) && FocalOk(agents, focal', exact)
    ensures Backed(focal, open) ==> first.Some? && Backed(focal', open')
  {
    var kf := Least(focal);
    cur := CHL.ToOpenNode(focal[kf]);
    assert FocalAt(agents, focal, kf, exact);
    first := if open == map[] then None else Some(open[Least(open)]);
    if Backed(focal, open) {
      assert CHL.OpenKey(cur) in open;
      PopKeepsBacked(agents, focal, open, kf, exact);
    }
    focal' := focal - {kf};
    open' := open - {CHL.OpenKey(cur)};
    forall k | k in open' ensures OpenAt(agents, open', k, exact) {
      assert OpenAt(agents, open, k, exact);
    }
    forall k | k in focal' ensures FocalAt(agents, focal', k, exact) {
      assert FocalAt(agents, focal, k, exact);
    }
  }

  /** A child's focal view when its cost is within `w` times `fMin`. */
  function Admitted(c: Option<CHL.OpenNode>, fMin: nat, w: real): seq<CHL.FocalNode> {
    if c.Some? && Within(c.value.cost, fMin, w) then [CHL.ToFocalNode(c.value)] else []
  }

  /** The focal band of `ExtendFocal` over a valid open list keeps the focal list valid, and backed if it was. */
  lemma BandKeepsFocal(agents: seq<Agent>, open: map<Key, CHL.OpenNode>, focal: map<Key, CHL.FocalNode>,
                       r: map<Key, CHL.FocalNode>, low: nat, high: nat, w: real, exact: bool)
    requires OpenOk(agents, open, exact) && FocalOk(agents, focal, exact)
    requires focal.Keys <= r.Keys && forall k :: k in focal ==> r[k] == focal[k]
    requires forall k :: k in r && k !in focal ==>
      k == CHL.FocalKey(r[k]) && exists j :: j in open && r[k] == CHL.ToFocalNode(open[j]) && InBand(open[j].cost, low, high, w)
    ensures FocalOk(agents, r, exact)
    ensures Backed(focal, open) ==> Backed(r, open)
  {
    forall k | k in r
      ensures FocalAt(agents, r, k, exact) && (k !in focal ==> CHL.OpenKey(CHL.ToOpenNode(r[k])) in open)
    {
      if k in focal {
        assert FocalAt(agents, focal, k, exact);
      } else {
        var j :| j in open && r[k] == CHL.ToFocalNode(open[j]) && InBand(open[j].cost, low, high, w);
        assert OpenAt(agents, open, j, exact);
        CHL.OpenFocalRoundTrip(open[j]);
      }
    }
  }

  /** The node `pop_first` takes from a cost-first open list has the least cost in it. */
  lemma LeastOpenCost(open: map<Key, CHL.OpenNode>)
    requires open != map[] && forall k :: k in open ==> k == CHL.OpenKey(open[k])
    ensures forall k :: k in open ==> open[Least(open)].cost <= open[k].cost
  {
    var m := Least(open);
    forall k | k in open ensures open[m].cost <= open[k].cost {
      KeyOrderCost(open[m], open[k]);
    }
  }

  lemma KeyOrderCost(a: CHL.OpenNode, b: CHL.OpenNode)
    ensures KeyLe(CHL.OpenKey(a), CHL.OpenKey(b)) ==> a.cost <= b.cost
  {
    if b.cost < a.cost {
      CHL.OpenOrderCostFirst(b, a);
      CmpKeyAntisym(CHL.OpenKey(a), CHL.OpenKey(b));
    }
  }

  /** The node `pop_first` takes from a focal list has the fewest conflicts, and the least cost among those. */
  lemma LeastFocalFirst(focal: map<Key, CHL.FocalNode>)
    requires focal != map[] && forall k :: k in focal ==> k == CHL.FocalKey(focal[k])
    ensures var f := focal[Least(focal)];
      forall k :: k in focal ==>
        f.focal <= focal[k].focal && (f.focal == focal[k].focal ==> f.cost <= focal[k].cost)
  {
    var m := Least(focal);
    forall k | k in focal
      ensures focal[m].focal <= focal[k].focal && (focal[m].focal == focal[k].focal ==> focal[m].cost <= focal[k].cost)
    {
      KeyOrderFocal(focal[m], focal[k]);
    }
  }

  lemma KeyOrderFocal(a: CHL.FocalNode, b: CHL.FocalNode)
    ensures KeyLe(CHL.FocalKey(a), CHL.FocalKey(b)) ==>
      a.focal <= b.focal && (a.focal == b.focal ==> a.cost <= b.cost)
  {
    CHL.FocalOrderFocalFirst(b, a);
    CmpKeyAntisym(CHL.FocalKey(a), CHL.FocalKey(b));
  }

  lemma CommLeastOpenCost(open: map<Key, Comm.OpenNode>)
    requires open != map[] && forall k :: k in open ==> k == Comm.OpenKey(open[k])
    ensures forall k :: k in open ==> open[Least(open)].cost <= open[k].cost
  {
    var m := Least(open);
    forall k | k in open ensures open[m].cost <= open[k].cost {
      CommKeyOrderCost(open[m], open[k]);
    }
  }

  lemma CommKeyOrderCost(a: Comm.OpenNode, b: Comm.OpenNode)
    ensures KeyLe(Comm.OpenKey(a), Comm.OpenKey(b)) ==> a.cost <= b.cost
  {
    if b.cost < a.cost {
      Comm.OpenOrderCostFirst(b, a);
      CmpKeyAntisym(Comm.OpenKey(a), Comm.OpenKey(b));
    }
  }

  lemma CommLeastFocalFirst(focal: map<Key, Comm.FocalNode>)
    requires focal != map[] && forall k :: k in focal ==> k == Comm.FocalKey(focal[k])
    ensures var f := focal[Least(focal)];
      forall k :: k in focal ==>
        f.focal <= focal[k].focal && (f.focal == focal[k].focal ==> f.cost <= focal[k].cost)
  {
    var m := Least(focal);
    forall k | k in focal
      ensures focal[m].focal <= focal[k].focal && (focal[m].focal == focal[k].focal ==> focal[m].cost <= focal[k].cost)
    {
      CommKeyOrderFocal(focal[m], focal[k]);
    }
  }

  lemma CommKeyOrderFocal(a: Comm.FocalNode, b: Comm.FocalNode)
    ensures KeyLe(Comm.FocalKey(a), Comm.FocalKey(b)) ==>
      a.focal <= b.focal && (a.focal == b.focal ==> a.cost <= b.cost)
  {
    Comm.FocalOrderFocalFirst(b, a);
    CmpKeyAntisym(Comm.FocalKey(a), Comm.FocalKey(b));
  }

  // ---------------------------------------------------------------------------
  // The focal threshold and band

  /** `low_level_f_min_agents.iter().sum()`. */
  function SumFMins(fs: seq<nat>): nat {
    if fs == [] then 0 else SumFMins(fs[..|fs| - 1]) + fs[|fs| - 1]
  }

  /** `cost as f64 <= f_min as f64 * w`. */
  predicate Within(cost: nat, fMin: nat, w: real) {
    cost as real <= AF.Scale(fMin, w)
  }

  /** `cost as f64 > w * low as f64 && cost as f64 <= w * high as f64`. */
  predicate InBand(cost: nat, low: nat, high: nat, w: real) {
    AF.Scale(low, w) < cost as real <= AF.Scale(high, w)
  }

  /** A node within the old threshold never lies in the band above it. */
  lemma WithinNotInBand(cost: nat, low: nat, high: nat, w: real)
    ensures Within(cost, low, w) ==> !InBand(cost, low, high, w)
  {
  }

  /** For `w >= 0` the bands of a rising minimum are consecutive: within the old threshold or in the band is within the new one. */
  lemma BandJoins(cost: nat, low: nat, high: nat, w: real)
    requires w >= 0.0 && low <= high
    ensures Within(cost, low, w) || InBand(cost, low, high, w) <==> Within(cost, high, w)
  {
    AF.ScaleMonotone(low, high, w);
  }

  /**
   * The maintenance at the end of an iteration of the focal solvers: every open node whose
   * cost lies in (w * low, w * high] is inserted into focal, visiting open in ascending order.
   */
  method ExtendFocal<N, F>(open: map<Key, N>, focal: map<Key, F>, cost: N -> nat, view: N -> F, key: F -> Key,
                           low: nat, high: nat, w: real)
    returns (r: map<Key, F>)
    ensures focal.Keys <= r.Keys && forall k :: k in focal ==> r[k] == focal[k]
    ensures forall k :: k in r && k !in focal ==>
      k == key(r[k]) && exists j :: j in open && r[k] == view(open[j]) && InBand(cost(open[j]), low, high, w)
    ensures forall j :: j in open && InBand(cost(open[j]), low, high, w) ==> key(view(open[j])) in r
  {
    r := focal;
    var keys := open.Keys;
    while keys != {}
      invariant keys <= open.Keys && focal.Keys <= r.Keys
      invariant forall k :: k in focal ==> r[k] == focal[k]
      invariant forall k :: k in r && k !in focal ==>
        k == key(r[k]) && exists j :: j in open && r[k] == view(open[j]) && InBand(cost(open[j]), low, high, w)
      invariant forall j :: j in open && j !in keys && InBand(cost(open[j]), low, high, w) ==> key(view(open[j])) in r
      decreases |keys|
    {
      var j := MinKey(keys);
      var n := open[j];
      if InBand(cost(n), low, high, w) {
        r := Insert(r, key(view(n)), view(n));
      }
      keys := keys - {j};
    }
  }

  // ---------------------------------------------------------------------------
  // The same for the nodes of src/solver/comm/highlevel.rs

  /** The child `update_constraint` returned, if any, as a list. */
  function CommExisting(c: Option<Comm.OpenNode>): seq<Comm.OpenNode> {
    if c.Some? then [c.value] else []
  }

  /** `c` is what `update_constraint` returns for one side of `conflict`: a child exactly when the replanning search finds a path. */
  ghost predicate CommReplanned(n: Comm.OpenNode, conflict: Comm.Conflict, resolveFirst: bool, lowSubOptimal: Option<real>,
                                solver: string, opTr: bool, search: Comm.Query -> Option<(Path, nat)>,
                                c: Option<Comm.OpenNode>)
    requires Comm.WellFormed(n) && Comm.Chosen(conflict, resolveFirst) < |n.agents|
  {
    var found := Comm.ChildFound(n, conflict, resolveFirst, lowSubOptimal, solver, opTr, search);
    (c.None? <==> found.None?) &&
    (c.Some? ==> Comm.IsChild(n, c.value, conflict, resolveFirst, opTr, found.value))
  }

  /** A child of a fitting node fits. */
  lemma CommChildFits(agents: seq<Agent>, n: Comm.OpenNode, conflict: Comm.Conflict, resolveFirst: bool,
                      lowSubOptimal: Option<real>, solver: string, opTr: bool,
                      search: Comm.Query -> Option<(Path, nat)>, c: Option<Comm.OpenNode>)
    requires CommFits(agents, n) && Comm.Chosen(conflict, resolveFirst) < |n.agents|
    requires CommReplanned(n, conflict, resolveFirst, lowSubOptimal, solver, opTr, search, c)
    ensures c.Some? ==> CommFits(agents, c.value) && c.value.agents == n.agents
  {
    if c.Some? {
      CommDetectedFits(agents, c.value);
    }
  }

  /** A child's focal view when its cost is within `w` times `fMin`. */
  function CommAdmitted(c: Option<Comm.OpenNode>, fMin: nat, w: real): seq<Comm.FocalNode> {
    if c.Some? && Within(c.value.cost, fMin, w) then [Comm.ToFocalNode(c.value)] else []
  }

  /** Every focal entry's node is still in open under its open key. */
  ghost predicate CommBacked(focal: map<Key, Comm.FocalNode>, open: map<Key, Comm.OpenNode>) {
    forall k :: k in focal ==> Comm.OpenKey(Comm.ToOpenNode(focal[k])) in open
  }

  lemma CommFocalKeyOfOpenKey(a: Comm.OpenNode, b: Comm.OpenNode)
    ensures Comm.OpenKey(a) == Comm.OpenKey(b) ==>
      Comm.FocalKey(Comm.ToFocalNode(a)) == Comm.FocalKey(Comm.ToFocalNode(b))
  {
    CmpKeyEqual(Comm.OpenKey(a), Comm.OpenKey(b));
    Comm.OpenOrderEqual(a, b);
  }

  lemma CommPopKeepsBacked(agents: seq<Agent>, focal: map<Key, Comm.FocalNode>, open: map<Key, Comm.OpenNode>, kf: Key)
    requires CommFocalOk(agents, focal) && CommBacked(focal, open) && kf in focal
    ensures CommBacked(focal - {kf}, open - {Comm.OpenKey(Comm.ToOpenNode(focal[kf]))})
  {
    var cur := Comm.ToOpenNode(focal[kf]);
    forall k | k in focal - {kf}
      ensures Comm.OpenKey(Comm.ToOpenNode(focal[k])) in open - {Comm.OpenKey(cur)}
    {
      assert CommFocalAt(agents, focal, k) && CommFocalAt(agents, focal, kf);
      CommFocalKeyOfOpenKey(Comm.ToOpenNode(focal[k]), cur);
    }
  }

  lemma CommExtendsKeepsBacked(focal: map<Key, Comm.FocalNode>, open: map<Key, Comm.OpenNode>,
                               f: map<Key, Comm.FocalNode>, o: map<Key, Comm.OpenNode>,
                               ys: seq<Comm.FocalNode>, xs: seq<Comm.OpenNode>)
    requires CommBacked(focal, open) && Extends(open, o, xs, Comm.OpenKey) && Extends(focal, f, ys, Comm.FocalKey)
    requires forall y :: y in ys ==> Comm.ToOpenNode(y) in xs
    ensures CommBacked(f, o)
  {
    forall k | k in f ensures Comm.OpenKey(Comm.ToOpenNode(f[k])) in o {
      if k !in focal {
        assert Comm.ToOpenNode(f[k]) in xs;
      }
    }
  }

  /** `open.insert(root)` and `focal.insert(root.to_focal_node())` into empty lists. */
  method CommInitLists(agents: seq<Agent>, root: Comm.OpenNode)
    returns (open: map<Key, Comm.OpenNode>, focal: map<Key, Comm.FocalNode>)
    requires CommFits(agents, root)
    ensures open == map[Comm.OpenKey(root) := root]
    ensures focal == map[Comm.FocalKey(Comm.ToFocalNode(root)) := Comm.ToFocalNode(root)]
    ensures CommOpenOk(agents, open) && CommFocalOk(agents, focal) && CommBacked(focal, open)
  {
    Comm.OpenFocalRoundTrip(root);
    open := map[Comm.OpenKey(root) := root];
    focal := map[Comm.FocalKey(Comm.ToFocalNode(root)) := Comm.ToFocalNode(root)];
    assert CommOpenAt(agents, open, Comm.OpenKey(root));
    assert CommFocalAt(agents, focal, Comm.FocalKey(Comm.ToFocalNode(root)));
  }

  /** `focal.pop_first()`, then `open.first()`, then `open.remove` of the popped node. */
  method CommPopFocal(agents: seq<Agent>, open: map<Key, Comm.OpenNode>, focal: map<Key, Comm.FocalNode>)
    returns (cur: Comm.OpenNode, first: Option<Comm.OpenNode>, open': map<Key, Comm.OpenNode>,
             focal': map<Key, Comm.FocalNode>)
    requires focal != map[] && CommOpenOk(agents, open) && CommFocalOk(agents, focal)
    ensures cur == Comm.ToOpenNode(focal[Least(focal)]) && focal[Least(focal)] == Comm.ToFocalNode(cur)
    ensures CommFits(agents, cur)
    ensures first.None? <==> open == map[]
    ensures first.Some? ==> open != map[] && first.value == open[Least(open)]
    ensures open' == open - {Comm.OpenKey(cur)} && focal' == focal - {Least(focal)}
    ensures CommOpenOk(agents, open') && CommFocalOk(agents, focal')
    ensures CommBacked(focal, open) ==> first.Some? && CommBacked(focal', open')
  {
    var kf := Least(focal);
    cur := Comm.ToOpenNode(focal[kf]);
    assert CommFocalAt(agents, focal, kf);
    first := if open == map[] then None else Some(open[Least(open)]);
    if CommBacked(focal, open) {
      assert Comm.OpenKey(cur) in open;
      CommPopKeepsBacked(agents, focal, open, kf);
    }
    focal' := focal - {kf};
    open' := open - {Comm.OpenKey(cur)};
    forall k | k in open' ensures CommOpenAt(agents, open', k) {
      assert CommOpenAt(agents, open, k);
    }
    forall k | k in focal' ensures CommFocalAt(agents, focal', k) {
      assert CommFocalAt(agents, focal, k);
    }
  }

  /** The focal band of `ExtendFocal` over a valid open list keeps the focal list valid, and backed if it was. */
  lemma CommBandKeepsFocal(agents: seq<Agent>, open: map<Key, Comm.OpenNode>, focal: map<Key, Comm.FocalNode>,
                           r: map<Key, Comm.FocalNode>, low: nat, high: nat, w: real)
    requires CommOpenOk(agents, open) && CommFocalOk(agents, focal)
    requires focal.Keys <= r.Keys && forall k :: k in focal ==> r[k] == focal[k]
    requires forall k :: k in r && k !in focal ==>
      k == Comm.FocalKey(r[k]) && exists j :: j in open && r[k] == Comm.ToFocalNode(open[j]) && InBand(open[j].cost, low, high, w)
    ensures CommFocalOk(agents, r)
    ensures CommBacked(focal, open) ==> CommBacked(r, open)
  {
    forall k | k in r
      ensures CommFocalAt(agents, r, k) && (k !in focal ==> Comm.OpenKey(Comm.ToOpenNode(r[k])) in open)
    {
      if k in focal {
        assert CommFocalAt(agents, focal, k);
      } else {
        var j :| j in open && r[k] == Comm.ToFocalNode(open[j]) && InBand(open[j].cost, low, high, w);
        assert CommOpenAt(agents, open, j);
        Comm.OpenFocalRoundTrip(open[j]);
      }
    }
  }
}
