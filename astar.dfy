/**
 * The stand-alone A* search over the map's neighbour lists, with the Manhattan distance as
 * heuristic. This search looks tiles up as `grid[p.1][p.0]`, with the coordinates in the
 * opposite order from the map's own `grid[x][y]`.
 */
module AStar {
  import opened Wrappers
  import opened Ordering
  import opened Common
  import GridMap
  import Algorithm

  type Tile = GridMap.Tile

  datatype Node = Node(position: Cell, fCost: nat, gCost: nat)

  /** `Ord for Node`: f costs compared in reverse, ties broken by the g costs in reverse. */
  function Cmp(a: Node, b: Node): Ordering {
    Then(CmpNat(b.fCost, a.fCost), CmpNat(b.gCost, a.gCost))
  }

  /**
   * A node ranks greater when its f cost is smaller, or its g cost is smaller at equal f, so
   * the max-heap pops the lowest f first; nodes equal in both costs compare Equal whatever
   * their positions.
   */
  lemma CmpReversed(a: Node, b: Node)
    ensures Cmp(a, b) == Greater <==> a.fCost < b.fCost || (a.fCost == b.fCost && a.gCost < b.gCost)
    ensures Cmp(a, b) == Equal <==> a.fCost == b.fCost && a.gCost == b.gCost
    ensures Cmp(a, b) == Reverse(Cmp(b, a))
  {
  }

  // ---------------------------------------------------------------------------
  // heuristic
  // ---------------------------------------------------------------------------

  function AbsDiff(a: nat, b: nat): nat {
    if a < b then b - a else a - b
  }

  /** `heuristic`: the Manhattan distance, the coordinate differences taken as `isize::abs`. */
  function Heuristic(a: Cell, b: Cell): nat {
    AbsDiff(a.0, b.0) + AbsDiff(a.1, b.1)
  }

  lemma HeuristicSymmetric(a: Cell, b: Cell)
    ensures Heuristic(a, b) == Heuristic(b, a)
  {
  }

  lemma HeuristicZeroIff(a: Cell, b: Cell)
    ensures Heuristic(a, b) == 0 <==> a == b
  {
  }

  /** The distance obeys the triangle inequality, so it never overestimates a chain of moves. */
  lemma HeuristicTriangle(a: Cell, b: Cell, c: Cell)
    ensures Heuristic(a, c) <= Heuristic(a, b) + Heuristic(b, c)
  {
  }

  // ---------------------------------------------------------------------------
  // Tiles and walks as this search sees them
  // ---------------------------------------------------------------------------

  /** `map.grid[p.1][p.0]`, or `None` where that indexing is out of range. */
  function TileOf(grid: seq<seq<Tile>>, p: Cell): Option<Tile> {
    if p.1 < |grid| && p.0 < |grid[p.1]| then Some(grid[p.1][p.0]) else None
  }

  /** A move the search can take: `b` is listed by `a`'s tile, and `b`'s tile exists and is passable. */
  predicate Step(grid: seq<seq<Tile>>, a: Cell, b: Cell) {
    TileOf(grid, a).Some? && b in TileOf(grid, a).value.neighbors
    && TileOf(grid, b).Some? && TileOf(grid, b).value.passable
  }

  predicate StepAt(grid: seq<seq<Tile>>, w: seq<Cell>, j: nat)
    requires 0 < j < |w|
  {
    Step(grid, w[j - 1], w[j])
  }

  ghost predicate IsWalk(grid: seq<seq<Tile>>, w: seq<Cell>) {
    |w| > 0 && forall j :: 0 < j < |w| ==> StepAt(grid, w, j)
  }

  // ---------------------------------------------------------------------------
  // construct_path
  // ---------------------------------------------------------------------------

  /**
   * `construct_path`: the cells met following `came_from` back from `current`, reversed so
   * the path runs start first.
   */
  method ConstructPath(cameFrom: map<Cell, Cell>, current: Cell, ghost rank: Cell -> nat) returns (path: Path)
    requires Algorithm.Ranked(cameFrom, rank)
    ensures path == Algorithm.Chain(cameFrom, current, rank)
  {
    var cur := current;
    ghost var walked: seq<Cell> := [];
    path := [cur];
    while cur in cameFrom
      invariant path == walked + [cur]
      invariant Algorithm.Chain(cameFrom, current, rank) == Algorithm.Chain(cameFrom, cur, rank) + Algorithm.Reversed(walked)
      decreases rank(cur)
    {
      var next := cameFrom[cur];
      assert Algorithm.Chain(cameFrom, cur, rank) == Algorithm.Chain(cameFrom, next, rank) + [cur];
      assert Algorithm.Reversed(walked + [cur]) == [cur] + Algorithm.Reversed(walked);
      walked := walked + [cur];
      path := path + [next];
      cur := next;
    }
    assert Algorithm.Reversed(path) == [cur] + Algorithm.Reversed(walked);
    path := Algorithm.Reversed(path);
  }

  // ---------------------------------------------------------------------------
  // a_star_search
  // ---------------------------------------------------------------------------

  /** The search's maps and open set: `g_cost`, `came_from` and the binary heap's nodes. */
  datatype Search = Search(g: map<Cell, nat>, cameFrom: map<Cell, Cell>, heap: seq<Node>)

  /** `g_cost.get(&c).unwrap_or(&usize::MAX)`. */
  function Val(g: map<Cell, nat>, c: Cell): nat {
    if c in g then g[c] else UsizeMax
  }

  function Positions(heap: seq<Node>): set<Cell> {
    set k | 0 <= k < |heap| :: heap[k].position
  }

  /** Every cell the search can ever record: the start and every cell some tile lists. */
  ghost function Universe(grid: seq<seq<Tile>>, start: Cell): set<Cell> {
    {start} + set i, j, k | 0 <= i < |grid| && 0 <= j < |grid[i]| && 0 <= k < |grid[i][j].neighbors| :: grid[i][j].neighbors[k]
  }

  /** The (cell, value) pairs below the recorded costs of the universe: it shrinks whenever a cost drops. */
  ghost function PendingPairs(u: set<Cell>, g: map<Cell, nat>): set<(Cell, nat)> {
    set c, v | c in u && 0 <= v < Val(g, c) :: (c, v)
  }

  /** The trace entry of `c` points at a recorded cell of smaller cost that can step to `c`. */
  predicate LinkOk(grid: seq<seq<Tile>>, g: map<Cell, nat>, cameFrom: map<Cell, Cell>, c: Cell)
    requires c in cameFrom
  {
    c in g && cameFrom[c] in g && g[cameFrom[c]] < g[c] && Step(grid, cameFrom[c], c)
  }

  /**
   * The start is recorded at cost 0 without a trace entry; every other recorded cell has a
   * trace entry; recorded costs stay below `usize::MAX`.
   */
  ghost predicate TraceOk(grid: seq<seq<Tile>>, start: Cell, g: map<Cell, nat>, cameFrom: map<Cell, Cell>) {
    start in g && g[start] == 0 && start !in cameFrom
    && (forall c :: c in g ==> g[c] < UsizeMax)
    && (forall c :: c in g && c != start ==> c in cameFrom)
    && (forall c :: c in cameFrom ==> LinkOk(grid, g, cameFrom, c))
  }

  /** The lookup of `n` succeeds, and a passable `n` is recorded at most one above `c`. */
  predicate NeighborOk(grid: seq<seq<Tile>>, g: map<Cell, nat>, c: Cell, n: Cell)
    requires c in g
  {
    TileOf(grid, n).Some? && (TileOf(grid, n).value.passable ==> Val(g, n) <= g[c] + 1)
  }

  /** A recorded cell whose every listed neighbour is `NeighborOk`. */
  ghost predicate Relaxed(grid: seq<seq<Tile>>, g: map<Cell, nat>, c: Cell) {
    c in g && TileOf(grid, c).Some?
    && var ns := TileOf(grid, c).value.neighbors;
    forall k :: 0 <= k < |ns| ==> NeighborOk(grid, g, c, ns[k])
  }

  /** A recorded cell other than `except` is still in the open set, or is relaxed. */
  ghost predicate SettledAt(grid: seq<seq<Tile>>, s: Search, except: Option<Cell>, c: Cell) {
    c in s.g && Some(c) != except ==> c in Positions(s.heap) || Relaxed(grid, s.g, c)
  }

  /**
   * The invariant of the search loop, with `except` the cell being expanded (if any): the
   * trace is consistent, the open set holds only recorded cells, every other recorded cell is
   * open or relaxed, and a recorded goal is open.
   */
  ghost predicate Inv(grid: seq<seq<Tile>>, start: Cell, goal: Cell, u: set<Cell>, s: Search, except: Option<Cell>) {
    TraceOk(grid, start, s.g, s.cameFrom)
    && (forall c :: c in s.g ==> c in u)
    && (forall k :: 0 <= k < |s.heap| ==> s.heap[k].position in s.g)
    && (forall c :: SettledAt(grid, s, except, c))
    && (goal in s.g ==> goal in Positions(s.heap))
  }

  /** The position of the node `BinaryHeap::pop` returns: one no other node ranks above. */
  method PopIndex(heap: seq<Node>) returns (i: nat)
    requires |heap| > 0
    ensures i < |heap| && forall k :: 0 <= k < |heap| ==> Cmp(heap[k], heap[i]) != Greater
  {
    i := 0;
    var k := 1;
    while k < |heap|
      invariant i < k <= |heap|
      invariant forall j :: 0 <= j < k ==> Cmp(heap[j], heap[i]) != Greater
    {
      if Cmp(heap[k], heap[i]) == Greater {
        i := k;
      }
      k := k + 1;
    }
  }

  /**
   * `a_star_search`. A returned path is a walk from `start` to `goal` over the neighbour
   * lists; the search reports no path only if no walk from `start` reaches `goal` in fewer
   * than `usize::MAX` moves; a tile lookup out of range panics.
   */
  method AStarSearch(grid: seq<seq<Tile>>, start: Cell, goal: Cell) returns (r: Result<Option<Path>, Panic>)
    ensures r.Err? ==> r.error == IndexOutOfBounds
    ensures r.Ok? && r.value.Some? ==>
      var p := r.value.value;
      IsWalk(grid, p) && p[0] == start && p[|p| - 1] == goal
    ensures r == Ok(None) ==>
      forall w :: IsWalk(grid, w) && w[0] == start && |w| <= UsizeMax ==> w[|w| - 1] != goal
    ensures start == goal ==> r == Ok(Some([start]))
  {
    ghost var u := Universe(grid, start);
    var s := Search(map[start := 0], map[], [Node(start, Heuristic(start, goal), 0)]);
    assert Positions(s.heap) == {start} by {
      assert s.heap[0].position == start;
    }
    while |s.heap| > 0
      invariant Inv(grid, start, goal, u, s, None)
      invariant start == goal ==> s.cameFrom == map[] && |s.heap| == 1 && s.heap[0].position == start
      decreases PendingPairs(u, s.g), |s.heap|
    {
      var i := PopIndex(s.heap);
      var current := s.heap[i];
      var rest := s.heap[..i] + s.heap[i + 1..];
      if current.position == goal {
        ghost var g := s.g;
        ghost var rank := (c: Cell) => Val(g, c);
        ChainIsWalk(grid, start, s.g, s.cameFrom, goal, rank);
        var path := ConstructPath(s.cameFrom, current.position, rank);
        return Ok(Some(path));
      }
      PopKeeps(grid, start, goal, u, s, i);
      var next := Expand(grid, start, goal, u, Search(s.g, s.cameFrom, rest), current.position);
      if next.Err? {
        return Err(next.error);
      }
      s := next.value;
    }
    NoWalkToGoal(grid, start, goal, u, s);
    return Ok(None);
  }

  /** Every lookup the expansion of `cur` performs is in range. */
  predicate Lookups(grid: seq<seq<Tile>>, cur: Cell) {
    TileOf(grid, cur).Some?
    && var ns := TileOf(grid, cur).value.neighbors;
    forall k :: 0 <= k < |ns| ==> TileOf(grid, ns[k]).Some?
  }

  /** `c` has the same trace entry, or the same lack of one, in both maps. */
  predicate TraceKept(a: map<Cell, Cell>, b: map<Cell, Cell>, c: Cell) {
    (c in a <==> c in b) && (c in a ==> a[c] == b[c])
  }

  /**
   * The invariant of the neighbour loop of `cur`'s expansion after `j` neighbours, starting
   * from `s0`: the search invariant with `cur` exempt, `cur`'s cost `gc` unchanged, those
   * neighbours already within one of it, costs only dropped, a trace entry changed only
   * where the cost dropped, and any change shrinking the pending pairs.
   */
  ghost predicate ExpandInv(grid: seq<seq<Tile>>, start: Cell, goal: Cell, u: set<Cell>, s0: Search, cur: Cell, gc: nat, j: nat, t: Search)
    requires TileOf(grid, cur).Some?
  {
    j <= |TileOf(grid, cur).value.neighbors|
    && cur in t.g && t.g[cur] == gc
    && Inv(grid, start, goal, u, t, Some(cur))
    && PrefixOk(grid, t.g, cur, j)
    && Since(u, s0, t)
  }

  /** The first `j` neighbours of the recorded cell `cur` are `NeighborOk`. */
  ghost predicate PrefixOk(grid: seq<seq<Tile>>, g: map<Cell, nat>, cur: Cell, j: nat)
    requires TileOf(grid, cur).Some? && cur in g
  {
    var ns := TileOf(grid, cur).value.neighbors;
    j <= |ns| && forall k :: 0 <= k < j ==> NeighborOk(grid, g, cur, ns[k])
  }

  /** From `s0` to `t` costs only dropped, trace entries changed only where they did, and any change shrank the pending pairs. */
  ghost predicate Since(u: set<Cell>, s0: Search, t: Search) {
    (forall c :: Val(t.g, c) <= Val(s0.g, c))
    && (forall c :: Val(t.g, c) == Val(s0.g, c) ==> TraceKept(s0.cameFrom, t.cameFrom, c))
    && (t == s0 || PendingPairs(u, t.g) < PendingPairs(u, s0.g))
  }

  /**
   * The body of the search loop for a popped cell `cur` other than the goal: for each listed
   * neighbour, skip it when impassable, otherwise record it, its trace entry and a new open
   * node when `g_cost[cur] + 1` is strictly below its recorded cost. A lookup out of range
   * panics; a cell whose cost did not drop keeps its trace entry.
   */
  method Expand(grid: seq<seq<Tile>>, ghost start: Cell, goal: Cell, ghost u: set<Cell>, s: Search, cur: Cell)
    returns (r: Result<Search, Panic>)
    requires u == Universe(grid, start) && Inv(grid, start, goal, u, s, Some(cur)) && cur in s.g && cur != goal
    ensures r.Err? <==> !Lookups(grid, cur)
    ensures r.Err? ==> r.error == IndexOutOfBounds
    ensures r.Ok? ==> Inv(grid, start, goal, u, r.value, None)
    ensures r.Ok? ==> forall c :: Val(r.value.g, c) <= Val(s.g, c)
    ensures r.Ok? ==> forall c :: Val(r.value.g, c) == Val(s.g, c) ==> TraceKept(s.cameFrom, r.value.cameFrom, c)
    ensures r.Ok? ==> r.value == s || PendingPairs(u, r.value.g) < PendingPairs(u, s.g)
  {
    if !(cur.1 < |grid| && cur.0 < |grid[cur.1]|) {
      return Err(IndexOutOfBounds);
    }
    var ns := grid[cur.1][cur.0].neighbors;
    var gc := s.g[cur];
    var t := s;
    var j := 0;
    while j < |ns|
      invariant ExpandInv(grid, start, goal, u, s, cur, gc, j, t)
      invariant forall k :: 0 <= k < j ==> TileOf(grid, ns[k]).Some?
    {
      var n := ns[j];
      if !(n.1 < |grid| && n.0 < |grid[n.1]|) {
        return Err(IndexOutOfBounds);
      }
      VisitKeeps(grid, start, goal, u, s, cur, gc, j, t);
      t := Visit(grid, goal, cur, gc, j, t);
      j := j + 1;
    }
    ExpandDone(grid, start, goal, u, s, cur, gc, t);
    return Ok(t);
  }

  /** One pass of the neighbour loop, for the `j`-th neighbour `n` of `cur`. */
  method Visit(grid: seq<seq<Tile>>, goal: Cell, cur: Cell, gc: nat, j: nat, t: Search) returns (t': Search)
    requires TileOf(grid, cur).Some? && cur in t.g && t.g[cur] == gc
    requires j < |TileOf(grid, cur).value.neighbors| && TileOf(grid, TileOf(grid, cur).value.neighbors[j]).Some?
    ensures t' == Visited(grid, goal, cur, gc, j, t)
  {
    var n := grid[cur.1][cur.0].neighbors[j];
    if !grid[n.1][n.0].passable {
      return t;
    }
    var tentative := t.g[cur] + 1;
    if tentative < Val(t.g, n) {
      t' := Search(t.g[n := tentative], t.cameFrom[n := cur], t.heap + [Node(n, tentative + Heuristic(n, goal), tentative)]);
    } else {
      t' := t;
    }
  }

  /**
   * The search after the `j`-th neighbour `n` of `cur`: when `n` is passable and `gc + 1` is below
   * its recorded cost, `n` is recorded at `gc + 1`, traced to `cur` and pushed with that cost plus
   * its heuristic; otherwise nothing changes.
   */
  function Visited(grid: seq<seq<Tile>>, goal: Cell, cur: Cell, gc: nat, j: nat, t: Search): Search
    requires TileOf(grid, cur).Some? && j < |TileOf(grid, cur).value.neighbors|
    requires TileOf(grid, TileOf(grid, cur).value.neighbors[j]).Some?
  {
    var n := TileOf(grid, cur).value.neighbors[j];
    if TileOf(grid, n).value.passable && gc + 1 < Val(t.g, n)
    then Search(t.g[n := gc + 1], t.cameFrom[n := cur], t.heap + [Node(n, gc + 1 + Heuristic(n, goal), gc + 1)])
    else t
  }

  /** A pass of the neighbour loop keeps the loop invariant for the next neighbour. */
  lemma VisitKeeps(grid: seq<seq<Tile>>, start: Cell, goal: Cell, u: set<Cell>, s0: Search, cur: Cell, gc: nat, j: nat, t: Search)
    requires u == Universe(grid, start) && TileOf(grid, cur).Some?
    requires ExpandInv(grid, start, goal, u, s0, cur, gc, j, t)
    requires j < |TileOf(grid, cur).value.neighbors| && TileOf(grid, TileOf(grid, cur).value.neighbors[j]).Some?
    ensures ExpandInv(grid, start, goal, u, s0, cur, gc, j + 1, Visited(grid, goal, cur, gc, j, t))
  {
    var n := TileOf(grid, cur).value.neighbors[j];
    var t' := Visited(grid, goal, cur, gc, j, t);
    if TileOf(grid, n).value.passable && gc + 1 < Val(t.g, n) {
      var e := Node(n, gc + 1 + Heuristic(n, goal), gc + 1);
      InUniverse(grid, start, cur, j);
      LowerStep(grid, start, goal, u, s0, cur, gc, j, t, gc + 1, e, t');
    } else {
      assert t' == t;
      SkipStep(grid, start, goal, u, s0, cur, gc, j, t);
    }
  }

  /** Lowering a passable `j`-th neighbour to one above `cur`'s cost moves the neighbour loop on. */
  lemma LowerStep(grid: seq<seq<Tile>>, start: Cell, goal: Cell, u: set<Cell>, s0: Search,
                  cur: Cell, gc: nat, j: nat, t: Search, v: nat, e: Node, t': Search)
    requires u == Universe(grid, start) && TileOf(grid, cur).Some?
    requires ExpandInv(grid, start, goal, u, s0, cur, gc, j, t)
    requires var ns := TileOf(grid, cur).value.neighbors;
      j < |ns| && TileOf(grid, ns[j]).Some? && TileOf(grid, ns[j]).value.passable
      && v == t.g[cur] + 1 && v < Val(t.g, ns[j]) && e.position == ns[j] && ns[j] in u
      && t' == Search(t.g[ns[j] := v], t.cameFrom[ns[j] := cur], t.heap + [e])
    ensures ExpandInv(grid, start, goal, u, s0, cur, gc, j + 1, t')
  {
    var n := TileOf(grid, cur).value.neighbors[j];
    LowerKeepsInv(grid, start, goal, u, t, cur, n, v, e);
    LowerKeepsPrefix(grid, t.g, cur, j, v);
    LowerKeepsSince(u, s0, t, n, v, cur, t.heap + [e]);
  }

  /** A neighbour that is impassable, or already within one of `cur`, needs no change. */
  lemma SkipStep(grid: seq<seq<Tile>>, start: Cell, goal: Cell, u: set<Cell>, s0: Search, cur: Cell, gc: nat, j: nat, t: Search)
    requires TileOf(grid, cur).Some? && ExpandInv(grid, start, goal, u, s0, cur, gc, j, t)
    requires var ns := TileOf(grid, cur).value.neighbors;
      j < |ns| && TileOf(grid, ns[j]).Some?
      && (!TileOf(grid, ns[j]).value.passable || Val(t.g, ns[j]) <= gc + 1)
    ensures ExpandInv(grid, start, goal, u, s0, cur, gc, j + 1, t)
  {
    var ns := TileOf(grid, cur).value.neighbors;
    assert PrefixOk(grid, t.g, cur, j + 1) by {
      assert PrefixOk(grid, t.g, cur, j);
      forall k | 0 <= k < j + 1
        ensures NeighborOk(grid, t.g, cur, ns[k])
      {
        if k < j {
          assert NeighborOk(grid, t.g, cur, ns[k]);
        }
      }
    }
  }

  /** Lowering the neighbour `n` of `cur` to one above `cur`'s cost, tracing it to `cur` and opening it keeps the search invariant. */
  lemma LowerKeepsInv(grid: seq<seq<Tile>>, start: Cell, goal: Cell, u: set<Cell>, t: Search, cur: Cell, n: Cell, v: nat, e: Node)
    requires Inv(grid, start, goal, u, t, Some(cur)) && cur in t.g && v == t.g[cur] + 1 && v < Val(t.g, n)
    requires Step(grid, cur, n) && n in u && e.position == n
    ensures Inv(grid, start, goal, u, Search(t.g[n := v], t.cameFrom[n := cur], t.heap + [e]), Some(cur))
  {
    var t' := Search(t.g[n := v], t.cameFrom[n := cur], t.heap + [e]);
    assert TraceOk(grid, start, t'.g, t'.cameFrom) by {
      LowerKeepsTrace(grid, start, t.g, t.cameFrom, cur, n, v);
    }
    assert Positions(t'.heap) == Positions(t.heap) + {n} by {
      PositionsAppend(t.heap, e);
    }
    assert forall k :: 0 <= k < |t'.heap| ==> t'.heap[k].position in t'.g by {
      forall k | 0 <= k < |t'.heap|
        ensures t'.heap[k].position in t'.g
      {
        if k < |t.heap| {
          assert t'.heap[k] == t.heap[k];
        }
      }
    }
    forall c
      ensures SettledAt(grid, t', Some(cur), c)
    {
      assert SettledAt(grid, t, Some(cur), c);
      if c != n && c in t.g && Some(c) != Some(cur) && c !in Positions(t.heap) {
        LowerKeepsRelaxed(grid, t.g, n, v, c);
      }
    }
  }

  /** Lowering the `j`-th neighbour of `cur` to one above `cur`'s cost makes the first `j + 1` neighbours `NeighborOk`. */
  lemma LowerKeepsPrefix(grid: seq<seq<Tile>>, g: map<Cell, nat>, cur: Cell, j: nat, v: nat)
    requires TileOf(grid, cur).Some? && cur in g && PrefixOk(grid, g, cur, j) && v == g[cur] + 1
    requires var ns := TileOf(grid, cur).value.neighbors;
      j < |ns| && TileOf(grid, ns[j]).Some? && v < Val(g, ns[j])
    ensures PrefixOk(grid, g[TileOf(grid, cur).value.neighbors[j] := v], cur, j + 1)
  {
    var ns := TileOf(grid, cur).value.neighbors;
    var g' := g[ns[j] := v];
    assert ns[j] != cur;
    forall k | 0 <= k < j + 1
      ensures NeighborOk(grid, g', cur, ns[k])
    {
      if k < j {
        assert NeighborOk(grid, g, cur, ns[k]);
        assert Val(g', ns[k]) <= Val(g, ns[k]);
      }
    }
  }

  /** Lowering the cost of `n` keeps every fact about the change since `s0`. */
  lemma LowerKeepsSince(u: set<Cell>, s0: Search, t: Search, n: Cell, v: nat, cur: Cell, heap': seq<Node>)
    requires Since(u, s0, t) && n in u && v < Val(t.g, n)
    ensures Since(u, s0, Search(t.g[n := v], t.cameFrom[n := cur], heap'))
  {
    var cameFrom' := t.cameFrom[n := cur];
    var t' := Search(t.g[n := v], cameFrom', heap');
    forall c
      ensures Val(t'.g, c) <= Val(s0.g, c)
      ensures Val(t'.g, c) == Val(s0.g, c) ==> TraceKept(s0.cameFrom, t'.cameFrom, c)
    {
      assert Val(t.g, c) <= Val(s0.g, c);
      if c != n {
        assert Val(t'.g, c) == Val(t.g, c);
        assert TraceKept(t.cameFrom, cameFrom', c);
      }
    }
    assert PendingPairs(u, t'.g) < PendingPairs(u, t.g) by {
      PendingPairsShrink(u, t.g, n, v);
    }
  }

  /** Recording `n` at cost `v`, below its old cost and one above `cur`'s, traced to `cur`, keeps the trace consistent. */
  lemma LowerKeepsTrace(grid: seq<seq<Tile>>, start: Cell, g: map<Cell, nat>, cameFrom: map<Cell, Cell>, cur: Cell, n: Cell, v: nat)
    requires TraceOk(grid, start, g, cameFrom) && cur in g && v == g[cur] + 1 && v < Val(g, n)
    requires Step(grid, cur, n)
    ensures TraceOk(grid, start, g[n := v], cameFrom[n := cur])
  {
    var g', cf' := g[n := v], cameFrom[n := cur];
    assert n != start && n != cur;
    forall c | c in cf'
      ensures LinkOk(grid, g', cf', c)
    {
      if c != n {
        assert LinkOk(grid, g, cameFrom, c);
        assert Val(g', cameFrom[c]) <= Val(g, cameFrom[c]);
      }
    }
  }

  /** Lowering another cell's cost keeps a relaxed cell relaxed. */
  lemma LowerKeepsRelaxed(grid: seq<seq<Tile>>, g: map<Cell, nat>, n: Cell, v: nat, c: Cell)
    requires v < Val(g, n) && c != n && Relaxed(grid, g, c)
    ensures Relaxed(grid, g[n := v], c)
  {
    var ns := TileOf(grid, c).value.neighbors;
    forall k | 0 <= k < |ns|
      ensures NeighborOk(grid, g[n := v], c, ns[k])
    {
      assert NeighborOk(grid, g, c, ns[k]);
    }
  }

  lemma PositionsAppend(heap: seq<Node>, e: Node)
    ensures Positions(heap + [e]) == Positions(heap) + {e.position}
  {
    var h' := heap + [e];
    forall c | c in Positions(h')
      ensures c in Positions(heap) + {e.position}
    {
      var k :| 0 <= k < |h'| && h'[k].position == c;
      if k < |heap| {
        assert heap[k] == h'[k];
      }
    }
    forall c | c in Positions(heap)
      ensures c in Positions(h')
    {
      var k :| 0 <= k < |heap| && heap[k].position == c;
      assert h'[k] == heap[k];
    }
    assert h'[|heap|] == e;
  }

  lemma InUniverse(grid: seq<seq<Tile>>, start: Cell, c: Cell, k: nat)
    requires TileOf(grid, c).Some? && k < |TileOf(grid, c).value.neighbors|
    ensures TileOf(grid, c).value.neighbors[k] in Universe(grid, start)
  {
    var i, j := c.1, c.0;
    assert grid[i][j].neighbors[k] == TileOf(grid, c).value.neighbors[k];
  }

  lemma PendingPairsShrink(u: set<Cell>, g: map<Cell, nat>, n: Cell, v: nat)
    requires n in u && v < Val(g, n)
    ensures PendingPairs(u, g[n := v]) < PendingPairs(u, g)
  {
    var g' := g[n := v];
    forall p | p in PendingPairs(u, g')
      ensures p in PendingPairs(u, g)
    {
      assert Val(g', p.0) <= Val(g, p.0);
    }
    assert (n, v) in PendingPairs(u, g) && (n, v) !in PendingPairs(u, g');
  }

  /** After the last neighbour `cur` is relaxed, so the loop's exemption of `cur` can go. */
  lemma ExpandDone(grid: seq<seq<Tile>>, start: Cell, goal: Cell, u: set<Cell>, s0: Search, cur: Cell, gc: nat, t: Search)
    requires TileOf(grid, cur).Some?
    requires ExpandInv(grid, start, goal, u, s0, cur, gc, |TileOf(grid, cur).value.neighbors|, t)
    ensures Inv(grid, start, goal, u, t, None)
  {
    assert Relaxed(grid, t.g, cur);
    forall c
      ensures SettledAt(grid, t, None, c)
    {
      assert SettledAt(grid, t, Some(cur), c);
    }
  }

  /** Removing the popped node `s.heap[i]`, not at the goal, leaves every other open cell open. */
  lemma PopKeeps(grid: seq<seq<Tile>>, start: Cell, goal: Cell, u: set<Cell>, s: Search, i: nat)
    requires Inv(grid, start, goal, u, s, None) && i < |s.heap| && s.heap[i].position != goal
    ensures var rest := s.heap[..i] + s.heap[i + 1..];
      Inv(grid, start, goal, u, Search(s.g, s.cameFrom, rest), Some(s.heap[i].position))
      && s.heap[i].position in s.g
  {
    var rest := s.heap[..i] + s.heap[i + 1..];
    var s' := Search(s.g, s.cameFrom, rest);
    var p := s.heap[i].position;
    forall c | c in Positions(s.heap) && c != p
      ensures c in Positions(rest)
    {
      var k :| 0 <= k < |s.heap| && s.heap[k].position == c;
      if k < i {
        assert rest[k] == s.heap[k];
      } else {
        assert rest[k - 1] == s.heap[k];
      }
    }
    forall k | 0 <= k < |rest|
      ensures rest[k].position in s.g
    {
      if k < i {
        assert rest[k] == s.heap[k];
      } else {
        assert rest[k] == s.heap[k + 1];
      }
    }
    forall c
      ensures SettledAt(grid, s', Some(p), c)
    {
      assert SettledAt(grid, s, None, c);
    }
  }

  /** The trace is ranked by the recorded costs. */
  lemma TraceRanked(grid: seq<seq<Tile>>, start: Cell, g: map<Cell, nat>, cameFrom: map<Cell, Cell>, rank: Cell -> nat)
    requires TraceOk(grid, start, g, cameFrom) && forall c :: rank(c) == Val(g, c)
    ensures Algorithm.Ranked(cameFrom, rank)
  {
    forall c | c in cameFrom
      ensures rank(cameFrom[c]) < rank(c)
    {
      assert LinkOk(grid, g, cameFrom, c);
    }
  }

  /** Following the trace back from a recorded cell gives a walk from the start to that cell. */
  lemma ChainIsWalk(grid: seq<seq<Tile>>, start: Cell, g: map<Cell, nat>, cameFrom: map<Cell, Cell>, goal: Cell, rank: Cell -> nat)
    requires TraceOk(grid, start, g, cameFrom) && goal in g && forall c :: rank(c) == Val(g, c)
    ensures Algorithm.Ranked(cameFrom, rank)
    ensures var ks := Algorithm.Chain(cameFrom, goal, rank);
      IsWalk(grid, ks) && ks[0] == start && ks[|ks| - 1] == goal
  {
    TraceRanked(grid, start, g, cameFrom, rank);
    var ks := Algorithm.Chain(cameFrom, goal, rank);
    Algorithm.ChainFollowsTrace(cameFrom, goal, rank);
    forall j | 0 < j < |ks|
      ensures StepAt(grid, ks, j)
    {
      assert Algorithm.LinkedAt(cameFrom, ks, j);
      assert LinkOk(grid, g, cameFrom, ks[j]);
    }
    if |ks| > 1 {
      assert Algorithm.LinkedAt(cameFrom, ks, 1);
      assert LinkOk(grid, g, cameFrom, ks[1]);
    }
  }

  /** Once every recorded cell is relaxed, a walk from the start of `k` moves ends at a cell recorded at cost at most `k`. */
  lemma {:induction false} WalkBound(grid: seq<seq<Tile>>, start: Cell, g: map<Cell, nat>, w: seq<Cell>)
    requires start in g && g[start] == 0 && forall c :: c in g ==> g[c] < UsizeMax && Relaxed(grid, g, c)
    requires IsWalk(grid, w) && w[0] == start
    ensures Val(g, w[|w| - 1]) <= |w| - 1
    decreases |w|
  {
    if |w| > 1 {
      var prefix := w[..|w| - 1];
      assert forall j :: 0 < j < |prefix| ==> StepAt(grid, prefix, j) by {
        forall j | 0 < j < |prefix|
          ensures StepAt(grid, prefix, j)
        {
          assert StepAt(grid, w, j);
        }
      }
      WalkBound(grid, start, g, prefix);
      var prev, last := w[|w| - 2], w[|w| - 1];
      assert StepAt(grid, w, |w| - 1);
      if prev in g {
        assert Relaxed(grid, g, prev);
        var ns := TileOf(grid, prev).value.neighbors;
        var k :| 0 <= k < |ns| && ns[k] == last;
        assert NeighborOk(grid, g, prev, ns[k]);
      }
    }
  }

  /** With the open set empty, no walk from the start of at most `usize::MAX` moves reaches the goal. */
  lemma NoWalkToGoal(grid: seq<seq<Tile>>, start: Cell, goal: Cell, u: set<Cell>, s: Search)
    requires Inv(grid, start, goal, u, s, None) && |s.heap| == 0
    ensures forall w :: IsWalk(grid, w) && w[0] == start && |w| <= UsizeMax ==> w[|w| - 1] != goal
  {
    forall c | c in s.g
      ensures Relaxed(grid, s.g, c)
    {
      assert SettledAt(grid, s, None, c);
    }
    forall w | IsWalk(grid, w) && w[0] == start && |w| <= UsizeMax
      ensures w[|w| - 1] != goal
    {
      WalkBound(grid, start, s.g, w);
    }
  }
}
