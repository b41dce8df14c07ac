/**
 * The grid map: tiles parsed from the map file's rows, each passable tile's list of
 * neighbours (up, down, left, right, stay), and the per-goal shortest-distance tables
 * that the searches use as heuristics. Cells are `(row, column)`.
 */
module GridMap {
  import opened Wrappers
  import opened Common


  datatype Tile = Tile(passable: bool, neighbors: seq<Cell>)

  /** Tile parsing in `from_file`: only '.' is passable; neighbour lists start empty. */
  function ParseTile(ch: char): (t: Tile)
    ensures t.passable <==> ch == '.'
    ensures t.neighbors == []
  {
    Tile(ch == '.', [])
  }

  /** The first `height` rows of the map body, one tile per character. */
  function ParseGrid(lines: seq<string>, height: nat): (grid: seq<seq<Tile>>)
    ensures |grid| == if |lines| < height then |lines| else height
    ensures forall x :: 0 <= x < |grid| ==> |grid[x]| == |lines[x]|
    ensures forall x, y :: 0 <= x < |grid| && 0 <= y < |grid[x]| ==> grid[x][y] == ParseTile(lines[x][y])
  {
    var n := if |lines| < height then |lines| else height;
    seq(n, x requires 0 <= x < n => seq(|lines[x]|, y requires 0 <= y < |lines[x]| => ParseTile(lines[x][y])))
  }

  predicate InBounds(height: nat, width: nat, c: Cell) {
    c.0 < height && c.1 < width
  }

  /** Every cell of the `height` x `width` rectangle has a tile (rows may run longer). */
  predicate Covers(grid: seq<seq<Tile>>, height: nat, width: nat) {
    width == 0 || (|grid| >= height && forall x :: 0 <= x < height ==> |grid[x]| >= width)
  }

  /** The tile at `c`; a cell outside the rows read is an impassable tile without neighbours. */
  function TileAt(grid: seq<seq<Tile>>, c: Cell): Tile {
    if c.0 < |grid| && c.1 < |grid[c.0]| then grid[c.0][c.1] else Tile(false, [])
  }

  /** The neighbour list of every tile in the rectangle stays in the rectangle. */
  ghost predicate Valid(grid: seq<seq<Tile>>, height: nat, width: nat) {
    Covers(grid, height, width)
    && forall c: Cell, k :: InBounds(height, width, c) && 0 <= k < |TileAt(grid, c).neighbors| ==>
      InBounds(height, width, TileAt(grid, c).neighbors[k])
  }

  // ---------------------------------------------------------------------------
  // get_neighbors
  // ---------------------------------------------------------------------------

  /** Up, down, left, right, stay. */
  const Directions: seq<(int, int)> := [(-1, 0), (1, 0), (0, -1), (0, 1), (0, 0)]

  /** The candidate `(nx, ny)` lies in the rectangle and is passable. */
  predicate OpenAt(grid: seq<seq<Tile>>, height: nat, width: nat, nx: int, ny: int)
    requires Covers(grid, height, width)
  {
    0 <= nx < height && 0 <= ny < width && grid[nx][ny].passable
  }

  /** The neighbours contributed by the first `k` directions, in direction order. */
  function NeighborsFrom(grid: seq<seq<Tile>>, height: nat, width: nat, x: nat, y: nat, k: nat): seq<Cell>
    requires Covers(grid, height, width) && k <= |Directions|
  {
    if k == 0 then []
    else
      var nx, ny := x + Directions[k - 1].0, y + Directions[k - 1].1;
      NeighborsFrom(grid, height, width, x, y, k - 1)
      + (if OpenAt(grid, height, width, nx, ny) then [(nx as nat, ny as nat)] else [])
  }

  function Neighbors(grid: seq<seq<Tile>>, height: nat, width: nat, x: nat, y: nat): seq<Cell>
    requires Covers(grid, height, width)
  {
    NeighborsFrom(grid, height, width, x, y, |Directions|)
  }

  /** One grid move (or a stay) apart. */
  predicate Adjacent(a: Cell, b: Cell) {
    (if a.0 < b.0 then b.0 - a.0 else a.0 - b.0) + (if a.1 < b.1 then b.1 - a.1 else a.1 - b.1) <= 1
  }

  lemma {:induction false} NeighborsFromIff(grid: seq<seq<Tile>>, height: nat, width: nat, x: nat, y: nat, k: nat, c: Cell)
    requires Covers(grid, height, width) && k <= |Directions|
    ensures c in NeighborsFrom(grid, height, width, x, y, k) <==>
      exists d :: 0 <= d < k && c.0 == x + Directions[d].0 && c.1 == y + Directions[d].1
        && OpenAt(grid, height, width, c.0, c.1)
    decreases k
  {
    if k > 0 {
      NeighborsFromIff(grid, height, width, x, y, k - 1, c);
    }
  }

  /**
   * A cell is listed exactly when it is in the rectangle, passable, and at most one move
   * away; in particular a passable cell lists itself.
   */
  lemma NeighborsIff(grid: seq<seq<Tile>>, height: nat, width: nat, x: nat, y: nat, c: Cell)
    requires Covers(grid, height, width)
    ensures c in Neighbors(grid, height, width, x, y) <==>
      InBounds(height, width, c) && grid[c.0][c.1].passable && Adjacent((x, y), c)
  {
    NeighborsFromIff(grid, height, width, x, y, |Directions|, c);
    if InBounds(height, width, c) && grid[c.0][c.1].passable && Adjacent((x, y), c) {
      var d := if c.0 + 1 == x then 0 else if c.0 == x + 1 then 1
        else if c.1 + 1 == y then 2 else if c.1 == y + 1 then 3 else 4;
      assert c.0 == x + Directions[d].0 && c.1 == y + Directions[d].1;
    }
  }

  /** No element occurs twice. */
  predicate NoRepeats<T(==)>(s: seq<T>) {
    forall i, j :: 0 <= i < j < |s| ==> s[i] != s[j]
  }

  /** The list has no repeated cell: the five candidates are distinct. */
  lemma NeighborsDistinct(grid: seq<seq<Tile>>, height: nat, width: nat, x: nat, y: nat)
    requires Covers(grid, height, width)
    ensures NoRepeats(Neighbors(grid, height, width, x, y))
  {
    NeighborsFromDistinct(grid, height, width, x, y, |Directions|);
  }

  lemma {:induction false} NeighborsFromDistinct(grid: seq<seq<Tile>>, height: nat, width: nat, x: nat, y: nat, k: nat)
    requires Covers(grid, height, width) && k <= |Directions|
    ensures NoRepeats(NeighborsFrom(grid, height, width, x, y, k))
    decreases k
  {
    if k > 0 {
      NeighborsFromDistinct(grid, height, width, x, y, k - 1);
      var prev := NeighborsFrom(grid, height, width, x, y, k - 1);
      var nx, ny := x + Directions[k - 1].0, y + Directions[k - 1].1;
      if OpenAt(grid, height, width, nx, ny) {
        var e: Cell := (nx as nat, ny as nat);
        forall c | c in prev
          ensures c != e
        {
          NeighborsFromIff(grid, height, width, x, y, k - 1, c);
          var d :| 0 <= d < k - 1 && c.0 == x + Directions[d].0 && c.1 == y + Directions[d].1;
          assert Directions[d] != Directions[k - 1];
        }
        var ns := prev + [e];
        assert ns == NeighborsFrom(grid, height, width, x, y, k);
        forall i, j | 0 <= i < j < |ns|
          ensures ns[i] != ns[j]
        {
          if j < |prev| {
            assert ns[i] == prev[i] && ns[j] == prev[j];
          } else {
            assert ns[i] in prev;
          }
        }
      }
    }
  }

  /** A passable cell in the rectangle ends its own list with itself (the stay move). */
  lemma NeighborsEndWithStay(grid: seq<seq<Tile>>, height: nat, width: nat, x: nat, y: nat)
    requires Covers(grid, height, width) && InBounds(height, width, (x, y)) && grid[x][y].passable
    ensures var ns := Neighbors(grid, height, width, x, y);
      |ns| > 0 && ns[|ns| - 1] == (x, y)
  {
  }

  /** Two passable cells list each other or neither does. */
  lemma NeighborsSymmetric(grid: seq<seq<Tile>>, height: nat, width: nat, a: Cell, b: Cell)
    requires Covers(grid, height, width) && InBounds(height, width, a) && grid[a.0][a.1].passable
    requires InBounds(height, width, b) && grid[b.0][b.1].passable
    ensures b in Neighbors(grid, height, width, a.0, a.1) <==> a in Neighbors(grid, height, width, b.0, b.1)
  {
    NeighborsIff(grid, height, width, a.0, a.1, b);
    NeighborsIff(grid, height, width, b.0, b.1, a);
  }

  /** The lists depend only on which tiles of the rectangle are passable. */
  lemma {:induction false} NeighborsFromSamePassability(g1: seq<seq<Tile>>, g2: seq<seq<Tile>>, height: nat, width: nat, x: nat, y: nat, k: nat)
    requires Covers(g1, height, width) && Covers(g2, height, width) && k <= |Directions|
    requires forall i, j :: 0 <= i < height && 0 <= j < width ==> g1[i][j].passable == g2[i][j].passable
    ensures NeighborsFrom(g1, height, width, x, y, k) == NeighborsFrom(g2, height, width, x, y, k)
    decreases k
  {
    if k > 0 {
      NeighborsFromSamePassability(g1, g2, height, width, x, y, k - 1);
    }
  }

  // ---------------------------------------------------------------------------
  // Walks and distance tables
  // ---------------------------------------------------------------------------

  /** A walk in the rectangle, each cell listed as a neighbour of the one before. */
  ghost predicate IsWalk(grid: seq<seq<Tile>>, height: nat, width: nat, w: seq<Cell>)
  {
    |w| > 0
    && (forall i :: 0 <= i < |w| ==> InBounds(height, width, w[i]))
    && forall i :: 0 <= i < |w| - 1 ==> w[i + 1] in TileAt(grid, w[i]).neighbors
  }

  ghost predicate ReachableIn(grid: seq<seq<Tile>>, height: nat, width: nat, goal: Cell, c: Cell, k: nat)
  {
    exists w :: IsWalk(grid, height, width, w) && w[0] == goal && w[|w| - 1] == c && |w| == k + 1
  }

  /** A table with one row per grid row and one entry per column. */
  predicate Shaped(h: seq<seq<nat>>, height: nat, width: nat) {
    |h| == height && forall x :: 0 <= x < height ==> |h[x]| == width
  }

  /** The entry of `c`; a cell outside the table reads as `usize::MAX`. */
  function At(h: seq<seq<nat>>, c: Cell): nat {
    if c.0 < |h| && c.1 < |h[c.0]| then h[c.0][c.1] else UsizeMax
  }

  function Set(h: seq<seq<nat>>, c: Cell, v: nat): (r: seq<seq<nat>>)
    requires c.0 < |h| && c.1 < |h[c.0]|
    ensures |r| == |h| && forall x :: 0 <= x < |h| ==> |r[x]| == |h[x]|
    ensures forall d :: At(r, d) == if d == c then v else At(h, d)
  {
    var row: seq<nat> := h[c.0][c.1 := v];
    h[c.0 := row]
  }

  /** A finite entry of `c` is the length of some walk from the goal to `c`. */
  ghost predicate SoundAt(grid: seq<seq<Tile>>, height: nat, width: nat, goal: Cell, h: seq<seq<nat>>, c: Cell) {
    InBounds(height, width, c) && At(h, c) < UsizeMax ==> ReachableIn(grid, height, width, goal, c, At(h, c))
  }

  /** Every finite entry is the length of some walk from the goal. */
  ghost predicate Sound(grid: seq<seq<Tile>>, height: nat, width: nat, goal: Cell, h: seq<seq<nat>>) {
    forall c :: SoundAt(grid, height, width, goal, h, c)
  }

  /** No walk from the goal is shorter than the entry of the cell it ends at. */
  ghost predicate Optimal(grid: seq<seq<Tile>>, height: nat, width: nat, goal: Cell, h: seq<seq<nat>>)
  {
    forall w :: IsWalk(grid, height, width, w) && w[0] == goal ==>
      At(h, w[|w| - 1]) <= |w| - 1
  }

  /**
   * The goal's table: 0 at the goal, each finite entry the fewest moves from the goal over
   * the neighbour lists, `usize::MAX` where no walk shorter than `usize::MAX` moves exists.
   */
  ghost predicate IsDistanceTable(grid: seq<seq<Tile>>, height: nat, width: nat, goal: Cell, h: seq<seq<nat>>)
  {
    Shaped(h, height, width)
    && InBounds(height, width, goal)
    && At(h, goal) == 0
    && (forall c :: InBounds(height, width, c) ==> At(h, c) <= UsizeMax)
    && Sound(grid, height, width, goal, h)
    && Optimal(grid, height, width, goal, h)
  }

  /** Only the goal is at distance 0. */
  lemma DistanceZeroOnlyAtGoal(grid: seq<seq<Tile>>, height: nat, width: nat, goal: Cell, h: seq<seq<nat>>, c: Cell)
    requires Covers(grid, height, width) && IsDistanceTable(grid, height, width, goal, h)
    requires InBounds(height, width, c)
    ensures At(h, c) == 0 <==> c == goal
  {
    if At(h, c) == 0 {
      assert SoundAt(grid, height, width, goal, h, c);
    }
  }

  /** A listed neighbour is at most one further from the goal. */
  lemma DistanceStep(grid: seq<seq<Tile>>, height: nat, width: nat, goal: Cell, h: seq<seq<nat>>, c: Cell, n: Cell)
    requires Valid(grid, height, width) && IsDistanceTable(grid, height, width, goal, h)
    requires InBounds(height, width, c) && At(h, c) < UsizeMax
    requires n in TileAt(grid, c).neighbors
    ensures InBounds(height, width, n) && At(h, n) <= At(h, c) + 1
  {
    assert SoundAt(grid, height, width, goal, h, c);
    var w :| IsWalk(grid, height, width, w) && w[0] == goal && w[|w| - 1] == c && |w| == At(h, c) + 1;
    var k :| 0 <= k < |TileAt(grid, c).neighbors| && TileAt(grid, c).neighbors[k] == n;
    WalkExtend(grid, height, width, w, n);
    assert (w + [n])[0] == goal && (w + [n])[|w|] == n;
  }

  /** A cell whose neighbours are all at most one further from the goal than itself. */
  ghost predicate Relaxed(grid: seq<seq<Tile>>, height: nat, width: nat, h: seq<seq<nat>>, c: Cell)
  {
    var ns := TileAt(grid, c).neighbors;
    forall k :: 0 <= k < |ns| ==> At(h, ns[k]) <= At(h, c) + 1
  }

  /** A finite cell other than `except` is still queued with its entry, or is relaxed. */
  ghost predicate SettledAt(grid: seq<seq<Tile>>, height: nat, width: nat, h: seq<seq<nat>>, heap: seq<(nat, Cell)>, except: Option<Cell>, c: Cell) {
    InBounds(height, width, c) && Some(c) != except && At(h, c) < UsizeMax ==>
      (At(h, c), c) in heap || Relaxed(grid, height, width, h, c)
  }

  ghost predicate PendingExcept(grid: seq<seq<Tile>>, height: nat, width: nat, h: seq<seq<nat>>, heap: seq<(nat, Cell)>, except: Option<Cell>) {
    forall c :: SettledAt(grid, height, width, h, heap, except, c)
  }

  ghost predicate RelaxedAt(grid: seq<seq<Tile>>, height: nat, width: nat, h: seq<seq<nat>>, c: Cell) {
    InBounds(height, width, c) && At(h, c) < UsizeMax ==> Relaxed(grid, height, width, h, c)
  }

  /** Queue entries lie in the rectangle, are finite, and never undercut their cell's entry. */
  ghost predicate HeapOk(height: nat, width: nat, h: seq<seq<nat>>, heap: seq<(nat, Cell)>)
  {
    forall k :: 0 <= k < |heap| ==>
      InBounds(height, width, heap[k].1) && heap[k].0 < UsizeMax && heap[k].0 >= At(h, heap[k].1)
  }

  ghost predicate Bounded(height: nat, width: nat, h: seq<seq<nat>>)
  {
    forall c :: InBounds(height, width, c) ==> At(h, c) <= UsizeMax
  }

  /** The (cell, value) pairs below the current entries: it shrinks whenever an entry drops. */
  ghost function PendingPairs(h: seq<seq<nat>>): set<(nat, nat, nat)> {
    set x, y, v | 0 <= x < |h| && 0 <= y < |h[x]| && 0 <= v < h[x][y] :: (x, y, v)
  }

  lemma PendingPairsShrink(a: seq<seq<nat>>, b: seq<seq<nat>>, height: nat, width: nat, c: Cell)
    requires Shaped(a, height, width) && Shaped(b, height, width) && InBounds(height, width, c)
    requires forall d :: InBounds(height, width, d) ==> At(b, d) <= At(a, d)
    requires At(b, c) < At(a, c)
    ensures PendingPairs(b) < PendingPairs(a)
  {
    forall t | t in PendingPairs(b)
      ensures t in PendingPairs(a)
    {
      assert At(b, (t.0, t.1)) <= At(a, (t.0, t.1));
    }
    var t := (c.0, c.1, At(b, c));
    assert t in PendingPairs(a);
  }

  /** The walk bound once every finite cell is relaxed. */
  lemma {:induction false} RelaxedBoundsWalks(grid: seq<seq<Tile>>, height: nat, width: nat, goal: Cell, h: seq<seq<nat>>, w: seq<Cell>)
    requires Valid(grid, height, width) && Shaped(h, height, width) && Bounded(height, width, h)
    requires InBounds(height, width, goal) && At(h, goal) == 0
    requires forall c :: RelaxedAt(grid, height, width, h, c)
    requires IsWalk(grid, height, width, w) && w[0] == goal
    ensures At(h, w[|w| - 1]) <= |w| - 1
    decreases |w|
  {
    if |w| > 1 {
      var prefix := w[..|w| - 1];
      assert IsWalk(grid, height, width, prefix);
      RelaxedBoundsWalks(grid, height, width, goal, h, prefix);
      var prev := w[|w| - 2];
      if At(h, prev) < UsizeMax {
        var ns := TileAt(grid, prev).neighbors;
        assert w[|w| - 2 + 1] in ns;
        var k :| 0 <= k < |ns| && ns[k] == w[|w| - 1];
        assert RelaxedAt(grid, height, width, h, prev);
        assert At(h, ns[k]) <= At(h, prev) + 1;
      }
    }
  }

  /** `BinaryHeap` of `(Reverse(cost), cell)` pops the least cost, and the greatest cell among equal costs. */
  predicate PopsBefore(e: (nat, Cell), f: (nat, Cell)) {
    e.0 < f.0 || (e.0 == f.0 && (e.1.0 > f.1.0 || (e.1.0 == f.1.0 && e.1.1 > f.1.1)))
  }

  /** The position of the entry `BinaryHeap::pop` returns. */
  method PopIndex(heap: seq<(nat, Cell)>) returns (i: nat)
    requires |heap| > 0
    ensures i < |heap| && forall k :: 0 <= k < |heap| ==> !PopsBefore(heap[k], heap[i])
  {
    i := 0;
    var k := 1;
    while k < |heap|
      invariant i < k <= |heap|
      invariant forall j :: 0 <= j < k ==> !PopsBefore(heap[j], heap[i])
    {
      if PopsBefore(heap[k], heap[i]) {
        i := k;
      }
      k := k + 1;
    }
  }

  lemma RemoveKeeps<T>(s: seq<T>, i: nat, e: T)
    requires i < |s| && e in s && e != s[i]
    ensures e in s[..i] + s[i + 1..]
  {
    var k :| 0 <= k < |s| && s[k] == e;
    if k < i {
      assert (s[..i] + s[i + 1..])[k] == e;
    } else {
      assert (s[..i] + s[i + 1..])[k - 1] == e;
    }
  }

  /**
   * The table half of the relaxation loop's invariant: entries only drop, `x` keeps its
   * entry `cost`, the queue stays consistent, and any change shrinks the pending pairs.
   */
  ghost predicate RelaxTable(height: nat, width: nat, h0: seq<seq<nat>>, heap0: seq<(nat, Cell)>,
                             x: Cell, cost: nat, h: seq<seq<nat>>, heap: seq<(nat, Cell)>)
  {
    Shaped(h, height, width) && Bounded(height, width, h)
    && (forall c :: InBounds(height, width, c) ==> At(h, c) <= At(h0, c))
    && At(h, x) == cost
    && HeapOk(height, width, h, heap)
    && ((h == h0 && heap == heap0) || PendingPairs(h) < PendingPairs(h0))
  }

  /**
   * The search half of the relaxation loop's invariant over `x`'s first `j` neighbours:
   * entries are walk lengths, every finite cell but `x` is queued or relaxed, and those
   * neighbours are already at most one above `x`'s entry `cost`.
   */
  ghost predicate RelaxQueue(grid: seq<seq<Tile>>, height: nat, width: nat, goal: Cell,
                             x: Cell, cost: nat, j: nat, h: seq<seq<nat>>, heap: seq<(nat, Cell)>)
  {
    var ns := TileAt(grid, x).neighbors;
    j <= |ns|
    && Sound(grid, height, width, goal, h)
    && PendingExcept(grid, height, width, h, heap, Some(x))
    && (forall k :: 0 <= k < j ==> At(h, ns[k]) <= cost + 1)
  }

  /**
   * The state `heuristic_dji`'s main loop keeps: a table of the rectangle's shape whose
   * finite entries are walk lengths, a consistent queue, and every finite cell other than
   * `except` still queued with its entry or relaxed.
   */
  ghost predicate Searching(grid: seq<seq<Tile>>, height: nat, width: nat, goal: Cell, h: seq<seq<nat>>, heap: seq<(nat, Cell)>, except: Option<Cell>)
  {
    Shaped(h, height, width) && Bounded(height, width, h)
    && HeapOk(height, width, h, heap) && Sound(grid, height, width, goal, h)
    && PendingExcept(grid, height, width, h, heap, except)
  }

  /**
   * The relaxation step of `heuristic_dji` for a popped cell `x` whose entry is current:
   * every listed neighbour whose entry is more than one above `x`'s drops to `x`'s + 1
   * and is queued with that cost. Afterwards `x` is relaxed, entries have only dropped,
   * and the table either is unchanged or has fewer pending pairs.
   */
  method Relax(grid: seq<seq<Tile>>, height: nat, width: nat, ghost goal: Cell, h0: seq<seq<nat>>, heap0: seq<(nat, Cell)>, x: Cell)
    returns (h: seq<seq<nat>>, heap: seq<(nat, Cell)>)
    requires Valid(grid, height, width) && InBounds(height, width, x) && At(h0, x) < UsizeMax
    requires Searching(grid, height, width, goal, h0, heap0, Some(x))
    ensures Searching(grid, height, width, goal, h, heap, None)
    ensures forall c :: InBounds(height, width, c) ==> At(h, c) <= At(h0, c)
    ensures (h == h0 && heap == heap0) || PendingPairs(h) < PendingPairs(h0)
  {
    var ns := TileAt(grid, x).neighbors;
    var cost := At(h0, x);
    h, heap := h0, heap0;
    var j := 0;
    while j < |ns|
      invariant RelaxTable(height, width, h0, heap0, x, cost, h, heap)
      invariant RelaxQueue(grid, height, width, goal, x, cost, j, h, heap)
    {
      h, heap := RelaxNeighbor(grid, height, width, goal, h0, heap0, x, cost, j, h, heap);
      j := j + 1;
    }
    RelaxDone(grid, height, width, goal, x, cost, h, heap);
  }

  /** One pass of the neighbour loop: the `j`-th neighbour drops to `cost + 1` and is queued, if that is lower. */
  method RelaxNeighbor(grid: seq<seq<Tile>>, height: nat, width: nat, ghost goal: Cell, ghost h0: seq<seq<nat>>, ghost heap0: seq<(nat, Cell)>,
                       x: Cell, cost: nat, j: nat, h: seq<seq<nat>>, heap: seq<(nat, Cell)>)
    returns (h': seq<seq<nat>>, heap': seq<(nat, Cell)>)
    requires Valid(grid, height, width) && Shaped(h0, height, width) && InBounds(height, width, x) && cost < UsizeMax
    requires j < |TileAt(grid, x).neighbors|
    requires RelaxTable(height, width, h0, heap0, x, cost, h, heap)
    requires RelaxQueue(grid, height, width, goal, x, cost, j, h, heap)
    ensures var n := TileAt(grid, x).neighbors[j];
      if cost + 1 < At(h, n) then h' == Set(h, n, cost + 1) && heap' == heap + [(cost + 1, n)]
      else h' == h && heap' == heap
    ensures RelaxTable(height, width, h0, heap0, x, cost, h', heap')
    ensures RelaxQueue(grid, height, width, goal, x, cost, j + 1, h', heap')
  {
    var n := TileAt(grid, x).neighbors[j];
    var next := cost + 1;
    if next < At(h, n) {
      LowerTable(grid, height, width, h0, heap0, x, cost, j, h, heap);
      LowerQueue(grid, height, width, goal, x, cost, j, h, heap);
      h' := Set(h, n, next);
      heap' := heap + [(next, n)];
    } else {
      h', heap' := h, heap;
    }
  }

  /** Once every neighbour is within one of `x`, `x` is relaxed and the loop's exemption of `x` can go. */
  lemma RelaxDone(grid: seq<seq<Tile>>, height: nat, width: nat, goal: Cell, x: Cell, cost: nat, h: seq<seq<nat>>, heap: seq<(nat, Cell)>)
    requires At(h, x) == cost
    requires RelaxQueue(grid, height, width, goal, x, cost, |TileAt(grid, x).neighbors|, h, heap)
    ensures PendingExcept(grid, height, width, h, heap, None)
  {
    assert Relaxed(grid, height, width, h, x);
    forall c
      ensures SettledAt(grid, height, width, h, heap, None, c)
    {
      assert SettledAt(grid, height, width, h, heap, Some(x), c);
    }
  }

  lemma WalkExtend(grid: seq<seq<Tile>>, height: nat, width: nat, w: seq<Cell>, n: Cell)
    requires Covers(grid, height, width) && IsWalk(grid, height, width, w) && InBounds(height, width, n)
    requires n in TileAt(grid, w[|w| - 1]).neighbors
    ensures IsWalk(grid, height, width, w + [n])
  {
    var w' := w + [n];
    forall i | 0 <= i < |w'| - 1
      ensures w'[i + 1] in TileAt(grid, w'[i]).neighbors
    {
      if i < |w| - 1 {
        assert w'[i] == w[i] && w'[i + 1] == w[i + 1];
      }
    }
  }

  /** Lowering the `j`-th neighbour of `x` to `cost + 1` keeps the table half of the invariant. */
  lemma LowerTable(grid: seq<seq<Tile>>, height: nat, width: nat, h0: seq<seq<nat>>, heap0: seq<(nat, Cell)>,
                   x: Cell, cost: nat, j: nat, h: seq<seq<nat>>, heap: seq<(nat, Cell)>)
    requires Valid(grid, height, width) && Shaped(h0, height, width) && InBounds(height, width, x)
    requires RelaxTable(height, width, h0, heap0, x, cost, h, heap)
    requires j < |TileAt(grid, x).neighbors| && cost + 1 < At(h, TileAt(grid, x).neighbors[j])
    ensures InBounds(height, width, TileAt(grid, x).neighbors[j])
    ensures var n := TileAt(grid, x).neighbors[j];
      RelaxTable(height, width, h0, heap0, x, cost, Set(h, n, cost + 1), heap + [(cost + 1, n)])
  {
    var n := TileAt(grid, x).neighbors[j];
    assert InBounds(height, width, n);
    var h' := Set(h, n, cost + 1);
    LowerKeepsHeap(height, width, h0, h, heap, n, cost + 1);
    PendingPairsShrink(h0, h', height, width, n);
  }

  /** Lowering the `j`-th neighbour of `x` to `cost + 1` keeps the search half of the invariant. */
  lemma LowerQueue(grid: seq<seq<Tile>>, height: nat, width: nat, goal: Cell,
                   x: Cell, cost: nat, j: nat, h: seq<seq<nat>>, heap: seq<(nat, Cell)>)
    requires Valid(grid, height, width) && Shaped(h, height, width) && InBounds(height, width, x)
    requires At(h, x) == cost && cost < UsizeMax
    requires RelaxQueue(grid, height, width, goal, x, cost, j, h, heap)
    requires j < |TileAt(grid, x).neighbors| && cost + 1 < At(h, TileAt(grid, x).neighbors[j])
    ensures InBounds(height, width, TileAt(grid, x).neighbors[j])
    ensures var n := TileAt(grid, x).neighbors[j];
      RelaxQueue(grid, height, width, goal, x, cost, j + 1, Set(h, n, cost + 1), heap + [(cost + 1, n)])
  {
    var ns := TileAt(grid, x).neighbors;
    var n := ns[j];
    assert InBounds(height, width, n);
    var h', heap' := Set(h, n, cost + 1), heap + [(cost + 1, n)];
    assert Sound(grid, height, width, goal, h') by {
      LowerKeepsSound(grid, height, width, goal, h, x, n);
    }
    assert PendingExcept(grid, height, width, h', heap', Some(x)) by {
      LowerKeepsPending(grid, height, width, h, heap, x, n, cost + 1);
    }
    assert forall k :: 0 <= k < j + 1 ==> At(h', ns[k]) <= cost + 1 by {
      LowerKeepsPrefix(grid, height, width, h, x, cost, j);
    }
  }

  /** Lowering the `j`-th neighbour to `cost + 1` keeps the first `j + 1` neighbours within one of `x`. */
  lemma LowerKeepsPrefix(grid: seq<seq<Tile>>, height: nat, width: nat, h: seq<seq<nat>>, x: Cell, cost: nat, j: nat)
    requires Valid(grid, height, width) && Shaped(h, height, width) && InBounds(height, width, x)
    requires j < |TileAt(grid, x).neighbors|
    requires forall k :: 0 <= k < j ==> At(h, TileAt(grid, x).neighbors[k]) <= cost + 1
    ensures var ns := TileAt(grid, x).neighbors;
      forall k :: 0 <= k < j + 1 ==> At(Set(h, ns[j], cost + 1), ns[k]) <= cost + 1
  {
    var ns := TileAt(grid, x).neighbors;
    var n := ns[j];
    assert InBounds(height, width, n);
    var h' := Set(h, n, cost + 1);
    forall k | 0 <= k < j + 1
      ensures At(h', ns[k]) <= cost + 1
    {
      var m := ns[k];
      assert At(h', m) == if m == n then cost + 1 else At(h, m);
      if k < j {
        assert At(h, ns[k]) <= cost + 1;
      }
    }
  }

  /** Lowering `n` to `v` and queueing `(v, n)` keeps the queue and the bounds consistent. */
  lemma LowerKeepsHeap(height: nat, width: nat, h0: seq<seq<nat>>, h: seq<seq<nat>>, heap: seq<(nat, Cell)>, n: Cell, v: nat)
    requires Shaped(h0, height, width) && Shaped(h, height, width) && Bounded(height, width, h)
    requires InBounds(height, width, n) && v < At(h, n)
    requires forall c :: InBounds(height, width, c) ==> At(h, c) <= At(h0, c)
    requires HeapOk(height, width, h, heap)
    ensures var h' := Set(h, n, v);
      Bounded(height, width, h')
      && (forall c :: InBounds(height, width, c) ==> At(h', c) <= At(h0, c))
      && HeapOk(height, width, h', heap + [(v, n)])
  {
    var h' := Set(h, n, v);
    var heap' := heap + [(v, n)];
    forall k | 0 <= k < |heap'|
      ensures InBounds(height, width, heap'[k].1) && heap'[k].0 < UsizeMax && heap'[k].0 >= At(h', heap'[k].1)
    {
      if k < |heap| {
        assert heap'[k] == heap[k];
      }
    }
  }

  /** Lowering a neighbour `n` of `x` to `x`'s entry + 1 keeps every finite entry a walk length. */
  lemma LowerKeepsSound(grid: seq<seq<Tile>>, height: nat, width: nat, goal: Cell, h: seq<seq<nat>>, x: Cell, n: Cell)
    requires Valid(grid, height, width) && Shaped(h, height, width)
    requires InBounds(height, width, x) && At(h, x) < UsizeMax
    requires n in TileAt(grid, x).neighbors
    requires Sound(grid, height, width, goal, h)
    ensures InBounds(height, width, n)
    ensures Sound(grid, height, width, goal, Set(h, n, At(h, x) + 1))
  {
    LoweredReachable(grid, height, width, goal, h, x, n);
    var h' := Set(h, n, At(h, x) + 1);
    forall c
      ensures SoundAt(grid, height, width, goal, h', c)
    {
      if c != n {
        assert SoundAt(grid, height, width, goal, h, c);
        assert At(h, c) == At(h', c);
      }
    }
  }

  /** A listed neighbour `n` of a cell `x` with a finite, sound entry is reachable in one more move. */
  lemma LoweredReachable(grid: seq<seq<Tile>>, height: nat, width: nat, goal: Cell, h: seq<seq<nat>>, x: Cell, n: Cell)
    requires Valid(grid, height, width)
    requires InBounds(height, width, x) && At(h, x) < UsizeMax
    requires n in TileAt(grid, x).neighbors
    requires SoundAt(grid, height, width, goal, h, x)
    ensures InBounds(height, width, n)
    ensures ReachableIn(grid, height, width, goal, n, At(h, x) + 1)
  {
    var k :| 0 <= k < |TileAt(grid, x).neighbors| && TileAt(grid, x).neighbors[k] == n;
    var w :| IsWalk(grid, height, width, w) && w[0] == goal && w[|w| - 1] == x && |w| == At(h, x) + 1;
    WalkExtend(grid, height, width, w, n);
    assert (w + [n])[0] == goal && (w + [n])[|w|] == n;
  }

  /** Lowering `n` and queueing it with its new entry keeps every other finite cell queued or relaxed. */
  lemma LowerKeepsPending(grid: seq<seq<Tile>>, height: nat, width: nat, h: seq<seq<nat>>, heap: seq<(nat, Cell)>, x: Cell, n: Cell, v: nat)
    requires Valid(grid, height, width) && Shaped(h, height, width) && InBounds(height, width, n)
    requires v < At(h, n)
    requires PendingExcept(grid, height, width, h, heap, Some(x))
    ensures PendingExcept(grid, height, width, Set(h, n, v), heap + [(v, n)], Some(x))
  {
    var h' := Set(h, n, v);
    var heap' := heap + [(v, n)];
    forall c
      ensures SettledAt(grid, height, width, h', heap', Some(x), c)
    {
      assert SettledAt(grid, height, width, h, heap, Some(x), c);
      if !(InBounds(height, width, c) && Some(c) != Some(x) && At(h', c) < UsizeMax) {
      } else if c == n {
        assert heap'[|heap'| - 1] == (At(h', c), c);
      } else if (At(h, c), c) in heap {
        assert At(h, c) == At(h', c);
      } else {
        assert Relaxed(grid, height, width, h, c);
        assert At(h, c) == At(h', c);
      }
    }
  }

  class Map {
    var height: nat
    var width: nat
    var grid: seq<seq<Tile>>
    /** One distance table per agent, in agent order. */
    var heuristic: seq<seq<seq<nat>>>

    constructor (height: nat, width: nat, grid: seq<seq<Tile>>)
      ensures this.height == height && this.width == width && this.grid == grid && heuristic == []
    {
      this.height := height;
      this.width := width;
      this.grid := grid;
      heuristic := [];
    }

    /** `get_neighbors`: the passable cells among up, down, left, right and stay, in that order. */
    method GetNeighbors(x: nat, y: nat) returns (neighbors: seq<Cell>)
      requires Covers(grid, height, width)
      ensures neighbors == Neighbors(grid, height, width, x, y)
    {
      neighbors := [];
      var k := 0;
      while k < |Directions|
        invariant k <= |Directions|
        invariant neighbors == NeighborsFrom(grid, height, width, x, y, k)
      {
        var nx, ny := x + Directions[k].0, y + Directions[k].1;
        if nx >= 0 && ny >= 0 && nx < height && ny < width && grid[nx][ny].passable {
          neighbors := neighbors + [(nx, ny)];
        }
        k := k + 1;
      }
    }

    /** `is_passable`. */
    function IsPassable(x: nat, y: nat): (b: bool)
      reads this
      requires Covers(grid, height, width) && InBounds(height, width, (x, y))
      ensures b == TileAt(grid, (x, y)).passable
    {
      grid[x][y].passable
    }

    /**
     * `initialize_neighbors`: every passable tile of the rectangle gets its `get_neighbors`
     * list; every other tile is left as it was.
     */
    method InitializeNeighbors()
      requires Covers(grid, height, width)
      modifies this
      ensures height == old(height) && width == old(width) && heuristic == old(heuristic)
      ensures InitializedFrom(old(grid), grid, height, width)
    {
      ghost var g0 := grid;
      var x := 0;
      while x < height
        invariant x <= height || width == 0
        invariant height == old(height) && width == old(width) && heuristic == old(heuristic)
        invariant PartlyInitialized(g0, grid, height, width, x, 0)
      {
        var y := 0;
        while y < width
          invariant y <= width
          invariant height == old(height) && width == old(width) && heuristic == old(heuristic)
          invariant PartlyInitialized(g0, grid, height, width, x, y)
        {
          ghost var g := grid;
          if grid[x][y].passable {
            var ns := GetNeighbors(x, y);
            grid := grid[x := grid[x][y := Tile(true, ns)]];
          }
          InitializeStep(g0, g, height, width, x, y);
          y := y + 1;
        }
        NextRow(g0, grid, height, width, x);
        x := x + 1;
      }
    }

    /**
     * `heuristic_dji`: Dijkstra's search from `goal` over the neighbour lists, giving each
     * cell of the rectangle its fewest moves from the goal (`usize::MAX` if none). A goal
     * outside the rectangle makes the first table write index out of range.
     */
    method HeuristicDji(goal: Cell) returns (r: Result<seq<seq<nat>>, Panic>)
      requires Valid(grid, height, width)
      ensures !InBounds(height, width, goal) ==> r == Err(IndexOutOfBounds)
      ensures InBounds(height, width, goal) ==> r.Ok? && IsDistanceTable(grid, height, width, goal, r.value)
    {
      if !(goal.0 < height && goal.1 < width) {
        return Err(IndexOutOfBounds);
      }
      var h := Set(Filled(height, width, UsizeMax), goal, 0);
      var heap := [(0, goal)];
      StartSearching(grid, height, width, goal);
      while |heap| > 0
        invariant Searching(grid, height, width, goal, h, heap, None) && At(h, goal) == 0
        decreases PendingPairs(h), |heap|
      {
        var i := PopIndex(heap);
        var cost, c := heap[i].0, heap[i].1;
        var rest := heap[..i] + heap[i + 1..];
        PopKeeps(grid, height, width, goal, h, heap, i);
        if cost > At(h, c) {
          heap := rest;
          continue;
        }
        var h', heap' := Relax(grid, height, width, goal, h, rest, c);
        h, heap := h', heap';
      }
      SearchDone(grid, height, width, goal, h);
      return Ok(h);
    }
  }

  /** `vec![vec![v; width]; height]`. */
  function Filled(height: nat, width: nat, v: nat): (h: seq<seq<nat>>)
    ensures Shaped(h, height, width)
    ensures forall c :: InBounds(height, width, c) ==> At(h, c) == v
  {
    seq(height, _ => seq(width, _ => v))
  }

  /** The table with only the goal at 0, and the goal queued, is a valid start. */
  lemma StartSearching(grid: seq<seq<Tile>>, height: nat, width: nat, goal: Cell)
    requires InBounds(height, width, goal)
    ensures var h := Set(Filled(height, width, UsizeMax), goal, 0);
      Searching(grid, height, width, goal, h, [(0, goal)], None) && At(h, goal) == 0
  {
    var h := Set(Filled(height, width, UsizeMax), goal, 0);
    assert IsWalk(grid, height, width, [goal]);
    forall c
      ensures SoundAt(grid, height, width, goal, h, c)
    {
      if c == goal {
        assert IsWalk(grid, height, width, [goal]) && [goal][0] == goal && [goal][|[goal]| - 1] == c;
      }
    }
    forall c
      ensures SettledAt(grid, height, width, h, [(0, goal)], None, c)
    {
    }
  }

  /**
   * Removing the popped entry `heap[i]`: a stale entry (above its cell's entry) leaves the
   * state intact; a current one leaves it intact except that its cell is now unqueued.
   */
  lemma PopKeeps(grid: seq<seq<Tile>>, height: nat, width: nat, goal: Cell, h: seq<seq<nat>>, heap: seq<(nat, Cell)>, i: nat)
    requires Searching(grid, height, width, goal, h, heap, None) && i < |heap|
    ensures var rest := heap[..i] + heap[i + 1..];
      var c := heap[i].1;
      InBounds(height, width, c) && heap[i].0 >= At(h, c) && heap[i].0 < UsizeMax
      && (heap[i].0 > At(h, c) ==> Searching(grid, height, width, goal, h, rest, None))
      && (heap[i].0 == At(h, c) ==> Searching(grid, height, width, goal, h, rest, Some(c)))
  {
    var rest := heap[..i] + heap[i + 1..];
    var e := heap[i];
    forall k | 0 <= k < |rest|
      ensures InBounds(height, width, rest[k].1) && rest[k].0 < UsizeMax && rest[k].0 >= At(h, rest[k].1)
    {
      if k < i {
        assert rest[k] == heap[k];
      } else {
        assert rest[k] == heap[k + 1];
      }
    }
    var except := if e.0 > At(h, e.1) then None else Some(e.1);
    forall c
      ensures SettledAt(grid, height, width, h, rest, except, c)
    {
      assert SettledAt(grid, height, width, h, heap, None, c);
      if InBounds(height, width, c) && At(h, c) < UsizeMax && (At(h, c), c) in heap && (At(h, c), c) != e {
        RemoveKeeps(heap, i, (At(h, c), c));
      }
    }
  }

  /** With the queue empty every finite cell is relaxed, so no walk undercuts the table. */
  lemma SearchDone(grid: seq<seq<Tile>>, height: nat, width: nat, goal: Cell, h: seq<seq<nat>>)
    requires Valid(grid, height, width) && InBounds(height, width, goal)
    requires Searching(grid, height, width, goal, h, [], None) && At(h, goal) == 0
    ensures IsDistanceTable(grid, height, width, goal, h)
  {
    forall c
      ensures RelaxedAt(grid, height, width, h, c)
    {
      assert SettledAt(grid, height, width, h, [], None, c);
    }
    forall w | IsWalk(grid, height, width, w) && w[0] == goal
      ensures At(h, w[|w| - 1]) <= |w| - 1
    {
      RelaxedBoundsWalks(grid, height, width, goal, h, w);
    }
  }

  /** Initialising the tile at `(x, y)` of a partly initialised grid extends it by that one tile. */
  lemma InitializeStep(g0: seq<seq<Tile>>, g: seq<seq<Tile>>, height: nat, width: nat, x: nat, y: nat)
    requires PartlyInitialized(g0, g, height, width, x, y) && x < height && y < width
    ensures Covers(g, height, width)
    ensures var g' := if g[x][y].passable then g[x := g[x][y := Tile(true, Neighbors(g, height, width, x, y))]] else g;
      PartlyInitialized(g0, g', height, width, x, y + 1)
  {
    NeighborsFromSamePassability(g, g0, height, width, x, y, |Directions|);
  }

  /** A fully initialised row moves the initialisation point to the start of the next row. */
  lemma NextRow(g0: seq<seq<Tile>>, g: seq<seq<Tile>>, height: nat, width: nat, x: nat)
    requires PartlyInitialized(g0, g, height, width, x, width)
    ensures PartlyInitialized(g0, g, height, width, x + 1, 0)
  {
  }

  /**
   * `g` is `g0` with the tiles before `(x, y)` in row-major order initialised: passable
   * ones carry their neighbour list, the rest are unchanged.
   */
  ghost predicate PartlyInitialized(g0: seq<seq<Tile>>, g: seq<seq<Tile>>, height: nat, width: nat, x: nat, y: nat) {
    Covers(g0, height, width)
    && |g| == |g0| && (forall i :: 0 <= i < |g| ==> |g[i]| == |g0[i]|)
    && forall i, j :: 0 <= i < |g| && 0 <= j < |g[i]| ==>
      g[i][j] == if InBounds(height, width, (i, j)) && (i < x || (i == x && j < y)) && g0[i][j].passable
        then Tile(true, Neighbors(g0, height, width, i, j)) else g0[i][j]
  }

  ghost predicate InitializedFrom(g0: seq<seq<Tile>>, g: seq<seq<Tile>>, height: nat, width: nat) {
    PartlyInitialized(g0, g, height, width, height, 0)
  }

  /** Every tile of the rectangle starts without neighbours, as parsing leaves them. */
  ghost predicate Bare(g: seq<seq<Tile>>, height: nat, width: nat) {
    forall c :: InBounds(height, width, c) ==> TileAt(g, c).neighbors == []
  }

  /** After `initialize_neighbors` on a freshly parsed grid, every neighbour list stays in the rectangle. */
  lemma InitializedValid(g0: seq<seq<Tile>>, g: seq<seq<Tile>>, height: nat, width: nat)
    requires Bare(g0, height, width) && InitializedFrom(g0, g, height, width)
    ensures Valid(g, height, width)
  {
    forall c: Cell, k | InBounds(height, width, c) && 0 <= k < |TileAt(g, c).neighbors|
      ensures InBounds(height, width, TileAt(g, c).neighbors[k])
    {
      assert TileAt(g0, c).neighbors == [];
      var n := TileAt(g, c).neighbors[k];
      NeighborsIff(g0, height, width, c.0, c.1, n);
    }
  }

  lemma ParsedBare(lines: seq<string>, height: nat, width: nat)
    ensures Bare(ParseGrid(lines, height), height, width)
  {
  }

  /** Every agent's goal lies in the rectangle. */
  predicate GoalsInBounds(height: nat, width: nat, agents: seq<Agent>) {
    forall k :: 0 <= k < |agents| ==> InBounds(height, width, agents[k].goal)
  }

  /**
   * `Map::from_file` once the header has given `height` and `width` and `lines` holds the
   * rows after it: parse the tiles, link the neighbours, then compute one distance table per
   * agent, in agent order. A missing tile in the rectangle, or a goal outside it, is an index
   * out of range.
   */
  method FromFile(height: nat, width: nat, lines: seq<string>, agents: seq<Agent>) returns (r: Result<Map, Panic>)
    ensures r.Err? <==> !Covers(ParseGrid(lines, height), height, width) || !GoalsInBounds(height, width, agents)
    ensures r.Err? ==> r.error == IndexOutOfBounds
    ensures r.Ok? ==>
      var m := r.value;
      m.height == height && m.width == width
      && InitializedFrom(ParseGrid(lines, height), m.grid, height, width)
      && Valid(m.grid, height, width)
      && |m.heuristic| == |agents| && TablesFor(m.grid, height, width, agents, m.heuristic)
  {
    var grid := ParseGrid(lines, height);
    if !Covers(grid, height, width) {
      return Err(IndexOutOfBounds);
    }
    var m := new Map(height, width, grid);
    m.InitializeNeighbors();
    ParsedBare(lines, height, width);
    ghost var g := m.grid;
    InitializedValid(grid, g, height, width);
    var k := 0;
    while k < |agents|
      invariant k <= |agents|
      invariant m.height == height && m.width == width && m.grid == g
      invariant forall i :: 0 <= i < k ==> InBounds(height, width, agents[i].goal)
      invariant TablesFor(g, height, width, agents, m.heuristic) && |m.heuristic| == k
    {
      var t := m.HeuristicDji(agents[k].goal);
      if t.Err? {
        return Err(t.error);
      }
      TablesForAppend(g, height, width, agents, m.heuristic, t.value);
      m.heuristic := m.heuristic + [t.value];
      k := k + 1;
    }
    return Ok(m);
  }

  /** `tables[i]` is the distance table of agent `i`'s goal, for every table present. */
  ghost predicate TablesFor(g: seq<seq<Tile>>, height: nat, width: nat, agents: seq<Agent>, tables: seq<seq<seq<nat>>>) {
    |tables| <= |agents|
    && forall i :: 0 <= i < |tables| ==> IsDistanceTable(g, height, width, agents[i].goal, tables[i])
  }

  lemma TablesForAppend(g: seq<seq<Tile>>, height: nat, width: nat, agents: seq<Agent>, tables: seq<seq<seq<nat>>>, t: seq<seq<nat>>)
    requires TablesFor(g, height, width, agents, tables) && |tables| < |agents|
    requires IsDistanceTable(g, height, width, agents[|tables|].goal, t)
    ensures TablesFor(g, height, width, agents, tables + [t])
  {
    forall i | 0 <= i < |tables| + 1
      ensures IsDistanceTable(g, height, width, agents[i].goal, (tables + [t])[i])
    {
      if i < |tables| {
        assert (tables + [t])[i] == tables[i];
      }
    }
  }
}
