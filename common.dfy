/**
 * Shared vocabulary of the solver: grid cells, agents, paths and the result shape of
 * the low-level searches.
 */
module Common {
  import opened Wrappers

  /**
   * `usize::MAX` on a 64-bit target: the map's distance for a cell that cannot reach the
   * goal, the default cost of a search state not yet reached, and the parse limit.
   */
  const UsizeMax: nat := 0xFFFF_FFFF_FFFF_FFFF

  /** A grid cell `(usize, usize)`. */
  type Cell = (nat, nat)

  /** A path lists the agent's cell at each time step, start included. */
  type Path = seq<Cell>

  datatype Agent = Agent(id: nat, start: Cell, goal: Cell)

  /** The scenario generators number the agents 0, 1, 2, ... in order. */
  predicate IdsAreIndices(agents: seq<Agent>) {
    forall k :: 0 <= k < |agents| ==> agents[k].id == k
  }

  /** The cell of a path at `step`; a path that has ended stays at its last cell. */
  function PaddedAt(p: Path, step: nat): (c: Cell)
    requires |p| > 0
    ensures c in p
    ensures step >= |p| - 1 ==> c == p[|p| - 1]
  {
    if step < |p| then p[step] else p[|p| - 1]
  }

  /** The cost of a path is its number of moves. */
  function PathCost(p: Path): int { |p| - 1 }

  /** The sum of the costs of the paths. */
  function SumOfCosts(ps: seq<Path>): int
  {
    if |ps| == 0 then 0 else SumOfCosts(ps[..|ps| - 1]) + PathCost(ps[|ps| - 1])
  }

  /** Paths with at least their start cell have a non-negative total cost. */
  lemma {:induction false} SumOfCostsNonNegative(ps: seq<Path>)
    requires forall k :: 0 <= k < |ps| ==> |ps[k]| > 0
    ensures SumOfCosts(ps) >= 0
    decreases |ps|
  {
    if |ps| > 0 {
      SumOfCostsNonNegative(ps[..|ps| - 1]);
    }
  }

  lemma {:induction false} SumOfCostsAppend(a: seq<Path>, b: seq<Path>)
    ensures SumOfCosts(a + b) == SumOfCosts(a) + SumOfCosts(b)
    decreases |b|
  {
    if |b| == 0 {
      assert a + b == a;
    } else {
      assert (a + b)[..|a + b| - 1] == a + b[..|b| - 1];
      SumOfCostsAppend(a, b[..|b| - 1]);
    }
  }

  /** Replacing one path changes the sum by the difference of the two costs. */
  lemma SumOfCostsUpdate(ps: seq<Path>, i: nat, p: Path)
    requires i < |ps|
    ensures SumOfCosts(ps[i := p]) == SumOfCosts(ps) - PathCost(ps[i]) + PathCost(p)
  {
    assert ps == ps[..i] + [ps[i]] + ps[i + 1..];
    assert ps[i := p] == ps[..i] + [p] + ps[i + 1..];
    SumOfCostsAppend(ps[..i] + [ps[i]], ps[i + 1..]);
    SumOfCostsAppend(ps[..i], [ps[i]]);
    SumOfCostsAppend(ps[..i] + [p], ps[i + 1..]);
    SumOfCostsAppend(ps[..i], [p]);
    SumOfCostsSingle(p);
    SumOfCostsSingle(ps[i]);
  }

  lemma SumOfCostsSingle(p: Path)
    ensures SumOfCosts([p]) == PathCost(p)
  {
    var one: seq<Path> := [p];
    assert one[..0] == [];
  }

  /** `Vec::insert`: the element goes to position `i`, the later ones move up. */
  function InsertAt<T>(s: seq<T>, i: nat, x: T): (r: seq<T>)
    requires i <= |s|
    ensures |r| == |s| + 1 && r[i] == x
    ensures forall k :: 0 <= k < i ==> r[k] == s[k]
    ensures forall k :: i < k < |r| ==> r[k] == s[k - 1]
  {
    s[..i] + [x] + s[i..]
  }

  lemma SumOfCostsInsert(ps: seq<Path>, i: nat, p: Path)
    requires i <= |ps|
    ensures SumOfCosts(InsertAt(ps, i, p)) == SumOfCosts(ps) + PathCost(p)
  {
    var a, b := ps[..i], ps[i..];
    assert InsertAt(ps, i, p) == a + [p] + b;
    assert ps == a + b;
    SumOfCostsAppend(a + [p], b);
    SumOfCostsAppend(a, [p]);
    SumOfCostsAppend(a, b);
    SumOfCostsSingle(p);
  }

  /** A multi-valued decision diagram; how it is built is not part of this model. */
  type Mdd(==)

  /** `SearchResult`: a path with its f_min, with or without an MDD. */
  datatype SearchResult =
    | Standard(found: Option<(Path, nat)>)
    | WithMdd(withMdd: Option<(Path, nat, Mdd)>)
}
