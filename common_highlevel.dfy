/**
 * The high-level node of the MDD-based generation of the solver (`src/common/highlevel.rs`):
 * conflicts carry a cardinal type, constraints may be permanent (target reasoning),
 * every agent has a path-length limit, and each path may come with its MDD.
 *
 * The low-level searches are an oracle `search` from a `Query` (which search and with
 * which arguments) to its `SearchResult`; `isSingleton(mdd, t, cell)` stands for
 * `Mdd::is_singleton_at_position`.
 */
module CommonHighLevel {
  import opened Wrappers
  import opened Ordering
  import opened Common
  import Config

  datatype ConflictType =
    | Vertex(position: Cell, timeStep: nat)
    | Edge(u: Cell, v: Cell, timeStep: nat)
    | Target(position: Cell, timeStep: nat)

  datatype CardinalType = Cardinal | SemiCardinal | NonCardinal | Unknown

  datatype Conflict = Conflict(agent1: nat, agent2: nat, conflictType: ConflictType, cardinalType: CardinalType)

  datatype Constraint = Constraint(position: Cell, timeStep: nat, isPermanent: bool)

  /** `Constraint::is_violated`. */
  predicate IsViolated(c: Constraint, position: Cell, time: nat) {
    if position != c.position then false
    else if c.isPermanent then time >= c.timeStep
    else time == c.timeStep
  }

  lemma ViolatedOnlyAtItsPosition(c: Constraint, position: Cell, time: nat)
    ensures IsViolated(c, position, time) ==> position == c.position
  {
  }

  lemma TemporaryViolatedOnlyAtItsTime(c: Constraint, time: nat)
    requires !c.isPermanent
    ensures IsViolated(c, c.position, time) <==> time == c.timeStep
  {
  }

  lemma PermanentViolatedFromItsTimeOn(c: Constraint, time: nat)
    requires c.isPermanent
    ensures IsViolated(c, c.position, time) <==> time >= c.timeStep
  {
  }

  datatype OpenNode = OpenNode(
    agents: seq<Agent>,
    constraints: seq<set<Constraint>>,
    pathLengthConstraints: seq<nat>,
    conflicts: seq<Conflict>,
    paths: seq<Path>,
    cost: nat,
    fMins: seq<nat>,
    mdds: seq<Option<Mdd>>)

  datatype FocalNode = FocalNode(
    agents: seq<Agent>,
    constraints: seq<set<Constraint>>,
    pathLengthConstraints: seq<nat>,
    conflicts: seq<Conflict>,
    paths: seq<Path>,
    focal: nat,
    cost: nat,
    fMins: seq<nat>,
    mdds: seq<Option<Mdd>>)

  /** What `detect_conflicts` indexes: a non-empty path and an MDD slot for every agent. */
  predicate ConflictsDefined(n: OpenNode) {
    |n.paths| >= |n.agents| && |n.mdds| >= |n.agents| &&
    forall k :: 0 <= k < |n.agents| ==> |n.paths[k]| > 0
  }

  /** One constraint set, limit, path, f_min and MDD slot per agent, and no empty path. */
  predicate Shaped(n: OpenNode) {
    |n.constraints| == |n.pathLengthConstraints| == |n.paths| == |n.fMins| == |n.mdds| == |n.agents| &&
    (forall k :: 0 <= k < |n.paths| ==> |n.paths[k]| > 0)
  }

  /** The shape every node built by `new` and `update_constraint` has; the cost is the sum of path costs. */
  predicate WellFormed(n: OpenNode) {
    Shaped(n) && n.cost == SumOfCosts(n.paths)
  }

  /** A node whose recorded cost is at least the sum of its path costs (one that kept a stale cost). */
  predicate Costed(n: OpenNode) {
    Shaped(n) && n.cost >= SumOfCosts(n.paths)
  }

  // ---------------------------------------------------------------------------
  // Orders

  function CardinalKey(c: CardinalType): Key {
    KNat(match c case Cardinal => 0 case SemiCardinal => 1 case NonCardinal => 2 case Unknown => 3)
  }

  function ConflictTypeKey(t: ConflictType): Key {
    match t
    case Vertex(p, s) => KSeq([KNat(0), CellKey(p), KNat(s)])
    case Edge(u, v, s) => KSeq([KNat(1), CellKey(u), CellKey(v), KNat(s)])
    case Target(p, s) => KSeq([KNat(2), CellKey(p), KNat(s)])
  }

  /** The derived order of `Conflict`: agent_1, agent_2, conflict type, cardinal type. */
  function ConflictKey(c: Conflict): Key {
    KSeq([KNat(c.agent1), KNat(c.agent2), ConflictTypeKey(c.conflictType), CardinalKey(c.cardinalType)])
  }

  function ConflictsKey(cs: seq<Conflict>): (k: Key)
    ensures k.KSeq? && |k.items| == |cs|
    ensures forall i :: 0 <= i < |cs| ==> k.items[i] == ConflictKey(cs[i])
  {
    KSeq(seq(|cs|, i requires 0 <= i < |cs| => ConflictKey(cs[i])))
  }

  lemma ConflictKeyInjective(a: Conflict, b: Conflict)
    requires ConflictKey(a) == ConflictKey(b)
    ensures a == b
  {
    var ka, kb := ConflictKey(a).items, ConflictKey(b).items;
    assert ka[2] == kb[2] && ka[3] == kb[3];
    match a.conflictType
    case Vertex(_, _) =>
    case Edge(_, _, _) =>
    case Target(_, _) =>
  }

  lemma ConflictsKeyInjective(a: seq<Conflict>, b: seq<Conflict>)
    requires ConflictsKey(a) == ConflictsKey(b)
    ensures a == b
  {
    assert |a| == |b|;
    forall i | 0 <= i < |a| ensures a[i] == b[i] {
      assert ConflictsKey(a).items[i] == ConflictsKey(b).items[i];
      ConflictKeyInjective(a[i], b[i]);
    }
  }

  lemma PathsKeyInjective(a: seq<Path>, b: seq<Path>)
    requires PathsKey(a) == PathsKey(b)
    ensures a == b
  {
    assert |a| == |b|;
    forall i | 0 <= i < |a| ensures a[i] == b[i] {
      assert PathsKey(a).items[i] == PathsKey(b).items[i];
      var ca, cb := CellsKey(a[i]), CellsKey(b[i]);
      assert |a[i]| == |b[i]|;
      forall t | 0 <= t < |a[i]| ensures a[i][t] == b[i][t] {
        assert ca.items[t] == cb.items[t];
      }
    }
  }

  /** `Ord for HighLevelOpenNode`: cost, then conflicts, then paths. */
  function OpenKey(n: OpenNode): Key {
    KSeq([KNat(n.cost), ConflictsKey(n.conflicts), PathsKey(n.paths)])
  }

  /** `Ord for HighLevelFocalNode`: focal, then cost, then conflicts, then paths. */
  function FocalKey(n: FocalNode): Key {
    KSeq([KNat(n.focal), KNat(n.cost), ConflictsKey(n.conflicts), PathsKey(n.paths)])
  }

  function CmpOpen(a: OpenNode, b: OpenNode): Ordering { CmpKey(OpenKey(a), OpenKey(b)) }

  function CmpFocal(a: FocalNode, b: FocalNode): Ordering { CmpKey(FocalKey(a), FocalKey(b)) }

  /** Two open nodes are equal in the order exactly when cost, conflicts and paths agree. */
  lemma OpenOrderEqual(a: OpenNode, b: OpenNode)
    ensures CmpOpen(a, b) == Equal <==>
      a.cost == b.cost && a.conflicts == b.conflicts && a.paths == b.paths
  {
    CmpKeyEqual(OpenKey(a), OpenKey(b));
    if OpenKey(a) == OpenKey(b) {
      assert OpenKey(a).items[1] == OpenKey(b).items[1];
      assert OpenKey(a).items[2] == OpenKey(b).items[2];
      ConflictsKeyInjective(a.conflicts, b.conflicts);
      PathsKeyInjective(a.paths, b.paths);
    }
  }

  /** The cost decides first. */
  lemma OpenOrderCostFirst(a: OpenNode, b: OpenNode)
    requires a.cost < b.cost
    ensures CmpOpen(a, b) == Less
  {
    var xs, ys := OpenKey(a).items, OpenKey(b).items;
    LexStep(xs, ys);
  }

  /** The number of conflicts decides first, then the cost. */
  lemma FocalOrderFocalFirst(a: FocalNode, b: FocalNode)
    ensures a.focal < b.focal ==> CmpFocal(a, b) == Less
    ensures a.focal == b.focal && a.cost < b.cost ==> CmpFocal(a, b) == Less
  {
    var xs, ys := FocalKey(a).items, FocalKey(b).items;
    LexStep(xs, ys);
    LexStep(xs[1..], ys[1..]);
  }

  // ---------------------------------------------------------------------------
  // Conversions

  function ToFocalNode(n: OpenNode): (f: FocalNode)
    ensures f.focal == |n.conflicts|
  {
    FocalNode(n.agents, n.constraints, n.pathLengthConstraints, n.conflicts, n.paths,
              |n.conflicts|, n.cost, n.fMins, n.mdds)
  }

  function ToOpenNode(f: FocalNode): OpenNode {
    OpenNode(f.agents, f.constraints, f.pathLengthConstraints, f.conflicts, f.paths,
             f.cost, f.fMins, f.mdds)
  }

  lemma OpenFocalRoundTrip(n: OpenNode)
    ensures ToOpenNode(ToFocalNode(n)) == n
  {
  }

  lemma FocalOpenRoundTrip(f: FocalNode)
    ensures ToFocalNode(ToOpenNode(f)) == f <==> f.focal == |f.conflicts|
  {
  }

  /** Focal nodes made from open nodes are ordered by conflict count before the open order. */
  lemma FocalOrderOfOpenNodes(a: OpenNode, b: OpenNode)
    requires |a.conflicts| == |b.conflicts|
    ensures CmpFocal(ToFocalNode(a), ToFocalNode(b)) == CmpOpen(a, b)
  {
    var xs, ys := FocalKey(ToFocalNode(a)).items, FocalKey(ToFocalNode(b)).items;
    LexStep(xs, ys);
    assert xs[1..] == OpenKey(a).items && ys[1..] == OpenKey(b).items;
  }

  // ---------------------------------------------------------------------------
  // Conflict detection

  function Classify(single1: bool, single2: bool): CardinalType {
    if single1 && single2 then Cardinal
    else if single1 || single2 then SemiCardinal
    else NonCardinal
  }

  /** The cardinal type of a vertex conflict at `step` (src/common/highlevel.rs:200-221). */
  function VertexCardinal(m1: Option<Mdd>, m2: Option<Mdd>, step: nat, pos1: Cell, pos2: Cell,
                          isSingleton: (Mdd, nat, Cell) -> bool): CardinalType
  {
    if m1.Some? && m2.Some? then Classify(isSingleton(m1.value, step, pos1), isSingleton(m2.value, step, pos2))
    else if m1.Some? then (if isSingleton(m1.value, step, pos1) then SemiCardinal else NonCardinal)
    else if m2.Some? then (if isSingleton(m2.value, step, pos1) then SemiCardinal else NonCardinal)
    else Unknown
  }

  /** The classification does not depend on which agent of the vertex conflict is first. */
  lemma VertexCardinalSymmetric(m1: Option<Mdd>, m2: Option<Mdd>, step: nat, pos: Cell,
                                isSingleton: (Mdd, nat, Cell) -> bool)
    ensures VertexCardinal(m1, m2, step, pos, pos, isSingleton) == VertexCardinal(m2, m1, step, pos, pos, isSingleton)
    ensures VertexCardinal(m1, m2, step, pos, pos, isSingleton) == Unknown <==> m1.None? && m2.None?
  {
  }

  /**
   * The cardinal type of an edge conflict as the source computes it
   * (src/common/highlevel.rs:269-297): with one MDD present it tests agent 1's
   * cells, even when the MDD is agent 2's.
   */
  function EdgeCardinalAsWritten(m1: Option<Mdd>, m2: Option<Mdd>, step: nat,
                                 prev1: Cell, pos1: Cell, prev2: Cell, pos2: Cell,
                                 isSingleton: (Mdd, nat, Cell) -> bool): CardinalType
    requires step >= 1
  {
    if m1.Some? && m2.Some? then
      Classify(isSingleton(m1.value, step - 1, prev1) && isSingleton(m1.value, step, pos1),
               isSingleton(m2.value, step - 1, prev2) && isSingleton(m2.value, step, pos2))
    else if m1.Some? then
      (if isSingleton(m1.value, step - 1, prev1) && isSingleton(m1.value, step, pos1) then SemiCardinal else NonCardinal)
    else if m2.Some? then
      (if isSingleton(m2.value, step - 1, prev1) && isSingleton(m2.value, step, pos1) then SemiCardinal else NonCardinal)
    else Unknown
  }

  /** The edge cardinal type with each MDD looked up on its own agent's cells. */
  function EdgeCardinal(m1: Option<Mdd>, m2: Option<Mdd>, step: nat,
                        prev1: Cell, pos1: Cell, prev2: Cell, pos2: Cell,
                        isSingleton: (Mdd, nat, Cell) -> bool): CardinalType
    requires step >= 1
  {
    if m1.Some? && m2.Some? then
      Classify(isSingleton(m1.value, step - 1, prev1) && isSingleton(m1.value, step, pos1),
               isSingleton(m2.value, step - 1, prev2) && isSingleton(m2.value, step, pos2))
    else if m1.Some? then
      (if isSingleton(m1.value, step - 1, prev1) && isSingleton(m1.value, step, pos1) then SemiCardinal else NonCardinal)
    else if m2.Some? then
      (if isSingleton(m2.value, step - 1, prev2) && isSingleton(m2.value, step, pos2) then SemiCardinal else NonCardinal)
    else Unknown
  }

  /** Swapping the two agents of an edge conflict does not change its cardinal type. */
  lemma EdgeCardinalSymmetric(m1: Option<Mdd>, m2: Option<Mdd>, step: nat,
                              prev1: Cell, pos1: Cell, prev2: Cell, pos2: Cell,
                              isSingleton: (Mdd, nat, Cell) -> bool)
    requires step >= 1
    ensures EdgeCardinal(m1, m2, step, prev1, pos1, prev2, pos2, isSingleton)
         == EdgeCardinal(m2, m1, step, prev2, pos2, prev1, pos1, isSingleton)
  {
  }

  /**
   * Agent 1 moves a -> b while agent 2 moves b -> a, and only agent 2 has an MDD, one
   * that is a single cell at both steps of its own move. As written the conflict is
   * NonCardinal; with the agents swapped, or looked up on agent 2's cells, it is SemiCardinal.
   */
  lemma EdgeCardinalAsWrittenMisreadsSecondMdd(m: Mdd, a: Cell, b: Cell)
    requires a != b
    ensures var single := (x: Mdd, t: nat, c: Cell) => (t == 0 && c == b) || (t == 1 && c == a);
      EdgeCardinalAsWritten(None, Some(m), 1, a, b, b, a, single) == NonCardinal &&
      EdgeCardinalAsWritten(Some(m), None, 1, b, a, a, b, single) == SemiCardinal &&
      EdgeCardinal(None, Some(m), 1, a, b, b, a, single) == SemiCardinal
  {
  }

  /** The conflicts found between agents `i < j` at one time step (src/common/highlevel.rs:186-309). */
  function StepConflicts(n: OpenNode, i: nat, j: nat, step: nat, isSingleton: (Mdd, nat, Cell) -> bool): seq<Conflict>
    requires ConflictsDefined(n) && i < j < |n.agents| && step >= 1
  {
    var p1, p2 := n.paths[i], n.paths[j];
    var pos1, pos2 := PaddedAt(p1, step), PaddedAt(p2, step);
    var vertex :=
      if pos1 != pos2 then []
      else
        var card := VertexCardinal(n.mdds[i], n.mdds[j], step, pos1, pos2, isSingleton);
        if step >= |p1| - 1 && pos1 == n.agents[i].goal then [Conflict(i, j, Target(pos1, step), card)]
        else if step >= |p2| - 1 && pos2 == n.agents[j].goal then [Conflict(j, i, Target(pos2, step), card)]
        else [Conflict(i, j, Vertex(pos1, step), card)];
    var edge :=
      if step < |p1| && step < |p2| && p1[step - 1] == pos2 && p2[step - 1] == pos1 then
        [Conflict(i, j, Edge(pos1, p1[step - 1], step),
                  EdgeCardinal(n.mdds[i], n.mdds[j], step, p1[step - 1], pos1, p2[step - 1], pos2, isSingleton))]
      else [];
    vertex + edge
  }

  function MaxLength(n: OpenNode, i: nat, j: nat): nat
    requires ConflictsDefined(n) && i < j < |n.agents|
  {
    if |n.paths[i]| >= |n.paths[j]| then |n.paths[i]| else |n.paths[j]|
  }

  /** Conflicts of agents `i` and `j` at steps 1 .. s-1. */
  function StepsBefore(n: OpenNode, i: nat, j: nat, s: nat, isSingleton: (Mdd, nat, Cell) -> bool): seq<Conflict>
    requires ConflictsDefined(n) && i < j < |n.agents| && s >= 1
    decreases s
  {
    if s == 1 then [] else StepsBefore(n, i, j, s - 1, isSingleton) + StepConflicts(n, i, j, s - 1, isSingleton)
  }

  /** Conflicts of the pairs (i, i+1) .. (i, j-1). */
  function PairsBefore(n: OpenNode, i: nat, j: nat, isSingleton: (Mdd, nat, Cell) -> bool): seq<Conflict>
    requires ConflictsDefined(n) && i < j <= |n.agents|
    decreases j
  {
    if j == i + 1 then []
    else PairsBefore(n, i, j - 1, isSingleton) + StepsBefore(n, i, j - 1, MaxLength(n, i, j - 1), isSingleton)
  }

  /** Conflicts of the pairs whose first agent is below `i`. */
  function RowsBefore(n: OpenNode, i: nat, isSingleton: (Mdd, nat, Cell) -> bool): seq<Conflict>
    requires ConflictsDefined(n) && i <= |n.agents|
    decreases i
  {
    if i == 0 then [] else RowsBefore(n, i - 1, isSingleton) + PairsBefore(n, i - 1, |n.agents|, isSingleton)
  }

  /** Everything `detect_conflicts` reports, in its order. */
  function Conflicts(n: OpenNode, isSingleton: (Mdd, nat, Cell) -> bool): seq<Conflict>
    requires ConflictsDefined(n)
  {
    RowsBefore(n, |n.agents|, isSingleton)
  }

  /** Agent `k`'s path has ended by `step` and it stands on its goal. */
  predicate FinishedAt(n: OpenNode, k: nat, step: nat)
    requires ConflictsDefined(n) && k < |n.agents|
  {
    step >= |n.paths[k]| - 1 && PaddedAt(n.paths[k], step) == n.agents[k].goal
  }

  /** What a reported conflict says about the two paths. */
  predicate Reported(n: OpenNode, c: Conflict)
    requires ConflictsDefined(n)
  {
    var a1, a2 := c.agent1, c.agent2;
    a1 < |n.agents| && a2 < |n.agents| && a1 != a2 &&
    var p1, p2 := n.paths[a1], n.paths[a2];
    match c.conflictType
    case Vertex(p, t) =>
      a1 < a2 && 1 <= t < MaxLength(n, a1, a2) &&
      PaddedAt(p1, t) == p && PaddedAt(p2, t) == p && !FinishedAt(n, a1, t) && !FinishedAt(n, a2, t)
    case Target(p, t) =>
      1 <= t && (t < |p1| || t < |p2|) &&
      PaddedAt(p1, t) == p && PaddedAt(p2, t) == p && FinishedAt(n, a1, t) &&
      (a2 < a1 ==> !FinishedAt(n, a2, t))
    case Edge(u, v, t) =>
      a1 < a2 && 1 <= t && t < |p1| && t < |p2| &&
      p1[t] == u && p1[t - 1] == v && p2[t] == v && p2[t - 1] == u
  }

  /** One more step of a pair of `detect_conflicts`. */
  lemma StepsNext(n: OpenNode, i: nat, j: nat, s: nat, isSingleton: (Mdd, nat, Cell) -> bool)
    requires ConflictsDefined(n) && i < j < |n.agents| && s >= 1
    ensures StepsBefore(n, i, j, s + 1, isSingleton) == StepsBefore(n, i, j, s, isSingleton) + StepConflicts(n, i, j, s, isSingleton)
  {
  }

  /** One more pair of a row of `detect_conflicts`. */
  lemma PairsNext(n: OpenNode, i: nat, j: nat, isSingleton: (Mdd, nat, Cell) -> bool)
    requires ConflictsDefined(n) && i < j < |n.agents|
    ensures PairsBefore(n, i, j + 1, isSingleton) == PairsBefore(n, i, j, isSingleton) + StepsBefore(n, i, j, MaxLength(n, i, j), isSingleton)
  {
  }

  /** Every conflict of `cs` is real. */
  predicate AllReported(n: OpenNode, cs: seq<Conflict>)
    requires ConflictsDefined(n)
    decreases |cs|
  {
    cs == [] || (Reported(n, cs[0]) && AllReported(n, cs[1..]))
  }

  lemma {:induction false} ReportedJoin(n: OpenNode, a: seq<Conflict>, b: seq<Conflict>)
    requires ConflictsDefined(n) && AllReported(n, a) && AllReported(n, b)
    ensures AllReported(n, a + b)
    decreases |a|
  {
    if a == [] {
      assert a + b == b;
    } else {
      ReportedJoin(n, a[1..], b);
      assert (a + b)[0] == a[0] && (a + b)[1..] == a[1..] + b;
    }
  }

  lemma {:induction false} ReportedMembers(n: OpenNode, cs: seq<Conflict>)
    requires ConflictsDefined(n) && AllReported(n, cs)
    ensures forall c :: c in cs ==> Reported(n, c)
    decreases |cs|
  {
    if cs != [] {
      ReportedMembers(n, cs[1..]);
      assert forall c :: c in cs ==> c == cs[0] || c in cs[1..];
    }
  }

  lemma StepSound(n: OpenNode, i: nat, j: nat, step: nat, isSingleton: (Mdd, nat, Cell) -> bool)
    requires ConflictsDefined(n) && i < j < |n.agents| && 1 <= step < MaxLength(n, i, j)
    ensures AllReported(n, StepConflicts(n, i, j, step, isSingleton))
  {
  }

  lemma {:induction false} StepsSound(n: OpenNode, i: nat, j: nat, s: nat, isSingleton: (Mdd, nat, Cell) -> bool)
    requires ConflictsDefined(n) && i < j < |n.agents| && 1 <= s <= MaxLength(n, i, j)
    ensures AllReported(n, StepsBefore(n, i, j, s, isSingleton))
    decreases s
  {
    if s > 1 {
      StepsSound(n, i, j, s - 1, isSingleton);
      StepSound(n, i, j, s - 1, isSingleton);
      ReportedJoin(n, StepsBefore(n, i, j, s - 1, isSingleton), StepConflicts(n, i, j, s - 1, isSingleton));
      StepsNext(n, i, j, s - 1, isSingleton);
    }
  }

  lemma {:induction false} PairsSound(n: OpenNode, i: nat, j: nat, isSingleton: (Mdd, nat, Cell) -> bool)
    requires ConflictsDefined(n) && i < j <= |n.agents|
    ensures AllReported(n, PairsBefore(n, i, j, isSingleton))
    decreases j
  {
    if j > i + 1 {
      PairsSound(n, i, j - 1, isSingleton);
      StepsSound(n, i, j - 1, MaxLength(n, i, j - 1), isSingleton);
      ReportedJoin(n, PairsBefore(n, i, j - 1, isSingleton), StepsBefore(n, i, j - 1, MaxLength(n, i, j - 1), isSingleton));
      PairsNext(n, i, j - 1, isSingleton);
    }
  }

  lemma {:induction false} RowsSound(n: OpenNode, i: nat, isSingleton: (Mdd, nat, Cell) -> bool)
    requires ConflictsDefined(n) && i <= |n.agents|
    ensures AllReported(n, RowsBefore(n, i, isSingleton))
    decreases i
  {
    if i > 0 {
      RowsSound(n, i - 1, isSingleton);
      PairsSound(n, i - 1, |n.agents|, isSingleton);
      ReportedJoin(n, RowsBefore(n, i - 1, isSingleton), PairsBefore(n, i - 1, |n.agents|, isSingleton));
      RowsNext(n, i - 1, isSingleton);
    }
  }

  /**
   * Every reported conflict is real: two distinct agents share a cell (a finished
   * path standing on its last cell) at a step >= 1, with a Target conflict naming
   * first the agent parked on its goal, or they swap cells along an edge.
   */
  lemma ConflictsSound(n: OpenNode, isSingleton: (Mdd, nat, Cell) -> bool)
    requires ConflictsDefined(n)
    ensures forall c :: c in Conflicts(n, isSingleton) ==> Reported(n, c)
  {
    RowsSound(n, |n.agents|, isSingleton);
    ReportedMembers(n, Conflicts(n, isSingleton));
  }

  lemma {:induction false} StepInSteps(n: OpenNode, i: nat, j: nat, t: nat, s: nat, isSingleton: (Mdd, nat, Cell) -> bool)
    requires ConflictsDefined(n) && i < j < |n.agents| && 1 <= t < s
    ensures forall c :: c in StepConflicts(n, i, j, t, isSingleton) ==> c in StepsBefore(n, i, j, s, isSingleton)
    decreases s
  {
    if t < s - 1 {
      StepInSteps(n, i, j, t, s - 1, isSingleton);
    }
    StepsNext(n, i, j, s - 1, isSingleton);
  }

  lemma {:induction false} PairInPairs(n: OpenNode, i: nat, j: nat, j2: nat, isSingleton: (Mdd, nat, Cell) -> bool,
                                       c: Conflict)
    requires ConflictsDefined(n) && i < j < j2 <= |n.agents|
    requires c in StepsBefore(n, i, j, MaxLength(n, i, j), isSingleton)
    ensures c in PairsBefore(n, i, j2, isSingleton)
    decreases j2
  {
    if j < j2 - 1 {
      PairInPairs(n, i, j, j2 - 1, isSingleton, c);
    }
    PairsNext(n, i, j2 - 1, isSingleton);
  }

  lemma {:induction false} RowInRows(n: OpenNode, i: nat, i2: nat, isSingleton: (Mdd, nat, Cell) -> bool)
    requires ConflictsDefined(n) && i < i2 <= |n.agents|
    ensures forall c :: c in PairsBefore(n, i, |n.agents|, isSingleton) ==> c in RowsBefore(n, i2, isSingleton)
    decreases i2
  {
    if i < i2 - 1 {
      RowInRows(n, i, i2 - 1, isSingleton);
    }
    RowsNext(n, i2 - 1, isSingleton);
  }

  lemma StepInConflicts(n: OpenNode, i: nat, j: nat, t: nat, isSingleton: (Mdd, nat, Cell) -> bool)
    requires ConflictsDefined(n) && i < j < |n.agents| && 1 <= t < MaxLength(n, i, j)
    ensures forall c :: c in StepConflicts(n, i, j, t, isSingleton) ==> c in Conflicts(n, isSingleton)
  {
    StepInSteps(n, i, j, t, MaxLength(n, i, j), isSingleton);
    forall c | c in StepsBefore(n, i, j, MaxLength(n, i, j), isSingleton)
      ensures c in PairsBefore(n, i, |n.agents|, isSingleton)
    {
      PairInPairs(n, i, j, |n.agents|, isSingleton, c);
    }
    RowInRows(n, i, |n.agents|, isSingleton);
  }

  /**
   * Two agents i < j on the same cell at a step 1 <= t < max length are reported as
   * Target(i, j) when i has finished on its goal, else Target(j, i) when j has, else
   * Vertex(i, j), with the vertex cardinal type.
   */
  lemma SharedCellReported(n: OpenNode, i: nat, j: nat, t: nat, isSingleton: (Mdd, nat, Cell) -> bool)
    requires ConflictsDefined(n) && i < j < |n.agents| && 1 <= t < MaxLength(n, i, j)
    requires PaddedAt(n.paths[i], t) == PaddedAt(n.paths[j], t)
    ensures var p := PaddedAt(n.paths[i], t);
      var card := VertexCardinal(n.mdds[i], n.mdds[j], t, p, p, isSingleton);
      (if FinishedAt(n, i, t) then Conflict(i, j, Target(p, t), card)
       else if FinishedAt(n, j, t) then Conflict(j, i, Target(p, t), card)
       else Conflict(i, j, Vertex(p, t), card)) in Conflicts(n, isSingleton)
  {
    StepInConflicts(n, i, j, t, isSingleton);
  }

  /** Two agents i < j that swap cells between t - 1 and t, both paths still running, are reported as Edge(i, j). */
  lemma SwapReported(n: OpenNode, i: nat, j: nat, t: nat, isSingleton: (Mdd, nat, Cell) -> bool)
    requires ConflictsDefined(n) && i < j < |n.agents| && 1 <= t
    requires t < |n.paths[i]| && t < |n.paths[j]|
    requires n.paths[i][t - 1] == n.paths[j][t] && n.paths[j][t - 1] == n.paths[i][t]
    ensures var p1, p2 := n.paths[i], n.paths[j];
      var card := EdgeCardinal(n.mdds[i], n.mdds[j], t, p1[t - 1], p1[t], p2[t - 1], p2[t], isSingleton);
      Conflict(i, j, Edge(p1[t], p1[t - 1], t), card) in Conflicts(n, isSingleton)
  {
    StepInConflicts(n, i, j, t, isSingleton);
  }

  /** `detect_conflicts`: every pair i < j, every step 1 .. max length - 1. */
  method DetectConflicts(n: OpenNode, isSingleton: (Mdd, nat, Cell) -> bool) returns (r: OpenNode)
    requires ConflictsDefined(n)
    ensures r == n.(conflicts := Conflicts(n, isSingleton))
  {
    var conflicts: seq<Conflict> := [];
    var i := 0;
    while i < |n.agents|
      invariant 0 <= i <= |n.agents|
      invariant conflicts == RowsBefore(n, i, isSingleton)
    {
      var row := DetectRow(n, i, isSingleton);
      RowsNext(n, i, isSingleton);
      conflicts := conflicts + row;
      i := i + 1;
    }
    r := n.(conflicts := conflicts);
  }

  /** One more row of `detect_conflicts`. */
  lemma RowsNext(n: OpenNode, i: nat, isSingleton: (Mdd, nat, Cell) -> bool)
    requires ConflictsDefined(n) && i < |n.agents|
    ensures RowsBefore(n, i + 1, isSingleton) == RowsBefore(n, i, isSingleton) + PairsBefore(n, i, |n.agents|, isSingleton)
  {
  }

  /** The loop over the second agent `j > i` of `detect_conflicts`. */
  method DetectRow(n: OpenNode, i: nat, isSingleton: (Mdd, nat, Cell) -> bool) returns (conflicts: seq<Conflict>)
    requires ConflictsDefined(n) && i < |n.agents|
    ensures conflicts == PairsBefore(n, i, |n.agents|, isSingleton)
  {
    conflicts := [];
    var j := i + 1;
    while j < |n.agents|
      invariant i + 1 <= j <= |n.agents|
      invariant conflicts == PairsBefore(n, i, j, isSingleton)
    {
      var pair := DetectPair(n, i, j, isSingleton);
      conflicts := conflicts + pair;
      j := j + 1;
    }
  }

  /** The step loop of `detect_conflicts` for one pair of agents. */
  method DetectPair(n: OpenNode, i: nat, j: nat, isSingleton: (Mdd, nat, Cell) -> bool) returns (conflicts: seq<Conflict>)
    requires ConflictsDefined(n) && i < j < |n.agents|
    ensures conflicts == StepsBefore(n, i, j, MaxLength(n, i, j), isSingleton)
  {
    var path1, path2 := n.paths[i], n.paths[j];
    var maxLength := if |path1| >= |path2| then |path1| else |path2|;
    var mdd1, mdd2 := n.mdds[i], n.mdds[j];
    conflicts := [];
    var step := 1;
    while step < maxLength
      invariant 1 <= step <= maxLength
      invariant conflicts == StepsBefore(n, i, j, step, isSingleton)
    {
      var pos1 := if step < |path1| then path1[step] else path1[|path1| - 1];
      var pos2 := if step < |path2| then path2[step] else path2[|path2| - 1];
      var found: seq<Conflict> := [];
      if pos1 == pos2 {
        var cardinal := VertexCardinal(mdd1, mdd2, step, pos1, pos2, isSingleton);
        if step >= |path1| - 1 && pos1 == n.agents[i].goal {
          found := [Conflict(i, j, Target(pos1, step), cardinal)];
        } else if step >= |path2| - 1 && pos2 == n.agents[j].goal {
          found := [Conflict(j, i, Target(pos2, step), cardinal)];
        } else {
          found := [Conflict(i, j, Vertex(pos1, step), cardinal)];
        }
      }
      if step < |path1| && step < |path2| {
        var prev1, prev2 := path1[step - 1], path2[step - 1];
        if prev1 == pos2 && prev2 == pos1 {
          var cardinal := EdgeCardinal(mdd1, mdd2, step, prev1, pos1, prev2, pos2, isSingleton);
          found := found + [Conflict(i, j, Edge(pos1, prev1, step), cardinal)];
        }
      }
      assert found == StepConflicts(n, i, j, step, isSingleton);
      conflicts := conflicts + found;
      step := step + 1;
    }
  }

  // ---------------------------------------------------------------------------
  // Building the root and the children

  /** A call of `a_star_search` or `focal_a_star_search`, with the arguments that vary. */
  datatype Query =
    | AStarQuery(agent: Agent, constraints: set<Constraint>, pathLengthConstraint: nat, buildMdd: bool)
    | FocalQuery(agent: Agent, lastFMin: Option<nat>, subOptimal: real, constraints: set<Constraint>,
                 pathLengthConstraint: nat, paths: seq<Path>, buildMdd: bool)

  /** The `(path, f_min, mdd)` a search result yields; other outcomes make the caller return `None`. */
  function Found(r: SearchResult): Option<(Path, nat, Option<Mdd>)> {
    match r
    case Standard(Some((p, f))) => Some((p, f, None))
    case WithMdd(Some((p, f, m))) => Some((p, f, Some(m)))
    case _ => None
  }

  /** Every path a search hands back has at least its start cell. */
  ghost predicate NonEmptyPaths(search: Query -> SearchResult) {
    forall q :: Found(search(q)).Some? ==> |Found(search(q)).value.0| > 0
  }

  predicate AStarSolver(solver: string) { solver == "cbs" || solver == "hbcbs" }

  predicate FocalSolver(solver: string) { solver in {"lbcbs", "bcbs", "ecbs", "decbs"} }

  /** The solver is one `new` and `update_constraint` know, with the low-level bound it unwraps. */
  predicate Dispatches(solver: string, config: Config.Config) {
    AStarSolver(solver) || (FocalSolver(solver) && config.subOptimal.1.Some?)
  }

  /** The search `new` runs for one agent (src/common/highlevel.rs:109-146). */
  function RootQuery(solver: string, config: Config.Config, agent: Agent, paths: seq<Path>): (r: Result<Query, Panic>)
    ensures r.Ok? <==> Dispatches(solver, config)
    ensures r.Err? ==> r.error == (if FocalSolver(solver) then UnwrapNone else Unreachable)
    ensures r.Ok? ==> r.value.agent == agent && r.value.constraints == {} && r.value.pathLengthConstraint == 0
    ensures r.Ok? ==> r.value.buildMdd == config.opPrioritizeConflicts
    ensures r.Ok? ==> (r.value.FocalQuery? <==> FocalSolver(solver))
    ensures r.Ok? && r.value.FocalQuery? ==> r.value.lastFMin == Some(0) && r.value.paths == paths
  {
    if AStarSolver(solver) then Ok(AStarQuery(agent, {}, 0, config.opPrioritizeConflicts))
    else if FocalSolver(solver) then
      if config.subOptimal.1.None? then Err(UnwrapNone)
      else Ok(FocalQuery(agent, Some(0), config.subOptimal.1.value, {}, 0, paths, config.opPrioritizeConflicts))
    else Err(Unreachable)
  }

  /** What the root search finds for `agent` after `paths` were found for the agents before it. */
  function RootFound(solver: string, config: Config.Config, search: Query -> SearchResult,
                     agent: Agent, paths: seq<Path>): Option<(Path, nat, Option<Mdd>)>
  {
    var q := RootQuery(solver, config, agent, paths);
    if q.Err? then None else Found(search(q.value))
  }

  /** The searches for the agents before `|paths|` found `paths`, and the next one finds nothing. */
  predicate SearchFailsAfter(solver: string, config: Config.Config, search: Query -> SearchResult,
                             agents: seq<Agent>, paths: seq<Path>)
  {
    |paths| < |agents| && Dispatches(solver, config) &&
    RootFound(solver, config, search, agents[|paths|], paths).None? &&
    (IdsAreIndices(agents) ==>
      forall k :: 0 <= k < |paths| ==>
        RootFound(solver, config, search, agents[k], paths[..k]).Some? &&
        RootFound(solver, config, search, agents[k], paths[..k]).value.0 == paths[k])
  }

  /** A root: no constraints, zero path-length limits, cost the sum of path costs, its conflicts detected. */
  predicate IsRoot(n: OpenNode, agents: seq<Agent>, isSingleton: (Mdd, nat, Cell) -> bool) {
    n.agents == agents && WellFormed(n) &&
    (forall k :: 0 <= k < |agents| ==> n.constraints[k] == {} && n.pathLengthConstraints[k] == 0) &&
    ConflictsDefined(n) && n.conflicts == Conflicts(n, isSingleton)
  }

  /** `HighLevelOpenNode::new`. */
  method New(agents: seq<Agent>, config: Config.Config, solver: string, search: Query -> SearchResult,
             isSingleton: (Mdd, nat, Cell) -> bool)
    returns (r: Result<Option<OpenNode>, Panic>)
    requires NonEmptyPaths(search)
    ensures |agents| > 0 && !Dispatches(solver, config) ==>
      r == Err(if FocalSolver(solver) then UnwrapNone else Unreachable)
    ensures r == Err(IndexOutOfBounds) ==> !IdsAreIndices(agents)
    ensures IdsAreIndices(agents) && (|agents| == 0 || Dispatches(solver, config)) ==> r.Ok?
    ensures r.Ok? && r.value.Some? ==> IsRoot(r.value.value, agents, isSingleton)
    ensures r.Ok? && r.value.Some? && IdsAreIndices(agents) ==>
      forall k :: 0 <= k < |agents| ==>
        RootFound(solver, config, search, agents[k], r.value.value.paths[..k])
          == Some((r.value.value.paths[k], r.value.value.fMins[k], r.value.value.mdds[k]))
    ensures r == Ok(None) ==> exists ps :: SearchFailsAfter(solver, config, search, agents, ps)
  {
    var paths: seq<Path> := [];
    var fMins: seq<nat> := [];
    var mdds: seq<Option<Mdd>> := [];
    var totalCost := 0;
    var k := 0;
    while k < |agents|
      invariant 0 <= k <= |agents|
      invariant |paths| == |fMins| == |mdds| == k
      invariant forall t :: 0 <= t < |paths| ==> |paths[t]| > 0
      invariant totalCost == SumOfCosts(paths)
      invariant k > 0 ==> Dispatches(solver, config)
      invariant IdsAreIndices(agents) ==>
        forall t :: 0 <= t < k ==>
          RootFound(solver, config, search, agents[t], paths[..t]) == Some((paths[t], fMins[t], mdds[t]))
    {
      var agent := agents[k];
      var query := RootQuery(solver, config, agent, paths);
      if query.Err? {
        return Err(query.error);
      }
      var found := Found(search(query.value));
      if found.None? {
        assert SearchFailsAfter(solver, config, search, agents, paths);
        return Ok(None);
      }
      var (path, fMin, mdd) := found.value;
      SumOfCostsInsert(paths, if agent.id <= |paths| then agent.id else 0, path);
      totalCost := totalCost + |path| - 1;
      if agent.id > |paths| {
        return Err(IndexOutOfBounds);
      }
      ghost var before := paths;
      paths := InsertAt(paths, agent.id, path);
      fMins := fMins + [fMin];
      mdds := mdds + [mdd];
      if IdsAreIndices(agents) {
        assert paths == before + [path];
        forall t | 0 <= t <= k
          ensures RootFound(solver, config, search, agents[t], paths[..t]) == Some((paths[t], fMins[t], mdds[t]))
        {
          if t < k {
            assert paths[..t] == before[..t];
          } else {
            assert paths[..t] == before;
          }
        }
      }
      k := k + 1;
    }
    SumOfCostsNonNegative(paths);
    var node := OpenNode(agents, seq(|agents|, _ => {}), seq(|agents|, _ => 0), [], paths, totalCost, fMins, mdds);
    ghost var bare := node;
    node := DetectConflicts(node, isSingleton);
    ConflictsIgnoreConstraints(bare, node, isSingleton);
    return Ok(Some(node));
  }

  /** The agent a child replans: `agent_1` when resolving the first side, else `agent_2`. */
  function Chosen(c: Conflict, resolveFirst: bool): nat {
    if resolveFirst then c.agent1 else c.agent2
  }

  function AddTo(cs: seq<set<Constraint>>, k: nat, c: Constraint): (r: seq<set<Constraint>>)
    requires k < |cs|
    ensures |r| == |cs| && r[k] == cs[k] + {c}
    ensures forall t :: 0 <= t < |cs| && t != k ==> r[t] == cs[t]
  {
    cs[k := cs[k] + {c}]
  }

  /** Adds `c` to every agent's set except `excluded`'s. */
  function AddToAllBut(cs: seq<set<Constraint>>, excluded: nat, c: Constraint): (r: seq<set<Constraint>>)
    ensures |r| == |cs|
    ensures forall t :: 0 <= t < |cs| ==> r[t] == if t == excluded then cs[t] else cs[t] + {c}
  {
    seq(|cs|, t requires 0 <= t < |cs| => if t == excluded then cs[t] else cs[t] + {c})
  }

  /**
   * The constraint sets of a child as the source computes them (src/common/highlevel.rs:338-387):
   * with target reasoning on and `resolve_first` false, the permanent constraint goes to
   * every agent except the replanned one.
   */
  function NewConstraintsAsWritten(cs: seq<set<Constraint>>, conflict: Conflict, resolveFirst: bool,
                                   targetReasoning: bool): seq<set<Constraint>>
    requires Chosen(conflict, resolveFirst) < |cs|
  {
    var a := Chosen(conflict, resolveFirst);
    match conflict.conflictType
    case Vertex(p, t) => AddTo(cs, a, Constraint(p, t, false))
    case Edge(u, v, t) => AddTo(cs, a, Constraint(if resolveFirst then u else v, t, false))
    case Target(p, t) =>
      if targetReasoning && !resolveFirst then AddToAllBut(cs, a, Constraint(p, t, true))
      else AddTo(cs, a, Constraint(p, t, false))
  }

  /**
   * The constraint sets of a child, with target reasoning keeping every agent except the
   * one parked on its goal (`agent_1` of a Target conflict) off that goal from the conflict's
   * time on.
   */
  function NewConstraints(cs: seq<set<Constraint>>, conflict: Conflict, resolveFirst: bool,
                          targetReasoning: bool): seq<set<Constraint>>
    requires Chosen(conflict, resolveFirst) < |cs|
  {
    var a := Chosen(conflict, resolveFirst);
    match conflict.conflictType
    case Vertex(p, t) => AddTo(cs, a, Constraint(p, t, false))
    case Edge(u, v, t) => AddTo(cs, a, Constraint(if resolveFirst then u else v, t, false))
    case Target(p, t) =>
      if targetReasoning && !resolveFirst then AddToAllBut(cs, conflict.agent1, Constraint(p, t, true))
      else AddTo(cs, a, Constraint(p, t, false))
  }

  /** The cell a child's new constraint keeps the replanned agent off. */
  function BlockedCell(conflict: Conflict, resolveFirst: bool): Cell {
    match conflict.conflictType
    case Vertex(p, _) => p
    case Edge(u, v, _) => if resolveFirst then u else v
    case Target(p, _) => p
  }

  /**
   * A child only adds constraints, and the replanned agent may no longer be on the
   * blocked cell at the conflict's time; with target reasoning it may not be there at
   * any later time either. No other agent's set changes unless target reasoning applies.
   */
  lemma NewConstraintsBlockChosen(cs: seq<set<Constraint>>, conflict: Conflict, resolveFirst: bool,
                                  targetReasoning: bool, time: nat)
    requires Chosen(conflict, resolveFirst) < |cs|
    requires conflict.agent1 != conflict.agent2
    ensures var r := NewConstraints(cs, conflict, resolveFirst, targetReasoning);
      var a := Chosen(conflict, resolveFirst);
      var t := conflict.conflictType.timeStep;
      |r| == |cs| && (forall k :: 0 <= k < |cs| ==> cs[k] <= r[k]) &&
      (exists c :: c in r[a] && IsViolated(c, BlockedCell(conflict, resolveFirst), t)) &&
      (conflict.conflictType.Target? && targetReasoning && !resolveFirst && time >= t ==>
        exists c :: c in r[a] && IsViolated(c, BlockedCell(conflict, resolveFirst), time)) &&
      (!(conflict.conflictType.Target? && targetReasoning && !resolveFirst) ==>
        forall k :: 0 <= k < |cs| && k != a ==> r[k] == cs[k])
  {
    var r := NewConstraints(cs, conflict, resolveFirst, targetReasoning);
    var a := Chosen(conflict, resolveFirst);
    match conflict.conflictType
    case Vertex(p, t) =>
      assert Constraint(p, t, false) in r[a];
    case Edge(u, v, t) =>
      assert Constraint(if resolveFirst then u else v, t, false) in r[a];
    case Target(p, t) =>
      if targetReasoning && !resolveFirst {
        assert Constraint(p, t, true) in r[a];
      } else {
        assert Constraint(p, t, false) in r[a];
      }
  }

  /** Target reasoning leaves the agent parked on its goal unconstrained. */
  lemma NewConstraintsSpareParkedAgent(cs: seq<set<Constraint>>, conflict: Conflict, targetReasoning: bool)
    requires conflict.agent1 < |cs| && conflict.agent2 < |cs| && conflict.agent1 != conflict.agent2
    requires conflict.conflictType.Target? && targetReasoning
    ensures NewConstraints(cs, conflict, false, targetReasoning)[conflict.agent1] == cs[conflict.agent1]
  {
  }

  /**
   * As written, target reasoning on the `resolve_first == false` side adds nothing to the
   * agent that is replanned, and puts the parked agent's own goal off-limits to it.
   */
  lemma NewConstraintsAsWrittenSkipsReplanned(cs: seq<set<Constraint>>, conflict: Conflict)
    requires conflict.agent1 < |cs| && conflict.agent2 < |cs| && conflict.agent1 != conflict.agent2
    requires conflict.conflictType.Target?
    ensures var r := NewConstraintsAsWritten(cs, conflict, false, true);
      var t := conflict.conflictType.timeStep;
      r[conflict.agent2] == cs[conflict.agent2] &&
      Constraint(conflict.conflictType.position, t, true) in r[conflict.agent1]
  {
  }

  /** The path-length limits of a child: a resolved-first Target conflict raises agent_1's limit. */
  function NewPathLengthConstraints(plc: seq<nat>, conflict: Conflict, resolveFirst: bool): (r: seq<nat>)
    requires Chosen(conflict, resolveFirst) < |plc|
    ensures |r| == |plc|
    ensures conflict.conflictType.Target? && resolveFirst ==>
      r[conflict.agent1] >= conflict.conflictType.timeStep && r[conflict.agent1] >= plc[conflict.agent1]
    ensures forall k :: 0 <= k < |plc| && !(conflict.conflictType.Target? && resolveFirst && k == conflict.agent1) ==>
      r[k] == plc[k]
  {
    var a := Chosen(conflict, resolveFirst);
    match conflict.conflictType
    case Target(_, t) =>
      if resolveFirst then plc[a := if plc[a] >= t then plc[a] else t] else plc
    case _ => plc
  }

  /** The search a child runs for the replanned agent (src/common/highlevel.rs:389-445). */
  function UpdateQuery(config: Config.Config, n: OpenNode, a: nat, cs: seq<set<Constraint>>, plc: seq<nat>): (r: Result<Query, Panic>)
    requires a < |n.agents| && a < |cs| && a < |plc|
    ensures r.Ok? <==> Dispatches(config.solver, config)
    ensures r.Err? ==> r.error == (if FocalSolver(config.solver) then UnwrapNone else Unreachable)
    ensures r.Ok? ==> r.value.agent == n.agents[a] && r.value.constraints == cs[a]
    ensures r.Ok? ==> r.value.pathLengthConstraint == plc[a] && r.value.buildMdd == config.opPrioritizeConflicts
    ensures r.Ok? && r.value.FocalQuery? ==>
      r.value.paths == n.paths && (r.value.lastFMin.None? <==> config.solver == "decbs")
  {
    var agent, build := n.agents[a], config.opPrioritizeConflicts;
    if AStarSolver(config.solver) then Ok(AStarQuery(agent, cs[a], plc[a], build))
    else if FocalSolver(config.solver) then
      if config.subOptimal.1.None? then Err(UnwrapNone)
      else
        var last := if config.solver == "decbs" then None else Some(0);
        Ok(FocalQuery(agent, last, config.subOptimal.1.value, cs[a], plc[a], n.paths, build))
    else Err(Unreachable)
  }

  /** The search result of the child that resolves `conflict` on the given side. */
  function ChildFound(n: OpenNode, conflict: Conflict, resolveFirst: bool, config: Config.Config,
                      search: Query -> SearchResult): Option<(Path, nat, Option<Mdd>)>
    requires Shaped(n) && Chosen(conflict, resolveFirst) < |n.agents|
  {
    var a := Chosen(conflict, resolveFirst);
    var q := UpdateQuery(config, n, a,
                         NewConstraints(n.constraints, conflict, resolveFirst, config.opTargetReasoning),
                         NewPathLengthConstraints(n.pathLengthConstraints, conflict, resolveFirst));
    if q.Err? then None else Found(search(q.value))
  }

  /** `m` is the child of `n` whose replanned agent got `found`. */
  predicate IsChild(n: OpenNode, m: OpenNode, conflict: Conflict, resolveFirst: bool, targetReasoning: bool,
                    found: (Path, nat, Option<Mdd>), isSingleton: (Mdd, nat, Cell) -> bool)
    requires Shaped(n) && Chosen(conflict, resolveFirst) < |n.agents|
  {
    var a := Chosen(conflict, resolveFirst);
    m.agents == n.agents &&
    m.constraints == NewConstraints(n.constraints, conflict, resolveFirst, targetReasoning) &&
    m.pathLengthConstraints == NewPathLengthConstraints(n.pathLengthConstraints, conflict, resolveFirst) &&
    m.paths == n.paths[a := found.0] && m.fMins == n.fMins[a := found.1] && m.mdds == n.mdds[a := found.2] &&
    m.cost == n.cost - |n.paths[a]| + |found.0| &&
    ConflictsDefined(m) && m.conflicts == Conflicts(m, isSingleton) && Shaped(m) &&
    (Costed(n) ==> Costed(m)) && (WellFormed(n) ==> WellFormed(m))
  }

  /** The constraint part of `update_constraint`, on clones of the parent's sets and limits. */
  method AddConflictConstraints(cs: seq<set<Constraint>>, plc: seq<nat>, conflict: Conflict, resolveFirst: bool,
                                targetReasoning: bool)
    returns (newConstraints: seq<set<Constraint>>, newPathLengthConstraints: seq<nat>)
    requires Chosen(conflict, resolveFirst) < |cs| && Chosen(conflict, resolveFirst) < |plc|
    ensures newConstraints == NewConstraints(cs, conflict, resolveFirst, targetReasoning)
    ensures newPathLengthConstraints == NewPathLengthConstraints(plc, conflict, resolveFirst)
  {
    newConstraints := cs;
    newPathLengthConstraints := plc;
    var a := Chosen(conflict, resolveFirst);
    match conflict.conflictType {
      case Vertex(position, timeStep) =>
        newConstraints := newConstraints[a := newConstraints[a] + {Constraint(position, timeStep, false)}];
      case Edge(u, v, timeStep) =>
        var position := if resolveFirst then u else v;
        newConstraints := newConstraints[a := newConstraints[a] + {Constraint(position, timeStep, false)}];
      case Target(position, timeStep) =>
        if targetReasoning && !resolveFirst {
          var k := 0;
          while k < |newConstraints|
            invariant 0 <= k <= |newConstraints| == |cs|
            invariant forall t :: 0 <= t < |cs| ==>
              newConstraints[t] == if t < k && t != conflict.agent1 then cs[t] + {Constraint(position, timeStep, true)}
                                   else cs[t]
          {
            if k != conflict.agent1 {
              newConstraints := newConstraints[k := newConstraints[k] + {Constraint(position, timeStep, true)}];
            }
            k := k + 1;
          }
        } else {
          newConstraints := newConstraints[a := newConstraints[a] + {Constraint(position, timeStep, false)}];
        }
        if resolveFirst {
          newPathLengthConstraints := newPathLengthConstraints[a :=
            if newPathLengthConstraints[a] >= timeStep then newPathLengthConstraints[a] else timeStep];
        }
    }
    assert newConstraints == NewConstraints(cs, conflict, resolveFirst, targetReasoning);
  }

  /** `HighLevelOpenNode::update_constraint`. */
  method UpdateConstraint(n: OpenNode, conflict: Conflict, resolveFirst: bool, config: Config.Config,
                          search: Query -> SearchResult, isSingleton: (Mdd, nat, Cell) -> bool)
    returns (r: Result<Option<OpenNode>, Panic>)
    requires Costed(n) && conflict.agent1 < |n.agents| && conflict.agent2 < |n.agents|
    requires NonEmptyPaths(search)
    ensures r.Ok? <==> Dispatches(config.solver, config)
    ensures r.Err? ==> r.error == (if FocalSolver(config.solver) then UnwrapNone else Unreachable)
    ensures r.Ok? ==> (r.value.None? <==> ChildFound(n, conflict, resolveFirst, config, search).None?)
    ensures r.Ok? && r.value.Some? ==>
      IsChild(n, r.value.value, conflict, resolveFirst, config.opTargetReasoning,
              ChildFound(n, conflict, resolveFirst, config, search).value, isSingleton)
  {
    var newPaths := n.paths;
    var newFMins := n.fMins;
    var newMdds := n.mdds;
    var a := Chosen(conflict, resolveFirst);
    var newConstraints, newPathLengthConstraints := AddConflictConstraints(n.constraints, n.pathLengthConstraints,
                                                                          conflict, resolveFirst, config.opTargetReasoning);
    var query := UpdateQuery(config, n, a, newConstraints, newPathLengthConstraints);
    if query.Err? {
      return Err(query.error);
    }
    var found := Found(search(query.value));
    if found.None? {
      return Ok(None);
    }
    var (newPath, newFMin, newMdd) := found.value;
    SumOfCostsUpdate(n.paths, a, newPath);
    var newCost := n.cost - |newPaths[a]| + |newPath|;
    newPaths := newPaths[a := newPath];
    newFMins := newFMins[a := newFMin];
    newMdds := newMdds[a := newMdd];
    SumOfCostsNonNegative(newPaths);
    var node := OpenNode(n.agents, newConstraints, newPathLengthConstraints, [], newPaths, newCost, newFMins, newMdds);
    ghost var bare := node;
    node := DetectConflicts(node, isSingleton);
    ConflictsIgnoreConstraints(bare, node, isSingleton);
    return Ok(Some(node));
  }

  /** `update_bypass_node`: the parent with one agent's path, MDD and f_min, and the child's conflicts and cost. */
  function UpdateBypassNode(n: OpenNode, child: OpenNode, a: nat): (r: OpenNode)
    requires a < |n.paths| && a < |n.mdds| && a < |n.fMins|
    requires a < |child.paths| && a < |child.mdds| && a < |child.fMins|
    ensures r.constraints == n.constraints && r.pathLengthConstraints == n.pathLengthConstraints
    ensures r.agents == n.agents && r.conflicts == child.conflicts && r.cost == child.cost
  {
    n.(paths := n.paths[a := child.paths[a]], conflicts := child.conflicts, mdds := n.mdds[a := child.mdds[a]],
       cost := child.cost, fMins := n.fMins[a := child.fMins[a]])
  }

  /**
   * Bypassing with a child of `n` gives exactly that child with the parent's constraints
   * and path-length limits, and keeps the node well formed.
   */
  lemma BypassIsChildWithParentConstraints(n: OpenNode, child: OpenNode, conflict: Conflict, resolveFirst: bool,
                                           targetReasoning: bool, found: (Path, nat, Option<Mdd>),
                                           isSingleton: (Mdd, nat, Cell) -> bool)
    requires WellFormed(n) && Chosen(conflict, resolveFirst) < |n.agents|
    requires IsChild(n, child, conflict, resolveFirst, targetReasoning, found, isSingleton)
    ensures var a := Chosen(conflict, resolveFirst);
      var b := UpdateBypassNode(n, child, a);
      b == child.(constraints := n.constraints, pathLengthConstraints := n.pathLengthConstraints) &&
      WellFormed(b) && b.conflicts == Conflicts(b, isSingleton)
  {
    var a := Chosen(conflict, resolveFirst);
    var b := UpdateBypassNode(n, child, a);
    assert b.paths == child.paths;
    assert Conflicts(b, isSingleton) == Conflicts(child, isSingleton) by {
      ConflictsIgnoreConstraints(child, b, isSingleton);
    }
  }

  /** The conflicts of a node depend only on its agents, paths and MDDs. */
  lemma ConflictsIgnoreConstraints(m: OpenNode, b: OpenNode, isSingleton: (Mdd, nat, Cell) -> bool)
    requires ConflictsDefined(m)
    requires b.agents == m.agents && b.paths == m.paths && b.mdds == m.mdds
    ensures ConflictsDefined(b) && Conflicts(b, isSingleton) == Conflicts(m, isSingleton)
  {
    var m' := m.(constraints := [], pathLengthConstraints := [], conflicts := [], cost := 0, fMins := []);
    assert b.(constraints := [], pathLengthConstraints := [], conflicts := [], cost := 0, fMins := []) == m';
    ConflictsOfNormalised(m, isSingleton);
    ConflictsOfNormalised(b, isSingleton);
  }

  lemma ConflictsOfNormalised(m: OpenNode, isSingleton: (Mdd, nat, Cell) -> bool)
    requires ConflictsDefined(m)
    ensures var m' := m.(constraints := [], pathLengthConstraints := [], conflicts := [], cost := 0, fMins := []);
      ConflictsDefined(m') && Conflicts(m', isSingleton) == Conflicts(m, isSingleton)
  {
    var m' := m.(constraints := [], pathLengthConstraints := [], conflicts := [], cost := 0, fMins := []);
    RowsIgnoreRest(m, m', |m.agents|, isSingleton);
  }

  lemma {:induction false} RowsIgnoreRest(m: OpenNode, m': OpenNode, i: nat, isSingleton: (Mdd, nat, Cell) -> bool)
    requires ConflictsDefined(m) && m'.agents == m.agents && m'.paths == m.paths && m'.mdds == m.mdds
    requires i <= |m.agents|
    ensures ConflictsDefined(m') && RowsBefore(m', i, isSingleton) == RowsBefore(m, i, isSingleton)
    decreases i
  {
    if i > 0 {
      RowsIgnoreRest(m, m', i - 1, isSingleton);
      PairsIgnoreRest(m, m', i - 1, |m.agents|, isSingleton);
    }
  }

  lemma {:induction false} PairsIgnoreRest(m: OpenNode, m': OpenNode, i: nat, j: nat, isSingleton: (Mdd, nat, Cell) -> bool)
    requires ConflictsDefined(m) && m'.agents == m.agents && m'.paths == m.paths && m'.mdds == m.mdds
    requires i < j <= |m.agents|
    ensures ConflictsDefined(m') && PairsBefore(m', i, j, isSingleton) == PairsBefore(m, i, j, isSingleton)
    decreases j
  {
    if j > i + 1 {
      PairsIgnoreRest(m, m', i, j - 1, isSingleton);
      StepsIgnoreRest(m, m', i, j - 1, MaxLength(m, i, j - 1), isSingleton);
    }
  }

  lemma {:induction false} StepsIgnoreRest(m: OpenNode, m': OpenNode, i: nat, j: nat, s: nat, isSingleton: (Mdd, nat, Cell) -> bool)
    requires ConflictsDefined(m) && m'.agents == m.agents && m'.paths == m.paths && m'.mdds == m.mdds
    requires i < j < |m.agents| && s >= 1
    ensures ConflictsDefined(m') && StepsBefore(m', i, j, s, isSingleton) == StepsBefore(m, i, j, s, isSingleton)
    decreases s
  {
    if s > 1 {
      StepsIgnoreRest(m, m', i, j, s - 1, isSingleton);
    }
  }
}
