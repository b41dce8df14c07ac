/**
 * The high-level node of the older solvers (src/solver/comm/highlevel.rs): no MDDs and no
 * cardinal types, and a Target conflict that keeps its agents in index order and records
 * which of them is parked on its goal.
 */
module CommHighLevel {
  import opened Wrappers
  import opened Ordering
  import opened Common
  import CHL = CommonHighLevel

  datatype ConflictType =
    | Vertex(position: Cell, timeStep: nat)
    | Edge(u: Cell, v: Cell, timeStep: nat)
    | Target(position: Cell, timeStep: nat, extendedAgent: nat)

  datatype Conflict = Conflict(agent1: nat, agent2: nat, conflictType: ConflictType)

  /** The constraint of this module has the same fields and `is_violated` as the common one. */
  type Constraint = CHL.Constraint

  datatype OpenNode = OpenNode(
    agents: seq<Agent>,
    constraints: seq<set<Constraint>>,
    pathLengthConstraints: seq<nat>,
    conflicts: seq<Conflict>,
    paths: seq<Path>,
    cost: nat,
    fMins: seq<nat>)

  datatype FocalNode = FocalNode(
    agents: seq<Agent>,
    constraints: seq<set<Constraint>>,
    pathLengthConstraints: seq<nat>,
    conflicts: seq<Conflict>,
    paths: seq<Path>,
    focal: nat,
    cost: nat,
    fMins: seq<nat>)

  predicate ConflictsDefined(n: OpenNode) {
    |n.paths| >= |n.agents| && forall k :: 0 <= k < |n.agents| ==> |n.paths[k]| > 0
  }

  predicate WellFormed(n: OpenNode) {
    |n.constraints| == |n.pathLengthConstraints| == |n.paths| == |n.fMins| == |n.agents| &&
    (forall k :: 0 <= k < |n.paths| ==> |n.paths[k]| > 0) &&
    n.cost == SumOfCosts(n.paths)
  }

  // ---------------------------------------------------------------------------
  // Orders

  function ConflictTypeKey(t: ConflictType): Key {
    match t
    case Vertex(p, s) => KSeq([KNat(0), CellKey(p), KNat(s)])
    case Edge(u, v, s) => KSeq([KNat(1), CellKey(u), CellKey(v), KNat(s)])
    case Target(p, s, e) => KSeq([KNat(2), CellKey(p), KNat(s), KNat(e)])
  }

  /** The derived order of `Conflict`: agent_1, agent_2, then the conflict type. */
  function ConflictKey(c: Conflict): Key {
    KSeq([KNat(c.agent1), KNat(c.agent2), ConflictTypeKey(c.conflictType)])
  }

  function ConflictsKey(cs: seq<Conflict>): (k: Key)
    ensures k.KSeq? && |k.items| == |cs|
    ensures forall i :: 0 <= i < |cs| ==> k.items[i] == ConflictKey(cs[i])
  {
    KSeq(seq(|cs|, i requires 0 <= i < |cs| => ConflictKey(cs[i])))
  }

  lemma ConflictKeyInjective(a: Conflict, b: Conflict)
    requires ConflictKey(a) == ConflictKey(b)
    ensures a == b
  {
    var ka, kb := ConflictKey(a).items, ConflictKey(b).items;
    assert ka[2] == kb[2];
    match a.conflictType
    case Vertex(_, _) =>
    case Edge(_, _, _) =>
    case Target(_, _, _) =>
  }

  lemma ConflictsKeyInjective(a: seq<Conflict>, b: seq<Conflict>)
    requires ConflictsKey(a) == ConflictsKey(b)
    ensures a == b
  {
    assert |a| == |b|;
    forall i | 0 <= i < |a| ensures a[i] == b[i] {
      assert ConflictsKey(a).items[i] == ConflictsKey(b).items[i];
      ConflictKeyInjective(a[i], b[i]);
    }
  }

  /** `Ord for HighLevelOpenNode`: cost, then conflicts, then paths. */
  function OpenKey(n: OpenNode): Key {
    KSeq([KNat(n.cost), ConflictsKey(n.conflicts), PathsKey(n.paths)])
  }

  /** `Ord for HighLevelFocalNode`: focal, then cost, then conflicts, then paths. */
  function FocalKey(n: FocalNode): Key {
    KSeq([KNat(n.focal), KNat(n.cost), ConflictsKey(n.conflicts), PathsKey(n.paths)])
  }

  function CmpOpen(a: OpenNode, b: OpenNode): Ordering { CmpKey(OpenKey(a), OpenKey(b)) }

  function CmpFocal(a: FocalNode, b: FocalNode): Ordering { CmpKey(FocalKey(a), FocalKey(b)) }

  /** Two open nodes are equal in the order exactly when cost, conflicts and paths agree. */
  lemma OpenOrderEqual(a: OpenNode, b: OpenNode)
    ensures CmpOpen(a, b) == Equal <==>
      a.cost == b.cost && a.conflicts == b.conflicts && a.paths == b.paths
  {
    CmpKeyEqual(OpenKey(a), OpenKey(b));
    if OpenKey(a) == OpenKey(b) {
      assert OpenKey(a).items[1] == OpenKey(b).items[1];
      assert OpenKey(a).items[2] == OpenKey(b).items[2];
      ConflictsKeyInjective(a.conflicts, b.conflicts);
      CHL.PathsKeyInjective(a.paths, b.paths);
    }
  }

  /** The cost decides first. */
  lemma OpenOrderCostFirst(a: OpenNode, b: OpenNode)
    requires a.cost < b.cost
    ensures CmpOpen(a, b) == Less
  {
    LexStep(OpenKey(a).items, OpenKey(b).items);
  }

  /** Two focal nodes are equal in the order exactly when focal, cost, conflicts and paths agree. */
  lemma FocalOrderEqual(a: FocalNode, b: FocalNode)
    ensures CmpFocal(a, b) == Equal <==>
      a.focal == b.focal && a.cost == b.cost && a.conflicts == b.conflicts && a.paths == b.paths
  {
    CmpKeyEqual(FocalKey(a), FocalKey(b));
    if FocalKey(a) == FocalKey(b) {
      assert FocalKey(a).items[2] == FocalKey(b).items[2];
      assert FocalKey(a).items[3] == FocalKey(b).items[3];
      ConflictsKeyInjective(a.conflicts, b.conflicts);
      CHL.PathsKeyInjective(a.paths, b.paths);
    }
  }

  /** The focal value decides first, then the cost. */
  lemma FocalOrderFocalFirst(a: FocalNode, b: FocalNode)
    ensures a.focal < b.focal ==> CmpFocal(a, b) == Less
    ensures a.focal == b.focal && a.cost < b.cost ==> CmpFocal(a, b) == Less
  {
    var xs, ys := FocalKey(a).items, FocalKey(b).items;
    LexStep(xs, ys);
    LexStep(xs[1..], ys[1..]);
  }

  // ---------------------------------------------------------------------------
  // Conversions

  function ToFocalNode(n: OpenNode): (f: FocalNode)
    ensures f.focal == |n.conflicts|
  {
    FocalNode(n.agents, n.constraints, n.pathLengthConstraints, n.conflicts, n.paths,
              |n.conflicts|, n.cost, n.fMins)
  }

  function ToOpenNode(f: FocalNode): OpenNode {
    OpenNode(f.agents, f.constraints, f.pathLengthConstraints, f.conflicts, f.paths, f.cost, f.fMins)
  }

  lemma OpenFocalRoundTrip(n: OpenNode)
    ensures ToOpenNode(ToFocalNode(n)) == n
  {
  }

  lemma FocalOpenRoundTrip(f: FocalNode)
    ensures ToFocalNode(ToOpenNode(f)) == f <==> f.focal == |f.conflicts|
  {
  }

  // ---------------------------------------------------------------------------
  // Conflict detection

  /** The conflicts found between agents `i < j` at one time step (src/solver/comm/highlevel.rs:156-224). */
  function StepConflicts(n: OpenNode, i: nat, j: nat, step: nat): seq<Conflict>
    requires ConflictsDefined(n) && i < j < |n.agents| && step >= 1
  {
    var p1, p2 := n.paths[i], n.paths[j];
    var pos1, pos2 := PaddedAt(p1, step), PaddedAt(p2, step);
    var vertex :=
      if pos1 != pos2 then []
      else if step >= |p1| - 1 && pos1 == n.agents[i].goal then [Conflict(i, j, Target(pos1, step, i))]
      else if step >= |p2| - 1 && pos2 == n.agents[j].goal then [Conflict(i, j, Target(pos2, step, j))]
      else [Conflict(i, j, Vertex(pos1, step))];
    var edge :=
      if step < |p1| && step < |p2| && p1[step - 1] == pos2 && p2[step - 1] == pos1 then
        [Conflict(i, j, Edge(pos1, p1[step - 1], step))]
      else [];
    vertex + edge
  }

  function MaxLength(n: OpenNode, i: nat, j: nat): nat
    requires ConflictsDefined(n) && i < j < |n.agents|
  {
    if |n.paths[i]| >= |n.paths[j]| then |n.paths[i]| else |n.paths[j]|
  }

  function StepsBefore(n: OpenNode, i: nat, j: nat, s: nat): seq<Conflict>
    requires ConflictsDefined(n) && i < j < |n.agents| && s >= 1
    decreases s
  {
    if s == 1 then [] else StepsBefore(n, i, j, s - 1) + StepConflicts(n, i, j, s - 1)
  }

  function PairsBefore(n: OpenNode, i: nat, j: nat): seq<Conflict>
    requires ConflictsDefined(n) && i < j <= |n.agents|
    decreases j
  {
    if j == i + 1 then [] else PairsBefore(n, i, j - 1) + StepsBefore(n, i, j - 1, MaxLength(n, i, j - 1))
  }

  function RowsBefore(n: OpenNode, i: nat): seq<Conflict>
    requires ConflictsDefined(n) && i <= |n.agents|
    decreases i
  {
    if i == 0 then [] else RowsBefore(n, i - 1) + PairsBefore(n, i - 1, |n.agents|)
  }

  /** Everything `detect_conflicts` reports, in its order. */
  function Conflicts(n: OpenNode): seq<Conflict>
    requires ConflictsDefined(n)
  {
    RowsBefore(n, |n.agents|)
  }

  /** `detect_conflicts`. */
  method DetectConflicts(n: OpenNode) returns (r: OpenNode)
    requires ConflictsDefined(n)
    ensures r == n.(conflicts := Conflicts(n))
  {
    var conflicts: seq<Conflict> := [];
    var i := 0;
    while i < |n.agents|
      invariant 0 <= i <= |n.agents|
      invariant conflicts == RowsBefore(n, i)
    {
      var row := DetectRow(n, i);
      RowsNext(n, i);
      conflicts := conflicts + row;
      i := i + 1;
    }
    r := n.(conflicts := conflicts);
  }

  /** One more row of `detect_conflicts`. */
  lemma RowsNext(n: OpenNode, i: nat)
    requires ConflictsDefined(n) && i < |n.agents|
    ensures RowsBefore(n, i + 1) == RowsBefore(n, i) + PairsBefore(n, i, |n.agents|)
  {
  }

  method DetectRow(n: OpenNode, i: nat) returns (conflicts: seq<Conflict>)
    requires ConflictsDefined(n) && i < |n.agents|
    ensures conflicts == PairsBefore(n, i, |n.agents|)
  {
    conflicts := [];
    var j := i + 1;
    while j < |n.agents|
      invariant i + 1 <= j <= |n.agents|
      invariant conflicts == PairsBefore(n, i, j)
    {
      var pair := DetectPair(n, i, j);
      conflicts := conflicts + pair;
      j := j + 1;
    }
  }

  method DetectPair(n: OpenNode, i: nat, j: nat) returns (conflicts: seq<Conflict>)
    requires ConflictsDefined(n) && i < j < |n.agents|
    ensures conflicts == StepsBefore(n, i, j, MaxLength(n, i, j))
  {
    var path1, path2 := n.paths[i], n.paths[j];
    var maxLength := if |path1| >= |path2| then |path1| else |path2|;
    conflicts := [];
    var step := 1;
    while step < maxLength
      invariant 1 <= step <= maxLength
      invariant conflicts == StepsBefore(n, i, j, step)
    {
      var pos1 := if step < |path1| then path1[step] else path1[|path1| - 1];
      var pos2 := if step < |path2| then path2[step] else path2[|path2| - 1];
      var found: seq<Conflict> := [];
      if pos1 == pos2 {
        if step >= |path1| - 1 && pos1 == n.agents[i].goal {
          found := [Conflict(i, j, Target(pos1, step, i))];
        } else if step >= |path2| - 1 && pos2 == n.agents[j].goal {
          found := [Conflict(i, j, Target(pos2, step, j))];
        } else {
          found := [Conflict(i, j, Vertex(pos1, step))];
        }
      }
      if step < |path1| && step < |path2| {
        var prev1, prev2 := path1[step - 1], path2[step - 1];
        if prev1 == pos2 && prev2 == pos1 {
          found := found + [Conflict(i, j, Edge(pos1, prev1, step))];
        }
      }
      assert found == StepConflicts(n, i, j, step);
      conflicts := conflicts + found;
      step := step + 1;
    }
  }

  // ---------------------------------------------------------------------------
  // Agreement with the detector of src/common/highlevel.rs

  /** The same node seen by the common detector, with no MDDs. */
  function Lift(n: OpenNode): (m: CHL.OpenNode)
    ensures ConflictsDefined(n) ==> CHL.ConflictsDefined(m)
    ensures m.agents == n.agents && m.paths == n.paths
  {
    CHL.OpenNode(n.agents, n.constraints, n.pathLengthConstraints, [], n.paths, n.cost, n.fMins,
                 seq(|n.agents|, _ => None))
  }

  /** No MDD is singleton anywhere; unused, since lifted nodes carry no MDDs. */
  function NoSingleton(): (Mdd, nat, Cell) -> bool {
    (m: Mdd, t: nat, c: Cell) => false
  }

  /**
   * The common form of a conflict: the parked agent of a Target conflict becomes agent 1,
   * and every cardinal type is Unknown.
   */
  function ToCommon(c: Conflict): CHL.Conflict {
    match c.conflictType
    case Vertex(p, t) => CHL.Conflict(c.agent1, c.agent2, CHL.Vertex(p, t), CHL.Unknown)
    case Edge(u, v, t) => CHL.Conflict(c.agent1, c.agent2, CHL.Edge(u, v, t), CHL.Unknown)
    case Target(p, t, e) =>
      if e == c.agent1 then CHL.Conflict(c.agent1, c.agent2, CHL.Target(p, t), CHL.Unknown)
      else CHL.Conflict(c.agent2, c.agent1, CHL.Target(p, t), CHL.Unknown)
  }

  function ToCommonAll(cs: seq<Conflict>): (r: seq<CHL.Conflict>)
    ensures |r| == |cs| && forall k :: 0 <= k < |cs| ==> r[k] == ToCommon(cs[k])
  {
    seq(|cs|, k requires 0 <= k < |cs| => ToCommon(cs[k]))
  }

  /** Agents in index order, and a Target conflict's parked agent is one of the two. */
  predicate Oriented(c: Conflict) {
    c.agent1 < c.agent2 &&
    (c.conflictType.Target? ==> c.conflictType.extendedAgent == c.agent1 || c.conflictType.extendedAgent == c.agent2)
  }

  lemma ToCommonInjective(a: Conflict, b: Conflict)
    requires Oriented(a) && Oriented(b) && ToCommon(a) == ToCommon(b)
    ensures a == b
  {
  }

  lemma ToCommonAllAppend(a: seq<Conflict>, b: seq<Conflict>)
    ensures ToCommonAll(a + b) == ToCommonAll(a) + ToCommonAll(b)
  {
  }

  lemma StepTranslates(n: OpenNode, i: nat, j: nat, s: nat)
    requires ConflictsDefined(n) && i < j < |n.agents| && s >= 1
    ensures ToCommonAll(StepConflicts(n, i, j, s)) == CHL.StepConflicts(Lift(n), i, j, s, NoSingleton())
  {
    var m := Lift(n);
    assert m.mdds[i] == None && m.mdds[j] == None;
  }

  lemma {:induction false} StepsTranslate(n: OpenNode, i: nat, j: nat, s: nat)
    requires ConflictsDefined(n) && i < j < |n.agents| && s >= 1
    ensures ToCommonAll(StepsBefore(n, i, j, s)) == CHL.StepsBefore(Lift(n), i, j, s, NoSingleton())
    decreases s
  {
    if s > 1 {
      StepsTranslate(n, i, j, s - 1);
      StepTranslates(n, i, j, s - 1);
      ToCommonAllAppend(StepsBefore(n, i, j, s - 1), StepConflicts(n, i, j, s - 1));
    }
  }

  /** Every conflict of `cs` is oriented. */
  predicate AllOriented(cs: seq<Conflict>)
    decreases |cs|
  {
    cs == [] || (Oriented(cs[0]) && AllOriented(cs[1..]))
  }

  lemma {:induction false} OrientedJoin(a: seq<Conflict>, b: seq<Conflict>)
    requires AllOriented(a) && AllOriented(b)
    ensures AllOriented(a + b)
    decreases |a|
  {
    if a == [] {
      assert a + b == b;
    } else {
      OrientedJoin(a[1..], b);
      assert (a + b)[0] == a[0] && (a + b)[1..] == a[1..] + b;
    }
  }

  lemma {:induction false} OrientedMembers(cs: seq<Conflict>)
    requires AllOriented(cs)
    ensures forall c :: c in cs ==> Oriented(c)
    decreases |cs|
  {
    if cs != [] {
      OrientedMembers(cs[1..]);
      assert forall c :: c in cs ==> c == cs[0] || c in cs[1..];
    }
  }

  lemma StepOriented(n: OpenNode, i: nat, j: nat, s: nat)
    requires ConflictsDefined(n) && i < j < |n.agents| && s >= 1
    ensures AllOriented(StepConflicts(n, i, j, s))
  {
  }

  lemma {:induction false} StepsOriented(n: OpenNode, i: nat, j: nat, s: nat)
    requires ConflictsDefined(n) && i < j < |n.agents| && s >= 1
    ensures AllOriented(StepsBefore(n, i, j, s))
    decreases s
  {
    if s > 1 {
      StepsOriented(n, i, j, s - 1);
      StepOriented(n, i, j, s - 1);
      OrientedJoin(StepsBefore(n, i, j, s - 1), StepConflicts(n, i, j, s - 1));
    }
  }

  lemma {:induction false} PairsTranslate(n: OpenNode, i: nat, j: nat)
    requires ConflictsDefined(n) && i < j <= |n.agents|
    ensures ToCommonAll(PairsBefore(n, i, j)) == CHL.PairsBefore(Lift(n), i, j, NoSingleton())
    decreases j
  {
    if j > i + 1 {
      PairsTranslate(n, i, j - 1);
      StepsTranslate(n, i, j - 1, MaxLength(n, i, j - 1));
      ToCommonAllAppend(PairsBefore(n, i, j - 1), StepsBefore(n, i, j - 1, MaxLength(n, i, j - 1)));
      assert MaxLength(n, i, j - 1) == CHL.MaxLength(Lift(n), i, j - 1);
    }
  }

  lemma {:induction false} PairsOriented(n: OpenNode, i: nat, j: nat)
    requires ConflictsDefined(n) && i < j <= |n.agents|
    ensures AllOriented(PairsBefore(n, i, j))
    decreases j
  {
    if j > i + 1 {
      PairsOriented(n, i, j - 1);
      StepsOriented(n, i, j - 1, MaxLength(n, i, j - 1));
      OrientedJoin(PairsBefore(n, i, j - 1), StepsBefore(n, i, j - 1, MaxLength(n, i, j - 1)));
    }
  }

  lemma {:induction false} RowsTranslate(n: OpenNode, i: nat)
    requires ConflictsDefined(n) && i <= |n.agents|
    ensures ToCommonAll(RowsBefore(n, i)) == CHL.RowsBefore(Lift(n), i, NoSingleton())
    decreases i
  {
    if i > 0 {
      var m := Lift(n);
      var earlier, row := RowsBefore(n, i - 1), PairsBefore(n, i - 1, |n.agents|);
      assert RowsBefore(n, i) == earlier + row;
      assert CHL.RowsBefore(m, i, NoSingleton())
          == CHL.RowsBefore(m, i - 1, NoSingleton()) + CHL.PairsBefore(m, i - 1, |n.agents|, NoSingleton());
      RowsTranslate(n, i - 1);
      PairsTranslate(n, i - 1, |n.agents|);
      ToCommonAllAppend(earlier, row);
    }
  }

  lemma {:induction false} RowsOriented(n: OpenNode, i: nat)
    requires ConflictsDefined(n) && i <= |n.agents|
    ensures AllOriented(RowsBefore(n, i))
    decreases i
  {
    if i > 0 {
      RowsOriented(n, i - 1);
      PairsOriented(n, i - 1, |n.agents|);
      OrientedJoin(RowsBefore(n, i - 1), PairsBefore(n, i - 1, |n.agents|));
      RowsNext(n, i - 1);
    }
  }

  /**
   * Apart from the Target conflict's agent order and `extended_agent`, this detector finds
   * exactly what the common detector finds on the same paths when no MDD is built.
   */
  lemma ConflictsMatchCommon(n: OpenNode)
    requires ConflictsDefined(n)
    ensures ToCommonAll(Conflicts(n)) == CHL.Conflicts(Lift(n), NoSingleton())
    ensures forall c :: c in Conflicts(n) ==> Oriented(c)
  {
    RowsTranslate(n, |n.agents|);
    RowsOriented(n, |n.agents|);
    OrientedMembers(Conflicts(n));
  }

  /** Agent `k`'s path has ended by `step` and it stands on its goal. */
  predicate FinishedAt(n: OpenNode, k: nat, step: nat)
    requires ConflictsDefined(n) && k < |n.agents|
  {
    step >= |n.paths[k]| - 1 && PaddedAt(n.paths[k], step) == n.agents[k].goal
  }

  /** Every reported conflict is a real one, with a Target's parked agent finished on its goal. */
  lemma ConflictsSound(n: OpenNode, c: Conflict)
    requires ConflictsDefined(n) && c in Conflicts(n)
    ensures Oriented(c) && c.agent2 < |n.agents|
    ensures CHL.Reported(Lift(n), ToCommon(c))
    ensures c.conflictType.Target? ==> FinishedAt(n, c.conflictType.extendedAgent, c.conflictType.timeStep)
  {
    ConflictsMatchCommon(n);
    var k :| 0 <= k < |Conflicts(n)| && Conflicts(n)[k] == c;
    assert ToCommon(c) in CHL.Conflicts(Lift(n), NoSingleton());
    CHL.ConflictsSound(Lift(n), NoSingleton());
  }

  /**
   * Two agents i < j on the same cell at a step 1 <= t < max length are reported as
   * Target(i, j) parked i, else Target(i, j) parked j, else Vertex(i, j).
   */
  lemma SharedCellReported(n: OpenNode, i: nat, j: nat, t: nat)
    requires ConflictsDefined(n) && i < j < |n.agents| && 1 <= t < MaxLength(n, i, j)
    requires PaddedAt(n.paths[i], t) == PaddedAt(n.paths[j], t)
    ensures var p := PaddedAt(n.paths[i], t);
      (if FinishedAt(n, i, t) then Conflict(i, j, Target(p, t, i))
       else if FinishedAt(n, j, t) then Conflict(i, j, Target(p, t, j))
       else Conflict(i, j, Vertex(p, t))) in Conflicts(n)
  {
    var p := PaddedAt(n.paths[i], t);
    var expected := if FinishedAt(n, i, t) then Conflict(i, j, Target(p, t, i))
      else if FinishedAt(n, j, t) then Conflict(i, j, Target(p, t, j))
      else Conflict(i, j, Vertex(p, t));
    var m := Lift(n);
    assert MaxLength(n, i, j) == CHL.MaxLength(m, i, j);
    CHL.SharedCellReported(m, i, j, t, NoSingleton());
    assert m.mdds[i] == None && m.mdds[j] == None;
    assert ToCommon(expected) in CHL.Conflicts(m, NoSingleton());
    FoundInTranslation(n, expected);
  }

  /** Two agents i < j that swap cells between t - 1 and t, both paths still running, are reported as Edge(i, j). */
  lemma SwapReported(n: OpenNode, i: nat, j: nat, t: nat)
    requires ConflictsDefined(n) && i < j < |n.agents| && 1 <= t
    requires t < |n.paths[i]| && t < |n.paths[j]|
    requires n.paths[i][t - 1] == n.paths[j][t] && n.paths[j][t - 1] == n.paths[i][t]
    ensures Conflict(i, j, Edge(n.paths[i][t], n.paths[i][t - 1], t)) in Conflicts(n)
  {
    var expected := Conflict(i, j, Edge(n.paths[i][t], n.paths[i][t - 1], t));
    var m := Lift(n);
    CHL.SwapReported(m, i, j, t, NoSingleton());
    assert m.mdds[i] == None && m.mdds[j] == None;
    assert ToCommon(expected) in CHL.Conflicts(m, NoSingleton());
    FoundInTranslation(n, expected);
  }

  lemma FoundInTranslation(n: OpenNode, c: Conflict)
    requires ConflictsDefined(n) && Oriented(c)
    requires ToCommon(c) in CHL.Conflicts(Lift(n), NoSingleton())
    ensures c in Conflicts(n)
  {
    ConflictsMatchCommon(n);
    var cs := Conflicts(n);
    var k :| 0 <= k < |cs| && ToCommonAll(cs)[k] == ToCommon(c);
    ToCommonInjective(cs[k], c);
  }

  // ---------------------------------------------------------------------------
  // Building the root and the children

  /** A call of `a_star_search`, `focal_a_star_search` or `focal_a_star_double_search` of src/solver/algorithm. */
  datatype Query =
    | AStarQuery(agent: Agent, constraints: set<Constraint>, pathLengthConstraint: nat)
    | FocalQuery(agent: Agent, fMin: nat, subOptimal: real, constraints: set<Constraint>,
                 pathLengthConstraint: nat, paths: seq<Path>)
    | DoubleQuery(agent: Agent, subOptimal: real, constraints: set<Constraint>,
                  pathLengthConstraint: nat, paths: seq<Path>)

  /** Every path a search hands back has at least its start cell. */
  ghost predicate NonEmptyPaths(search: Query -> Option<(Path, nat)>) {
    forall q :: search(q).Some? ==> |search(q).value.0| > 0
  }

  predicate Dispatches(solver: string, lowSubOptimal: Option<real>) {
    CHL.AStarSolver(solver) || (CHL.FocalSolver(solver) && lowSubOptimal.Some?)
  }

  /** The search `new` runs for one agent (src/solver/comm/highlevel.rs:99-112). */
  function RootQuery(solver: string, lowSubOptimal: Option<real>, agent: Agent, paths: seq<Path>): (r: Result<Query, Panic>)
    ensures r.Ok? <==> Dispatches(solver, lowSubOptimal)
    ensures r.Err? ==> r.error == (if CHL.FocalSolver(solver) then UnwrapNone else Unreachable)
    ensures r.Ok? ==> r.value.agent == agent && r.value.constraints == {} && r.value.pathLengthConstraint == 0
    ensures r.Ok? ==> (r.value.FocalQuery? <==> CHL.FocalSolver(solver)) && !r.value.DoubleQuery?
    ensures r.Ok? && r.value.FocalQuery? ==> r.value.fMin == 0 && r.value.paths == paths
  {
    if CHL.AStarSolver(solver) then Ok(AStarQuery(agent, {}, 0))
    else if CHL.FocalSolver(solver) then
      if lowSubOptimal.None? then Err(UnwrapNone)
      else Ok(FocalQuery(agent, 0, lowSubOptimal.value, {}, 0, paths))
    else Err(Unreachable)
  }

  function RootFound(solver: string, lowSubOptimal: Option<real>, search: Query -> Option<(Path, nat)>,
                     agent: Agent, paths: seq<Path>): Option<(Path, nat)>
  {
    var q := RootQuery(solver, lowSubOptimal, agent, paths);
    if q.Err? then None else search(q.value)
  }

  predicate IsRoot(n: OpenNode, agents: seq<Agent>) {
    n.agents == agents && WellFormed(n) &&
    (forall k :: 0 <= k < |agents| ==> n.constraints[k] == {} && n.pathLengthConstraints[k] == 0) &&
    ConflictsDefined(n) && n.conflicts == Conflicts(n)
  }

  /** The searches before `|paths|` found `paths` and the next one finds nothing. */
  predicate SearchFailsAfter(solver: string, lowSubOptimal: Option<real>, search: Query -> Option<(Path, nat)>,
                             agents: seq<Agent>, paths: seq<Path>)
  {
    |paths| < |agents| && Dispatches(solver, lowSubOptimal) &&
    RootFound(solver, lowSubOptimal, search, agents[|paths|], paths).None? &&
    (IdsAreIndices(agents) ==>
      forall k :: 0 <= k < |paths| ==>
        RootFound(solver, lowSubOptimal, search, agents[k], paths[..k]).Some? &&
        RootFound(solver, lowSubOptimal, search, agents[k], paths[..k]).value.0 == paths[k])
  }

  /**
   * The first agent's search fails and the second agent, whose id is 1, is found a path:
   * `new` as written then inserts at index 1 into an empty vector.
   */
  predicate FirstFailsSecondFound(solver: string, lowSubOptimal: Option<real>, search: Query -> Option<(Path, nat)>,
                                  agents: seq<Agent>)
  {
    |agents| >= 2 && agents[1].id == 1 && Dispatches(solver, lowSubOptimal) &&
    RootFound(solver, lowSubOptimal, search, agents[0], []).None? &&
    RootFound(solver, lowSubOptimal, search, agents[1], []).Some?
  }

  /**
   * `HighLevelOpenNode::new` as written: a failed search only clears the `solve` flag and
   * the loop goes on, so a later agent's `paths.insert(agent.id, path)` can be past the end.
   */
  method NewAsWritten(agents: seq<Agent>, lowSubOptimal: Option<real>, solver: string,
                      search: Query -> Option<(Path, nat)>)
    returns (r: Result<Option<OpenNode>, Panic>)
    requires NonEmptyPaths(search)
    ensures |agents| > 0 && !Dispatches(solver, lowSubOptimal) ==>
      r == Err(if CHL.FocalSolver(solver) then UnwrapNone else Unreachable)
    ensures r.Ok? && r.value.Some? ==> IsRoot(r.value.value, agents)
    ensures FirstFailsSecondFound(solver, lowSubOptimal, search, agents) ==> r == Err(IndexOutOfBounds)
  {
    var paths: seq<Path> := [];
    var fMins: seq<nat> := [];
    var totalCost := 0;
    var solve := true;
    var k := 0;
    while k < |agents|
      invariant 0 <= k <= |agents|
      invariant |paths| == |fMins| <= k
      invariant solve ==> |paths| == k
      invariant forall t :: 0 <= t < |paths| ==> |paths[t]| > 0
      invariant totalCost == SumOfCosts(paths)
      invariant k > 0 ==> Dispatches(solver, lowSubOptimal)
      invariant FirstFailsSecondFound(solver, lowSubOptimal, search, agents) ==> k <= 1 && paths == []
    {
      var agent := agents[k];
      var query := RootQuery(solver, lowSubOptimal, agent, paths);
      if query.Err? {
        return Err(query.error);
      }
      var found := search(query.value);
      if found.Some? {
        var (path, fMin) := found.value;
        SumOfCostsInsert(paths, if agent.id <= |paths| then agent.id else 0, path);
        totalCost := totalCost + |path| - 1;
        if agent.id > |paths| {
          return Err(IndexOutOfBounds);
        }
        paths := InsertAt(paths, agent.id, path);
        fMins := fMins + [fMin];
      } else {
        solve := false;
      }
      k := k + 1;
    }
    if solve {
      SumOfCostsNonNegative(paths);
      var start := OpenNode(agents, seq(|agents|, _ => {}), seq(|agents|, _ => 0), [], paths, totalCost, fMins);
      ghost var bare := start;
      start := DetectConflicts(start);
      ConflictsIgnoreRest(bare, start);
      return Ok(Some(start));
    } else {
      return Ok(None);
    }
  }

  /** Appending the path found for the next agent keeps every earlier agent's root search as it was. */
  lemma RootFoundExtends(solver: string, lowSubOptimal: Option<real>, search: Query -> Option<(Path, nat)>,
                         agents: seq<Agent>, paths: seq<Path>, fMins: seq<nat>, path: Path, fMin: nat)
    requires |paths| == |fMins| < |agents|
    requires forall t :: 0 <= t < |paths| ==>
      RootFound(solver, lowSubOptimal, search, agents[t], paths[..t]) == Some((paths[t], fMins[t]))
    requires RootFound(solver, lowSubOptimal, search, agents[|paths|], paths) == Some((path, fMin))
    ensures forall t :: 0 <= t <= |paths| ==>
      RootFound(solver, lowSubOptimal, search, agents[t], (paths + [path])[..t])
        == Some(((paths + [path])[t], (fMins + [fMin])[t]))
  {
    var ps := paths + [path];
    forall t | 0 <= t <= |paths|
      ensures RootFound(solver, lowSubOptimal, search, agents[t], ps[..t]) == Some((ps[t], (fMins + [fMin])[t]))
    {
      if t < |paths| {
        assert ps[..t] == paths[..t];
      } else {
        assert ps[..t] == paths;
      }
    }
  }

  /** `new` returning `None` as soon as one agent's search fails, which is what the `solve` flag is for. */
  method New(agents: seq<Agent>, lowSubOptimal: Option<real>, solver: string,
             search: Query -> Option<(Path, nat)>)
    returns (r: Result<Option<OpenNode>, Panic>)
    requires NonEmptyPaths(search)
    ensures |agents| > 0 && !Dispatches(solver, lowSubOptimal) ==>
      r == Err(if CHL.FocalSolver(solver) then UnwrapNone else Unreachable)
    ensures r == Err(IndexOutOfBounds) ==> !IdsAreIndices(agents)
    ensures IdsAreIndices(agents) && (|agents| == 0 || Dispatches(solver, lowSubOptimal)) ==> r.Ok?
    ensures r.Ok? && r.value.Some? ==> IsRoot(r.value.value, agents)
    ensures r.Ok? && r.value.Some? && IdsAreIndices(agents) ==>
      forall k :: 0 <= k < |agents| ==>
        RootFound(solver, lowSubOptimal, search, agents[k], r.value.value.paths[..k])
          == Some((r.value.value.paths[k], r.value.value.fMins[k]))
    ensures r == Ok(None) ==> exists ps :: SearchFailsAfter(solver, lowSubOptimal, search, agents, ps)
  {
    var paths: seq<Path> := [];
    var fMins: seq<nat> := [];
    var totalCost := 0;
    var k := 0;
    while k < |agents|
      invariant 0 <= k <= |agents|
      invariant |paths| == |fMins| == k
      invariant forall t :: 0 <= t < |paths| ==> |paths[t]| > 0
      invariant totalCost == SumOfCosts(paths)
      invariant k > 0 ==> Dispatches(solver, lowSubOptimal)
      invariant IdsAreIndices(agents) ==>
        forall t :: 0 <= t < k ==>
          RootFound(solver, lowSubOptimal, search, agents[t], paths[..t]) == Some((paths[t], fMins[t]))
    {
      var agent := agents[k];
      var query := RootQuery(solver, lowSubOptimal, agent, paths);
      if query.Err? {
        return Err(query.error);
      }
      var found := search(query.value);
      if found.None? {
        assert SearchFailsAfter(solver, lowSubOptimal, search, agents, paths);
        return Ok(None);
      }
      var (path, fMin) := found.value;
      SumOfCostsInsert(paths, if agent.id <= |paths| then agent.id else 0, path);
      totalCost := totalCost + |path| - 1;
      if agent.id > |paths| {
        return Err(IndexOutOfBounds);
      }
      ghost var before := paths;
      paths := InsertAt(paths, agent.id, path);
      fMins := fMins + [fMin];
      if IdsAreIndices(agents) {
        assert paths == before + [path];
        RootFoundExtends(solver, lowSubOptimal, search, agents, before, fMins[..k], path, fMin);
        assert fMins == fMins[..k] + [fMin];
      }
      k := k + 1;
    }
    SumOfCostsNonNegative(paths);
    var start := OpenNode(agents, seq(|agents|, _ => {}), seq(|agents|, _ => 0), [], paths, totalCost, fMins);
    ghost var bare := start;
    start := DetectConflicts(start);
    ConflictsIgnoreRest(bare, start);
    return Ok(Some(start));
  }

  /** The conflicts of a node depend only on its agents and paths. */
  lemma ConflictsIgnoreRest(m: OpenNode, b: OpenNode)
    requires ConflictsDefined(m) && b.agents == m.agents && b.paths == m.paths
    ensures ConflictsDefined(b) && Conflicts(b) == Conflicts(m)
  {
    ConflictsMatchCommon(m);
    ConflictsMatchCommon(b);
    CHL.ConflictsIgnoreConstraints(Lift(m), Lift(b), NoSingleton());
    ToCommonAllInjective(Conflicts(b), Conflicts(m));
  }

  lemma ToCommonAllInjective(a: seq<Conflict>, b: seq<Conflict>)
    requires (forall c :: c in a ==> Oriented(c)) && (forall c :: c in b ==> Oriented(c))
    requires ToCommonAll(a) == ToCommonAll(b)
    ensures a == b
  {
    assert |a| == |b|;
    forall k | 0 <= k < |a| ensures a[k] == b[k] {
      assert ToCommonAll(a)[k] == ToCommonAll(b)[k];
      ToCommonInjective(a[k], b[k]);
    }
  }

  /** The agent a child replans: `agent_1` when resolving the first side, else `agent_2`. */
  function Chosen(c: Conflict, resolveFirst: bool): nat {
    if resolveFirst then c.agent1 else c.agent2
  }

  /** The constraint sets of a child (src/solver/comm/highlevel.rs:254-297). */
  function NewConstraints(cs: seq<set<Constraint>>, conflict: Conflict, resolveFirst: bool, opTr: bool): seq<set<Constraint>>
    requires Chosen(conflict, resolveFirst) < |cs|
  {
    var a := Chosen(conflict, resolveFirst);
    match conflict.conflictType
    case Vertex(p, t) => CHL.AddTo(cs, a, CHL.Constraint(p, t, false))
    case Edge(u, v, t) => CHL.AddTo(cs, a, CHL.Constraint(if resolveFirst then u else v, t, false))
    case Target(p, t, e) =>
      if opTr && e != a then CHL.AddToAllBut(cs, e, CHL.Constraint(p, t, true))
      else CHL.AddTo(cs, a, CHL.Constraint(p, t, false))
  }

  /** The path-length limits of a child: replanning the parked agent sets its limit to the conflict's time. */
  function NewPathLengthConstraints(plc: seq<nat>, conflict: Conflict, resolveFirst: bool): (r: seq<nat>)
    requires Chosen(conflict, resolveFirst) < |plc|
    ensures |r| == |plc|
    ensures conflict.conflictType.Target? && conflict.conflictType.extendedAgent == Chosen(conflict, resolveFirst) ==>
      r[Chosen(conflict, resolveFirst)] == conflict.conflictType.timeStep
    ensures forall k :: 0 <= k < |plc| && k != Chosen(conflict, resolveFirst) ==> r[k] == plc[k]
    ensures !(conflict.conflictType.Target? && conflict.conflictType.extendedAgent == Chosen(conflict, resolveFirst)) ==>
      r == plc
  {
    var a := Chosen(conflict, resolveFirst);
    match conflict.conflictType
    case Target(_, t, e) => if e == a then plc[a := t] else plc
    case _ => plc
  }

  /**
   * A child only adds constraints, and the replanned agent may no longer be on the
   * conflict cell at the conflict's time (for an edge: u for agent 1, v for agent 2). When
   * target reasoning applies it may not be there at any later time either, the parked
   * agent's own set is unchanged, and every other agent gets the permanent constraint.
   */
  lemma NewConstraintsBlockChosen(cs: seq<set<Constraint>>, conflict: Conflict, resolveFirst: bool, opTr: bool, time: nat)
    requires Chosen(conflict, resolveFirst) < |cs|
    ensures var r := NewConstraints(cs, conflict, resolveFirst, opTr);
      var a := Chosen(conflict, resolveFirst);
      var ct := conflict.conflictType;
      var cell := if ct.Edge? then (if resolveFirst then ct.u else ct.v) else ct.position;
      var reasoning := ct.Target? && opTr && ct.extendedAgent != a;
      |r| == |cs| && (forall k :: 0 <= k < |cs| ==> cs[k] <= r[k]) &&
      (exists c :: c in r[a] && CHL.IsViolated(c, cell, ct.timeStep)) &&
      (reasoning && time >= ct.timeStep ==> exists c :: c in r[a] && CHL.IsViolated(c, cell, time)) &&
      (reasoning && ct.extendedAgent < |cs| ==> r[ct.extendedAgent] == cs[ct.extendedAgent]) &&
      (reasoning ==> forall k :: 0 <= k < |cs| && k != ct.extendedAgent ==>
        CHL.Constraint(ct.position, ct.timeStep, true) in r[k]) &&
      (!reasoning ==> forall k :: 0 <= k < |cs| && k != a ==> r[k] == cs[k])
  {
    var r := NewConstraints(cs, conflict, resolveFirst, opTr);
    var a := Chosen(conflict, resolveFirst);
    match conflict.conflictType
    case Vertex(p, t) =>
      assert CHL.Constraint(p, t, false) in r[a];
    case Edge(u, v, t) =>
      assert CHL.Constraint(if resolveFirst then u else v, t, false) in r[a];
    case Target(p, t, e) =>
      if opTr && e != a {
        assert CHL.Constraint(p, t, true) in r[a];
      } else {
        assert CHL.Constraint(p, t, false) in r[a];
      }
  }

  /**
   * On a Target conflict whose second agent is replanned, the constraints agree with the
   * corrected common rule applied to the common form of the conflict.
   */
  lemma NewConstraintsMatchCorrectedCommon(cs: seq<set<Constraint>>, conflict: Conflict, resolveFirst: bool)
    requires Oriented(conflict) && conflict.agent2 < |cs|
    requires conflict.conflictType.Target? && conflict.conflictType.extendedAgent != Chosen(conflict, resolveFirst)
    ensures NewConstraints(cs, conflict, resolveFirst, true) == CHL.NewConstraints(cs, ToCommon(conflict), false, true)
  {
  }

  /** The search a child runs for the replanned agent (src/solver/comm/highlevel.rs:304-332). */
  function UpdateQuery(solver: string, lowSubOptimal: Option<real>, n: OpenNode, a: nat,
                       cs: seq<set<Constraint>>, plc: seq<nat>): (r: Result<Query, Panic>)
    requires a < |n.agents| && a < |n.fMins| && a < |cs| && a < |plc|
    ensures r.Ok? <==> Dispatches(solver, lowSubOptimal)
    ensures r.Err? ==> r.error == (if CHL.FocalSolver(solver) then UnwrapNone else Unreachable)
    ensures r.Ok? ==> r.value.agent == n.agents[a] && r.value.constraints == cs[a]
    ensures r.Ok? ==> r.value.pathLengthConstraint == plc[a]
    ensures r.Ok? ==> (r.value.DoubleQuery? <==> solver == "decbs")
    ensures r.Ok? && r.value.FocalQuery? ==> r.value.fMin == n.fMins[a] && r.value.paths == n.paths
    ensures r.Ok? && r.value.DoubleQuery? ==> r.value.paths == n.paths
  {
    var agent := n.agents[a];
    if CHL.AStarSolver(solver) then Ok(AStarQuery(agent, cs[a], plc[a]))
    else if CHL.FocalSolver(solver) then
      if lowSubOptimal.None? then Err(UnwrapNone)
      else if solver == "decbs" then Ok(DoubleQuery(agent, lowSubOptimal.value, cs[a], plc[a], n.paths))
      else Ok(FocalQuery(agent, n.fMins[a], lowSubOptimal.value, cs[a], plc[a], n.paths))
    else Err(Unreachable)
  }

  function ChildFound(n: OpenNode, conflict: Conflict, resolveFirst: bool, lowSubOptimal: Option<real>,
                      solver: string, opTr: bool, search: Query -> Option<(Path, nat)>): Option<(Path, nat)>
    requires WellFormed(n) && Chosen(conflict, resolveFirst) < |n.agents|
  {
    var a := Chosen(conflict, resolveFirst);
    var q := UpdateQuery(solver, lowSubOptimal, n, a,
                         NewConstraints(n.constraints, conflict, resolveFirst, opTr),
                         NewPathLengthConstraints(n.pathLengthConstraints, conflict, resolveFirst));
    if q.Err? then None else search(q.value)
  }

  /** `m` is the child of `n` whose replanned agent got `found`. */
  predicate IsChild(n: OpenNode, m: OpenNode, conflict: Conflict, resolveFirst: bool, opTr: bool, found: (Path, nat))
    requires WellFormed(n) && Chosen(conflict, resolveFirst) < |n.agents|
  {
    var a := Chosen(conflict, resolveFirst);
    m.agents == n.agents &&
    m.constraints == NewConstraints(n.constraints, conflict, resolveFirst, opTr) &&
    m.pathLengthConstraints == NewPathLengthConstraints(n.pathLengthConstraints, conflict, resolveFirst) &&
    m.paths == n.paths[a := found.0] && m.fMins == n.fMins[a := found.1] &&
    m.cost == n.cost - (|n.paths[a]| - 1) + (|found.0| - 1) &&
    ConflictsDefined(m) && m.conflicts == Conflicts(m) && WellFormed(m)
  }

  /** The constraint part of `update_constraint`, on clones of the parent's sets and limits. */
  method AddConflictConstraints(cs: seq<set<Constraint>>, plc: seq<nat>, conflict: Conflict, resolveFirst: bool, opTr: bool)
    returns (newConstraints: seq<set<Constraint>>, newPathLengthConstraints: seq<nat>)
    requires Chosen(conflict, resolveFirst) < |cs| && Chosen(conflict, resolveFirst) < |plc|
    ensures newConstraints == NewConstraints(cs, conflict, resolveFirst, opTr)
    ensures newPathLengthConstraints == NewPathLengthConstraints(plc, conflict, resolveFirst)
  {
    newConstraints := cs;
    newPathLengthConstraints := plc;
    var a := Chosen(conflict, resolveFirst);
    match conflict.conflictType {
      case Vertex(position, timeStep) =>
        newConstraints := newConstraints[a := newConstraints[a] + {CHL.Constraint(position, timeStep, false)}];
      case Edge(u, v, timeStep) =>
        var position := if resolveFirst then u else v;
        newConstraints := newConstraints[a := newConstraints[a] + {CHL.Constraint(position, timeStep, false)}];
      case Target(position, timeStep, extendedAgent) =>
        if opTr && extendedAgent != a {
          var k := 0;
          while k < |newConstraints|
            invariant 0 <= k <= |newConstraints| == |cs|
            invariant forall t :: 0 <= t < |cs| ==>
              newConstraints[t] == if t < k && t != extendedAgent then cs[t] + {CHL.Constraint(position, timeStep, true)}
                                   else cs[t]
          {
            if k != extendedAgent {
              newConstraints := newConstraints[k := newConstraints[k] + {CHL.Constraint(position, timeStep, true)}];
            }
            k := k + 1;
          }
        } else {
          newConstraints := newConstraints[a := newConstraints[a] + {CHL.Constraint(position, timeStep, false)}];
        }
        if extendedAgent == a {
          newPathLengthConstraints := newPathLengthConstraints[a := timeStep];
        }
    }
    assert newConstraints == NewConstraints(cs, conflict, resolveFirst, opTr);
  }

  /** `HighLevelOpenNode::update_constraint`. */
  method UpdateConstraint(n: OpenNode, conflict: Conflict, resolveFirst: bool, lowSubOptimal: Option<real>,
                          solver: string, opTr: bool, search: Query -> Option<(Path, nat)>)
    returns (r: Result<Option<OpenNode>, Panic>)
    requires WellFormed(n) && conflict.agent1 < |n.agents| && conflict.agent2 < |n.agents|
    requires NonEmptyPaths(search)
    ensures r.Ok? <==> Dispatches(solver, lowSubOptimal)
    ensures r.Err? ==> r.error == (if CHL.FocalSolver(solver) then UnwrapNone else Unreachable)
    ensures r.Ok? ==> (r.value.None? <==> ChildFound(n, conflict, resolveFirst, lowSubOptimal, solver, opTr, search).None?)
    ensures r.Ok? && r.value.Some? ==>
      IsChild(n, r.value.value, conflict, resolveFirst, opTr,
              ChildFound(n, conflict, resolveFirst, lowSubOptimal, solver, opTr, search).value)
  {
    var newPaths := n.paths;
    var newFMins := n.fMins;
    var a := Chosen(conflict, resolveFirst);
    var newConstraints, newPathLengthConstraints := AddConflictConstraints(n.constraints, n.pathLengthConstraints,
                                                                          conflict, resolveFirst, opTr);
    var query := UpdateQuery(solver, lowSubOptimal, n, a, newConstraints, newPathLengthConstraints);
    if query.Err? {
      return Err(query.error);
    }
    var solution := search(query.value);
    if solution.None? {
      return Ok(None);
    }
    var (newPath, newFMin) := solution.value;
    var oldAgentCost := |newPaths[a]| - 1;
    var newAgentCost := |newPath| - 1;
    SumOfCostsUpdate(n.paths, a, newPath);
    newPaths := newPaths[a := newPath];
    var newCost := n.cost - oldAgentCost + newAgentCost;
    newFMins := newFMins[a := newFMin];
    SumOfCostsNonNegative(newPaths);
    var node := OpenNode(n.agents, newConstraints, newPathLengthConstraints, [], newPaths, newCost, newFMins);
    ghost var bare := node;
    node := DetectConflicts(node);
    ConflictsIgnoreRest(bare, node);
    return Ok(Some(node));
  }

  /** `update_bypass_path`: the parent with one agent's path and the given conflicts. */
  function UpdateBypassPath(n: OpenNode, newPath: Path, newConflicts: seq<Conflict>, a: nat): (r: OpenNode)
    requires a < |n.paths|
    ensures r.constraints == n.constraints && r.pathLengthConstraints == n.pathLengthConstraints
    ensures r.cost == n.cost && r.fMins == n.fMins && r.agents == n.agents
  {
    n.(paths := n.paths[a := newPath], conflicts := newConflicts)
  }

  /**
   * The bypass node keeps the parent's cost, so it stays well formed exactly when the new
   * path is as long as the one it replaces.
   */
  lemma BypassPathKeepsCostIffSameLength(n: OpenNode, newPath: Path, newConflicts: seq<Conflict>, a: nat)
    requires WellFormed(n) && a < |n.paths| && |newPath| > 0
    ensures WellFormed(UpdateBypassPath(n, newPath, newConflicts, a)) <==> |newPath| == |n.paths[a]|
  {
    SumOfCostsUpdate(n.paths, a, newPath);
  }

  /** Bypassing with a child's path and conflicts gives conflicts that match the bypass node's own paths. */
  lemma BypassPathConflictsMatch(n: OpenNode, child: OpenNode, conflict: Conflict, resolveFirst: bool, opTr: bool,
                                 found: (Path, nat))
    requires WellFormed(n) && Chosen(conflict, resolveFirst) < |n.agents|
    requires IsChild(n, child, conflict, resolveFirst, opTr, found)
    ensures var a := Chosen(conflict, resolveFirst);
      var b := UpdateBypassPath(n, child.paths[a], child.conflicts, a);
      b.paths == child.paths && ConflictsDefined(b) && b.conflicts == Conflicts(b)
  {
    var a := Chosen(conflict, resolveFirst);
    var b := UpdateBypassPath(n, child.paths[a], child.conflicts, a);
    assert b.paths == child.paths;
    ConflictsIgnoreRest(child, b);
  }
}
