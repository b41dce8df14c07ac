/**
 * The low-level search node of src/common/lowlevel.rs and the two orders the open and
 * focal lists of the focal search keep it in. The node is shared between the two
 * wrappers and never changed through them, so each wrapper is modelled as holding the
 * node's value.
 */
module CommonLowLevel {
  import opened Ordering
  import opened Common

  datatype LowLevelNode = LowLevelNode(position: Cell, fOpenCost: nat, fFocalCost: nat, gCost: nat, timeStep: nat)

  datatype OpenOrderWrapper = OpenOrderWrapper(node: LowLevelNode)

  datatype FocalOrderWrapper = FocalOrderWrapper(node: LowLevelNode)

  /** `Ord for OpenOrderWrapper` as a key: f_open ascending, g descending, then position. */
  function OpenKey(w: OpenOrderWrapper): Key {
    KSeq([KNat(w.node.fOpenCost), KNat(0 - (w.node.gCost as int)), CellKey(w.node.position)])
  }

  /** `Ord for FocalOrderWrapper` as a key: f_focal, f_open, g descending, then position. */
  function FocalKey(w: FocalOrderWrapper): Key {
    KSeq([KNat(w.node.fFocalCost), KNat(w.node.fOpenCost), KNat(0 - (w.node.gCost as int)), CellKey(w.node.position)])
  }

  function CmpOpen(a: OpenOrderWrapper, b: OpenOrderWrapper): Ordering { CmpKey(OpenKey(a), OpenKey(b)) }

  function CmpFocal(a: FocalOrderWrapper, b: FocalOrderWrapper): Ordering { CmpKey(FocalKey(a), FocalKey(b)) }

  /** `PartialEq for OpenOrderWrapper`: position and g only. */
  predicate OpenEq(a: OpenOrderWrapper, b: OpenOrderWrapper) {
    a.node.position == b.node.position && a.node.gCost == b.node.gCost
  }

  /** `PartialEq for FocalOrderWrapper`: position, g and f_focal. */
  predicate FocalEq(a: FocalOrderWrapper, b: FocalOrderWrapper) {
    a.node.position == b.node.position && a.node.gCost == b.node.gCost && a.node.fFocalCost == b.node.fFocalCost
  }

  /** The open order is lexicographic on (f_open ascending, g descending, position ascending). */
  lemma OpenOrderLexicographic(a: OpenOrderWrapper, b: OpenOrderWrapper)
    ensures a.node.fOpenCost < b.node.fOpenCost ==> CmpOpen(a, b) == Less
    ensures a.node.fOpenCost == b.node.fOpenCost && a.node.gCost > b.node.gCost ==> CmpOpen(a, b) == Less
    ensures a.node.fOpenCost == b.node.fOpenCost && a.node.gCost == b.node.gCost ==>
      CmpOpen(a, b) == CmpKey(CellKey(a.node.position), CellKey(b.node.position))
    ensures CmpOpen(a, b) == Equal <==>
      a.node.fOpenCost == b.node.fOpenCost && a.node.gCost == b.node.gCost && a.node.position == b.node.position
  {
    var xs, ys := OpenKey(a).items, OpenKey(b).items;
    LexStep(xs, ys);
    LexStep(xs[1..], ys[1..]);
    LexStep(xs[2..], ys[2..]);
    CmpKeyEqual(OpenKey(a), OpenKey(b));
    CmpKeyEqual(CellKey(a.node.position), CellKey(b.node.position));
  }

  /** The focal order is lexicographic on (f_focal, f_open, g descending, position). */
  lemma FocalOrderLexicographic(a: FocalOrderWrapper, b: FocalOrderWrapper)
    ensures a.node.fFocalCost < b.node.fFocalCost ==> CmpFocal(a, b) == Less
    ensures a.node.fFocalCost == b.node.fFocalCost && a.node.fOpenCost < b.node.fOpenCost ==> CmpFocal(a, b) == Less
    ensures a.node.fFocalCost == b.node.fFocalCost && a.node.fOpenCost == b.node.fOpenCost && a.node.gCost > b.node.gCost
      ==> CmpFocal(a, b) == Less
    ensures CmpFocal(a, b) == Equal <==>
      a.node.fFocalCost == b.node.fFocalCost && a.node.fOpenCost == b.node.fOpenCost &&
      a.node.gCost == b.node.gCost && a.node.position == b.node.position
  {
    var xs, ys := FocalKey(a).items, FocalKey(b).items;
    LexStep(xs, ys);
    LexStep(xs[1..], ys[1..]);
    LexStep(xs[2..], ys[2..]);
    CmpKeyEqual(FocalKey(a), FocalKey(b));
  }

  /**
   * When f_open is a function of position and g (the heuristic of the position plus g),
   * open equality and an Equal comparison coincide.
   */
  lemma OpenEqAgreesWithOrder(a: OpenOrderWrapper, b: OpenOrderWrapper, f: (Cell, nat) -> nat)
    requires a.node.fOpenCost == f(a.node.position, a.node.gCost)
    requires b.node.fOpenCost == f(b.node.position, b.node.gCost)
    ensures OpenEq(a, b) <==> CmpOpen(a, b) == Equal
  {
    OpenOrderLexicographic(a, b);
  }

  /** The same holds for focal equality. */
  lemma FocalEqAgreesWithOrder(a: FocalOrderWrapper, b: FocalOrderWrapper, f: (Cell, nat) -> nat)
    requires a.node.fOpenCost == f(a.node.position, a.node.gCost)
    requires b.node.fOpenCost == f(b.node.position, b.node.gCost)
    ensures FocalEq(a, b) <==> CmpFocal(a, b) == Equal
  {
    FocalOrderLexicographic(a, b);
  }

  /** Without that, open equality can hold between nodes the order tells apart. */
  lemma OpenEqWeakerThanOrder(p: Cell)
    ensures var a, b := OpenOrderWrapper(LowLevelNode(p, 1, 0, 0, 0)), OpenOrderWrapper(LowLevelNode(p, 2, 0, 0, 0));
      OpenEq(a, b) && CmpOpen(a, b) == Less
  {
    var a, b := OpenOrderWrapper(LowLevelNode(p, 1, 0, 0, 0)), OpenOrderWrapper(LowLevelNode(p, 2, 0, 0, 0));
    OpenOrderLexicographic(a, b);
  }

  /** `create_open_focal_node`: one node, seen by both wrappers. */
  function CreateOpenFocalNode(position: Cell, fOpenCost: nat, fFocalCost: nat, gCost: nat, timeStep: nat)
    : (r: (OpenOrderWrapper, FocalOrderWrapper))
    ensures r.0.node == r.1.node
    ensures r.0.node.position == position && r.0.node.fOpenCost == fOpenCost &&
      r.0.node.fFocalCost == fFocalCost && r.0.node.gCost == gCost && r.0.node.timeStep == timeStep
  {
    var node := LowLevelNode(position, fOpenCost, fFocalCost, gCost, timeStep);
    (OpenOrderWrapper(node), FocalOrderWrapper(node))
  }

  /** `create_open_node`: f_focal is 0. */
  function CreateOpenNode(position: Cell, fOpenCost: nat, gCost: nat, timeStep: nat): (r: OpenOrderWrapper)
    ensures r.node.fFocalCost == 0
    ensures r == CreateOpenFocalNode(position, fOpenCost, 0, gCost, timeStep).0
  {
    OpenOrderWrapper(LowLevelNode(position, fOpenCost, 0, gCost, timeStep))
  }

  /** `create_focal_node`. */
  function CreateFocalNode(position: Cell, fOpenCost: nat, fFocalCost: nat, gCost: nat, timeStep: nat): (r: FocalOrderWrapper)
    ensures r == CreateOpenFocalNode(position, fOpenCost, fFocalCost, gCost, timeStep).1
  {
    FocalOrderWrapper(LowLevelNode(position, fOpenCost, fFocalCost, gCost, timeStep))
  }
}
