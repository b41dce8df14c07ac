/** The low-level node of the older searches (src/solver/comm/lowlevel.rs), ordered by f cost alone. */
module CommLowLevel {
  import opened Wrappers
  import opened Ordering
  import opened Common

  datatype LowLevelNode = LowLevelNode(position: Cell, fCost: nat, gCost: nat, hOpenCost: nat,
                                       hFocalCost: Option<nat>, time: nat)

  /** `Ord for LowLevelNode`: the f costs compared and reversed. */
  function Cmp(a: LowLevelNode, b: LowLevelNode): Ordering {
    Reverse(CmpNat(a.fCost, b.fCost))
  }

  /** A smaller f cost ranks greater, so the max-heap pops the lowest f first; equal f compares Equal. */
  lemma OrderReversedOnF(a: LowLevelNode, b: LowLevelNode)
    ensures a.fCost < b.fCost <==> Cmp(a, b) == Greater
    ensures a.fCost > b.fCost <==> Cmp(a, b) == Less
    ensures a.fCost == b.fCost <==> Cmp(a, b) == Equal
  {
  }

  /** The derived equality compares every field, so an Equal comparison does not imply `==`. */
  lemma EqualOrderingNotEquality(p: Cell, q: Cell)
    requires p != q
    ensures var a, b := LowLevelNode(p, 3, 1, 2, None, 1), LowLevelNode(q, 3, 0, 3, Some(2), 0);
      Cmp(a, b) == Equal && a != b
  {
  }
}
