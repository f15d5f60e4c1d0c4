/**
  The hazard record of majormajor/hazards/hazard.py.

  A hazard is created when an operation (the conflict op) is transformed
  against a past operation (the base op) and finds that the base op has to be
  shifted for every later operation that already knows the conflict op. It
  only stores the shifts; it computes nothing.

  The record is generic in the operation type `O` and the changeset type `C`,
  so that it sits below both. An absent shift is Python's None.
*/
module Hazards {
  import opened Wrappers

  datatype Hazard<O, C> = Hazard(
    baseOp: O,
    conflictOp: O,
    interbranchOp: Option<O>,
    pathShift: Option<int>,
    offsetShift: Option<int>,
    valShift: Option<int>,
    noopShift: bool,
    baseCs: C,
    conflictCs: C,
    interbranchCs: Option<C>)
  {
    predicate IsPathHazard() { pathShift.Some? }

    predicate IsOffsetHazard() { offsetShift.Some? }

    predicate IsValHazard() { valShift.Some? }

    predicate IsNoopHazard() { noopShift }

    predicate IsInterbranchHazard() { interbranchOp.Some? }

    /** The interbranch op (when there is one) followed by the conflict op (hazard.py:60-64). */
    function InterbranchConflictOps(): (r: seq<O>)
      ensures |r| == if IsInterbranchHazard() then 2 else 1
      ensures r[|r| - 1] == conflictOp
      ensures IsInterbranchHazard() ==> r[0] == interbranchOp.value
    {
      if interbranchOp.Some? then [interbranchOp.value, conflictOp] else [conflictOp]
    }
  }

  /**
    The constructor (hazard.py:30-52). The changesets are those of the base,
    conflict and interbranch ops, which the caller reads from the ops.
  */
  function NewHazard<O, C>(baseOp: O, baseCs: C, conflictOp: O, conflictCs: C,
                           interbranch: Option<(O, C)>,
                           pathShift: Option<int>, offsetShift: Option<int>, valShift: Option<int>,
                           noopShift: bool): (h: Hazard<O, C>)
    ensures h.baseOp == baseOp && h.conflictOp == conflictOp
    ensures h.baseCs == baseCs && h.conflictCs == conflictCs
    ensures h.IsPathHazard() <==> pathShift.Some?
    ensures h.IsOffsetHazard() <==> offsetShift.Some?
    ensures h.IsValHazard() <==> valShift.Some?
    ensures h.IsNoopHazard() == noopShift
    ensures h.IsInterbranchHazard() <==> interbranch.Some?
    ensures interbranch.None? ==> h.interbranchCs.None?
    ensures interbranch.Some? ==> h.interbranchOp == Some(interbranch.value.0) && h.interbranchCs == Some(interbranch.value.1)
  {
    Hazard(baseOp, conflictOp,
           if interbranch.Some? then Some(interbranch.value.0) else None,
           pathShift, offsetShift, valShift, noopShift,
           baseCs, conflictCs,
           if interbranch.Some? then Some(interbranch.value.1) else None)
  }

  /** The hazard of a transformation that only shifts offsets, as the string and array rules create it. */
  function OffsetHazardOf<O, C>(baseOp: O, baseCs: C, conflictOp: O, conflictCs: C, shift: int): (h: Hazard<O, C>)
    ensures h.IsOffsetHazard() && !h.IsValHazard() && !h.IsPathHazard() && !h.IsNoopHazard()
    ensures h.offsetShift == Some(shift)
    ensures h.InterbranchConflictOps() == [conflictOp]
  {
    NewHazard(baseOp, baseCs, conflictOp, conflictCs, None, None, Some(shift), None, false)
  }

  /** The hazard of a transformation that only shifts the value (an insertion swallowed by a deletion). */
  function ValHazardOf<O, C>(baseOp: O, baseCs: C, conflictOp: O, conflictCs: C, shift: int): (h: Hazard<O, C>)
    ensures h.IsValHazard() && !h.IsOffsetHazard() && !h.IsPathHazard() && !h.IsNoopHazard()
    ensures h.valShift == Some(shift)
    ensures h.InterbranchConflictOps() == [conflictOp]
  {
    NewHazard(baseOp, baseCs, conflictOp, conflictCs, None, None, None, Some(shift), false)
  }

  /** The shift of an absent entry counts as zero. */
  function ShiftOrZero(s: Option<int>): int {
    if s.Some? then s.value else 0
  }
}
