/**
  The earlier hazard record of majormajor/hazard.py, which measures how two
  string deletions overlap.

  The base op is the past deletion, the conflict op the one transformed
  against it. The overlap fields exist only when both ops are string
  deletions; reading them otherwise raises AttributeError in Python, which
  the model shows as an absent `overlap`.
*/
module OverlapHazard {
  import opened Wrappers
  import opened Json

  /** The range `[offset, offset + count)` that a string deletion removes, and where. */
  datatype DeleteRange = DeleteRange(path: Path, offset: int, count: int)

  /** What the constructor reads from one op: the op, its changeset, the changeset's ops, and its range when it is a string delete. */
  datatype Side<O, C> = Side(op: O, cs: Option<C>, csOps: seq<O>, stringDelete: Option<DeleteRange>)

  datatype Overlap = Overlap(
    baseOffset: int, baseCount: int,
    conflictOffset: int, conflictCount: int,
    rangeStart: int, rangeEnd: int, rangeSize: int,
    minOffsetForHazardApplication: int,
    stringInsertOffsetShift: int)

  datatype OverlapHazard<O, C> = OverlapHazard(
    baseOp: O, conflictOp: O,
    baseCs: Option<C>, conflictCs: Option<C>,
    conflictOpIndex: Option<nat>, baseOpIndex: Option<nat>,
    overlap: Option<Overlap>)

  function Min(a: int, b: int): int { if a <= b then a else b }

  function Max(a: int, b: int): int { if a >= b then a else b }

  /** Python's `list.index`: the first position of `x`, or None (a ValueError) when it is absent. */
  function IndexOf<T(==)>(xs: seq<T>, x: T): (r: Option<nat>)
    ensures r.None? <==> x !in xs
    ensures r.Some? ==> r.value < |xs| && xs[r.value] == x && x !in xs[..r.value]
  {
    if |xs| == 0 then None
    else if xs[0] == x then Some(0)
    else match IndexOf(xs[1..], x)
      case None => None
      case Some(i) => assert xs[1..][..i] == xs[1..i + 1]; Some(i + 1)
  }

  /** `calculate_hazard_info` for two string deletions (hazard.py:36-56). */
  function CalculateOverlap(base: DeleteRange, conflict: DeleteRange): (o: Overlap)
    ensures o.minOffsetForHazardApplication == conflict.offset
    ensures o.stringInsertOffsetShift == conflict.count - o.rangeSize
    ensures o.rangeSize == o.rangeEnd - o.rangeStart
  {
    var bre := base.offset + base.count;
    var cre := conflict.offset + conflict.count;
    Overlap(base.offset, base.count, conflict.offset, conflict.count,
            Max(base.offset, conflict.offset), Min(bre, cre), Min(bre, cre) - Max(base.offset, conflict.offset),
            conflict.offset, conflict.count - (Min(bre, cre) - Max(base.offset, conflict.offset)))
  }

  /**
    The constructor (hazard.py:22-34). It fails, as `list.index` does, when an
    op is missing from its own changeset's op list; the conflict op is looked
    up first.
  */
  function NewOverlapHazard<O(==), C>(base: Side<O, C>, conflict: Side<O, C>): (r: Result<OverlapHazard<O, C>, string>)
    ensures r.Err? <==> (conflict.cs.Some? && conflict.op !in conflict.csOps) || (base.cs.Some? && base.op !in base.csOps)
    ensures r.Ok? ==> r.value.baseOp == base.op && r.value.conflictOp == conflict.op
    ensures r.Ok? ==> r.value.baseCs == base.cs && r.value.conflictCs == conflict.cs
    ensures r.Ok? ==> (r.value.conflictOpIndex.Some? <==> conflict.cs.Some?)
    ensures r.Ok? && conflict.cs.Some? ==>
              r.value.conflictOpIndex.value < |conflict.csOps| && conflict.csOps[r.value.conflictOpIndex.value] == conflict.op
    ensures r.Ok? ==> (r.value.baseOpIndex.Some? <==> base.cs.Some?)
    ensures r.Ok? && base.cs.Some? ==>
              r.value.baseOpIndex.value < |base.csOps| && base.csOps[r.value.baseOpIndex.value] == base.op
    ensures r.Ok? ==> (r.value.overlap.Some? <==> base.stringDelete.Some? && conflict.stringDelete.Some?)
  {
    var ci := if conflict.cs.Some? then IndexOf(conflict.csOps, conflict.op) else None;
    var bi := if base.cs.Some? then IndexOf(base.csOps, base.op) else None;
    if conflict.cs.Some? && ci.None? then Err("ValueError: conflict op is not in its changeset")
    else if base.cs.Some? && bi.None? then Err("ValueError: base op is not in its changeset")
    else
      Ok(OverlapHazard(base.op, conflict.op, base.cs, conflict.cs, ci, bi,
                       if base.stringDelete.Some? && conflict.stringDelete.Some?
                       then Some(CalculateOverlap(base.stringDelete.value, conflict.stringDelete.value))
                       else None))
  }

  /** Position `i` is removed by the deletion. */
  predicate Removes(r: DeleteRange, i: int) {
    r.offset <= i < r.offset + r.count
  }

  /** Position `i` lies in the computed overlap range. */
  predicate InOverlap(o: Overlap, i: int) {
    o.rangeStart <= i < o.rangeEnd
  }

  /**
    The overlap range is exactly the set of positions both deletions remove;
    its size is positive exactly when they share a position, and zero or
    negative (the source does not clamp it) when they share none.
  */
  lemma OverlapIsIntersection(base: DeleteRange, conflict: DeleteRange)
    ensures var o := CalculateOverlap(base, conflict);
      && (forall i :: InOverlap(o, i) <==> Removes(base, i) && Removes(conflict, i))
      && (o.rangeSize > 0 <==> exists i :: Removes(base, i) && Removes(conflict, i))
  {
    var o := CalculateOverlap(base, conflict);
    if o.rangeSize > 0 {
      assert Removes(base, o.rangeStart) && Removes(conflict, o.rangeStart);
    }
  }

  /** The overlap does not depend on which deletion is the base, apart from the conflict-side fields. */
  lemma OverlapSymmetric(a: DeleteRange, b: DeleteRange)
    ensures CalculateOverlap(a, b).rangeStart == CalculateOverlap(b, a).rangeStart
    ensures CalculateOverlap(a, b).rangeEnd == CalculateOverlap(b, a).rangeEnd
    ensures CalculateOverlap(a, b).rangeSize == CalculateOverlap(b, a).rangeSize
  {
  }

  /** Deletions (3,3) and (5,4) overlap on [5,6); disjoint ones give a negative size, as the source does not clamp. */
  lemma OverlapExamples()
    ensures CalculateOverlap(DeleteRange([], 3, 3), DeleteRange([], 5, 4)).rangeSize == 1
    ensures CalculateOverlap(DeleteRange([], 3, 3), DeleteRange([], 5, 4)).stringInsertOffsetShift == 3
    ensures CalculateOverlap(DeleteRange([], 0, 2), DeleteRange([], 5, 1)).rangeSize == -3
  {
  }

  /** `is_string_delete_range_overlap_hazard` (hazard.py:79-81), on the ops' ranges at the time of the call. */
  predicate IsStringDeleteRangeOverlapHazard(base: Option<DeleteRange>, conflict: Option<DeleteRange>) {
    base.Some? && conflict.Some? && base.value.path == conflict.value.path
  }

  /** `get_base_op_index` as written (hazard.py:70-71): it returns the conflict op's index. */
  function GetBaseOpIndexAsWritten<O, C>(h: OverlapHazard<O, C>): (r: Option<nat>)
    ensures r == h.conflictOpIndex
  {
    h.conflictOpIndex
  }

  /** The base op's index, which the getter's name promises. */
  function GetBaseOpIndex<O, C>(h: OverlapHazard<O, C>): (r: Option<nat>)
    ensures r == h.baseOpIndex
  {
    h.baseOpIndex
  }

  /** The base op's index names the base op's first position in its own changeset's op list, whatever the conflict op's is. */
  lemma GetBaseOpIndexIsBasePosition<O, C>(base: Side<O, C>, conflict: Side<O, C>)
    ensures var r := NewOverlapHazard(base, conflict);
      r.Ok? && base.cs.Some? ==> GetBaseOpIndex(r.value) == IndexOf(base.csOps, base.op)
                                 && base.csOps[GetBaseOpIndex(r.value).value] == base.op
  {
  }

  /** The getter as written reports the conflict op's position even when the base op sits elsewhere in its changeset. */
  lemma GetBaseOpIndexAsWrittenDiffers()
    ensures var base := Side(1, Some(10), [0, 1], None);
            var conflict := Side(2, Some(20), [2], None);
            var r := NewOverlapHazard<int, int>(base, conflict);
      && r.Ok?
      && GetBaseOpIndexAsWritten(r.value) == Some(0)
      && GetBaseOpIndex(r.value) == Some(1)
  {
    var base := Side(1, Some(10), [0, 1], None);
    var conflict := Side(2, Some(20), [2], None);
    var r := NewOverlapHazard<int, int>(base, conflict);
    assert IndexOf([0, 1], 1) == Some(1) by {
      assert IndexOf([0, 1][1..], 1) == Some(0) by { assert [0, 1][1..] == [1]; }
    }
  }
}
