/**
  What the hazards recorded by `ot` are for: a later operation, transformed
  against a past string operation shifted by the hazard it left there, edits
  the text consistently with the past operation.

  Each lemma starts from a rule applied to an operation (the conflict op) and
  a past operation (the base op), records the hazard the rule reports on the
  base op, shifts the base op by it as `get_properties_shifted_by_hazards`
  does, and shows that the two edits commute.
*/
module HazardConvergence {
  import opened Wrappers
  import opened Json
  import opened Splice
  import opened StringRules
  import opened HazardLists
  import opened Ops

  /** The hazard a rule reports, recorded on the base op as a list of zero or one hazards. */
  function RecordedHazards(base: Op, baseCs: object?, conflict: Op, conflictCs: object?, s: Shift): (hs: seq<OpHazard>)
    ensures |hs| <= 1
    ensures OffsetShiftSum(hs) == OffsetShiftOf(s) && ValShiftSum(hs) == ValShiftOf(s)
  {
    if s == NoHazard then [] else
      SumsOfOneHazard(base, baseCs, conflict, conflictCs, s);
      Listed(HazardFromShift(base, baseCs, conflict, conflictCs, s))
  }

  /**
    Insert against a past insert: shifting the past insertion by the hazard
    the rule left on it makes the two insertions commute
    (string_insert_op.py:33-37, 48-53).
  */
  lemma HazardShiftedInsertPastInsert(s: string, path: Path, offset: int, text: string, pastOffset: int, pastText: string,
                                      base: Op, baseCs: object?, conflict: Op, conflictCs: object?)
    requires 0 <= offset <= |s| && 0 <= pastOffset <= |s|
    ensures var r := InsertPastInsert(offset, text, pastOffset, pastText);
      var hs := RecordedHazards(base, baseCs, conflict, conflictCs, r.hazard);
      var p := ShiftedProps(StringInsertOp, TFields(path, Str(pastText), Some(pastOffset), false), hs);
      && p == Ok(Props(path, Some(pastOffset + OffsetShiftOf(r.hazard)), Str(pastText)))
      && Insert(Insert(s, pastOffset, pastText), r.offset, r.val) == Insert(Insert(s, offset, text), p.value.offset.value, pastText)
  {
    InsertPastInsertConverges(s, offset, text, pastOffset, pastText);
  }

  /**
    Delete against a past insert: outside the deletion, shifting the past
    insertion by the hazard makes the two edits commute
    (string_insert_op.py:33-37, string_delete_op.py:53-64).
  */
  lemma HazardShiftedDeletePastInsert(s: string, path: Path, offset: int, count: int, pastOffset: int, pastText: string,
                                      base: Op, baseCs: object?, conflict: Op, conflictCs: object?)
    requires 0 <= offset && 0 <= count && offset + count <= |s| && 0 <= pastOffset <= |s|
    requires !(offset < pastOffset < offset + count)
    ensures var r := DeletePastInsert(offset, count, pastOffset, pastText);
      var hs := RecordedHazards(base, baseCs, conflict, conflictCs, r.hazard);
      var p := ShiftedProps(StringInsertOp, TFields(path, Str(pastText), Some(pastOffset), false), hs);
      && p == Ok(Props(path, Some(pastOffset + OffsetShiftOf(r.hazard)), Str(pastText)))
      && Delete(Insert(s, pastOffset, pastText), r.offset, r.val) == Insert(Delete(s, offset, count), p.value.offset.value, pastText)
  {
    DeletePastInsertConverges(s, offset, count, pastOffset, pastText);
  }

  /**
    Insert against a past delete: shifting the past deletion by the hazard,
    offset and length with an absent shift counting as zero, makes the two
    edits commute; an insertion inside the deleted range widens the deletion
    over the inserted text (string_delete_op.py:34-40, string_insert_op.py:68-76).
  */
  lemma HazardShiftedInsertPastDelete(s: string, path: Path, offset: int, text: string, pastOffset: int, pastCount: int,
                                      base: Op, baseCs: object?, conflict: Op, conflictCs: object?)
    requires 0 <= offset <= |s| && 0 <= pastOffset && 0 <= pastCount && pastOffset + pastCount <= |s|
    ensures var r := InsertPastDelete(offset, text, pastOffset, pastCount);
      var hs := RecordedHazards(base, baseCs, conflict, conflictCs, r.hazard);
      var p := ShiftedProps(StringDeleteOp, TFields(path, Int(pastCount), Some(pastOffset), false), hs);
      && p == Ok(Props(path, Some(pastOffset + OffsetShiftOf(r.hazard)), Int(pastCount + ValShiftOf(r.hazard))))
      && Insert(Delete(s, pastOffset, pastCount), r.offset, r.val) == Delete(Insert(s, offset, text), p.value.offset.value, p.value.val.i)
  {
    InsertPastDeleteConverges(s, offset, text, pastOffset, pastCount);
  }

  /**
    As written, the loop of string_delete_op.py:37-39 adds both shifts of
    every relevant hazard, but a rule's hazard carries only one of them, so a
    string deletion with any relevant hazard raises TypeError.
  */
  lemma ShiftedAsWrittenRejectsRuleHazards(kind: Kind, f: TFields, hs: seq<OpHazard>)
    requires kind.StringDeleteOp? || kind.ArrayDeleteOp?
    requires |hs| > 0
    requires forall i | 0 <= i < |hs| :: hs[i].offsetShift.Some? != hs[i].valShift.Some?
    ensures ShiftedPropsAsWritten(kind, f, hs).Err?
  {
    assert !hs[0].offsetShift.Some? || !hs[0].valShift.Some?;
  }

  /**
    The unit-test case of an insertion at 4 against a past deletion of 3 at
    3: the deletion records a value hazard of 3; as written shifting it raises
    TypeError, while counting the absent offset shift as zero widens the
    deletion to 6.
  */
  lemma ShiftedAsWrittenExample(base: Op, baseCs: object?, conflict: Op, conflictCs: object?)
    ensures var r := InsertPastDelete(4, "ABC", 3, 3);
      var hs := RecordedHazards(base, baseCs, conflict, conflictCs, r.hazard);
      var f := TFields([], Int(3), Some(3), false);
      && r.hazard == ValHazard(3)
      && ShiftedPropsAsWritten(StringDeleteOp, f, hs).Err?
      && ShiftedProps(StringDeleteOp, f, hs) == Ok(Props([], Some(3), Int(6)))
  {
    var hs := RecordedHazards(base, baseCs, conflict, conflictCs, ValHazard(3));
    assert hs[0].offsetShift.None?;
  }
}
