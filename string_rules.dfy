/**
  The transformation rules of the current string operations
  (majormajor/ops/string_insert_op.py and string_delete_op.py), as functions
  of the integers they compare.

  An operation is transformed against a past operation whose offset and
  value have already been shifted by that past operation's hazards. The rule
  gives the operation's new offset and value, and the hazard it reports: how
  the PAST operation must be shifted when later operations are transformed
  against it.

  Each rule comes with a convergence lemma: applying the past edit and then
  the transformed edit yields the same sequence as applying the original
  edit and then the past edit shifted by the reported hazard.
*/
module StringRules {
  import opened Splice

  /** The hazard a transformation reports, as the shift it asks for. */
  datatype Shift = NoHazard | OffsetHazard(offsetShift: int) | ValHazard(valShift: int)

  /** The transformed offset and value, and the reported hazard. */
  datatype Moved<V> = Moved(offset: int, val: V, hazard: Shift)

  function OffsetShiftOf(h: Shift): int {
    if h.OffsetHazard? then h.offsetShift else 0
  }

  function ValShiftOf(h: Shift): int {
    if h.ValHazard? then h.valShift else 0
  }

  /** An insertion at `offset` of `text`, transformed against a past insertion (string_insert_op.py:48-53). */
  function InsertPastInsert<T>(offset: int, text: seq<T>, pastOffset: int, pastText: seq<T>): Moved<seq<T>> {
    if offset >= pastOffset then Moved(offset + |pastText|, text, NoHazard)
    else Moved(offset, text, OffsetHazard(|text|))
  }

  /** An insertion transformed against a past deletion of `pastCount` elements (string_insert_op.py:68-76). */
  function InsertPastDelete<T>(offset: int, text: seq<T>, pastOffset: int, pastCount: int): Moved<seq<T>> {
    if offset >= pastOffset + pastCount then Moved(offset - pastCount, text, NoHazard)
    else if offset > pastOffset then Moved(pastOffset, [], ValHazard(|text|))
    else Moved(offset, text, OffsetHazard(|text|))
  }

  /** A deletion of `count` elements transformed against a past insertion (string_delete_op.py:53-64). */
  function DeletePastInsert<T>(offset: int, count: int, pastOffset: int, pastText: seq<T>): Moved<int> {
    if offset + count > pastOffset && offset < pastOffset then Moved(offset, count + |pastText|, NoHazard)
    else if offset >= pastOffset then Moved(offset + |pastText|, count, NoHazard)
    else Moved(offset, count, OffsetHazard(-count))
  }

  /** Insert against insert: the offset moves exactly when it is at or after the past one, and only a move leaves no hazard. */
  lemma InsertPastInsertCases<T>(offset: int, text: seq<T>, pastOffset: int, pastText: seq<T>)
    ensures var r := InsertPastInsert(offset, text, pastOffset, pastText);
      && r.val == text
      && (r.offset == offset + |pastText| <==> offset >= pastOffset || |pastText| == 0)
      && (r.hazard == NoHazard <==> offset >= pastOffset)
      && (r.hazard != NoHazard ==> r.hazard == OffsetHazard(|text|) && r.offset == offset)
  {
  }

  /** Insertions at 2, 3 and 5 against a past insertion of "ABC" at 3 end at 2, 6 and 8. */
  lemma InsertPastInsertExamples()
    ensures InsertPastInsert(2, "XYZ", 3, "ABC").offset == 2
    ensures InsertPastInsert(3, "XYZ", 3, "ABC").offset == 6
    ensures InsertPastInsert(5, "XYZ", 3, "ABC").offset == 8
  {
  }

  /** Insertions against a past deletion of 3 at 3: before it unchanged, inside collapsed to (3, ""), after it pulled back. */
  lemma InsertPastDeleteExamples()
    ensures InsertPastDelete(2, "ABC", 3, 3) == Moved(2, "ABC", OffsetHazard(3))
    ensures InsertPastDelete(3, "ABC", 3, 3) == Moved(3, "ABC", OffsetHazard(3))
    ensures InsertPastDelete(4, "ABC", 3, 3) == Moved(3, "", ValHazard(3))
    ensures InsertPastDelete(6, "ABC", 3, 3) == Moved(3, "ABC", NoHazard)
  {
  }

  /** Deletions against a past insertion of "ABC" at 3: (0,3) kept, (2,2) widened to 5, (3,2) and (4,2) pushed to 6 and 7. */
  lemma DeletePastInsertExamples()
    ensures DeletePastInsert(0, 3, 3, "ABC") == Moved(0, 3, OffsetHazard(-3))
    ensures DeletePastInsert(2, 2, 3, "ABC") == Moved(2, 5, NoHazard)
    ensures DeletePastInsert(3, 2, 3, "ABC") == Moved(6, 2, NoHazard)
    ensures DeletePastInsert(4, 2, 3, "ABC") == Moved(7, 2, NoHazard)
  {
  }

  /** Exactly one of the three cases of the delete-against-insert rule applies to any offsets. */
  lemma DeletePastInsertTotal<T>(offset: int, count: int, pastOffset: int, pastText: seq<T>)
    ensures var inside := offset + count > pastOffset && offset < pastOffset;
            var before := offset >= pastOffset;
            var after := offset + count <= pastOffset && offset < pastOffset;
      && (inside || before || after)
      && !(inside && before) && !(inside && after) && !(before && after)
      && var r := DeletePastInsert(offset, count, pastOffset, pastText);
        (inside ==> r == Moved(offset, count + |pastText|, NoHazard))
        && (before ==> r == Moved(offset + |pastText|, count, NoHazard))
        && (after ==> r == Moved(offset, count, OffsetHazard(-count)))
  {
  }

  /** Insert against insert converges: the past insertion, shifted by the hazard, commutes with the transformed one. */
  lemma InsertPastInsertConverges<T>(s: seq<T>, offset: int, text: seq<T>, pastOffset: int, pastText: seq<T>)
    requires 0 <= offset <= |s| && 0 <= pastOffset <= |s|
    ensures var r := InsertPastInsert(offset, text, pastOffset, pastText);
      Insert(Insert(s, pastOffset, pastText), r.offset, r.val)
        == Insert(Insert(s, offset, text), pastOffset + OffsetShiftOf(r.hazard), pastText)
  {
    if offset >= pastOffset {
      InsertsCommute(s, pastOffset, pastText, offset, text);
    } else {
      InsertsCommute(s, offset, text, pastOffset, pastText);
    }
  }

  /** Insert against delete converges; an insertion swallowed by the deletion widens the past deletion instead. */
  lemma InsertPastDeleteConverges<T>(s: seq<T>, offset: int, text: seq<T>, pastOffset: int, pastCount: int)
    requires 0 <= offset <= |s| && 0 <= pastOffset && 0 <= pastCount && pastOffset + pastCount <= |s|
    ensures var r := InsertPastDelete(offset, text, pastOffset, pastCount);
      Insert(Delete(s, pastOffset, pastCount), r.offset, r.val)
        == Delete(Insert(s, offset, text), pastOffset + OffsetShiftOf(r.hazard), pastCount + ValShiftOf(r.hazard))
  {
    if offset >= pastOffset + pastCount {
      InsertAfterDelete(s, pastOffset, pastCount, offset, text);
    } else if offset > pastOffset {
      InsertNothing(Delete(s, pastOffset, pastCount), pastOffset);
      DeleteSwallowsInsert(s, pastOffset, pastCount, offset, text);
    } else {
      InsertBeforeDelete(s, offset, text, pastOffset, pastCount);
    }
  }

  /**
    Delete against insert converges. When the insertion fell strictly inside
    the deletion, the widened deletion removes it too, so the result is the
    plain deletion of the original text.
  */
  lemma DeletePastInsertConverges<T>(s: seq<T>, offset: int, count: int, pastOffset: int, pastText: seq<T>)
    requires 0 <= offset && 0 <= count && offset + count <= |s| && 0 <= pastOffset <= |s|
    ensures var r := DeletePastInsert(offset, count, pastOffset, pastText);
      Delete(Insert(s, pastOffset, pastText), r.offset, r.val)
        == if offset < pastOffset < offset + count then Delete(s, offset, count)
           else Insert(Delete(s, offset, count), pastOffset + OffsetShiftOf(r.hazard), pastText)
  {
    var r := DeletePastInsert(offset, count, pastOffset, pastText);
    if offset < pastOffset < offset + count {
      assert r == Moved(offset, count + |pastText|, NoHazard);
      DeleteSwallowsInsert(s, offset, count, pastOffset, pastText);
    } else if offset >= pastOffset {
      assert r == Moved(offset + |pastText|, count, NoHazard);
      InsertBeforeDelete(s, pastOffset, pastText, offset, count);
    } else {
      assert r == Moved(offset, count, OffsetHazard(-count));
      InsertAfterDelete(s, offset, count, pastOffset, pastText);
    }
  }
}
