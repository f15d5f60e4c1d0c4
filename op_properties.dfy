/**
  Properties of the operation class as a whole: what the array
  transformations of an `ArrayInsertOp` never report, which operations the
  array transformations leave alone, and what a peer reads back from
  `to_jsonable`.
*/
module OpProperties {
  import opened Wrappers
  import opened Json
  import opened StringRules
  import opened ArrayRules
  import opened Ops

  /**
    Both array transformations of an `ArrayInsertOp` return False: whatever
    they do to the op, they report no hazard for the past op
    (array_insert_op.py:55, 96).
  */
  lemma ArrayInsertOpReportsNoHazard(f: TFields, past: PastView)
    ensures var r := ArrayInsertTransformed(ArrayInsertOp, f, past); r.Ok? ==> r.value.shift == NoHazard
    ensures var r := ArrayDeleteTransformed(ArrayInsertOp, f, past); r.Ok? ==> r.value.shift == NoHazard
  {
    if past.shifted.Ok? && past.shifted.value.path == f.path {
      var p := past.shifted.value;
      if p.offset.Some? && f.tOffset.Some? {
        var len := if PyLen(p.val).Some? then PyLen(p.val).value else 0;
        InsertionsNeverNoop<Value>(f.path, f.tOffset.value, [], 0, p.path, p.offset.value, Padding(len));
      }
    }
  }

  /**
    An operation whose path is shorter than the past operation's is returned
    unchanged by both array transformations, with no hazard
    (array_insert_op.py:44-45, 70-71; array_delete_op.py:52-53, 84-85).
  */
  lemma ShorterPathUnchanged(kind: Kind, f: TFields, past: PastView)
    requires kind.ArrayInsertOp? || kind.ArrayDeleteOp?
    requires past.shifted.Ok? && |f.path| < |past.shifted.value.path|
    ensures ArrayInsertTransformed(kind, f, past) == Ok(Transformed(f, NoHazard))
    ensures ArrayDeleteTransformed(kind, f, past) == Ok(Transformed(f, NoHazard))
  {
  }

  /**
    A past edit of an unrelated list, one whose path does not lie along this
    op's path, changes nothing (array_insert_op.py:46-54, 72-81).
  */
  lemma UnrelatedListUnchanged(kind: Kind, f: TFields, past: PastView)
    requires kind.ArrayInsertOp? || kind.ArrayDeleteOp?
    requires past.shifted.Ok? && !IsPrefix(past.shifted.value.path, f.path)
    ensures ArrayInsertTransformed(kind, f, past) == Ok(Transformed(f, NoHazard))
    ensures ArrayDeleteTransformed(kind, f, past) == Ok(Transformed(f, NoHazard))
  {
  }

  /**
    A dictionary key on this op's path at the depth of the past op's list
    cannot be shifted: adding or subtracting a number raises TypeError
    (array_insert_op.py:54, 81; array_delete_op.py:67, 98).
  */
  lemma KeyStepAlongPathFails(kind: Kind, f: TFields, past: PastView)
    requires kind.ArrayInsertOp? || kind.ArrayDeleteOp?
    requires past.shifted.Ok? && past.shifted.value.offset.Some? && past.shifted.value.val.Int?
    requires var k := |past.shifted.value.path|; k < |f.path| && IsPrefix(past.shifted.value.path, f.path) && f.path[k].Key?
    ensures ArrayInsertTransformed(kind, f, past).Err?
    ensures ArrayDeleteTransformed(kind, f, past).Err?
  {
  }

  /**
    A peer reading the list `to_jsonable` writes gets back the action, path,
    value and offset, with None read back as None (ops/op.py:87-93).
  */
  lemma JsonableRoundTrip(op: Op)
    ensures ParseJsonable(op.ToJsonable()) == Some(Sent(op.action, op.path, op.val, op.offset))
  {
    var es := op.ToJsonable();
    assert es[2..] == (if op.val != Null then [ValEntry(op.val)] else []) + (if op.offset.Some? then [OffsetEntry(op.offset.value)] else []);
  }
}
