/**
  The hazard-shifting helpers of majormajor/ops/string_transform_op.py.

  Before an operation is transformed against a past string operation, the
  past operation's transformed offset (and, for a deletion, its length) is
  shifted by the overlap hazards it carries. Both helpers walk the hazard
  list in order, updating a running offset; they are specified here by left
  folds over the hazard list.

  A hazard without overlap fields (one not built from two string deletions)
  makes the getters raise AttributeError; the methods then return Err.
*/
module StringTransform {
  import opened Wrappers
  import opened Json
  import opened OverlapHazard

  predicate AllHaveOverlap<O, C>(hs: seq<OverlapHazard<O, C>>) {
    forall i | 0 <= i < |hs| :: hs[i].overlap.Some?
  }

  /** One hazard applied to the offset of a past insertion (string_transform_op.py:26-27). */
  function InsertStep<O, C>(offset: int, h: OverlapHazard<O, C>): int
    requires h.overlap.Some?
  {
    if offset >= h.overlap.value.minOffsetForHazardApplication
    then offset - h.overlap.value.stringInsertOffsetShift
    else offset
  }

  /** The offset after the first `|hs|` hazards, applied in list order. */
  function InsertFold<O, C>(offset: int, hs: seq<OverlapHazard<O, C>>): int
    requires AllHaveOverlap(hs)
    decreases |hs|
  {
    if |hs| == 0 then offset else InsertStep(InsertFold(offset, hs[..|hs| - 1]), hs[|hs| - 1])
  }

  /** The running offset and length of a past deletion. */
  datatype Running = Running(offset: int, count: int)

  /** One hazard applied to a past deletion `op` (string_transform_op.py:35-38). */
  function DeleteStep<O(==), C>(op: O, r: Running, h: OverlapHazard<O, C>): Running
    requires h.overlap.Some?
  {
    var size := h.overlap.value.rangeSize;
    Running(if r.offset > h.overlap.value.minOffsetForHazardApplication then r.offset - size else r.offset,
            if h.baseOp == op then r.count - size else r.count)
  }

  function DeleteFold<O(==), C>(op: O, r: Running, hs: seq<OverlapHazard<O, C>>): Running
    requires AllHaveOverlap(hs)
    decreases |hs|
  {
    if |hs| == 0 then r else DeleteStep(op, DeleteFold(op, r, hs[..|hs| - 1]), hs[|hs| - 1])
  }

  /** The overlap sizes of the hazards whose base op is `op`, summed. */
  function BaseOverlap<O(==), C>(op: O, hs: seq<OverlapHazard<O, C>>): int
    requires AllHaveOverlap(hs)
    decreases |hs|
  {
    if |hs| == 0 then 0
    else BaseOverlap(op, hs[..|hs| - 1]) + (if hs[|hs| - 1].baseOp == op then hs[|hs| - 1].overlap.value.rangeSize else 0)
  }

  /**
    `shift_past_string_insert_by_hazards` (string_transform_op.py:24-29): the
    past insertion's path and text come back unchanged, its offset shifted by
    every hazard whose minimum offset the running offset has reached.
  */
  method ShiftPastStringInsertByHazards<O, C, V>(pastPath: Path, pastOffset: int, pastVal: V, hazards: seq<OverlapHazard<O, C>>)
    returns (r: Result<(Path, int, V), string>)
    ensures r.Ok? <==> AllHaveOverlap(hazards)
    ensures r.Ok? ==> r.value == (pastPath, InsertFold(pastOffset, hazards), pastVal)
  {
    var offset := pastOffset;
    var i := 0;
    while i < |hazards|
      invariant 0 <= i <= |hazards|
      invariant AllHaveOverlap(hazards[..i])
      invariant offset == InsertFold(pastOffset, hazards[..i])
    {
      var h := hazards[i];
      if h.overlap.None? {
        return Err("AttributeError: hazard has no overlap information");
      }
      if offset >= h.overlap.value.minOffsetForHazardApplication {
        offset := offset - h.overlap.value.stringInsertOffsetShift;
      }
      assert hazards[..i + 1][..i] == hazards[..i];
      i := i + 1;
    }
    assert hazards[..i] == hazards;
    return Ok((pastPath, offset, pastVal));
  }

  /**
    `shift_past_string_delete_by_hazards` (string_transform_op.py:31-39): the
    offset moves back by the overlap of every hazard it lies beyond, and the
    length shrinks by the overlap of every hazard based on this deletion.
  */
  method ShiftPastStringDeleteByHazards<O(==), C>(op: O, pastPath: Path, pastOffset: int, pastCount: int, hazards: seq<OverlapHazard<O, C>>)
    returns (r: Result<(Path, int, int), string>)
    ensures r.Ok? <==> AllHaveOverlap(hazards)
    ensures r.Ok? ==> var f := DeleteFold(op, Running(pastOffset, pastCount), hazards);
      r.value == (pastPath, f.offset, f.count)
  {
    var count := pastCount;
    var offset := pastOffset;
    var i := 0;
    while i < |hazards|
      invariant 0 <= i <= |hazards|
      invariant AllHaveOverlap(hazards[..i])
      invariant Running(offset, count) == DeleteFold(op, Running(pastOffset, pastCount), hazards[..i])
    {
      var h := hazards[i];
      if h.overlap.None? {
        return Err("AttributeError: hazard has no overlap information");
      }
      if offset > h.overlap.value.minOffsetForHazardApplication {
        offset := offset - h.overlap.value.rangeSize;
      }
      if h.baseOp == op {
        count := count - h.overlap.value.rangeSize;
      }
      assert hazards[..i + 1][..i] == hazards[..i];
      i := i + 1;
    }
    assert hazards[..i] == hazards;
    return Ok((pastPath, offset, count));
  }

  /** Hazards are applied in list order: folding over two lists is folding over the second from where the first ended. */
  lemma {:induction false} InsertFoldAppend<O, C>(offset: int, a: seq<OverlapHazard<O, C>>, b: seq<OverlapHazard<O, C>>)
    requires AllHaveOverlap(a) && AllHaveOverlap(b)
    ensures AllHaveOverlap(a + b)
    ensures InsertFold(offset, a + b) == InsertFold(InsertFold(offset, a), b)
    decreases |b|
  {
    if |b| == 0 {
      assert a + b == a;
    } else {
      var b' := b[..|b| - 1];
      assert (a + b)[..|a + b| - 1] == a + b';
      InsertFoldAppend(offset, a, b');
    }
  }

  /** With no hazards the insertion's offset is unchanged. */
  lemma InsertFoldEmpty<O, C>(offset: int)
    ensures InsertFold<O, C>(offset, []) == offset
  {
  }

  /** Hazards whose shifts are all non-negative can only pull an insertion's offset back. */
  lemma {:induction false} InsertFoldNeverAdvances<O, C>(offset: int, hs: seq<OverlapHazard<O, C>>)
    requires AllHaveOverlap(hs)
    requires forall i | 0 <= i < |hs| :: hs[i].overlap.value.stringInsertOffsetShift >= 0
    ensures InsertFold(offset, hs) <= offset
    decreases |hs|
  {
    if |hs| > 0 {
      InsertFoldNeverAdvances(offset, hs[..|hs| - 1]);
    }
  }

  /** A deletion's length ends up reduced by the overlaps of exactly the hazards based on it, whatever the offsets. */
  lemma {:induction false} DeleteFoldCount<O, C>(op: O, r: Running, hs: seq<OverlapHazard<O, C>>)
    requires AllHaveOverlap(hs)
    ensures DeleteFold(op, r, hs).count == r.count - BaseOverlap(op, hs)
    decreases |hs|
  {
    if |hs| > 0 {
      DeleteFoldCount(op, r, hs[..|hs| - 1]);
    }
  }

  /** The deletion's offset does not depend on its length. */
  lemma {:induction false} DeleteFoldOffsetIndependent<O, C>(op: O, offset: int, n: int, m: int, hs: seq<OverlapHazard<O, C>>)
    requires AllHaveOverlap(hs)
    ensures DeleteFold(op, Running(offset, n), hs).offset == DeleteFold(op, Running(offset, m), hs).offset
    decreases |hs|
  {
    if |hs| > 0 {
      DeleteFoldOffsetIndependent(op, offset, n, m, hs[..|hs| - 1]);
    }
  }
}
