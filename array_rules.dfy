/**
  The transformation rules of the array operations
  (majormajor/ops/array_insert_op.py and array_delete_op.py) as functions of
  the transformed fields of the two operations.

  An array operation addresses the list at `path`; `offset` is an index into
  that list. A past array operation can move this operation's offset (same
  list), move one step of its path (when the past list lies along the path),
  or make it a no-op (when the element on the path was deleted).

  A path step that is a dictionary key where the past operation has a list
  never shifts here; Python would raise a TypeError when adding an integer to
  the key.
*/
module ArrayRules {
  import opened Json
  import opened Splice
  import opened StringRules
  import opened Wrappers

  /** The transformed path, offset and value, whether the op became a no-op, and the reported hazard. */
  datatype Outcome<V> = Outcome(path: Path, offset: int, val: V, noop: bool, hazard: Shift)

  /** `p` with the index at depth `k` moved by `d`; a key step is left alone. */
  function ShiftStepAt(p: Path, k: nat, d: int): (r: Path)
    requires k < |p|
    ensures |r| == |p|
    ensures forall j | 0 <= j < |p| && j != k :: r[j] == p[j]
    ensures p[k].Index? ==> r[k] == Index(p[k].i + d)
    ensures p[k].Key? ==> r == p
  {
    if p[k].Index? then p[k := Index(p[k].i + d)] else p
  }

  /** The step at depth `k` is an index at least `lo`. */
  predicate IndexAtLeast(p: Path, k: nat, lo: int)
    requires k < |p|
  {
    p[k].Index? && lo <= p[k].i
  }

  /** The step at depth `k` is an index in `[lo, hi)`, Python's `in xrange(lo, hi)`. */
  predicate IndexIn(p: Path, k: nat, lo: int, hi: int)
    requires k < |p|
  {
    p[k].Index? && lo <= p[k].i < hi
  }

  /** The step at depth `k` is an index above `lo`. */
  predicate IndexAbove(p: Path, k: nat, lo: int)
    requires k < |p|
  {
    p[k].Index? && p[k].i > lo
  }

  /** An array insertion transformed against a past array insertion (array_insert_op.py:40-55). */
  function InsertPastArrayInsert<T>(path: Path, offset: int, items: seq<T>,
                                    pastPath: Path, pastOffset: int, pastItems: seq<T>): Outcome<seq<T>> {
    if |path| < |pastPath| then Outcome(path, offset, items, false, NoHazard)
    else if pastPath == path then
      if pastOffset <= offset then Outcome(path, offset + |pastItems|, items, false, NoHazard)
      else Outcome(path, offset, items, false, NoHazard)
    else if pastPath == path[..|pastPath|] then
      if IndexAtLeast(path, |pastPath|, pastOffset) then
        Outcome(ShiftStepAt(path, |pastPath|, |pastItems|), offset, items, false, NoHazard)
      else Outcome(path, offset, items, false, NoHazard)
    else Outcome(path, offset, items, false, NoHazard)
  }

  /** An array insertion transformed against a past array deletion of `pastCount` items (array_insert_op.py:66-96). */
  function InsertPastArrayDelete<T>(path: Path, offset: int, items: seq<T>,
                                    pastPath: Path, pastOffset: int, pastCount: int): Outcome<seq<T>> {
    if |path| < |pastPath| then Outcome(path, offset, items, false, NoHazard)
    else if pastPath != path[..|pastPath|] then Outcome(path, offset, items, false, NoHazard)
    else if |pastPath| < |path| then
      if IndexIn(path, |pastPath|, pastOffset, pastOffset + pastCount) then
        Outcome(path, offset, items, true, NoHazard)
      else if IndexAbove(path, |pastPath|, pastOffset) then
        Outcome(ShiftStepAt(path, |pastPath|, -pastCount), offset, items, false, NoHazard)
      else Outcome(path, offset, items, false, NoHazard)
    else
      if pastOffset + 1 <= offset < pastOffset + pastCount then Outcome(path, pastOffset, [], true, NoHazard)
      else if offset > pastOffset then Outcome(path, offset - pastCount, items, false, NoHazard)
      else Outcome(path, offset, items, false, NoHazard)
  }

  /** An array deletion of `count` items transformed against a past array insertion (array_delete_op.py:47-68). */
  function DeletePastArrayInsert<T>(path: Path, offset: int, count: int,
                                    pastPath: Path, pastOffset: int, pastItems: seq<T>): Outcome<int> {
    if |path| < |pastPath| then Outcome(path, offset, count, false, NoHazard)
    else if pastPath == path then
      if pastOffset <= offset then Outcome(path, offset + |pastItems|, count, false, NoHazard)
      else if pastOffset < offset + count then Outcome(path, offset, count + |pastItems|, false, NoHazard)
      else Outcome(path, offset, count, false, OffsetHazard(-count))
    else if pastPath == path[..|pastPath|] then
      if IndexAtLeast(path, |pastPath|, pastOffset) then
        Outcome(ShiftStepAt(path, |pastPath|, |pastItems|), offset, count, false, NoHazard)
      else Outcome(path, offset, count, false, NoHazard)
    else Outcome(path, offset, count, false, NoHazard)
  }

  /**
    An array deletion transformed against a past array deletion
    (array_delete_op.py:79-105). Two deletions in the same list are handed to
    a helper that is not part of this model: the result is then None.
  */
  function DeletePastArrayDelete(path: Path, offset: int, count: int,
                                 pastPath: Path, pastOffset: int, pastCount: int): Option<Outcome<int>> {
    if |path| < |pastPath| then Some(Outcome(path, offset, count, false, NoHazard))
    else if |path| > |pastPath| && pastPath == path[..|pastPath|] then
      if IndexIn(path, |pastPath|, pastOffset, pastOffset + pastCount) then
        Some(Outcome(path, offset, count, true, NoHazard))
      else if IndexAbove(path, |pastPath|, pastOffset) then
        Some(Outcome(ShiftStepAt(path, |pastPath|, -pastCount), offset, count, false, NoHazard))
      else Some(Outcome(path, offset, count, false, NoHazard))
    else if path == pastPath then None
    else Some(Outcome(path, offset, count, false, NoHazard))
  }

  /** The array-insert cases of array_insert_op.py, with the test values of the source's unit tests. */
  lemma InsertPastArrayInsertExamples()
    ensures var p: Path := [Key("a"), Key("b"), Index(3), Index(4)];
      && InsertPastArrayInsert(p, 2, ["XYZ"], p, 3, ["X", "Y"]).offset == 2
      && InsertPastArrayInsert(p, 3, ["XYZ"], p, 3, ["X", "Y"]).offset == 5
      && InsertPastArrayInsert(p, 8, ["XYZ"], p, 3, ["X", "Y"]).offset == 10
      && InsertPastArrayInsert(p + [Index(3), Index(9), Key("c")], 8, ["XYZ"], p, 3, ["X", "Y"]).path
           == p + [Index(5), Index(9), Key("c")]
      && InsertPastArrayInsert(p + [Index(5), Index(9), Key("c")], 8, ["XYZ"], p, 3, ["X", "Y"]).path
           == p + [Index(7), Index(9), Key("c")]
      && InsertPastArrayInsert(p[..3], 8, ["XYZ"], p, 3, ["X", "Y"]) == Outcome(p[..3], 8, ["XYZ"], false, NoHazard)
      && InsertPastArrayInsert(p[..3] + [Index(5)], 2, ["XYZ"], p, 3, ["X", "Y"]).path == p[..3] + [Index(5)]
  {
    var p: Path := [Key("a"), Key("b"), Index(3), Index(4)];
    assert (p + [Index(3), Index(9), Key("c")])[..|p|] == p;
    assert (p + [Index(3), Index(9), Key("c")])[|p| := Index(5)] == p + [Index(5), Index(9), Key("c")];
    assert (p + [Index(5), Index(9), Key("c")])[..|p|] == p;
    assert (p + [Index(5), Index(9), Key("c")])[|p| := Index(7)] == p + [Index(7), Index(9), Key("c")];
    assert (p[..3] + [Index(5)])[..4] != p by {
      assert (p[..3] + [Index(5)])[3] != p[3];
    }
  }

  /** Array insertions against a past deletion of 3 items at 3, as in the source's unit tests. */
  lemma InsertPastArrayDeleteExamples()
    ensures var p: Path := [Key("a"), Key("b"), Index(3), Index(4)];
      && InsertPastArrayDelete(p, 2, ["XYZ"], p, 3, 3) == Outcome(p, 2, ["XYZ"], false, NoHazard)
      && InsertPastArrayDelete(p, 4, ["XYZ"], p, 3, 3) == Outcome(p, 3, [], true, NoHazard)
      && InsertPastArrayDelete(p, 6, ["XYZ"], p, 3, 3) == Outcome(p, 3, ["XYZ"], false, NoHazard)
      && InsertPastArrayDelete(p + [Index(3)], 8, ["XYZ"], p, 3, 3).noop
      && InsertPastArrayDelete(p + [Index(5)], 8, ["XYZ"], p, 3, 3).noop
      && InsertPastArrayDelete(p + [Index(4), Index(9), Key("c")], 8, ["XYZ"], p, 3, 3).noop
      && InsertPastArrayDelete(p + [Index(6), Index(9), Key("c")], 8, ["XYZ"], p, 3, 3).path
           == p + [Index(3), Index(9), Key("c")]
      && InsertPastArrayDelete(p + [Index(2), Index(9), Key("c")], 8, ["XYZ"], p, 3, 3).path
           == p + [Index(2), Index(9), Key("c")]
  {
    var p: Path := [Key("a"), Key("b"), Index(3), Index(4)];
    assert (p + [Index(3)])[..|p|] == p;
    assert (p + [Index(5)])[..|p|] == p;
    assert (p + [Index(4), Index(9), Key("c")])[..|p|] == p;
    assert (p + [Index(6), Index(9), Key("c")])[..|p|] == p;
    assert (p + [Index(6), Index(9), Key("c")])[|p| := Index(3)] == p + [Index(3), Index(9), Key("c")];
    assert (p + [Index(2), Index(9), Key("c")])[..|p|] == p;
  }

  /** Array deletions against a past insertion of two items at 3, as in the source's unit tests. */
  lemma DeletePastArrayInsertExamples()
    ensures var p: Path := [Key("a"), Key("b"), Index(3), Index(4)];
      && DeletePastArrayInsert(p, 3, 3, p, 3, ["X", "Y"]) == Outcome(p, 5, 3, false, NoHazard)
      && DeletePastArrayInsert(p, 2, 3, p, 3, ["X", "Y"]) == Outcome(p, 2, 5, false, NoHazard)
      && DeletePastArrayInsert(p, 1, 3, p, 3, ["X", "Y"]) == Outcome(p, 1, 5, false, NoHazard)
      && DeletePastArrayInsert(p, 1, 2, p, 3, ["X", "Y"]) == Outcome(p, 1, 2, false, OffsetHazard(-2))
      && DeletePastArrayInsert(p + [Index(3), Index(9), Key("c")], 8, 3, p, 3, ["X", "Y"]).path
           == p + [Index(5), Index(9), Key("c")]
      && DeletePastArrayInsert(p[..3], 8, 3, p, 3, ["X", "Y"]) == Outcome(p[..3], 8, 3, false, NoHazard)
  {
    var p: Path := [Key("a"), Key("b"), Index(3), Index(4)];
    assert (p + [Index(3), Index(9), Key("c")])[..|p|] == p;
    assert (p + [Index(3), Index(9), Key("c")])[|p| := Index(5)] == p + [Index(5), Index(9), Key("c")];
  }

  /** Whatever the past array operation, a path shorter than the past one is never changed. */
  lemma ShorterPathUnchanged<T>(path: Path, offset: int, items: seq<T>, count: int,
                                pastPath: Path, pastOffset: int, pastItems: seq<T>, pastCount: int)
    requires |path| < |pastPath|
    ensures InsertPastArrayInsert(path, offset, items, pastPath, pastOffset, pastItems) == Outcome(path, offset, items, false, NoHazard)
    ensures InsertPastArrayDelete(path, offset, items, pastPath, pastOffset, pastCount) == Outcome(path, offset, items, false, NoHazard)
    ensures DeletePastArrayInsert(path, offset, count, pastPath, pastOffset, pastItems) == Outcome(path, offset, count, false, NoHazard)
    ensures DeletePastArrayDelete(path, offset, count, pastPath, pastOffset, pastCount) == Some(Outcome(path, offset, count, false, NoHazard))
  {
  }

  /** Only a past deletion can make an array operation a no-op, and only an insertion can leave a hazard. */
  lemma InsertionsNeverNoop<T>(path: Path, offset: int, items: seq<T>, count: int,
                               pastPath: Path, pastOffset: int, pastItems: seq<T>)
    ensures !InsertPastArrayInsert(path, offset, items, pastPath, pastOffset, pastItems).noop
    ensures InsertPastArrayInsert(path, offset, items, pastPath, pastOffset, pastItems).hazard == NoHazard
    ensures !DeletePastArrayInsert(path, offset, count, pastPath, pastOffset, pastItems).noop
  {
  }

  /** The list that the array operation at `p` edits. */
  predicate ListAt(doc: Value, p: Path) {
    ValidPath(doc, p) && ValueAt(doc, p).Array?
  }

  /** `doc` with the list at `p` replaced by `f` applied to it. */
  function EditList(doc: Value, p: Path, items: seq<Value>): Value
    requires ListAt(doc, p)
  {
    ReplaceAt(doc, p, Array(items))
  }

  /** The node one step below `p`, then along `rest`, in terms of the list at `p`. */
  lemma {:induction false} WalkThroughList(doc: Value, p: Path, i: int, rest: Path)
    requires ListAt(doc, p)
    ensures ValidPath(doc, p + [Index(i)] + rest) <==>
              0 <= i < |ValueAt(doc, p).items| && ValidPath(ValueAt(doc, p).items[i], rest)
    ensures ValidPath(doc, p + [Index(i)] + rest) ==>
              ValueAt(doc, p + [Index(i)] + rest) == ValueAt(ValueAt(doc, p).items[i], rest)
  {
    assert p + [Index(i)] + rest == p + ([Index(i)] + rest);
    ValidPathAppend(doc, p, [Index(i)] + rest);
    var tail: Path := [Index(i)] + rest;
    assert tail[0] == Index(i) && tail[1..] == rest;
  }

  /**
    The path shift of an insertion keeps the operation on the same node: after
    the past insertion of `pastItems` at `pastOffset` into the list at
    `pastPath`, the shifted path leads to the node the original path led to.
  */
  lemma PathShiftFollowsInsertedItems(doc: Value, pastPath: Path, pastOffset: int, pastItems: seq<Value>, i: int, rest: Path)
    requires ListAt(doc, pastPath)
    requires 0 <= pastOffset <= |ValueAt(doc, pastPath).items|
    requires ValidPath(doc, pastPath + [Index(i)] + rest)
    ensures var path := pastPath + [Index(i)] + rest;
      var after := EditList(doc, pastPath, Insert(ValueAt(doc, pastPath).items, pastOffset, pastItems));
      var shifted := InsertPastArrayInsert<Value>(path, 0, [], pastPath, pastOffset, pastItems).path;
      && ValidPath(after, shifted)
      && ValueAt(after, shifted) == ValueAt(doc, path)
  {
    var xs := ValueAt(doc, pastPath).items;
    var ys := Insert(xs, pastOffset, pastItems);
    var after := EditList(doc, pastPath, ys);
    WalkThroughList(doc, pastPath, i, rest);
    ReplaceAtReads(doc, pastPath, Array(ys));
    InsertAt(xs, pastOffset, pastItems);
    var j := if pastOffset <= i then i + |pastItems| else i;
    InsertShiftOnPath(pastPath, i, rest, pastOffset, pastItems);
    assert ys[j] == xs[i];
    WalkThroughList(after, pastPath, j, rest);
  }

  /** On a path through the list of a past insertion, the insertion moves the index step past its items. */
  lemma InsertShiftOnPath<T>(pastPath: Path, i: int, rest: Path, pastOffset: int, pastItems: seq<T>)
    ensures InsertPastArrayInsert<T>(pastPath + [Index(i)] + rest, 0, [], pastPath, pastOffset, pastItems).path
      == pastPath + [Index(if pastOffset <= i then i + |pastItems| else i)] + rest
  {
    var path := pastPath + [Index(i)] + rest;
    assert path[..|pastPath|] == pastPath;
    assert path[|pastPath|] == Index(i);
    assert path != pastPath by { assert |path| > |pastPath|; }
  }

  /** On a path through the list of a past deletion, the deletion removes or moves back the index step. */
  lemma DeleteShiftOnPath<T>(pastPath: Path, i: int, rest: Path, pastOffset: int, pastCount: int)
    ensures var r := InsertPastArrayDelete<T>(pastPath + [Index(i)] + rest, 0, [], pastPath, pastOffset, pastCount);
      && (r.noop <==> pastOffset <= i < pastOffset + pastCount)
      && (!r.noop ==> r.path == pastPath + [Index(if i > pastOffset then i - pastCount else i)] + rest)
  {
    var path := pastPath + [Index(i)] + rest;
    assert path[..|pastPath|] == pastPath;
    assert path[|pastPath|] == Index(i);
  }

  /**
    The path shift of a deletion keeps the operation on the same node, unless
    that node was deleted, in which case the operation becomes a no-op.
  */
  lemma PathShiftFollowsDeletion(doc: Value, pastPath: Path, pastOffset: int, pastCount: int, i: int, rest: Path)
    requires ListAt(doc, pastPath)
    requires 0 <= pastOffset && 0 <= pastCount && pastOffset + pastCount <= |ValueAt(doc, pastPath).items|
    requires ValidPath(doc, pastPath + [Index(i)] + rest)
    ensures var path := pastPath + [Index(i)] + rest;
      var after := EditList(doc, pastPath, Delete(ValueAt(doc, pastPath).items, pastOffset, pastCount));
      var r := InsertPastArrayDelete<Value>(path, 0, [], pastPath, pastOffset, pastCount);
      && (r.noop <==> pastOffset <= i < pastOffset + pastCount)
      && (!r.noop ==> ValidPath(after, r.path) && ValueAt(after, r.path) == ValueAt(doc, path))
  {
    var xs := ValueAt(doc, pastPath).items;
    var ys := Delete(xs, pastOffset, pastCount);
    var after := EditList(doc, pastPath, ys);
    WalkThroughList(doc, pastPath, i, rest);
    ReplaceAtReads(doc, pastPath, Array(ys));
    DeleteShiftOnPath<Value>(pastPath, i, rest, pastOffset, pastCount);
    if !(pastOffset <= i < pastOffset + pastCount) {
      DeleteAt(xs, pastOffset, pastCount);
      var j := if i > pastOffset then i - pastCount else i;
      assert ys[j] == xs[i];
      WalkThroughList(after, pastPath, j, rest);
    }
  }

  /**
    Two insertions into the same list converge when the later one is shifted
    by the rule. An insertion before the past one reports no hazard, although
    the past insertion would have to move right by the length of this one.
  */
  lemma InsertPastArrayInsertConverges<T>(s: seq<T>, path: Path, offset: int, items: seq<T>, pastOffset: int, pastItems: seq<T>)
    requires 0 <= offset <= |s| && 0 <= pastOffset <= |s|
    ensures var r := InsertPastArrayInsert(path, offset, items, path, pastOffset, pastItems);
      Insert(Insert(s, pastOffset, pastItems), r.offset, r.val)
        == Insert(Insert(s, offset, items), pastOffset + (if pastOffset <= offset then 0 else |items|), pastItems)
  {
    if pastOffset <= offset {
      InsertsCommute(s, pastOffset, pastItems, offset, items);
    } else {
      InsertsCommute(s, offset, items, pastOffset, pastItems);
    }
  }

  /**
    An insertion into a list after a past deletion from it: a no-op inside
    the deleted range, otherwise the two commute once the insertion is
    pulled back, with the deletion moved right when the insertion was at or
    before it.
  */
  lemma InsertPastArrayDeleteConverges<T>(s: seq<T>, path: Path, offset: int, items: seq<T>, pastOffset: int, pastCount: int)
    requires 0 <= offset <= |s| && 0 <= pastOffset && 1 <= pastCount && pastOffset + pastCount <= |s|
    ensures var r := InsertPastArrayDelete(path, offset, items, path, pastOffset, pastCount);
      && (r.noop <==> pastOffset < offset < pastOffset + pastCount)
      && (!r.noop ==> Insert(Delete(s, pastOffset, pastCount), r.offset, r.val)
                        == Delete(Insert(s, offset, items), pastOffset + (if offset <= pastOffset then |items| else 0), pastCount))
  {
    var r := InsertPastArrayDelete(path, offset, items, path, pastOffset, pastCount);
    assert path[..|path|] == path;
    if pastOffset < offset < pastOffset + pastCount {
      assert r.noop;
    } else if offset >= pastOffset + pastCount {
      assert r == Outcome(path, offset - pastCount, items, false, NoHazard);
      InsertAfterDelete(s, pastOffset, pastCount, offset, items);
    } else {
      assert r == Outcome(path, offset, items, false, NoHazard);
      InsertBeforeDelete(s, offset, items, pastOffset, pastCount);
    }
  }

  /** In one list, an array deletion moves exactly as a string deletion does against a past insertion. */
  lemma DeletePastArrayInsertIsStringRule<T>(path: Path, offset: int, count: int, pastOffset: int, pastItems: seq<T>)
    ensures var r := DeletePastArrayInsert(path, offset, count, path, pastOffset, pastItems);
      var q := DeletePastInsert(offset, count, pastOffset, pastItems);
      r == Outcome(path, q.offset, q.val, false, q.hazard)
  {
  }

  /**
    A deletion in a list after a past insertion into it: pushed right, widened
    over the inserted items, or (when the insertion lies after the deleted
    range) left alone with a hazard that moves the past insertion back.
  */
  lemma DeletePastArrayInsertConverges<T>(s: seq<T>, path: Path, offset: int, count: int, pastOffset: int, pastItems: seq<T>)
    requires 0 <= offset && 0 <= count && offset + count <= |s| && 0 <= pastOffset <= |s|
    ensures var r := DeletePastArrayInsert(path, offset, count, path, pastOffset, pastItems);
      Delete(Insert(s, pastOffset, pastItems), r.offset, r.val)
        == if offset < pastOffset < offset + count then Delete(s, offset, count)
           else Insert(Delete(s, offset, count), pastOffset + OffsetShiftOf(r.hazard), pastItems)
  {
    DeletePastArrayInsertIsStringRule(path, offset, count, pastOffset, pastItems);
    DeletePastInsertConverges(s, offset, count, pastOffset, pastItems);
  }
}
