/**
  The earlier operation class of majormajor/op.py: `Op` with the subclasses
  `StringInsertOp`, `StringDeleteOp` and `SetOp`, transformed against past
  operations without hazards.

  One Dafny class stands for the four Python classes; the class an object
  gets is its `kind`. Transformation changes only the copies `t_val`,
  `t_offset` and `noop`; it never writes `t_path`, so the model keeps
  `t_path` as a field of its own beside `path`.

  The delete-against-delete rule of majormajor/op.py:186-203 is given twice:
  as written, and corrected so that a deletion strictly inside the past one
  collapses to an empty deletion. The class uses the rule as written; the
  corrected one carries the convergence proof.
*/
module EarlyOps {
  import opened Wrappers
  import opened Json
  import opened Splice
  import StringRules
  import Ops

  /** The Python class of an operation object. */
  datatype EarlyKind = Plain | Set | StringInsert | StringDelete

  /** `Op.__new__` (op.py:23-29): si, sd and set choose their class; any other action keeps the class called. */
  function EarlyKindFor(action: string, requested: EarlyKind): (k: EarlyKind)
    ensures action == "si" ==> k == StringInsert
    ensures action == "sd" ==> k == StringDelete
    ensures action == "set" ==> k == Set
    ensures action !in {"si", "sd", "set"} ==> k == requested
  {
    if action == "si" then StringInsert
    else if action == "sd" then StringDelete
    else if action == "set" then Set
    else requested
  }

  /** What a transformation reads of a past operation. */
  datatype EarlyView = EarlyView(action: string, tPath: Path, tVal: Value, tOffset: Option<int>, noop: bool)

  /** A deletion range: `count` elements from `offset`. */
  datatype Range = Range(offset: int, count: int)

  /**
    The delete-against-delete rule as written (op.py:186-203), for the range
    `self` against the past range `past`. The last branch also catches a
    range strictly inside the past one and ending before it, and gives it the
    negative count `past.offset - self.offset`.
  */
  function DeletePastDeleteAsWritten(self: Range, past: Range): (r: Range)
    ensures self.offset + self.count < past.offset ==> r == self
    ensures self.offset + self.count >= past.offset && self.offset >= past.offset + past.count ==> r == Range(self.offset - past.count, self.count)
  {
    var srs, sre := self.offset, self.offset + self.count;
    var oprs, opre := past.offset, past.offset + past.count;
    if sre < oprs then self
    else if srs >= opre then Range(self.offset - past.count, self.count)
    else if srs >= oprs && sre >= opre then Range(past.offset, if self.count + srs - opre > 0 then self.count + srs - opre else 0)
    else if sre >= opre then Range(self.offset, self.count - past.count)
    else Range(self.offset, past.offset - self.offset)
  }

  /**
    The rule corrected: a range starting inside the past one keeps whatever
    of it lies beyond the past range's end, from the past range's start; the
    clamp at zero on line 198 already covers a range ending inside.
  */
  function DeletePastDelete(self: Range, past: Range): (r: Range)
    ensures self.count >= 0 ==> r.count >= 0
  {
    var srs, sre := self.offset, self.offset + self.count;
    var oprs, opre := past.offset, past.offset + past.count;
    if sre < oprs then self
    else if srs >= opre then Range(self.offset - past.count, self.count)
    else if srs >= oprs then Range(past.offset, if sre - opre > 0 then sre - opre else 0)
    else if sre >= opre then Range(self.offset, self.count - past.count)
    else Range(self.offset, past.offset - self.offset)
  }

  /** The two rules differ only on a range that starts inside the past one and ends before it does. */
  lemma DeletePastDeleteCorrection(self: Range, past: Range)
    requires self.count >= 0 && past.count >= 0
    ensures DeletePastDelete(self, past) != DeletePastDeleteAsWritten(self, past) <==>
      past.offset <= self.offset && self.offset + self.count < past.offset + past.count && self.offset != past.offset
  {
  }

  /**
    As written, the deletion of 1 at 4 against a past deletion of 3 at 3
    becomes a deletion of -1 at 4: applied after the past deletion to
    "ABCDEFG" it duplicates the last character, while the past deletion
    transformed the other way round gives "ABCG".
  */
  lemma DeletePastDeleteAsWrittenDiverges()
    ensures DeletePastDeleteAsWritten(Range(4, 1), Range(3, 3)) == Range(4, -1)
    ensures DeletePastDeleteAsWritten(Range(3, 3), Range(4, 1)) == Range(3, 2)
    ensures Delete(Delete("ABCDEFG", 3, 3), 4, -1) == "ABCGG"
    ensures Delete(Delete("ABCDEFG", 4, 1), 3, 2) == "ABCG"
  {
    assert Delete("ABCDEFG", 3, 3) == "ABCG" by { DeleteSlices("ABCDEFG", 3, 3); }
    assert Delete("ABCDEFG", 4, 1) == "ABCDFG" by { DeleteSlices("ABCDEFG", 4, 1); }
    assert Delete("ABCDFG", 3, 2) == "ABCG" by { DeleteSlices("ABCDFG", 3, 2); }
    assert Take("ABCG", 4) == "ABCG";
    assert Drop("ABCG", 3) == "G";
  }

  /** The deletions of the unit tests against a past deletion of 3 at 3 (op_tests.py:62-102). */
  lemma DeletePastDeleteExamples()
    ensures DeletePastDelete(Range(1, 2), Range(3, 3)) == Range(1, 2)
    ensures DeletePastDelete(Range(2, 2), Range(3, 3)) == Range(2, 1)
    ensures DeletePastDelete(Range(2, 6), Range(3, 3)) == Range(2, 3)
    ensures DeletePastDelete(Range(4, 2), Range(3, 3)) == Range(3, 0)
    ensures DeletePastDelete(Range(5, 3), Range(3, 3)) == Range(3, 2)
    ensures DeletePastDelete(Range(8, 3), Range(3, 3)) == Range(5, 3)
  {
  }

  /** The range `r` lies within a sequence of length `n`. */
  predicate Within(r: Range, n: int) {
    0 <= r.offset && 0 <= r.count && r.offset + r.count <= n
  }

  /**
    The corrected rule converges: two deletions, each transformed against the
    other, delete the same text whichever is applied first.
  */
  lemma DeletePastDeleteConverges<T>(s: seq<T>, a: Range, b: Range)
    requires Within(a, |s|) && Within(b, |s|)
    ensures var a' := DeletePastDelete(a, b);
            var b' := DeletePastDelete(b, a);
      Delete(Delete(s, b.offset, b.count), a'.offset, a'.count) == Delete(Delete(s, a.offset, a.count), b'.offset, b'.count)
  {
    if a.offset <= b.offset {
      DeletesConvergeOrdered(s, a, b);
    } else {
      DeletesConvergeOrdered(s, b, a);
    }
  }

  /** Convergence when `a` starts no later than `b`. */
  lemma DeletesConvergeOrdered<T>(s: seq<T>, a: Range, b: Range)
    requires Within(a, |s|) && Within(b, |s|) && a.offset <= b.offset
    ensures Converged(s, a, b)
  {
    if a.offset + a.count <= b.offset {
      ConvergedDisjoint(s, a, b);
    } else if b.offset + b.count <= a.offset + a.count {
      ConvergedCovering(s, a, b);
    } else {
      ConvergedOverlapping(s, a, b);
    }
  }

  /** Deleting `b` then `a` transformed past it, or `a` then `b` transformed past it, leaves the same sequence. */
  ghost predicate Converged<T>(s: seq<T>, a: Range, b: Range) {
    var a', b' := DeletePastDelete(a, b), DeletePastDelete(b, a);
    Delete(Delete(s, b.offset, b.count), a'.offset, a'.count) == Delete(Delete(s, a.offset, a.count), b'.offset, b'.count)
  }

  lemma ConvergedDisjoint<T>(s: seq<T>, a: Range, b: Range)
    requires Within(a, |s|) && Within(b, |s|) && a.offset + a.count <= b.offset
    ensures Converged(s, a, b)
  {
    PastDisjoint(a, b);
    DeletesCommute(s, a.offset, a.count, b.offset, b.count);
  }

  lemma ConvergedCovering<T>(s: seq<T>, a: Range, b: Range)
    requires Within(a, |s|) && Within(b, |s|) && a.offset <= b.offset < a.offset + a.count
    requires b.offset + b.count <= a.offset + a.count
    ensures Converged(s, a, b)
  {
    PastCovering(a, b);
    ConvergeCovering(s, a, b);
  }

  lemma ConvergedOverlapping<T>(s: seq<T>, a: Range, b: Range)
    requires Within(a, |s|) && Within(b, |s|) && a.offset <= b.offset < a.offset + a.count < b.offset + b.count
    ensures Converged(s, a, b)
  {
    PastOverlapping(a, b);
    ConvergeOverlapping(s, a, b);
  }

  /** `a` ends before `b` starts: `a` stays, `b` moves back by `a`'s length. */
  lemma PastDisjoint(a: Range, b: Range)
    requires 0 <= a.count && 0 <= b.count && a.offset + a.count <= b.offset
    ensures DeletePastDelete(a, b) == a
    ensures DeletePastDelete(b, a) == Range(b.offset - a.count, b.count)
  {
  }

  /** `a` covers `b`: `a` loses `b`'s length, `b` becomes empty at `a`'s start. */
  lemma PastCovering(a: Range, b: Range)
    requires 0 <= a.count && 0 <= b.count && a.offset <= b.offset < a.offset + a.count
    requires b.offset + b.count <= a.offset + a.count
    ensures DeletePastDelete(a, b) == Range(a.offset, a.count - b.count)
    ensures DeletePastDelete(b, a) == Range(a.offset, 0)
  {
  }

  /** The tail of `a` overlaps the head of `b`: `a` keeps its part before `b`, `b` its part after `a`, both from `a`'s start. */
  lemma PastOverlapping(a: Range, b: Range)
    requires 0 <= a.count && 0 <= b.count && a.offset <= b.offset < a.offset + a.count < b.offset + b.count
    ensures DeletePastDelete(a, b) == Range(a.offset, b.offset - a.offset)
    ensures DeletePastDelete(b, a) == Range(a.offset, b.offset + b.count - a.offset - a.count)
  {
  }

  /** `a` covers `b`: deleting `b` then the rest of `a` equals deleting `a` then nothing. */
  lemma ConvergeCovering<T>(s: seq<T>, a: Range, b: Range)
    requires Within(a, |s|) && Within(b, |s|) && a.offset <= b.offset < a.offset + a.count
    requires b.offset + b.count <= a.offset + a.count
    ensures Delete(Delete(s, b.offset, b.count), a.offset, a.count - b.count) == Delete(Delete(s, a.offset, a.count), a.offset, 0)
  {
    calc {
      Delete(Delete(s, b.offset, b.count), a.offset, a.count - b.count);
      { DeletesMerge(s, b.offset, b.count, a.offset, a.count - b.count); }
      Delete(s, a.offset, a.count);
      { DeletesMerge(s, a.offset, a.count, a.offset, 0); }
      Delete(Delete(s, a.offset, a.count), a.offset, 0);
    }
  }

  /** The tail of `a` overlaps the head of `b`: together they delete from `a`'s start to `b`'s end, in either order. */
  lemma ConvergeOverlapping<T>(s: seq<T>, a: Range, b: Range)
    requires Within(a, |s|) && Within(b, |s|) && a.offset <= b.offset < a.offset + a.count < b.offset + b.count
    ensures Delete(Delete(s, b.offset, b.count), a.offset, b.offset - a.offset)
         == Delete(Delete(s, a.offset, a.count), a.offset, b.offset + b.count - a.offset - a.count)
  {
    calc {
      Delete(Delete(s, b.offset, b.count), a.offset, b.offset - a.offset);
      { DeletesMerge(s, b.offset, b.count, a.offset, b.offset - a.offset); }
      Delete(s, a.offset, b.offset + b.count - a.offset);
      { DeletesMerge(s, a.offset, a.count, a.offset, b.offset + b.count - a.offset - a.count); }
      Delete(Delete(s, a.offset, a.count), a.offset, b.offset + b.count - a.offset - a.count);
    }
  }

  /**
    `string_insert_transform` of each class (op.py:105-112, 138-144,
    163-174) on the transformed fields: an insertion moves past an earlier
    or equal insertion; a deletion widens over an insertion strictly inside
    it and moves past an insertion at or before its start. Comparing with
    None, adding to a non-number and `len` of a number raise TypeError.
  */
  function InsertTransformedEarly(kind: EarlyKind, tAction: string, f: Ops.TFields, past: EarlyView): Result<Ops.TFields, string> {
    if !(kind.StringInsert? || kind.StringDelete?) || f.path != past.tPath then Ok(f)
    else if kind.StringInsert? && tAction != "si" then Ok(f)
    else if f.tOffset.None? || past.tOffset.None? then Err("TypeError: comparison with None")
    else
      var o, po := f.tOffset.value, past.tOffset.value;
      var len := Ops.PyLen(past.tVal);
      if kind.StringInsert? then
        if o < po then Ok(f)
        else if len.None? then Err("TypeError: len")
        else Ok(f.(tOffset := Some(o + len.value)))
      else if !f.tVal.Int? then Err("TypeError: offset plus value")
      else if o + f.tVal.i > po && o < po then
        if len.None? then Err("TypeError: len") else Ok(f.(tVal := Int(f.tVal.i + len.value)))
      else if o >= po then
        if len.None? then Err("TypeError: len") else Ok(f.(tOffset := Some(o + len.value)))
      else Ok(f)
  }

  /**
    `string_delete_transform` of each class (op.py:114-121, 146-158,
    176-203): an insertion after the past range moves back, one strictly
    inside it collapses to an empty insertion at its start; a deletion
    follows the delete-against-delete rule as written, negative count
    included.
  */
  function DeleteTransformedEarly(kind: EarlyKind, tAction: string, f: Ops.TFields, past: EarlyView): Result<Ops.TFields, string> {
    if !(kind.StringInsert? || kind.StringDelete?) || f.path != past.tPath then Ok(f)
    else if kind.StringDelete? && tAction != "sd" then Ok(f)
    else if f.tOffset.None? || past.tOffset.None? then Err("TypeError: comparison with None")
    else if !past.tVal.Int? then Err("TypeError: offset plus value")
    else
      var o, po, pc := f.tOffset.value, past.tOffset.value, past.tVal.i;
      if kind.StringInsert? then
        if o >= po + pc then Ok(f.(tOffset := Some(o - pc)))
        else if o > po then Ok(f.(tOffset := Some(po), tVal := Str("")))
        else Ok(f)
      else if !f.tVal.Int? then Err("TypeError: offset plus value")
      else
        var r := DeletePastDeleteAsWritten(Range(o, f.tVal.i), Range(po, pc));
        Ok(f.(tOffset := Some(r.offset), tVal := Int(r.count)))
  }

  /**
    One step of `ot` (op.py:86-89): the transformation named for the past
    op's action. Only set, si and sd name methods; the other names of the
    table raise AttributeError and an action outside it KeyError.
  */
  function TransformEarly(kind: EarlyKind, tAction: string, f: Ops.TFields, past: EarlyView): Result<Ops.TFields, string> {
    if past.action == "set" then Ok(Ops.SetTransformed(f, past.tPath, past.noop))
    else if past.action == "si" then InsertTransformedEarly(kind, tAction, f, past)
    else if past.action == "sd" then DeleteTransformedEarly(kind, tAction, f, past)
    else if past.action in Ops.Actions then Err("AttributeError: no transformation method")
    else Err("KeyError: unknown action")
  }

  /** `ot` over the past ops' views in order, stopping at the first error. */
  function EarlyOtRun(kind: EarlyKind, tAction: string, f: Ops.TFields, views: seq<EarlyView>): (r: Result<Ops.TFields, string>)
    decreases |views|
  {
    if |views| == 0 then Ok(f)
    else
      match EarlyOtRun(kind, tAction, f, views[..|views| - 1])
      case Err(e) => Err(e)
      case Ok(g) => TransformEarly(kind, tAction, g, views[|views| - 1])
  }

  /** Transformation never moves the transformed path, and a no-op stays one. */
  lemma {:induction false} EarlyOtRunKeepsPathAndNoop(kind: EarlyKind, tAction: string, f: Ops.TFields, views: seq<EarlyView>)
    ensures var r := EarlyOtRun(kind, tAction, f, views);
      r.Ok? ==> r.value.path == f.path && (f.noop ==> r.value.noop)
    decreases |views|
  {
    if |views| > 0 {
      EarlyOtRunKeepsPathAndNoop(kind, tAction, f, views[..|views| - 1]);
    }
  }

  /**
    On strings the earlier insertion rules move offsets and values exactly as
    the hazard-based rules of majormajor/ops do; only the hazards are new.
  */
  lemma EarlyRulesAgreeWithHazardRules(kind: EarlyKind, f: Ops.TFields, past: EarlyView)
    requires kind.StringInsert? || kind.StringDelete?
    requires f.path == past.tPath && f.tOffset.Some? && past.tOffset.Some?
    ensures kind.StringInsert? && f.tVal.Str? && past.tVal.Str? ==>
      var m := StringRules.InsertPastInsert(f.tOffset.value, f.tVal.s, past.tOffset.value, past.tVal.s);
      InsertTransformedEarly(kind, "si", f, past) == Ok(f.(tOffset := Some(m.offset), tVal := Str(m.val)))
    ensures kind.StringInsert? && f.tVal.Str? && past.tVal.Int? ==>
      var m := StringRules.InsertPastDelete(f.tOffset.value, f.tVal.s, past.tOffset.value, past.tVal.i);
      DeleteTransformedEarly(kind, "si", f, past) == Ok(f.(tOffset := Some(m.offset), tVal := Str(m.val)))
    ensures kind.StringDelete? && f.tVal.Int? && past.tVal.Str? ==>
      var m := StringRules.DeletePastInsert(f.tOffset.value, f.tVal.i, past.tOffset.value, past.tVal.s);
      InsertTransformedEarly(kind, "sd", f, past) == Ok(f.(tOffset := Some(m.offset), tVal := Int(m.val)))
  {
  }

  class EarlyOp {
    const kind: EarlyKind
    var action: string
    var path: Path
    var val: Value
    var offset: Option<int>
    var tAction: string
    var tPath: Path
    var tVal: Value
    var tOffset: Option<int>
    var noop: bool

    /** The fields transformation changes, with the transformed path. */
    function Fields(): Ops.TFields
      reads this
    {
      Ops.TFields(tPath, tVal, tOffset, noop)
    }

    function View(): EarlyView
      reads this
    {
      EarlyView(action, tPath, tVal, tOffset, noop)
    }

    /** Every transformed field equals its original and the op is not a no-op. */
    predicate Untransformed()
      reads this
    {
      tAction == action && tPath == path && tVal == val && tOffset == offset && !noop
    }

    /** `Op(action, path, val, offset)` on the class `requested` (op.py:23-47). */
    constructor (requested: EarlyKind, action: string, path: Path, val: Value, offset: Option<int>)
      ensures kind == EarlyKindFor(action, requested)
      ensures this.action == action && this.path == path && this.val == val && this.offset == offset
      ensures Untransformed()
    {
      kind := EarlyKindFor(action, requested);
      this.action := action;
      this.path := path;
      this.val := val;
      this.offset := offset;
      tAction := action;
      tPath := path;
      tVal := val;
      tOffset := offset;
      noop := false;
    }

    /** `reset_transformations` (op.py:73-78). */
    method ResetTransformations()
      modifies this
      ensures Untransformed()
      ensures action == old(action) && path == old(path) && val == old(val) && offset == old(offset)
    {
      tAction := action;
      tPath := path;
      tVal := val;
      tOffset := offset;
      noop := false;
    }

    /** `to_jsonable` (op.py:58-64), read back by a peer as action, path, value and offset. */
    function ToJsonable(): (r: seq<Ops.JsonEntry>)
      reads this
      ensures Ops.ParseJsonable(r) == Some(Ops.Sent(action, path, val, offset))
    {
      var es := [Ops.ActionEntry(action), Ops.PathEntry(path)]
        + (if val != Null then [Ops.ValEntry(val)] else [])
        + (if offset.Some? then [Ops.OffsetEntry(offset.value)] else []);
      assert es[2..] == (if val != Null then [Ops.ValEntry(val)] else []) + (if offset.Some? then [Ops.OffsetEntry(offset.value)] else []);
      es
    }

    /** `set_transform` (op.py:91-103). */
    method SetTransform(op: EarlyOp)
      requires op != this
      modifies this
      ensures Fields() == Ops.SetTransformed(old(Fields()), op.tPath, op.noop)
      ensures action == old(action) && path == old(path) && val == old(val) && offset == old(offset) && tAction == old(tAction)
    {
      if noop || op.noop {
        return;
      }
      if op.tPath == Take(tPath, |op.tPath|) {
        noop := true;
      }
    }

    /** `string_insert_transform` of this op's class. */
    method StringInsertTransform(op: EarlyOp) returns (r: Result<(), string>)
      requires op != this
      modifies this
      ensures var t := InsertTransformedEarly(kind, tAction, old(Fields()), op.View());
        (r.Err? <==> t.Err?) && Fields() == (if t.Ok? then t.value else old(Fields()))
      ensures action == old(action) && path == old(path) && val == old(val) && offset == old(offset) && tAction == old(tAction)
    {
      if !(kind.StringInsert? || kind.StringDelete?) || tPath != op.tPath {
        return Ok(());
      }
      if kind.StringInsert? && tAction != "si" {
        return Ok(());
      }
      if tOffset.None? || op.tOffset.None? {
        return Err("TypeError: comparison with None");
      }
      var len := Ops.PyLen(op.tVal);
      if kind.StringInsert? {
        if tOffset.value >= op.tOffset.value {
          if len.None? {
            return Err("TypeError: len");
          }
          tOffset := Some(tOffset.value + len.value);
        }
        return Ok(());
      }
      if !tVal.Int? {
        return Err("TypeError: offset plus value");
      }
      if tOffset.value + tVal.i > op.tOffset.value && tOffset.value < op.tOffset.value {
        if len.None? {
          return Err("TypeError: len");
        }
        tVal := Int(tVal.i + len.value);
      } else if tOffset.value >= op.tOffset.value {
        if len.None? {
          return Err("TypeError: len");
        }
        tOffset := Some(tOffset.value + len.value);
      }
      return Ok(());
    }

    /** `string_delete_transform` of this op's class, with the delete-against-delete rule as written. */
    method StringDeleteTransform(op: EarlyOp) returns (r: Result<(), string>)
      requires op != this
      modifies this
      ensures var t := DeleteTransformedEarly(kind, tAction, old(Fields()), op.View());
        (r.Err? <==> t.Err?) && Fields() == (if t.Ok? then t.value else old(Fields()))
      ensures action == old(action) && path == old(path) && val == old(val) && offset == old(offset) && tAction == old(tAction)
    {
      if !(kind.StringInsert? || kind.StringDelete?) || tPath != op.tPath {
        return Ok(());
      }
      if kind.StringDelete? && tAction != "sd" {
        return Ok(());
      }
      if tOffset.None? || op.tOffset.None? {
        return Err("TypeError: comparison with None");
      }
      if !op.tVal.Int? {
        return Err("TypeError: offset plus value");
      }
      var po, pc := op.tOffset.value, op.tVal.i;
      if kind.StringInsert? {
        if tOffset.value >= po + pc {
          tOffset := Some(tOffset.value - pc);
        } else if tOffset.value > po {
          tOffset := Some(po);
          tVal := Str("");
        }
        return Ok(());
      }
      if !tVal.Int? {
        return Err("TypeError: offset plus value");
      }
      var srs, sre := tOffset.value, tOffset.value + tVal.i;
      var opre := po + pc;
      if sre < po {
      } else if srs >= opre {
        tOffset := Some(srs - pc);
      } else if srs >= po && sre >= opre {
        tVal := Int(if sre - opre > 0 then sre - opre else 0);
        tOffset := Some(po);
      } else if sre >= opre {
        tVal := Int(tVal.i - pc);
      } else {
        tVal := Int(po - srs);
      }
      return Ok(());
    }

    /** `ot` (op.py:80-89): each past op of the changeset in turn, stopping at the first error. */
    method Ot(pastOps: seq<EarlyOp>) returns (r: Result<(), string>)
      requires this !in pastOps
      modifies this
      ensures var run := EarlyOtRun(kind, tAction, old(Fields()), Views(pastOps));
        (r.Err? <==> run.Err?) && (run.Ok? ==> Fields() == run.value)
      ensures action == old(action) && path == old(path) && val == old(val) && offset == old(offset) && tAction == old(tAction)
    {
      ghost var f0 := Fields();
      ghost var views := Views(pastOps);
      var i := 0;
      while i < |pastOps|
        invariant 0 <= i <= |pastOps|
        invariant views == Views(pastOps)
        invariant action == old(action) && path == old(path) && val == old(val) && offset == old(offset) && tAction == old(tAction)
        invariant EarlyOtRun(kind, tAction, f0, views[..i]) == Ok(Fields())
      {
        var op := pastOps[i];
        assert views[..i + 1][..i] == views[..i];
        var step: Result<(), string>;
        if op.action == "set" {
          SetTransform(op);
          step := Ok(());
        } else if op.action == "si" {
          step := StringInsertTransform(op);
        } else if op.action == "sd" {
          step := StringDeleteTransform(op);
        } else if op.action in Ops.Actions {
          step := Err("AttributeError: no transformation method");
        } else {
          step := Err("KeyError: unknown action");
        }
        if step.Err? {
          EarlyOtRunStops(kind, tAction, f0, views, i + 1);
          return step;
        }
        i := i + 1;
      }
      assert views[..i] == views;
      return Ok(());
    }
  }

  /** The views of the past operations, in order. */
  function Views(ops: seq<EarlyOp>): (r: seq<EarlyView>)
    reads ops
    ensures |r| == |ops|
    ensures forall j | 0 <= j < |ops| :: r[j] == ops[j].View()
  {
    seq(|ops|, j requires 0 <= j < |ops| reads ops => ops[j].View())
  }

  /** Once a prefix of the run fails, the whole run fails. */
  lemma {:induction false} EarlyOtRunStops(kind: EarlyKind, tAction: string, f: Ops.TFields, views: seq<EarlyView>, n: nat)
    requires n <= |views|
    requires EarlyOtRun(kind, tAction, f, views[..n]).Err?
    ensures EarlyOtRun(kind, tAction, f, views).Err?
    decreases |views| - n
  {
    if n < |views| {
      assert views[..n + 1][..n] == views[..n];
      EarlyOtRunStops(kind, tAction, f, views, n + 1);
    } else {
      assert views[..n] == views;
    }
  }
}
