/**
  The operation class of majormajor/ops: `Op` (ops/op.py) with its subclasses
  `SetOp`, `StringInsertOp` (string_insert_op.py), `StringDeleteOp`
  (string_delete_op.py), `ArrayInsertOp` (array_insert_op.py) and
  `ArrayDeleteOp` (array_delete_op.py).

  One Dafny class stands for all of them; the Python class an object gets is
  its `kind`. An operation keeps its original fields and transformed copies
  (`t_val`, `t_offset`, `noop`) that operational transformation changes.

  `t_path` is the same list object as `path` from construction on
  (ops/op.py:38, 45, 104), so the model keeps the single field `path`: the
  in-place writes of the array transformations (array_insert_op.py:54,
  array_delete_op.py:67, 98) change the original path as well.

  Changesets appear only by identity (`object?`); the ancestors of the
  changeset of the operation being transformed are passed in as a set.
*/
module Ops {
  import opened Wrappers
  import opened Json
  import opened Hazards
  import opened HazardLists
  import opened Splice
  import opened StringRules
  import opened ArrayRules

  /** The Python class of an operation object. */
  datatype Kind = PlainOp | SetOp | StringInsertOp | StringDeleteOp | ArrayInsertOp | ArrayDeleteOp

  /** The actions `ot` knows a transformation name for (ops/op.py:172-183). */
  const Actions: set<string> := {"set", "bn", "na", "si", "sd", "ai", "ad", "am", "oi", "od"}

  /**
    `Op.__new__` (ops/op.py:24-30): the actions si, sd and set choose their
    class whatever class was called; any other action keeps the class called.
  */
  function KindFor(action: string, requested: Kind): (k: Kind)
    ensures action == "si" ==> k == StringInsertOp
    ensures action == "sd" ==> k == StringDeleteOp
    ensures action == "set" ==> k == SetOp
    ensures action !in {"si", "sd", "set"} ==> k == requested
  {
    if action == "si" then StringInsertOp
    else if action == "sd" then StringDeleteOp
    else if action == "set" then SetOp
    else requested
  }

  type OpHazard = CsHazard<Op>

  /** The fields transformation changes: the (shared) path, `t_val`, `t_offset` and `noop`. */
  datatype TFields = TFields(path: Path, tVal: Value, tOffset: Option<int>, noop: bool)

  /** What `get_properties_shifted_by_hazards` returns: path, offset and value. */
  datatype Props = Props(path: Path, offset: Option<int>, val: Value)

  /** What a transformation reads of a past operation. */
  datatype PastView = PastView(op: Op, action: string, tPath: Path, tVal: Value, noop: bool,
                               changeset: object?, shifted: Result<Props, string>)

  /** The transformed fields and the shift the rule reports for the past operation. */
  datatype Transformed = Transformed(fields: TFields, shift: Shift)

  /**
    `get_properties_shifted_by_hazards` of each class, given the relevant
    hazards: unchanged for an array insertion or when no hazard applies; the
    offset shifts added for a string insertion; the offset and value shifts
    added for a string or array deletion. An absent shift counts as zero:
    this is the intended rule, and the class itself follows
    `ShiftedPropsAsWritten`. The methods of `Op` and `SetOp` take no
    changeset, so calling them with one is a TypeError.
  */
  function ShiftedProps(kind: Kind, f: TFields, hs: seq<OpHazard>): Result<Props, string> {
    if kind.PlainOp? || kind.SetOp? then Err("TypeError: takes no changeset argument")
    else if kind.ArrayInsertOp? || |hs| == 0 then Ok(Props(f.path, f.tOffset, f.tVal))
    else if f.tOffset.None? then Err("TypeError: offset is None")
    else if kind.StringInsertOp? then Ok(Props(f.path, Some(f.tOffset.value + OffsetShiftSum(hs)), f.tVal))
    else if !f.tVal.Int? then Err("TypeError: value is not a number")
    else Ok(Props(f.path, Some(f.tOffset.value + OffsetShiftSum(hs)), Int(f.tVal.i + ValShiftSum(hs))))
  }

  /**
    The loops as written (string_insert_op.py:35-36, string_delete_op.py:37-39,
    array_delete_op.py:34-36) add the shifts without checking for None, so a
    hazard that lacks a shift the loop adds raises TypeError.
  */
  function ShiftedPropsAsWritten(kind: Kind, f: TFields, hs: seq<OpHazard>): Result<Props, string> {
    if kind.StringInsertOp? && !AllOffsetShifts(hs) then Err("TypeError: cannot add None")
    else if (kind.StringDeleteOp? || kind.ArrayDeleteOp?) && !(AllOffsetShifts(hs) && AllValShifts(hs)) then Err("TypeError: cannot add None")
    else ShiftedProps(kind, f, hs)
  }

  /** Everything about an operation object that `ot` reads or changes. */
  datatype OpState = OpState(kind: Kind, fields: TFields, original: (string, Value, Option<int>, string, object?),
                             hazards: seq<OpHazard>)

  /** What the past operation `op`, in state `s`, offers an operation of changeset `cs`, whose ancestors are `anc`. */
  function View(op: Op, s: OpState, cs: object?, anc: set<object?>): PastView {
    PastView(op, s.original.0, s.fields.path, s.fields.tVal, s.fields.noop, s.original.4,
             ShiftedPropsAsWritten(s.kind, s.fields, RelevantHazards(s.hazards, cs, anc)))
  }

  /** What the past operation `op` offers in its current state. */
  function ViewOf(op: Op, cs: object?, anc: set<object?>): PastView
    reads op
  {
    PastView(op, op.action, op.path, op.tVal, op.noop, op.changeset,
             ShiftedPropsAsWritten(op.kind, op.Fields(), RelevantHazards(op.hazards, cs, anc)))
  }

  /** The views of the past operations `ops`, in the states `ss`. */
  function Views(ops: seq<Op>, ss: seq<OpState>, cs: object?, anc: set<object?>): (r: seq<PastView>)
    requires |ops| == |ss|
    ensures |r| == |ops|
    ensures forall j | 0 <= j < |ops| :: r[j] == View(ops[j], ss[j], cs, anc)
  {
    seq(|ops|, j requires 0 <= j < |ops| => View(ops[j], ss[j], cs, anc))
  }

  /** The states of the operations `ops`. */
  function States(ops: seq<Op>): (r: seq<OpState>)
    reads ops
    ensures |r| == |ops|
    ensures forall j | 0 <= j < |ops| :: r[j] == ops[j].State()
  {
    seq(|ops|, j requires 0 <= j < |ops| reads ops => ops[j].State())
  }

  /** The states `ss` after the hazard `added[j]`, when there is one, has been appended to the `j`-th. */
  function WithAdded(ss: seq<OpState>, added: seq<Option<OpHazard>>): (r: seq<OpState>)
    requires |added| <= |ss|
    ensures |r| == |ss|
    ensures forall j | 0 <= j < |ss| :: r[j].kind == ss[j].kind && r[j].fields == ss[j].fields && r[j].original == ss[j].original
    ensures forall j | 0 <= j < |added| :: r[j].hazards == ss[j].hazards + Listed(added[j])
    ensures forall j | |added| <= j < |ss| :: r[j] == ss[j]
  {
    seq(|ss|, j requires 0 <= j < |ss| =>
      if j < |added| && added[j].Some? then ss[j].(hazards := ss[j].hazards + [added[j].value]) else ss[j])
  }

  /**
    `set_transform` (ops/op.py:134-146): nothing happens when either op is
    already a no-op; otherwise this op becomes a no-op exactly when the set's
    path lies along its own.
  */
  function SetTransformed(f: TFields, setPath: Path, setNoop: bool): (r: TFields)
    ensures r.path == f.path && r.tVal == f.tVal && r.tOffset == f.tOffset
    ensures r.noop <==> f.noop || (!setNoop && IsPrefix(setPath, f.path))
  {
    SlicePrefixIsPrefix(setPath, f.path);
    if f.noop || setNoop then f
    else if setPath == Take(f.path, |setPath|) then f.(noop := true)
    else f
  }

  /** `string_insert_transform` of each class: the string rules for string ops, nothing for the others. */
  function StringInsertTransformed(kind: Kind, f: TFields, past: PastView): Result<Transformed, string> {
    if !(kind.StringInsertOp? || kind.StringDeleteOp?) || f.path != past.tPath then Ok(Transformed(f, NoHazard))
    else if past.shifted.Err? then Err(past.shifted.error)
    else
      var po := past.shifted.value.offset;
      if kind.StringInsertOp? then
        if f.tOffset.None? || po.None? || !f.tVal.Str? || !past.tVal.Str? then Err("TypeError")
        else
          var m := InsertPastInsert(f.tOffset.value, f.tVal.s, po.value, past.tVal.s);
          Ok(Transformed(f.(tOffset := Some(m.offset), tVal := Str(m.val)), m.hazard))
      else
        if f.tOffset.None? || po.None? || !f.tVal.Int? || !past.tVal.Str? then Err("TypeError")
        else
          var m := DeletePastInsert(f.tOffset.value, f.tVal.i, po.value, past.tVal.s);
          Ok(Transformed(f.(tOffset := Some(m.offset), tVal := Int(m.val)), m.hazard))
  }

  /**
    `string_delete_transform` of each class. A string deletion against a past
    string deletion calls `transform_delete_by_previous_delete`, which no
    class defines: AttributeError.
  */
  function StringDeleteTransformed(kind: Kind, f: TFields, past: PastView): Result<Transformed, string> {
    if !(kind.StringInsertOp? || kind.StringDeleteOp?) || f.path != past.tPath then Ok(Transformed(f, NoHazard))
    else if past.shifted.Err? then Err(past.shifted.error)
    else if kind.StringDeleteOp? then Err("AttributeError: transform_delete_by_previous_delete")
    else
      var po := past.shifted.value.offset;
      var pv := past.shifted.value.val;
      if f.tOffset.None? || po.None? || !pv.Int? || !f.tVal.Str? then Err("TypeError")
      else
        var m := InsertPastDelete(f.tOffset.value, f.tVal.s, po.value, pv.i);
        Ok(Transformed(f.(tOffset := Some(m.offset), tVal := Str(m.val)), m.hazard))
  }

  /** Python's `len`: defined for strings, lists and dictionaries; a TypeError otherwise. */
  function PyLen(v: Value): (r: Option<nat>)
    ensures r.Some? <==> v.Str? || v.Array? || v.Object?
    ensures v.Str? ==> r == Some(|v.s|)
    ensures v.Array? ==> r == Some(|v.items|)
  {
    match v
    case Str(s) => Some(|s|)
    case Array(xs) => Some(|xs|)
    case Object(m) => Some(|m.Keys|)
    case _ => None
  }

  /** A list of `n` placeholder items: the array rules only read the length of the past insertion. */
  function Padding(n: nat): (r: seq<Value>)
    ensures |r| == n
  {
    seq(n, _ => Null)
  }

  /**
    `array_insert_transform` of `ArrayInsertOp` (array_insert_op.py:34-55) and
    of `ArrayDeleteOp` (array_delete_op.py:39-68); the other classes have no
    such method. The offsets are shifted by the rules of `ArrayRules`; a
    comparison with None, `len` of a number and adding a number to a
    dictionary key in the path raise TypeError.
  */
  function ArrayInsertTransformed(kind: Kind, f: TFields, past: PastView): Result<Transformed, string> {
    if !(kind.ArrayInsertOp? || kind.ArrayDeleteOp?) then Err("AttributeError: array_insert_transform")
    else if past.shifted.Err? then Err(past.shifted.error)
    else
      var pp := past.shifted.value.path;
      var k := |pp|;
      if |f.path| < k then Ok(Transformed(f, NoHazard))
      else if pp == f.path then SameListArrayInsert(kind, f, past.shifted.value)
      else if pp != f.path[..k] then Ok(Transformed(f, NoHazard))
      else AlongPathArrayInsert(kind, f, past.shifted.value)
  }

  /** A past array insertion into the list this op edits (array_insert_op.py:48-50, array_delete_op.py:54-63). */
  function SameListArrayInsert(kind: Kind, f: TFields, p: Props): Result<Transformed, string>
    requires kind.ArrayInsertOp? || kind.ArrayDeleteOp?
    requires p.path == f.path
  {
    var po, pv := p.offset, p.val;
    var len := if PyLen(pv).Some? then PyLen(pv).value else 0;
    if po.None? || f.tOffset.None? then Err("TypeError: comparison with None")
    else if kind.ArrayInsertOp? then
      if po.value <= f.tOffset.value && PyLen(pv).None? then Err("TypeError: len")
      else
        var o := InsertPastArrayInsert(f.path, f.tOffset.value, [], p.path, po.value, Padding(len));
        Ok(Transformed(f.(tOffset := Some(o.offset)), o.hazard))
    else if po.value > f.tOffset.value && !f.tVal.Int? then Err("TypeError: offset plus value")
    else if PyLen(pv).None? && (po.value <= f.tOffset.value || po.value < f.tOffset.value + f.tVal.i) then Err("TypeError: len")
    else
      var count := if f.tVal.Int? then f.tVal.i else 0;
      var o := DeletePastArrayInsert(f.path, f.tOffset.value, count, p.path, po.value, Padding(len));
      Ok(Transformed(f.(tOffset := Some(o.offset), tVal := if f.tVal.Int? then Int(o.val) else f.tVal), o.hazard))
  }

  /** A past array insertion into a list along this op's path (array_insert_op.py:52-54, array_delete_op.py:64-67). */
  function AlongPathArrayInsert(kind: Kind, f: TFields, p: Props): Result<Transformed, string>
    requires kind.ArrayInsertOp? || kind.ArrayDeleteOp?
    requires |p.path| < |f.path| && p.path == f.path[..|p.path|]
  {
    var k := |p.path|;
    var len := if PyLen(p.val).Some? then PyLen(p.val).value else 0;
    if p.offset.None? then Err("TypeError: comparison with None")
    else if f.path[k].Key? then Err("TypeError: cannot add a number to a key")
    else if p.offset.value <= f.path[k].i && PyLen(p.val).None? then Err("TypeError: len")
    else if kind.ArrayInsertOp? then
      Ok(Transformed(f.(path := InsertPastArrayInsert(f.path, 0, [], p.path, p.offset.value, Padding(len)).path), NoHazard))
    else
      Ok(Transformed(f.(path := DeletePastArrayInsert(f.path, 0, 0, p.path, p.offset.value, Padding(len)).path), NoHazard))
  }

  /**
    `array_delete_transform` of `ArrayInsertOp` (array_insert_op.py:57-96) and
    of `ArrayDeleteOp` (array_delete_op.py:70-105). Two array deletions in the
    same list call `shift_from_overlaping_delete_ranges`, which no class
    defines: AttributeError.
  */
  function ArrayDeleteTransformed(kind: Kind, f: TFields, past: PastView): Result<Transformed, string> {
    if !(kind.ArrayInsertOp? || kind.ArrayDeleteOp?) then Err("AttributeError: array_delete_transform")
    else if past.shifted.Err? then Err(past.shifted.error)
    else
      var k := |past.shifted.value.path|;
      if |f.path| < k || past.shifted.value.path != f.path[..k] then Ok(Transformed(f, NoHazard))
      else if k < |f.path| then AlongPathArrayDelete(f, past.shifted.value)
      else if kind.ArrayDeleteOp? then Err("AttributeError: shift_from_overlaping_delete_ranges")
      else SameListArrayDelete(f, past.shifted.value)
  }

  /**
    A past array deletion from a list along this op's path: the path step is
    pulled back, or the op becomes a no-op when its element was deleted
    (array_insert_op.py:74-81, array_delete_op.py:88-98).
  */
  function AlongPathArrayDelete(f: TFields, p: Props): Result<Transformed, string>
    requires |p.path| < |f.path| && p.path == f.path[..|p.path|]
  {
    var k := |p.path|;
    if p.offset.None? || !p.val.Int? then Err("TypeError: xrange of a non-number")
    else if f.path[k].Key? then Err("TypeError: cannot subtract a number from a key")
    else
      var o := InsertPastArrayDelete<Value>(f.path, 0, [], p.path, p.offset.value, p.val.i);
      Ok(Transformed(f.(path := o.path, noop := f.noop || o.noop), NoHazard))
  }

  /** An array insertion after a past deletion from the same list (array_insert_op.py:83-94). */
  function SameListArrayDelete(f: TFields, p: Props): Result<Transformed, string>
    requires p.path == f.path
  {
    if p.offset.None? || !p.val.Int? then Err("TypeError: xrange of a non-number")
    else if f.tOffset.None? then Err("TypeError: comparison with None")
    else
      var o := InsertPastArrayDelete<Value>(f.path, f.tOffset.value, [], p.path, p.offset.value, p.val.i);
      Ok(Transformed(f.(tOffset := Some(o.offset), tVal := if o.noop then Array([]) else f.tVal, noop := f.noop || o.noop), NoHazard))
  }


  /**
    One step of `ot` (ops/op.py:116-118): the transformation named for the
    past op's action. The names for bn, na, ai, ad, am, oi and od are methods
    no class defines (AttributeError); an action outside the table is a
    KeyError.
  */
  function TransformSpec(kind: Kind, f: TFields, past: PastView): Result<Transformed, string> {
    if past.action == "set" then Ok(Transformed(SetTransformed(f, past.tPath, past.noop), NoHazard))
    else if past.action == "si" then StringInsertTransformed(kind, f, past)
    else if past.action == "sd" then StringDeleteTransformed(kind, f, past)
    else if past.action in Actions then Err("AttributeError: no transformation method")
    else Err("KeyError: unknown action")
  }

  /** The state reached by `ot`: the fields, the hazard (if any) added to each past op in turn, and the error that stopped it. */
  datatype Run = Run(fields: TFields, added: seq<Option<OpHazard>>, error: Option<string>)

  /** `ot` over the past ops' views, in order, stopping at the first error. */
  function OtRun(kind: Kind, self: Op, selfCs: object?, f: TFields, views: seq<PastView>): (r: Run)
    ensures |r.added| <= |views|
    ensures r.error.None? ==> |r.added| == |views|
    decreases |views|
  {
    if |views| == 0 then Run(f, [], None)
    else
      var prev := OtRun(kind, self, selfCs, f, views[..|views| - 1]);
      if prev.error.Some? then prev
      else
        var v := views[|views| - 1];
        match TransformSpec(kind, prev.fields, v)
        case Err(e) => Run(prev.fields, prev.added, Some(e))
        case Ok(t) => Run(t.fields, prev.added + [HazardFromShift(v.op, v.changeset, self, selfCs, t.shift)], None)
  }

  /** The first entries of `ot`'s run over a longer list are its run over the shorter one. */
  lemma {:induction false} OtRunPrefix(kind: Kind, self: Op, selfCs: object?, f: TFields, views: seq<PastView>, n: nat)
    requires n <= |views|
    requires OtRun(kind, self, selfCs, f, views).error.None?
    ensures OtRun(kind, self, selfCs, f, views[..n]).error.None?
    ensures OtRun(kind, self, selfCs, f, views).added[..n] == OtRun(kind, self, selfCs, f, views[..n]).added
    decreases |views|
  {
    if n < |views| {
      assert views[..|views| - 1][..n] == views[..n];
      OtRunPrefix(kind, self, selfCs, f, views[..|views| - 1], n);
    } else {
      assert views[..n] == views;
    }
  }

  /** `ot` never moves an operation's path, and an operation that is a no-op stays one. */
  lemma {:induction false} OtRunKeepsPathAndNoop(kind: Kind, self: Op, selfCs: object?, f: TFields, views: seq<PastView>)
    ensures OtRun(kind, self, selfCs, f, views).fields.path == f.path
    ensures f.noop ==> OtRun(kind, self, selfCs, f, views).fields.noop
    decreases |views|
  {
    if |views| > 0 {
      OtRunKeepsPathAndNoop(kind, self, selfCs, f, views[..|views| - 1]);
    }
  }

  /** Against past ops none of which is a string op or a set, every known action fails: only set, si and sd have transformations. */
  lemma OtRunFailsOnOtherActions(kind: Kind, self: Op, selfCs: object?, f: TFields, v: PastView)
    requires v.action !in {"set", "si", "sd"}
    ensures OtRun(kind, self, selfCs, f, [v]).error.Some?
    ensures OtRun(kind, self, selfCs, f, [v]).fields == f
  {
    assert [v][..0] == [];
  }

  /** The entries of `to_jsonable`: single-key dictionaries. */
  datatype JsonEntry = ActionEntry(action: string) | PathEntry(path: Path) | ValEntry(val: Value) | OffsetEntry(offset: int)

  /** What a peer reads back from `to_jsonable`'s list: action, path, value (None when absent) and offset. */
  datatype Sent = Sent(action: string, path: Path, val: Value, offset: Option<int>)

  /** Reading a list in the shape `to_jsonable` writes; None for any other list. */
  function ParseJsonable(es: seq<JsonEntry>): (r: Option<Sent>)
    ensures r.Some? ==> 2 <= |es| <= 4
  {
    if |es| < 2 || !es[0].ActionEntry? || !es[1].PathEntry? then None
    else
      var rest := es[2..];
      var val := if |rest| > 0 && rest[0].ValEntry? then Some(rest[0].val) else None;
      var rest' := if val.Some? then rest[1..] else rest;
      if |rest'| == 0 then Some(Sent(es[0].action, es[1].path, if val.Some? then val.value else Null, None))
      else if |rest'| == 1 && rest'[0].OffsetEntry? then Some(Sent(es[0].action, es[1].path, if val.Some? then val.value else Null, Some(rest'[0].offset)))
      else None
  }

  /** A transformation returned `r` and changed the fields from `before` to `after` as the rule outcome `t` says. */
  predicate Reported(r: Result<Option<OpHazard>, string>, before: TFields, after: TFields, t: Result<Transformed, string>,
                     base: Op, baseCs: object?, self: Op, selfCs: object?)
  {
    && (r.Err? <==> t.Err?)
    && (t.Err? ==> after == before)
    && (t.Ok? ==> r.Ok? && after == t.value.fields && r.value == HazardFromShift(base, baseCs, self, selfCs, t.value.shift))
  }

  class Op {
    const kind: Kind
    var action: string
    var path: Path
    var val: Value
    var offset: Option<int>
    var tAction: string
    var tVal: Value
    var tOffset: Option<int>
    var noop: bool
    var changeset: object?
    var hazards: seq<OpHazard>

    function Fields(): TFields
      reads this
    {
      TFields(path, tVal, tOffset, noop)
    }

    /** The fields transformation never touches. */
    function Original(): (string, Value, Option<int>, string, object?)
      reads this
    {
      (action, val, offset, tAction, changeset)
    }

    function State(): OpState
      reads this
    {
      OpState(kind, Fields(), Original(), hazards)
    }

    /** Every transformed field equals its original and the op is not a no-op. */
    predicate Untransformed()
      reads this
    {
      tAction == action && tVal == val && tOffset == offset && !noop
    }

    /** `Op(action, path, val, offset)` on the class `requested` (ops/op.py:24-52). */
    constructor (requested: Kind, action: string, path: Path, val: Value, offset: Option<int>)
      ensures kind == KindFor(action, requested)
      ensures this.action == action && this.path == path && this.val == val && this.offset == offset
      ensures Untransformed()
      ensures changeset == null && hazards == []
    {
      kind := KindFor(action, requested);
      this.action := action;
      this.path := path;
      this.val := val;
      this.offset := offset;
      tAction := action;
      tVal := val;
      tOffset := offset;
      noop := false;
      changeset := null;
      hazards := [];
    }

    /** `set_changeset` (ops/op.py:54-55). */
    method SetChangeset(cs: object?)
      modifies this
      ensures changeset == cs
      ensures Fields() == old(Fields()) && hazards == old(hazards)
      ensures action == old(action) && val == old(val) && offset == old(offset) && tAction == old(tAction)
    {
      changeset := cs;
    }

    /**
      `reset_transformations` (ops/op.py:102-107). The path is not restored:
      it is the same list as the transformed path.
    */
    method ResetTransformations()
      modifies this
      ensures Untransformed()
      ensures path == old(path) && action == old(action) && val == old(val) && offset == old(offset)
      ensures changeset == old(changeset) && hazards == old(hazards)
    {
      tAction := action;
      tVal := val;
      tOffset := offset;
      noop := false;
    }

    /** `remove_old_hazards` (ops/op.py:69-70). */
    method RemoveOldHazards(css: seq<object?>)
      modifies this
      ensures hazards == CurrentHazards(old(hazards), css)
      ensures Fields() == old(Fields()) && Original() == old(Original())
    {
      hazards := CurrentHazards(hazards, css);
    }

    /** `add_new_hazard` (ops/op.py:122-123). */
    method AddNewHazard(h: OpHazard)
      modifies this
      ensures hazards == old(hazards) + [h]
      ensures Fields() == old(Fields()) && Original() == old(Original())
    {
      hazards := hazards + [h];
    }

    /** `to_jsonable` (ops/op.py:87-93): action, path, then value and offset when they are not None. */
    function ToJsonable(): (r: seq<JsonEntry>)
      reads this
      ensures 2 <= |r| <= 4
      ensures r[0] == ActionEntry(action) && r[1] == PathEntry(path)
    {
      [ActionEntry(action), PathEntry(path)]
        + (if val != Null then [ValEntry(val)] else [])
        + (if offset.Some? then [OffsetEntry(offset.value)] else [])
    }

    /**
      `get_properties_shifted_by_hazards` of each class with the changeset
      `cs` (string_insert_op.py:26-37, string_delete_op.py:26-40,
      array_insert_op.py:26-32, array_delete_op.py:26-37) as written: a
      relevant hazard that lacks a shift the loop adds raises TypeError.
    */
    method PropertiesShiftedByHazards(cs: object?, anc: set<object?>) returns (r: Result<Props, string>)
      ensures r == ShiftedPropsAsWritten(kind, Fields(), RelevantHazards(hazards, cs, anc))
    {
      var hs := RelevantHazards(hazards, cs, anc);
      if (kind.StringInsertOp? && !AllOffsetShifts(hs))
         || ((kind.StringDeleteOp? || kind.ArrayDeleteOp?) && !(AllOffsetShifts(hs) && AllValShifts(hs))) {
        return Err("TypeError: cannot add None");
      }
      if kind.PlainOp? || kind.SetOp? {
        return Err("TypeError: takes no changeset argument");
      }
      if kind.ArrayInsertOp? || |hs| == 0 {
        return Ok(Props(path, tOffset, tVal));
      }
      if tOffset.None? {
        return Err("TypeError: offset is None");
      }
      if !kind.StringInsertOp? && !tVal.Int? {
        return Err("TypeError: value is not a number");
      }
      var offsetShift, valShift := SumShifts(hs);
      var pastOffset := tOffset.value + offsetShift;
      var pastVal := (if tVal.Int? then tVal.i else 0) + valShift;
      if kind.StringInsertOp? {
        return Ok(Props(path, Some(pastOffset), tVal));
      }
      return Ok(Props(path, Some(pastOffset), Int(pastVal)));
    }

    /** The result `r` and the new fields are those of the rule outcome `t`, the hazard naming `base` and this op. */
    predicate Reports(r: Result<Option<OpHazard>, string>, before: TFields, t: Result<Transformed, string>, base: Op, baseCs: object?)
      reads this
    {
      Reported(r, before, Fields(), t, base, baseCs, this, changeset)
    }

    /** `set_transform` (ops/op.py:134-146). */
    method SetTransform(op: Op)
      modifies this
      ensures Fields() == SetTransformed(old(Fields()), old(op.path), old(op.noop))
      ensures Original() == old(Original()) && hazards == old(hazards)
    {
      if noop || op.noop {
        return;
      }
      var opPath := op.path;
      if opPath == Take(path, |opPath|) {
        noop := true;
      }
    }

    /** `string_insert_transform` of this op's class (ops/op.py:148-155, string_insert_op.py:39-53, string_delete_op.py:42-66). */
    method StringInsertTransform(op: Op, anc: set<object?>) returns (r: Result<Option<OpHazard>, string>)
      requires op != this
      modifies this
      ensures Original() == old(Original()) && hazards == old(hazards)
      ensures Reports(r, old(Fields()), StringInsertTransformed(kind, old(Fields()), ViewOf(op, changeset, anc)), op, op.changeset)
    {
      if !(kind.StringInsertOp? || kind.StringDeleteOp?) || path != op.path {
        return Ok(None);
      }
      var props := op.PropertiesShiftedByHazards(changeset, anc);
      if props.Err? {
        return Err(props.error);
      }
      var pastOffset := props.value.offset;
      if kind.StringInsertOp? {
        if tOffset.None? || pastOffset.None? || !tVal.Str? || !op.tVal.Str? {
          return Err("TypeError");
        }
        if tOffset.value >= pastOffset.value {
          tOffset := Some(tOffset.value + |op.tVal.s|);
          return Ok(None);
        }
        return Ok(HazardFromShift(op, op.changeset, this, changeset, OffsetHazard(|tVal.s|)));
      } else {
        if tOffset.None? || pastOffset.None? || !tVal.Int? || !op.tVal.Str? {
          return Err("TypeError");
        }
        if tOffset.value + tVal.i > pastOffset.value && tOffset.value < pastOffset.value {
          tVal := Int(tVal.i + |op.tVal.s|);
        } else if tOffset.value >= pastOffset.value {
          tOffset := Some(tOffset.value + |op.tVal.s|);
        } else {
          return Ok(HazardFromShift(op, op.changeset, this, changeset, OffsetHazard(-tVal.i)));
        }
        return Ok(None);
      }
    }

    /** `string_delete_transform` of this op's class (ops/op.py:157-164, string_insert_op.py:55-78, string_delete_op.py:68-82). */
    method StringDeleteTransform(op: Op, anc: set<object?>) returns (r: Result<Option<OpHazard>, string>)
      requires op != this
      modifies this
      ensures Original() == old(Original()) && hazards == old(hazards)
      ensures Reports(r, old(Fields()), StringDeleteTransformed(kind, old(Fields()), ViewOf(op, changeset, anc)), op, op.changeset)
    {
      if !(kind.StringInsertOp? || kind.StringDeleteOp?) || path != op.path {
        return Ok(None);
      }
      var props := op.PropertiesShiftedByHazards(changeset, anc);
      if props.Err? {
        return Err(props.error);
      }
      if kind.StringDeleteOp? {
        return Err("AttributeError: transform_delete_by_previous_delete");
      }
      var pastOffset := props.value.offset;
      var pastVal := props.value.val;
      if tOffset.None? || pastOffset.None? || !pastVal.Int? || !tVal.Str? {
        return Err("TypeError");
      }
      if tOffset.value >= pastOffset.value + pastVal.i {
        tOffset := Some(tOffset.value - pastVal.i);
        return Ok(None);
      } else if tOffset.value > pastOffset.value {
        tOffset := pastOffset;
        var vs := |tVal.s|;
        tVal := Str("");
        return Ok(HazardFromShift(op, op.changeset, this, changeset, ValHazard(vs)));
      }
      return Ok(HazardFromShift(op, op.changeset, this, changeset, OffsetHazard(|tVal.s|)));
    }

    /** `array_insert_transform` of this op's class (array_insert_op.py:34-55, array_delete_op.py:39-68). */
    method ArrayInsertTransform(op: Op, anc: set<object?>) returns (r: Result<Option<OpHazard>, string>)
      requires op != this
      modifies this
      ensures Original() == old(Original()) && hazards == old(hazards)
      ensures Reports(r, old(Fields()), ArrayInsertTransformed(kind, old(Fields()), ViewOf(op, changeset, anc)), op, op.changeset)
    {
      if !(kind.ArrayInsertOp? || kind.ArrayDeleteOp?) {
        return Err("AttributeError: array_insert_transform");
      }
      var props := op.PropertiesShiftedByHazards(changeset, anc);
      if props.Err? {
        return Err(props.error);
      }
      var k := |props.value.path|;
      if |path| < k {
        return Ok(None);
      }
      if props.value.path == path {
        r := SameListArrayInsertTransform(op, props.value);
      } else if props.value.path == path[..k] {
        r := AlongPathArrayInsertTransform(props.value);
      } else {
        r := Ok(None);
      }
    }

    /** The same-list branch of `array_insert_transform`. */
    method SameListArrayInsertTransform(op: Op, p: Props) returns (r: Result<Option<OpHazard>, string>)
      requires kind.ArrayInsertOp? || kind.ArrayDeleteOp?
      requires p.path == path
      modifies this
      ensures Original() == old(Original()) && hazards == old(hazards)
      ensures Reports(r, old(Fields()), SameListArrayInsert(kind, old(Fields()), p), op, op.changeset)
    {
      var pastOffset, pastVal := p.offset, p.val;
      if pastOffset.None? || tOffset.None? {
        return Err("TypeError: comparison with None");
      }
      if pastOffset.value <= tOffset.value {
        var n := PyLen(pastVal);
        if n.None? {
          return Err("TypeError: len");
        }
        tOffset := Some(tOffset.value + n.value);
        return Ok(None);
      }
      if kind.ArrayInsertOp? {
        return Ok(None);
      }
      if !tVal.Int? {
        return Err("TypeError: offset plus value");
      }
      if pastOffset.value < tOffset.value + tVal.i {
        var n := PyLen(pastVal);
        if n.None? {
          return Err("TypeError: len");
        }
        tVal := Int(tVal.i + n.value);
        return Ok(None);
      }
      return Ok(HazardFromShift(op, op.changeset, this, changeset, OffsetHazard(-tVal.i)));
    }

    /** The along-the-path branch of `array_insert_transform`: the path is written in place. */
    method AlongPathArrayInsertTransform(p: Props) returns (r: Result<Option<OpHazard>, string>)
      requires kind.ArrayInsertOp? || kind.ArrayDeleteOp?
      requires |p.path| < |path| && p.path == path[..|p.path|]
      modifies this
      ensures Original() == old(Original()) && hazards == old(hazards)
      ensures r.Err? <==> AlongPathArrayInsert(kind, old(Fields()), p).Err?
      ensures r.Ok? ==> r == Ok(None) && Fields() == AlongPathArrayInsert(kind, old(Fields()), p).value.fields
      ensures r.Err? ==> Fields() == old(Fields())
    {
      var k := |p.path|;
      if p.offset.None? {
        return Err("TypeError: comparison with None");
      }
      if path[k].Key? {
        return Err("TypeError: cannot add a number to a key");
      }
      if p.offset.value <= path[k].i {
        var n := PyLen(p.val);
        if n.None? {
          return Err("TypeError: len");
        }
        path := path[k := Index(path[k].i + n.value)];
      }
      return Ok(None);
    }

    /** `array_delete_transform` of this op's class (array_insert_op.py:57-96, array_delete_op.py:70-105). */
    method ArrayDeleteTransform(op: Op, anc: set<object?>) returns (r: Result<Option<OpHazard>, string>)
      requires op != this
      modifies this
      ensures Original() == old(Original()) && hazards == old(hazards)
      ensures Reports(r, old(Fields()), ArrayDeleteTransformed(kind, old(Fields()), ViewOf(op, changeset, anc)), op, op.changeset)
    {
      if !(kind.ArrayInsertOp? || kind.ArrayDeleteOp?) {
        return Err("AttributeError: array_delete_transform");
      }
      var props := op.PropertiesShiftedByHazards(changeset, anc);
      if props.Err? {
        return Err(props.error);
      }
      var k := |props.value.path|;
      if |path| < k || props.value.path != path[..k] {
        return Ok(None);
      }
      if k < |path| {
        r := AlongPathArrayDeleteTransform(props.value);
      } else if kind.ArrayDeleteOp? {
        return Err("AttributeError: shift_from_overlaping_delete_ranges");
      } else {
        r := SameListArrayDeleteTransform(props.value);
      }
    }

    /** The along-the-path branch of `array_delete_transform`: the path is written in place. */
    method AlongPathArrayDeleteTransform(p: Props) returns (r: Result<Option<OpHazard>, string>)
      requires |p.path| < |path| && p.path == path[..|p.path|]
      modifies this
      ensures Original() == old(Original()) && hazards == old(hazards)
      ensures r.Err? <==> AlongPathArrayDelete(old(Fields()), p).Err?
      ensures r.Ok? ==> r == Ok(None) && Fields() == AlongPathArrayDelete(old(Fields()), p).value.fields
      ensures r.Err? ==> Fields() == old(Fields())
    {
      var k := |p.path|;
      if p.offset.None? || !p.val.Int? {
        return Err("TypeError: xrange of a non-number");
      }
      if path[k].Key? {
        return Err("TypeError: cannot subtract a number from a key");
      }
      if p.offset.value <= path[k].i < p.offset.value + p.val.i {
        noop := true;
      } else if path[k].i > p.offset.value {
        path := path[k := Index(path[k].i - p.val.i)];
      }
      return Ok(None);
    }

    /** The same-list branch of `array_delete_transform` for an array insertion. */
    method SameListArrayDeleteTransform(p: Props) returns (r: Result<Option<OpHazard>, string>)
      requires p.path == path
      modifies this
      ensures Original() == old(Original()) && hazards == old(hazards)
      ensures r.Err? <==> SameListArrayDelete(old(Fields()), p).Err?
      ensures r.Ok? ==> r == Ok(None) && Fields() == SameListArrayDelete(old(Fields()), p).value.fields
      ensures r.Err? ==> Fields() == old(Fields())
    {
      if p.offset.None? || !p.val.Int? {
        return Err("TypeError: xrange of a non-number");
      }
      if tOffset.None? {
        return Err("TypeError: comparison with None");
      }
      if p.offset.value + 1 <= tOffset.value < p.offset.value + p.val.i {
        tOffset := p.offset;
        tVal := Array([]);
        noop := true;
      } else if tOffset.value > p.offset.value {
        tOffset := Some(tOffset.value - p.val.i);
      }
      return Ok(None);
    }

    /** The body of `ot`'s loop (ops/op.py:116-118): look up the transformation for the past op's action and run it. */
    method TransformAgainst(op: Op, anc: set<object?>) returns (r: Result<Option<OpHazard>, string>)
      requires op != this
      modifies this
      ensures Original() == old(Original()) && hazards == old(hazards)
      ensures Reports(r, old(Fields()), TransformSpec(kind, old(Fields()), ViewOf(op, changeset, anc)), op, op.changeset)
    {
      if op.action == "set" {
        SetTransform(op);
        return Ok(None);
      } else if op.action == "si" {
        r := StringInsertTransform(op, anc);
      } else if op.action == "sd" {
        r := StringDeleteTransform(op, anc);
      } else if op.action in Actions {
        return Err("AttributeError: no transformation method");
      } else {
        return Err("KeyError: unknown action");
      }
    }

    /** `add_new_hazard` on the `i`-th of the distinct ops `ops`: only that op's hazards change. */
    static method AddHazardTo(ops: seq<Op>, i: nat, h: OpHazard)
      requires i < |ops|
      requires forall k, j | 0 <= k < j < |ops| :: ops[k] != ops[j]
      modifies ops[i]
      ensures var s := old(States(ops)); States(ops) == s[i := s[i].(hazards := s[i].hazards + [h])]
    {
      ghost var pre := States(ops);
      ops[i].AddNewHazard(h);
      assert forall j | 0 <= j < |ops| && j != i :: ops[j].State() == pre[j];
    }

    /** One pass of `ot`'s loop: transforming against the `i`-th past op extends the run over the first `i` views by one. */
    method Advance(op: Op, anc: set<object?>, ghost f0: TFields, ghost views: seq<PastView>, ghost i: nat, ghost added: seq<Option<OpHazard>>)
      returns (h: Result<Option<OpHazard>, string>)
      requires op != this && i < |views| && views[i] == View(op, op.State(), changeset, anc)
      requires OtRun(kind, this, changeset, f0, views[..i]) == Run(Fields(), added, None)
      modifies this
      ensures Original() == old(Original()) && hazards == old(hazards)
      ensures h.Err? ==> OtRun(kind, this, changeset, f0, views[..i + 1]).error.Some?
                         && OtRun(kind, this, changeset, f0, views[..i + 1]).fields == Fields()
                         && OtRun(kind, this, changeset, f0, views[..i + 1]).added == added
      ensures h.Ok? ==> OtRun(kind, this, changeset, f0, views[..i + 1]) == Run(Fields(), added + [h.value], None)
    {
      assert views[i] == ViewOf(op, changeset, anc);
      ghost var before := Fields();
      h := TransformAgainst(op, anc);
      OtRunAdvance(kind, this, changeset, f0, views, i, added, before, Fields(), h);
    }

    /**
      `ot` (ops/op.py:109-120): transform this op against the ops of a past
      changeset in order, appending each hazard to the past op it concerns,
      never to this op. The ops of one changeset are distinct objects, and
      this op is not one of them.
    */
    method Ot(pastOps: seq<Op>, anc: set<object?>) returns (r: Result<(), string>)
      requires this !in pastOps
      requires forall i, j | 0 <= i < j < |pastOps| :: pastOps[i] != pastOps[j]
      modifies this, pastOps
      ensures Original() == old(Original()) && hazards == old(hazards)
      ensures var run := OtRun(kind, this, changeset, old(Fields()), Views(pastOps, old(States(pastOps)), changeset, anc));
        && Fields() == run.fields
        && (r.Err? <==> run.error.Some?)
        && States(pastOps) == WithAdded(old(States(pastOps)), run.added)
    {
      ghost var s0 := States(pastOps);
      ghost var views := Views(pastOps, s0, changeset, anc);
      ghost var f0 := Fields();
      ghost var added: seq<Option<OpHazard>> := [];
      var i := 0;
      while i < |pastOps|
        invariant 0 <= i <= |pastOps| && |added| == i
        invariant Original() == old(Original()) && hazards == old(hazards)
        invariant OtRun(kind, this, changeset, f0, views[..i]) == Run(Fields(), added, None)
        invariant States(pastOps) == WithAdded(s0, added)
      {
        var op := pastOps[i];
        var h := Advance(op, anc, f0, views, i, added);
        if h.Err? {
          OtRunStops(kind, this, changeset, f0, views, i + 1);
          return Err(h.error);
        }
        WithAddedStep(s0, added, h.value);
        if h.value.Some? {
          AddHazardTo(pastOps, i, h.value.value);
        }
        added := added + [h.value];
        i := i + 1;
      }
      assert views[..i] == views;
      return Ok(());
    }
  }

  /** The loop of `get_properties_shifted_by_hazards`: the offset and value shifts of `hs`, summed in order. */
  method SumShifts(hs: seq<OpHazard>) returns (offsetShift: int, valShift: int)
    ensures offsetShift == OffsetShiftSum(hs) && valShift == ValShiftSum(hs)
  {
    offsetShift, valShift := 0, 0;
    for i := 0 to |hs|
      invariant offsetShift == OffsetShiftSum(hs[..i]) && valShift == ValShiftSum(hs[..i])
    {
      assert hs[..i + 1][..i] == hs[..i];
      valShift := valShift + ShiftOrZero(hs[i].valShift);
      offsetShift := offsetShift + ShiftOrZero(hs[i].offsetShift);
    }
    assert hs[..|hs|] == hs;
  }

  /** Recording one more past op's hazard changes only that op's state. */
  lemma WithAddedStep(ss: seq<OpState>, added: seq<Option<OpHazard>>, h: Option<OpHazard>)
    requires |added| < |ss|
    ensures h.None? ==> WithAdded(ss, added + [h]) == WithAdded(ss, added)
    ensures h.Some? ==> var w := WithAdded(ss, added); var i := |added|;
      WithAdded(ss, added + [h]) == w[i := w[i].(hazards := w[i].hazards + [h.value])]
  {
  }

  /** One more past op: `ot`'s run over the first `i + 1` views extends its run over the first `i` by what the transformation reported. */
  lemma OtRunAdvance(kind: Kind, self: Op, selfCs: object?, f: TFields, views: seq<PastView>, i: nat,
                     added: seq<Option<OpHazard>>, before: TFields, after: TFields, r: Result<Option<OpHazard>, string>)
    requires i < |views|
    requires OtRun(kind, self, selfCs, f, views[..i]) == Run(before, added, None)
    requires Reported(r, before, after, TransformSpec(kind, before, views[i]), views[i].op, views[i].changeset, self, selfCs)
    ensures r.Err? ==> OtRun(kind, self, selfCs, f, views[..i + 1]).error.Some?
                       && OtRun(kind, self, selfCs, f, views[..i + 1]).fields == before
                       && OtRun(kind, self, selfCs, f, views[..i + 1]).added == added
    ensures r.Ok? ==> OtRun(kind, self, selfCs, f, views[..i + 1]) == Run(after, added + [r.value], None)
  {
    assert views[..i + 1][..i] == views[..i];
    assert views[..i + 1][i] == views[i];
  }

  /** Once `ot` has stopped on an error, later past ops change nothing. */
  lemma {:induction false} OtRunStops(kind: Kind, self: Op, selfCs: object?, f: TFields, views: seq<PastView>, n: nat)
    requires n <= |views|
    requires OtRun(kind, self, selfCs, f, views[..n]).error.Some?
    ensures OtRun(kind, self, selfCs, f, views) == OtRun(kind, self, selfCs, f, views[..n])
    decreases |views|
  {
    if n < |views| {
      assert views[..|views| - 1][..n] == views[..n];
      OtRunStops(kind, self, selfCs, f, views[..|views| - 1], n);
    } else {
      assert views[..n] == views;
    }
  }
}
