/**
  The JSON snapshot engine of majormajor/snapshot.py: a document value, the
  path check, node lookup and the ten edit actions.

  Path steps follow Python indexing: a dictionary key, or a list index that
  may be negative and then counts from the end. The snapshot is a value;
  the in-place write into the parent node (snapshot.py:83) and the in-place
  `pop`/item assignment of the list and dictionary handlers become a
  replacement of the child at the path.
*/
module Snapshots {
  import opened Wrappers
  import opened Json
  import opened Splice

  /**
    What `apply_op` reads of an operation: action, path, the original value
    and offset, and the transformed ones. One path serves for `path` and
    `t_path`: the operation's `t_path` is the very list object its `path`
    is (majormajor/ops/op.py:45, 104), and transformations change that list
    in place.
  */
  datatype EditOp = EditOp(action: string, path: Path, val: Value, offset: Value, tVal: Value, tOffset: Value)

  /** The actions of `json_opperations` (snapshot.py:142-153). */
  const EditActions: set<string> := {"set", "bn", "na", "si", "sd", "ai", "ad", "am", "oi", "od"}

  /** Python's position of index `i` in a list of length `n`: negative indices count from the end. */
  function PyIndex(n: nat, i: int): int {
    if i < 0 then i + n else i
  }

  /** `node[step]` succeeds: a key of a dict, or an index of a list in `-len <= i < len`. */
  predicate PyStepOk(v: Value, step: Step) {
    match step
    case Key(k) => v.Object? && k in v.fields
    case Index(i) => v.Array? && -|v.items| <= i < |v.items|
  }

  /** The step `node[step]` takes, with a negative index made non-negative. */
  function ResolveStep(v: Value, step: Step): (r: Step)
    requires PyStepOk(v, step)
    ensures StepValid(v, r)
    ensures step.Key? || step.i >= 0 ==> r == step
  {
    match step
    case Key(k) => step
    case Index(i) => Index(PyIndex(|v.items|, i))
  }

  /** `node[step]`. */
  function PyChild(v: Value, step: Step): Value
    requires PyStepOk(v, step)
  {
    Child(v, ResolveStep(v, step))
  }

  /** Every step of `p`, taken from `v` with Python indexing, succeeds. */
  predicate PyValid(v: Value, p: Path)
    decreases |p|
  {
    |p| == 0 || (PyStepOk(v, p[0]) && PyValid(PyChild(v, p[0]), p[1..]))
  }

  /** The value `v[p[0]][p[1]]...`. */
  function PyValueAt(v: Value, p: Path): Value
    requires PyValid(v, p)
    decreases |p|
  {
    if |p| == 0 then v else PyValueAt(PyChild(v, p[0]), p[1..])
  }

  /** `v` with `v[p[0]]...[p[-1]]` replaced by `x`; `x` itself when `p` is empty. */
  function PyReplaceAt(v: Value, p: Path, x: Value): Value
    requires PyValid(v, p)
    decreases |p|
  {
    if |p| == 0 then x else WithChild(v, ResolveStep(v, p[0]), PyReplaceAt(PyChild(v, p[0]), p[1..], x))
  }

  /** The path `p` with every negative index replaced by the position it names. */
  function Resolve(v: Value, p: Path): (r: Path)
    requires PyValid(v, p)
    ensures |r| == |p| && ValidPath(v, r)
    ensures ValueAt(v, r) == PyValueAt(v, p)
    decreases |p|
  {
    if |p| == 0 then [] else
      var rest := Resolve(PyChild(v, p[0]), p[1..]);
      var r := [ResolveStep(v, p[0])] + rest;
      assert r[0] == ResolveStep(v, p[0]) && r[1..] == rest;
      r
  }

  /** With Python indexing, replacing at `p` is replacing at the resolved path. */
  lemma {:induction false} PyReplaceAtIsReplaceAt(v: Value, p: Path, x: Value)
    requires PyValid(v, p)
    ensures PyReplaceAt(v, p, x) == ReplaceAt(v, Resolve(v, p), x)
    decreases |p|
  {
    if |p| > 0 {
      var r := Resolve(v, p);
      assert r[0] == ResolveStep(v, p[0]) && r[1..] == Resolve(PyChild(v, p[0]), p[1..]);
      PyReplaceAtIsReplaceAt(PyChild(v, p[0]), p[1..], x);
    }
  }

  /**
    `contains_path` (snapshot.py:42-59) as a value: true for the empty path;
    a key step needs a dict holding the key, an index step a list with the
    index below its length; a failing step gives false. An index below
    `-len` passes the check and then raises IndexError at `node[i]`.
  */
  function ContainsSpec(v: Value, p: Path): (r: Result<bool, string>)
    ensures |p| == 0 ==> r == Ok(true)
    ensures r == Ok(true) <==> PyValid(v, p)
    decreases |p|
  {
    if |p| == 0 then Ok(true)
    else match p[0]
      case Key(k) =>
        if !v.Object? || k !in v.fields then Ok(false) else ContainsSpec(v.fields[k], p[1..])
      case Index(i) =>
        if !v.Array? || i >= |v.items| then Ok(false)
        else if i < -|v.items| then Err("IndexError: list index out of range")
        else ContainsSpec(v.items[PyIndex(|v.items|, i)], p[1..])
  }

  /** On paths without negative indices, `contains_path` is the plain path check and never raises. */
  lemma {:induction false} ContainsSpecIsValidPath(v: Value, p: Path)
    requires forall j | 0 <= j < |p| :: p[j].Index? ==> p[j].i >= 0
    ensures ContainsSpec(v, p) == Ok(ValidPath(v, p))
    ensures ValidPath(v, p) ==> Resolve(v, p) == p
    decreases |p|
  {
    if |p| > 0 {
      if PyStepOk(v, p[0]) {
        ContainsSpecIsValidPath(PyChild(v, p[0]), p[1..]);
        if ValidPath(v, p) {
          assert Resolve(v, p) == [p[0]] + p[1..];
        }
      }
    }
  }

  /** An integer for Python arithmetic: an int, or a bool as 0 or 1. */
  function NumberOf(v: Value): Option<int> {
    match v
    case Int(i) => Some(i)
    case Bool(b) => Some(if b then 1 else 0)
    case _ => None
  }

  /** Python's `a + b` on JSON values: numbers add, strings and lists concatenate, anything else is a TypeError. */
  function PyAdd(a: Value, b: Value): (r: Result<Value, string>)
    ensures r.Ok? <==> (NumberOf(a).Some? && NumberOf(b).Some?) || (a.Str? && b.Str?) || (a.Array? && b.Array?)
  {
    if NumberOf(a).Some? && NumberOf(b).Some? then Ok(Int(NumberOf(a).value + NumberOf(b).value))
    else if a.Str? && b.Str? then Ok(Str(a.s + b.s))
    else if a.Array? && b.Array? then Ok(Array(a.items + b.items))
    else Err("TypeError: unsupported operand types for +")
  }

  /** A slice bound: None for the whole sequence, or an integer. */
  function SliceBound(k: Value): Result<Option<int>, string> {
    if k.Null? then Ok(None)
    else if NumberOf(k).Some? then Ok(Some(NumberOf(k).value))
    else Err("TypeError: slice indices must be integers or None")
  }

  function TakeB<T>(s: seq<T>, b: Option<int>): seq<T> {
    if b.None? then s else Take(s, b.value)
  }

  function DropB<T>(s: seq<T>, b: Option<int>): seq<T> {
    if b.None? then s else Drop(s, b.value)
  }

  /** `boolean_negation` (snapshot.py:90-92): False for a truthy value, True otherwise. */
  function BooleanNegation(cur: Value): (r: Value)
    ensures r == Bool(!Truthy(cur))
  {
    if Truthy(cur) then Bool(false) else Bool(true)
  }

  /** `string_insert` (snapshot.py:100-102): `cur[:t_offset] + t_val + cur[t_offset:]`, on a string or a list. */
  function StringInsert(cur: Value, tOffset: Value, tVal: Value): (r: Result<Value, string>)
    ensures cur.Str? && tVal.Str? && tOffset.Int? ==> r == Ok(Str(Insert(cur.s, tOffset.i, tVal.s)))
    ensures cur.Array? && tVal.Array? && tOffset.Int? ==> r == Ok(Array(Insert(cur.items, tOffset.i, tVal.items)))
    ensures r.Ok? ==> (cur.Str? && tVal.Str?) || (cur.Array? && tVal.Array?)
  {
    match SliceBound(tOffset)
    case Err(e) => Err(e)
    case Ok(b) =>
      if cur.Str? && tVal.Str? then Ok(Str(TakeB(cur.s, b) + tVal.s + DropB(cur.s, b)))
      else if cur.Array? && tVal.Array? then Ok(Array(TakeB(cur.items, b) + tVal.items + DropB(cur.items, b)))
      else Err("TypeError: cannot concatenate")
  }

  /** `string_delete` (snapshot.py:107-109): `cur[:t_offset] + cur[t_offset + t_val:]`, on a string or a list. */
  function StringDelete(cur: Value, tOffset: Value, tVal: Value): (r: Result<Value, string>)
    ensures cur.Str? && tOffset.Int? && tVal.Int? ==> r == Ok(Str(Delete(cur.s, tOffset.i, tVal.i)))
    ensures cur.Array? && tOffset.Int? && tVal.Int? ==> r == Ok(Array(Delete(cur.items, tOffset.i, tVal.i)))
    ensures r.Ok? ==> (cur.Str? || cur.Array?) && NumberOf(tOffset).Some? && NumberOf(tVal).Some?
  {
    if !(cur.Str? || cur.Array?) then Err("TypeError: object is not sliceable")
    else if NumberOf(tOffset).None? || NumberOf(tVal).None? then Err("TypeError: unsupported operand types for +")
    else
      var k, e := NumberOf(tOffset).value, NumberOf(tOffset).value + NumberOf(tVal).value;
      if cur.Str? then Ok(Str(Take(cur.s, k) + Drop(cur.s, e)))
      else Ok(Array(Take(cur.items, k) + Drop(cur.items, e)))
  }

  /** The items `list.extend` takes from an iterable: a list's items, a string's characters. */
  function Iterated(v: Value): Result<seq<Value>, string> {
    match v
    case Array(xs) => Ok(xs)
    case Str(s) => Ok(seq(|s|, j requires 0 <= j < |s| => Str([s[j]])))
    case Object(_) => Err("iteration over a dict: order not modelled")
    case _ => Err("TypeError: object is not iterable")
  }

  /** `array_insert` (snapshot.py:111-116): the items of `t_val` spliced into the list at `t_offset`. */
  function ArrayInsert(cur: Value, tOffset: Value, tVal: Value): (r: Result<Value, string>)
    ensures cur.Array? && tOffset.Int? && tVal.Array? ==> r == Ok(Array(Insert(cur.items, tOffset.i, tVal.items)))
    ensures !cur.Array? ==> r.Err?
  {
    match SliceBound(tOffset)
    case Err(e) => Err(e)
    case Ok(b) =>
      if !cur.Array? then Err("AttributeError: no attribute 'extend'")
      else match Iterated(tVal)
        case Err(e) => Err(e)
        case Ok(xs) => Ok(Array(TakeB(cur.items, b) + xs + DropB(cur.items, b)))
  }

  /** `array_delete` (snapshot.py:118-122): `t_val` items dropped from the list at `t_offset`. */
  function ArrayDelete(cur: Value, tOffset: Value, tVal: Value): (r: Result<Value, string>)
    ensures cur.Array? && tOffset.Int? && tVal.Int? ==> r == Ok(Array(Delete(cur.items, tOffset.i, tVal.i)))
    ensures !cur.Array? ==> r.Err?
  {
    match SliceBound(tOffset)
    case Err(e) => Err(e)
    case Ok(b) =>
      if !cur.Array? then Err("AttributeError: no attribute 'extend'")
      else match PyAdd(tOffset, tVal)
        case Err(e) => Err(e)
        case Ok(end) =>
          match SliceBound(end)
          case Err(e) => Err(e)
          case Ok(eb) => Ok(Array(TakeB(cur.items, b) + DropB(cur.items, eb)))
  }

  /**
    `array_move` (snapshot.py:124-130): the item at `offset` popped, then put
    back at index `val` of the shortened list. A dict has `pop` but cannot be
    sliced, and the other values have no `pop`.
  */
  function ArrayMove(cur: Value, offset: Value, val: Value): (r: Result<Value, string>)
    ensures !cur.Array? ==> r.Err?
  {
    if !cur.Array? then Err("cannot move within a non-list")
    else if NumberOf(offset).None? then Err("TypeError: an integer is required")
    else
      var n, i := |cur.items|, NumberOf(offset).value;
      if i < -n || i >= n then Err("IndexError: pop index out of range")
      else
        var j := PyIndex(n, i);
        var item := cur.items[j];
        var rest := cur.items[..j] + cur.items[j + 1..];
        match SliceBound(val)
        case Err(e) => Err(e)
        case Ok(b) => Ok(Array(TakeB(rest, b) + [item] + DropB(rest, b)))
  }

  /**
    `object_insert` (snapshot.py:132-135): `cur[t_offset] = t_val`, a key of
    a dict or an existing index of a list. A dict key that is not a string is
    outside the JSON values of the model.
  */
  function ObjectInsert(cur: Value, tOffset: Value, tVal: Value): (r: Result<Value, string>)
    ensures cur.Object? && tOffset.Str? ==> r == Ok(Object(cur.fields[tOffset.s := tVal]))
  {
    if cur.Object? then
      if tOffset.Str? then Ok(Object(cur.fields[tOffset.s := tVal])) else Err("non-string dict key not modelled")
    else if cur.Array? then
      if NumberOf(tOffset).None? then Err("TypeError: list indices must be integers")
      else
        var n, i := |cur.items|, NumberOf(tOffset).value;
        if i < -n || i >= n then Err("IndexError: list assignment index out of range")
        else Ok(Array(cur.items[PyIndex(n, i) := tVal]))
    else Err("TypeError: object does not support item assignment")
  }

  /** `object_delete` (snapshot.py:137-140): `cur.pop(t_offset)`, a key of a dict or an index of a list. */
  function ObjectDelete(cur: Value, tOffset: Value): (r: Result<Value, string>)
    ensures cur.Object? && tOffset.Str? && tOffset.s in cur.fields ==> r == Ok(Object(cur.fields - {tOffset.s}))
    ensures cur.Object? && !(tOffset.Str? && tOffset.s in cur.fields) ==> r.Err?
  {
    if cur.Object? then
      if tOffset.Str? && tOffset.s in cur.fields then Ok(Object(cur.fields - {tOffset.s})) else Err("KeyError")
    else if cur.Array? then
      if NumberOf(tOffset).None? then Err("TypeError: an integer is required")
      else
        var n, i := |cur.items|, NumberOf(tOffset).value;
        if i < -n || i >= n then Err("IndexError: pop index out of range")
        else
          var j := PyIndex(n, i);
          Ok(Array(cur.items[..j] + cur.items[j + 1..]))
    else Err("AttributeError: no attribute 'pop'")
  }

  /**
    The handler `json_opperations` names for the action, applied to the
    current value at the path: `set` and `am` read the original value and
    offset, the others the transformed ones.
  */
  function Edit(cur: Value, op: EditOp): (r: Result<Value, string>)
    requires op.action in EditActions
    ensures op.action == "set" ==> r == Ok(op.val)
    ensures op.action == "bn" ==> r == Ok(BooleanNegation(cur))
    ensures op.action == "na" ==> r == PyAdd(cur, op.val)
  {
    match op.action
    case "set" => Ok(op.val)
    case "bn" => Ok(BooleanNegation(cur))
    case "na" => PyAdd(cur, op.val)
    case "si" => StringInsert(cur, op.tOffset, op.tVal)
    case "sd" => StringDelete(cur, op.tOffset, op.tVal)
    case "ai" => ArrayInsert(cur, op.tOffset, op.tVal)
    case "ad" => ArrayDelete(cur, op.tOffset, op.tVal)
    case "am" => ArrayMove(cur, op.offset, op.val)
    case "oi" => ObjectInsert(cur, op.tOffset, op.tVal)
    case "od" => ObjectDelete(cur, op.tOffset)
  }

  /** What `apply_op` does: rejects the path with "ERROR!", or replaces the document. */
  datatype Outcome = Rejected | Replaced(doc: Value)

  /**
    `apply_op` (snapshot.py:73-83) on the document `doc`: a path
    `contains_path` rejects gives "ERROR!" and no change; an action outside
    the table is a KeyError; otherwise the handler's result replaces the
    value at the path, or the whole document for the empty path.
  */
  function ApplyOpSpec(doc: Value, op: EditOp): (r: Result<Outcome, string>)
    ensures ContainsSpec(doc, op.path) == Ok(false) ==> r == Ok(Rejected)
    ensures r.Ok? && r.value.Replaced? ==> PyValid(doc, op.path) && op.action in EditActions
    ensures r.Ok? && r.value.Replaced? && |op.path| == 0 ==> Edit(doc, op) == Ok(r.value.doc)
  {
    match ContainsSpec(doc, op.path)
    case Err(e) => Err(e)
    case Ok(ok) =>
      if !ok then Ok(Rejected)
      else if op.action !in EditActions then Err("KeyError: unknown action")
      else match Edit(PyValueAt(doc, op.path), op)
        case Err(e) => Err(e)
        case Ok(x) => Ok(Replaced(PyReplaceAt(doc, op.path, x)))
  }

  /**
    Only the value at the path changes: after `apply_op` the path leads to
    the handler's result, and every node on a path unrelated to it is as it
    was.
  */
  lemma ApplyOpFrame(doc: Value, op: EditOp, q: Path)
    requires ApplyOpSpec(doc, op).Ok? && ApplyOpSpec(doc, op).value.Replaced?
    requires ValidPath(doc, q) && Disjoint(q, Resolve(doc, op.path))
    ensures var d := ApplyOpSpec(doc, op).value.doc;
      && ValidPath(d, Resolve(doc, op.path))
      && Ok(ValueAt(d, Resolve(doc, op.path))) == Edit(PyValueAt(doc, op.path), op)
      && ValidPath(d, q) && ValueAt(d, q) == ValueAt(doc, q)
  {
    var x := Edit(PyValueAt(doc, op.path), op).value;
    var p := Resolve(doc, op.path);
    PyReplaceAtIsReplaceAt(doc, op.path, x);
    ReplaceAtReads(doc, p, x);
    ReplaceAtFrame(doc, p, x, q);
  }

  /** A string insertion keeps the prefix, then the text, then the rest: the length grows by the text's. */
  lemma StringInsertShape(s: string, k: int, t: string)
    requires 0 <= k <= |s|
    ensures var r := StringInsert(Str(s), Int(k), Str(t)).value.s;
      |r| == |s| + |t| && r[..k] == s[..k] && r[k..k + |t|] == t && r[k + |t|..] == s[k..]
  {
    InsertAt(s, k, t);
  }

  /** A string deletion removes exactly `n` characters at `k` and keeps the rest in order. */
  lemma StringDeleteShape(s: string, k: int, n: int)
    requires 0 <= k && 0 <= n && k + n <= |s|
    ensures var r := StringDelete(Str(s), Int(k), Int(n)).value.s;
      |r| == |s| - n && r[..k] == s[..k] && r[k..] == s[k + n..]
  {
    DeleteAt(s, k, n);
  }

  /** Deleting what was just inserted restores the string. */
  lemma StringDeleteUndoesInsert(s: string, k: int, t: string)
    requires 0 <= k <= |s|
    ensures StringDelete(StringInsert(Str(s), Int(k), Str(t)).value, Int(k), Int(|t|)) == Ok(Str(s))
  {
    DeleteUndoesInsert(s, k, t);
  }

  /** 'ABCDEFG' with (6, 1) gives 'ABCDEF'; deleting 0 items from [] leaves [] (test_document_apply_op.py:163-165, 221-223). */
  lemma EditExamples()
    ensures StringDelete(Str("ABCDEFG"), Int(6), Int(1)) == Ok(Str("ABCDEF"))
    ensures ArrayDelete(Array([]), Int(0), Int(0)) == Ok(Array([]))
  {
    var s := "ABCDEFG";
    assert Take(s, 6) == "ABCDEF" && Drop(s, 7) == "";
    assert Delete(s, 6, 1) == "ABCDEF";
    var empty: seq<Value> := [];
    assert Delete(empty, 0, 0) == [];
  }

  /** An array insertion splices in the whole list: the length grows by its length and it sits at the offset. */
  lemma ArrayInsertShape(xs: seq<Value>, k: int, ys: seq<Value>)
    requires 0 <= k <= |xs|
    ensures var r := ArrayInsert(Array(xs), Int(k), Array(ys)).value.items;
      |r| == |xs| + |ys| && r[..k] == xs[..k] && r[k..k + |ys|] == ys && r[k + |ys|..] == xs[k..]
  {
    InsertAt(xs, k, ys);
  }

  /** An array move to an integer position keeps the length and the multiset of items, and the item lands at that position. */
  lemma ArrayMovePermutes(xs: seq<Value>, i: int, v: int)
    requires 0 <= i < |xs|
    ensures ArrayMove(Array(xs), Int(i), Int(v)).Ok?
    ensures var r := ArrayMove(Array(xs), Int(i), Int(v)).value.items;
      |r| == |xs| && multiset(r) == multiset(xs) && r[Clamp(|xs| - 1, v)] == xs[i]
  {
    var rest := xs[..i] + xs[i + 1..];
    var k := Clamp(|rest|, v);
    assert ArrayMove(Array(xs), Int(i), Int(v)) == Ok(Array(rest[..k] + [xs[i]] + rest[k..]));
    MovePermutes(xs, i, k);
  }

  /** Taking the item at `i` out and putting it back at `k` of what is left permutes the list. */
  lemma MovePermutes(xs: seq<Value>, i: nat, k: nat)
    requires i < |xs| && k < |xs|
    ensures var rest := xs[..i] + xs[i + 1..];
      var r := rest[..k] + [xs[i]] + rest[k..];
      |r| == |xs| && multiset(r) == multiset(xs) && r[k] == xs[i]
  {
    var rest := xs[..i] + xs[i + 1..];
    assert xs == xs[..i] + [xs[i]] + xs[i + 1..];
    var r := rest[..k] + [xs[i]] + rest[k..];
    assert rest == rest[..k] + rest[k..];
    calc {
      multiset(r);
      multiset(rest[..k]) + multiset([xs[i]]) + multiset(rest[k..]);
      multiset(rest) + multiset([xs[i]]);
      multiset(xs[..i]) + multiset(xs[i + 1..]) + multiset([xs[i]]);
      multiset(xs);
    }
  }

  /** Negating twice gives the truth value back: a boolean is restored. */
  lemma BooleanNegationTwice(v: Value)
    ensures BooleanNegation(BooleanNegation(v)) == Bool(Truthy(v))
    ensures v.Bool? ==> BooleanNegation(BooleanNegation(v)) == v
  {
  }

  /** After an object insertion the key holds the value; an object deletion removes exactly that key. */
  lemma ObjectInsertThenDelete(m: map<string, Value>, k: string, x: Value)
    ensures ObjectInsert(Object(m), Str(k), x) == Ok(Object(m[k := x]))
    ensures ObjectDelete(ObjectInsert(Object(m), Str(k), x).value, Str(k)) == Ok(Object(m[k := x] - {k}))
    ensures (m[k := x] - {k}).Keys == m.Keys - {k}
    ensures forall j | j in m && j != k :: (m[k := x] - {k})[j] == m[j]
  {
  }

  class Snapshot {
    var snapshot: Value

    /** `Snapshot()` (snapshot.py:22-23): the empty dict. */
    constructor ()
      ensures snapshot == Object(map[])
    {
      snapshot := Object(map[]);
    }

    /** `set_snapshot` (snapshot.py:37-40). */
    method SetSnapshot(v: Value)
      modifies this
      ensures snapshot == v
    {
      snapshot := v;
    }

    /** `contains_path` (snapshot.py:42-59): the walk over the path, step by step. */
    method ContainsPath(path: Path) returns (r: Result<bool, string>)
      ensures r == ContainsSpec(snapshot, path)
      ensures r == Ok(true) <==> PyValid(snapshot, path)
    {
      var node := snapshot;
      var i := 0;
      while i < |path|
        invariant 0 <= i <= |path|
        invariant ContainsSpec(snapshot, path) == ContainsSpec(node, path[i..])
      {
        assert path[i..][0] == path[i] && path[i..][1..] == path[i + 1..];
        match path[i] {
          case Key(k) =>
            if !node.Object? || k !in node.fields {
              return Ok(false);
            }
            node := node.fields[k];
          case Index(j) =>
            if !node.Array? || j >= |node.items| {
              return Ok(false);
            }
            if j < -|node.items| {
              return Err("IndexError: list index out of range");
            }
            node := node.items[PyIndex(|node.items|, j)];
        }
        i := i + 1;
      }
      assert path[i..] == [];
      return Ok(true);
    }

    /** `get_node` (snapshot.py:61-66): the parent of the value at the path; the snapshot for the empty path. */
    method GetNode(path: Path) returns (node: Value)
      requires PyValid(snapshot, path)
      ensures |path| == 0 ==> node == snapshot
      ensures |path| > 0 ==> PyValid(node, path[|path| - 1..]) && PyValueAt(node, path[|path| - 1..]) == PyValueAt(snapshot, path)
    {
      node := snapshot;
      if |path| == 0 {
        return;
      }
      var i := 0;
      while i < |path| - 1
        invariant 0 <= i <= |path| - 1
        invariant PyValid(node, path[i..]) && PyValueAt(node, path[i..]) == PyValueAt(snapshot, path)
      {
        assert path[i..][0] == path[i] && path[i..][1..] == path[i + 1..];
        node := PyChild(node, path[i]);
        i := i + 1;
      }
    }

    /** `get_value` (snapshot.py:68-71). */
    method GetValue(path: Path) returns (v: Value)
      requires PyValid(snapshot, path)
      ensures v == PyValueAt(snapshot, path)
    {
      if |path| == 0 {
        return snapshot;
      }
      var node := GetNode(path);
      var last := path[|path| - 1..];
      assert last[1..] == [];
      v := PyChild(node, path[|path| - 1]);
    }

    /**
      `apply_op` (snapshot.py:73-83): returns "ERROR!" (as `Some`) and keeps
      the snapshot on a rejected path, raises (Err) and keeps it on a failing
      handler, and otherwise returns None with the new document.
    */
    method ApplyOp(op: EditOp) returns (r: Result<Option<string>, string>)
      modifies this
      ensures match ApplyOpSpec(old(snapshot), op)
        case Err(e) => r.Err? && snapshot == old(snapshot)
        case Ok(Rejected) => r == Ok(Some("ERROR!")) && snapshot == old(snapshot)
        case Ok(Replaced(d)) => r == Ok(None) && snapshot == d
    {
      var ok := ContainsPath(op.path);
      if ok.Err? {
        return Err(ok.error);
      }
      if !ok.value {
        return Ok(Some("ERROR!"));
      }
      if op.action !in EditActions {
        return Err("KeyError: unknown action");
      }
      var cur := GetValue(op.path);
      var x := Edit(cur, op);
      if x.Err? {
        return Err(x.error);
      }
      snapshot := PyReplaceAt(snapshot, op.path, x.value);
      return Ok(None);
    }
  }
}
