/**
  The prototype operation of op.py: a record of action, path, key, value
  and offset, and its order-preserving JSON form. JSON null stands for
  Python's None, which is also every optional field's default.
*/
module ProtoOps {
  import opened Wrappers
  import opened Json

  /** `Op(action, path, key, val, offset)` (op.py:10-15): the five arguments stored as given. */
  datatype ProtoOp = ProtoOp(action: string, path: Path, key: Value, val: Value, offset: Value)

  /** A one-pair dict `{name: v}`, the shape of each entry `to_jsonable` lists. */
  function Entry(name: string, v: Value): Value {
    Object(map[name := v])
  }

  /** A path element as JSON: a key is a string, an index an integer. */
  function StepValue(s: Step): Value {
    match s
    case Key(k) => Str(k)
    case Index(i) => Int(i)
  }

  /** A path as a JSON list. */
  function PathValue(p: Path): (r: Value)
    ensures r.Array? && |r.items| == |p|
    ensures forall i | 0 <= i < |p| :: r.items[i] == StepValue(p[i])
  {
    Array(seq(|p|, i requires 0 <= i < |p| => StepValue(p[i])))
  }

  /** The entry for an optional field: none when the field is None. */
  function OptionalEntry(name: string, v: Value): seq<Value> {
    if v != Null then [Entry(name, v)] else []
  }

  /**
    `to_jsonable` (op.py:18-26): the action, then the path, then key, val
    and offset in that order, each only when it is not None.
  */
  function ToJsonable(op: ProtoOp): (r: seq<Value>)
    ensures 2 <= |r| <= 5
    ensures r[0] == Entry("action", Str(op.action)) && r[1] == Entry("path", PathValue(op.path))
    ensures |r| == 2 + |OptionalEntry("key", op.key)| + |OptionalEntry("val", op.val)| + |OptionalEntry("offset", op.offset)|
    ensures op.key != Null <==> Entry("key", op.key) in r
    ensures op.val != Null <==> Entry("val", op.val) in r
    ensures op.offset != Null <==> Entry("offset", op.offset) in r
  {
    var r := [Entry("action", Str(op.action)), Entry("path", PathValue(op.path))]
      + OptionalEntry("key", op.key) + OptionalEntry("val", op.val) + OptionalEntry("offset", op.offset);
    EntryNames(r, op);
    r
  }

  /** An entry is told apart from the others by its one key: no entry of another name equals it. */
  lemma EntryNames(r: seq<Value>, op: ProtoOp)
    requires r == [Entry("action", Str(op.action)), Entry("path", PathValue(op.path))]
      + OptionalEntry("key", op.key) + OptionalEntry("val", op.val) + OptionalEntry("offset", op.offset)
    ensures Entry("key", Null) !in r && Entry("val", Null) !in r && Entry("offset", Null) !in r
  {
    forall e | e in r
      ensures e != Entry("key", Null) && e != Entry("val", Null) && e != Entry("offset", Null)
    {
      assert e.Object? && |e.fields.Keys| == 1;
      var name :| name in e.fields.Keys;
      if name == "key" || name == "val" || name == "offset" {
        assert e.fields[name] != Null;
      }
    }
  }

  /** The path element a JSON value names, if it is a string or an integer. */
  function StepOf(v: Value): Option<Step> {
    match v
    case Str(k) => Some(Key(k))
    case Int(i) => Some(Index(i))
    case _ => None
  }

  /** The path a JSON list names, if every item is a string or an integer. */
  function PathOf(items: seq<Value>): (r: Option<Path>)
    ensures r.Some? ==> |r.value| == |items|
  {
    if |items| == 0 then Some([])
    else match (StepOf(items[0]), PathOf(items[1..]))
      case (Some(s), Some(rest)) => Some([s] + rest)
      case _ => None
  }

  /** The value of a one-pair dict `{name: v}`. */
  function EntryValue(e: Value, name: string): Option<Value> {
    if e.Object? && e.fields.Keys == {name} then Some(e.fields[name]) else None
  }

  /** The optional entry `name` at the head of `rest`: its value and what follows, or None and `rest` itself. */
  function TakeOptional(rest: seq<Value>, name: string): (Value, seq<Value>) {
    if |rest| > 0 && EntryValue(rest[0], name).Some? && EntryValue(rest[0], name).value != Null
    then (EntryValue(rest[0], name).value, rest[1..])
    else (Null, rest)
  }

  /** Reads an operation back from the form `to_jsonable` builds; None for any other list. */
  function FromJsonable(s: seq<Value>): Option<ProtoOp> {
    if |s| < 2 then None
    else
      var action := EntryValue(s[0], "action");
      var path := EntryValue(s[1], "path");
      if action.None? || !action.value.Str? || path.None? || !path.value.Array? then None
      else match PathOf(path.value.items)
        case None => None
        case Some(p) =>
          var (key, r1) := TakeOptional(s[2..], "key");
          var (val, r2) := TakeOptional(r1, "val");
          var (offset, r3) := TakeOptional(r2, "offset");
          if r3 != [] then None else Some(ProtoOp(action.value.s, p, key, val, offset))
  }

  lemma {:induction false} PathOfPathValue(p: Path)
    ensures PathOf(PathValue(p).items) == Some(p)
    decreases |p|
  {
    if |p| > 0 {
      assert PathValue(p).items[1..] == PathValue(p[1..]).items;
      PathOfPathValue(p[1..]);
      assert [p[0]] + p[1..] == p;
    }
  }

  /** An entry is read back only under its own name. */
  lemma EntryValueOf(name: string, v: Value, other: string)
    ensures EntryValue(Entry(name, v), name) == Some(v)
    ensures other != name ==> EntryValue(Entry(name, v), other).None?
  {
    assert Entry(name, v).fields.Keys == {name};
    if other != name {
      assert other !in {name};
    }
  }

  /** Reading an optional entry back from its place in the list. */
  lemma TakeOptionalEntry(name: string, v: Value, rest: seq<Value>)
    requires rest == [] || EntryValue(rest[0], name).None?
    ensures TakeOptional(OptionalEntry(name, v) + rest, name) == (v, rest)
  {
    EntryValueOf(name, v, name);
    if v != Null {
      assert (OptionalEntry(name, v) + rest)[1..] == rest;
    } else {
      assert OptionalEntry(name, v) + rest == rest;
    }
  }

  /** The JSON form loses nothing: reading it back gives the operation. */
  lemma ToJsonableRoundTrip(op: ProtoOp)
    ensures FromJsonable(ToJsonable(op)) == Some(op)
  {
    var s := ToJsonable(op);
    PathOfPathValue(op.path);
    EntryValueOf("action", Str(op.action), "action");
    EntryValueOf("path", PathValue(op.path), "path");
    var ks, vs, os := OptionalEntry("key", op.key), OptionalEntry("val", op.val), OptionalEntry("offset", op.offset);
    assert s[2..] == ks + (vs + os);
    EntryValueOf("val", op.val, "key");
    EntryValueOf("offset", op.offset, "key");
    EntryValueOf("offset", op.offset, "val");
    TakeOptionalEntry("offset", op.offset, []);
    assert os + [] == os;
    TakeOptionalEntry("val", op.val, os);
    TakeOptionalEntry("key", op.key, vs + os);
  }

  /** Two operations with the same JSON form are the same operation. */
  lemma ToJsonableInjective(a: ProtoOp, b: ProtoOp)
    requires ToJsonable(a) == ToJsonable(b)
    ensures a == b
  {
    ToJsonableRoundTrip(a);
    ToJsonableRoundTrip(b);
  }
}
