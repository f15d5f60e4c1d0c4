/**
  The first prototype document (document.py): a JSON snapshot edited by
  operations of op.py. An operation names a path to a container and,
  optionally, a key within it; without a key it replaces the whole
  snapshot with its handler's result.
*/
module ProtoDocuments {
  import opened Wrappers
  import opened Json
  import opened Snapshots
  import opened ProtoEdits
  import opened ProtoOps

  /** A key as a path element: a string names a dict entry, an integer a list position. */
  function KeyStep(key: Value): Option<Step> {
    match key
    case Str(k) => Some(Key(k))
    case Int(i) => Some(Index(i))
    case _ => None
  }

  /** `node[key]`, with Python's negative list indices. */
  function GetItem(node: Value, key: Value): (r: Result<Value, string>)
    ensures r.Ok? <==> KeyStep(key).Some? && PyStepOk(node, KeyStep(key).value)
    ensures r.Ok? ==> r.value == PyChild(node, KeyStep(key).value)
  {
    match KeyStep(key)
    case None => Err("TypeError or KeyError: unsupported key")
    case Some(s) => if PyStepOk(node, s) then Ok(PyChild(node, s)) else Err("KeyError or IndexError")
  }

  /**
    The value the handler of `op` reads (document.py:41-44): the whole
    snapshot when the operation has no key, else `get_node(path)[key]`.
    `set_value` reads nothing.
  */
  function HandlerInput(doc: Value, op: ProtoOp): Result<Value, string>
    requires PyValid(doc, op.path)
  {
    if op.action == "set" || op.key == Null then Ok(doc)
    else GetItem(PyValueAt(doc, op.path), op.key)
  }

  /**
    `apply_op` (document.py:46-56) on the document `doc`: a path the
    document does not contain is rejected with "ERROR!"; an unknown action
    or a failing handler raises; with no key the snapshot becomes the
    handler's result; with a key, `node[key]` of the node at the path does.
  */
  function ProtoApplySpec(doc: Value, op: ProtoOp): (r: Result<Outcome, string>)
    ensures ContainsSpec(doc, op.path) == Ok(false) ==> r == Ok(Rejected)
    ensures r.Ok? && r.value.Replaced? ==> PyValid(doc, op.path) && op.action in EditActions
    ensures r.Ok? && r.value.Replaced? && op.key == Null ==> ProtoEdit(op.action, doc, op.val, op.offset) == Ok(r.value.doc)
  {
    match ContainsSpec(doc, op.path)
    case Err(e) => Err(e)
    case Ok(ok) =>
      if !ok then Ok(Rejected)
      else if op.action !in EditActions then Err("KeyError: unknown action")
      else match HandlerInput(doc, op)
        case Err(e) => Err(e)
        case Ok(cur) =>
          match ProtoEdit(op.action, cur, op.val, op.offset)
          case Err(e) => Err(e)
          case Ok(x) =>
            if op.key == Null then Ok(Replaced(x))
            else match ObjectInsert(PyValueAt(doc, op.path), op.key, x)
              case Err(e) => Err(e)
              case Ok(node) => Ok(Replaced(PyReplaceAt(doc, op.path, node)))
  }

  /**
    With a string key into a dict, `apply_op` sets that one entry to the
    handler's result: the entry then holds it, and every node on a path
    unrelated to the entry is as it was.
  */
  lemma ProtoApplyKeyFrame(doc: Value, op: ProtoOp, q: Path)
    requires ProtoApplySpec(doc, op).Ok? && ProtoApplySpec(doc, op).value.Replaced?
    requires op.key.Str? && PyValueAt(doc, op.path).Object?
    requires ValidPath(doc, q) && Disjoint(q, Resolve(doc, op.path) + [Key(op.key.s)])
    ensures var d := ProtoApplySpec(doc, op).value.doc;
      var entry := Resolve(doc, op.path) + [Key(op.key.s)];
      && ValidPath(d, entry)
      && Ok(ValueAt(d, entry)) == ProtoEdit(op.action, HandlerInput(doc, op).value, op.val, op.offset)
      && ValidPath(d, q) && ValueAt(d, q) == ValueAt(doc, q)
  {
    var p := Resolve(doc, op.path);
    var node := PyValueAt(doc, op.path);
    var x := ProtoEdit(op.action, HandlerInput(doc, op).value, op.val, op.offset).value;
    var k := op.key.s;
    var node' := Object(node.fields[k := x]);
    PyReplaceAtIsReplaceAt(doc, op.path, node');
    ReplaceAtReads(doc, p, node');
    EntryOfReplaced(doc, p, node', k);
    if IsPrefix(p, q) {
      EntrySiblingUnchanged(doc, p, node, x, k, q);
    } else {
      ReplaceAtFrame(doc, p, node', q);
    }
  }

  /** The entry `k` under the replaced node is the new node's entry. */
  lemma EntryOfReplaced(doc: Value, p: Path, n: Value, k: string)
    requires ValidPath(doc, p) && n.Object? && k in n.fields
    ensures ValidPath(ReplaceAt(doc, p, n), p + [Key(k)])
    ensures ValueAt(ReplaceAt(doc, p, n), p + [Key(k)]) == n.fields[k]
  {
    ReplaceAtReads(doc, p, n);
    ValidPathAppend(ReplaceAt(doc, p, n), p, [Key(k)]);
  }

  /** Below the dict at `p`, a path through another entry than `k` is untouched by setting entry `k`. */
  lemma EntrySiblingUnchanged(doc: Value, p: Path, node: Value, x: Value, k: string, q: Path)
    requires ValidPath(doc, p) && ValueAt(doc, p) == node && node.Object?
    requires ValidPath(doc, q) && IsPrefix(p, q) && Disjoint(q, p + [Key(k)])
    ensures ValidPath(ReplaceAt(doc, p, Object(node.fields[k := x])), q)
    ensures ValueAt(ReplaceAt(doc, p, Object(node.fields[k := x])), q) == ValueAt(doc, q)
  {
    var node' := Object(node.fields[k := x]);
    var rest := q[|p|..];
    assert q == p + rest;
    ValidPathAppend(doc, p, rest);
    ReplaceAtReads(doc, p, node');
    SiblingEntry(node, x, k, rest);
    ValidPathAppend(ReplaceAt(doc, p, node'), p, rest);
  }

  /** Setting entry `k` of a dict leaves every path that starts with another entry as it was. */
  lemma SiblingEntry(node: Value, x: Value, k: string, rest: Path)
    requires node.Object? && ValidPath(node, rest) && |rest| > 0 && rest[0] != Key(k)
    ensures ValidPath(Object(node.fields[k := x]), rest)
    ensures ValueAt(Object(node.fields[k := x]), rest) == ValueAt(node, rest)
  {
    var node' := Object(node.fields[k := x]);
    assert Child(node', rest[0]) == Child(node, rest[0]);
  }

  class ProtoDocument {
    var id: string
    var snapshot: Value

    /**
      `Document(id_)` (document.py:11-14). The random id drawn when none is
      given is the parameter. The snapshot starts as the empty dict.
    */
    constructor(id: string)
      ensures this.id == id && snapshot == Object(map[])
    {
      this.id := id;
      snapshot := Object(map[]);
    }

    /** `get_node` (document.py:35-39): the value at the whole path. */
    method GetNode(path: Path) returns (node: Value)
      requires PyValid(snapshot, path)
      ensures node == PyValueAt(snapshot, path)
    {
      node := snapshot;
      var i := 0;
      while i < |path|
        invariant 0 <= i <= |path|
        invariant PyValid(node, path[i..]) && PyValueAt(node, path[i..]) == PyValueAt(snapshot, path)
      {
        assert path[i..][0] == path[i] && path[i..][1..] == path[i + 1..];
        node := PyChild(node, path[i]);
        i := i + 1;
      }
      assert path[i..] == [];
    }

    /** `get_value` (document.py:41-44): the snapshot when there is no key, else `node[key]`. */
    method GetValue(path: Path, key: Value) returns (r: Result<Value, string>)
      requires PyValid(snapshot, path)
      ensures key == Null ==> r == Ok(snapshot)
      ensures key != Null ==> r == GetItem(PyValueAt(snapshot, path), key)
    {
      if key == Null {
        return Ok(snapshot);
      }
      var node := GetNode(path);
      r := GetItem(node, key);
    }

    /**
      `apply_op` (document.py:46-56): "ERROR!" (as `Some`) and the snapshot
      kept on a rejected path, an exception (Err) and the snapshot kept on a
      failing handler or assignment, otherwise None and the new document.
    */
    method ApplyOp(op: ProtoOp) returns (r: Result<Option<string>, string>)
      modifies this`snapshot
      ensures match ProtoApplySpec(old(snapshot), op)
        case Err(e) => r.Err? && snapshot == old(snapshot)
        case Ok(Rejected) => r == Ok(Some("ERROR!")) && snapshot == old(snapshot)
        case Ok(Replaced(d)) => r == Ok(None) && snapshot == d
    {
      var ok := ContainsSpec(snapshot, op.path);
      if ok.Err? {
        return Err(ok.error);
      }
      if !ok.value {
        return Ok(Some("ERROR!"));
      }
      if op.action !in EditActions {
        return Err("KeyError: unknown action");
      }
      var cur := Ok(snapshot);
      if op.action != "set" {
        cur := GetValue(op.path, op.key);
      }
      if cur.Err? {
        return Err(cur.error);
      }
      var x := ProtoEdit(op.action, cur.value, op.val, op.offset);
      if x.Err? {
        return Err(x.error);
      }
      if op.key == Null {
        snapshot := x.value;
        return Ok(None);
      }
      var node := GetNode(op.path);
      var node' := ObjectInsert(node, op.key, x.value);
      if node'.Err? {
        return Err(node'.error);
      }
      snapshot := PyReplaceAt(snapshot, op.path, node'.value);
      return Ok(None);
    }
  }
}
