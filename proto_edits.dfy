/**
  The edit handlers of the two prototype documents (document.py and
  collaborator/document.py). Most are the handlers of the snapshot engine
  applied to the operation's own offset and value; two differ:
  `array_insert` adds the value as one element, and `object_insert` takes
  the key and the value from a `{'key': ..., 'val': ...}` dict.
*/
module ProtoEdits {
  import opened Wrappers
  import opened Json
  import opened Splice
  import opened Snapshots

  /**
    `array_insert` of the prototypes (document.py:77-82,
    collaborator/document.py:279-284): `cur[:offset]`, then the value as a
    single element, then `cur[offset:]`. Only a list has `append`.
  */
  function ArrayInsertOne(cur: Value, offset: Value, val: Value): (r: Result<Value, string>)
    ensures cur.Array? && offset.Int? ==> r == Ok(Array(Insert(cur.items, offset.i, [val])))
    ensures !cur.Array? ==> r.Err?
  {
    match SliceBound(offset)
    case Err(e) => Err(e)
    case Ok(b) =>
      if !cur.Array? then Err("AttributeError: no attribute 'append'")
      else Ok(Array(TakeB(cur.items, b) + [val] + DropB(cur.items, b)))
  }

  /** Inserting one element is the list splice of the later library with a one-item list. */
  lemma ArrayInsertOneIsSplice(cur: Value, offset: Value, val: Value)
    requires cur.Array?
    ensures ArrayInsertOne(cur, offset, val) == ArrayInsert(cur, offset, Array([val]))
  {
  }

  /** The element lands at the offset and the items around it keep their order. */
  lemma ArrayInsertOneShape(xs: seq<Value>, k: int, v: Value)
    requires 0 <= k <= |xs|
    ensures var r := ArrayInsertOne(Array(xs), Int(k), v).value.items;
      |r| == |xs| + 1 && r[..k] == xs[..k] && r[k] == v && r[k + 1..] == xs[k..]
  {
    InsertAt(xs, k, [v]);
  }

  /**
    `object_insert` of the prototypes (document.py:98-101,
    collaborator/document.py:300-303): `cur[val['key']] = val['val']`, which
    needs `val` to be a dict holding both entries.
  */
  function ObjectInsertPair(cur: Value, val: Value): (r: Result<Value, string>)
    ensures !(val.Object? && "key" in val.fields && "val" in val.fields) ==> r.Err?
    ensures val.Object? && "key" in val.fields && "val" in val.fields ==>
      r == ObjectInsert(cur, val.fields["key"], val.fields["val"])
  {
    if !val.Object? then Err("TypeError: indices must be integers")
    else if "val" !in val.fields || "key" !in val.fields then Err("KeyError")
    else ObjectInsert(cur, val.fields["key"], val.fields["val"])
  }

  /** After `object_insert` into a dict the key holds the value; every other key is as it was. */
  lemma ObjectInsertPairReads(m: map<string, Value>, k: string, v: Value)
    ensures var r := ObjectInsertPair(Object(m), Object(map["key" := Str(k), "val" := v]));
      r.Ok? && r.value.Object? && k in r.value.fields && r.value.fields[k] == v
      && forall j | j in m && j != k :: j in r.value.fields && r.value.fields[j] == m[j]
  {
    var pair := Object(map["key" := Str(k), "val" := v]);
    assert "key" in pair.fields && "val" in pair.fields;
  }

  /**
    The handler the prototypes' `json_opperations` table names for an
    action, applied to the current value `cur` with the value and offset
    the handler reads.
  */
  function ProtoEdit(action: string, cur: Value, val: Value, offset: Value): (r: Result<Value, string>)
    requires action in EditActions
    ensures action == "set" ==> r == Ok(val)
    ensures action == "ai" ==> r == ArrayInsertOne(cur, offset, val)
    ensures action == "oi" ==> r == ObjectInsertPair(cur, val)
    ensures action !in {"ai", "oi"} ==> r == Edit(cur, EditOp(action, [], val, offset, val, offset))
  {
    match action
    case "set" => Ok(val)
    case "bn" => Ok(BooleanNegation(cur))
    case "na" => PyAdd(cur, val)
    case "si" => StringInsert(cur, offset, val)
    case "sd" => StringDelete(cur, offset, val)
    case "ai" => ArrayInsertOne(cur, offset, val)
    case "ad" => ArrayDelete(cur, offset, val)
    case "am" => ArrayMove(cur, offset, val)
    case "oi" => ObjectInsertPair(cur, val)
    case "od" => ObjectDelete(cur, offset)
  }
}
