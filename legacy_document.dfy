/**
  The document of the collaborator prototype (collaborator/document.py):
  a JSON snapshot, the ordered list of changesets applied to it, and the
  pending changesets not yet sorted in. The document only asks each
  changeset for its id, the id of its dependency and its operations, so
  here a changeset is the value `Entry` carrying those three.
*/
module LegacyDocuments {
  import opened Wrappers
  import opened Json
  import opened Snapshots
  import opened ProtoEdits
  import opened LegacyChangesets
  import Ids

  /** A changeset as the document reads it: `get_id()`, `get_dependency_id()` and `ops`. */
  datatype Entry = Entry(id: string, depId: Option<string>, ops: seq<LegacyOp>)

  /** The position of the first entry whose id is `id`; `|s|` when there is none. */
  function IndexOfId(s: seq<Entry>, id: Option<string>): (r: nat)
    ensures r <= |s|
    ensures r < |s| ==> Some(s[r].id) == id
    ensures forall j | 0 <= j < r :: Some(s[j].id) != id
  {
    if |s| == 0 then 0
    else if Some(s[0].id) == id then 0
    else 1 + IndexOfId(s[1..], id)
  }

  /** Python truthiness of an optional id: None and the empty string are false. */
  predicate Given(id: Option<string>) {
    id.Some? && id.value != ""
  }

  /**
    What `get_changesets_in_range` returns: the changesets strictly after
    the first one with id `start` and strictly before the first one with id
    `end`; from the beginning when `start` is not given; nothing when `end`
    comes first or `start` never does.
  */
  function InRange(s: seq<Entry>, start: Option<string>, end: Option<string>): (r: seq<Entry>)
    ensures forall x | x in r :: x in s && Some(x.id) != end
  {
    var e := IndexOfId(s, end);
    if !Given(start) then s[..e]
    else
      var b := IndexOfId(s, start);
      if b < e then s[b + 1..e] else []
  }

  /** The position just after the last entry whose id is `dep`; 0 when there is none. */
  function AfterLast(s: seq<Entry>, dep: Option<string>): (r: nat)
    ensures r <= |s|
    ensures r > 0 ==> Some(s[r - 1].id) == dep
    ensures forall j | r <= j < |s| :: Some(s[j].id) != dep
  {
    if |s| == 0 then 0
    else if Some(s[|s| - 1].id) == dep then |s|
    else AfterLast(s[..|s| - 1], dep)
  }

  /**
    The forward loop of `insert_changeset_into_changsets` as written
    (collaborator/document.py:170-173): it moves past entries whose own id
    is the dependency id and whose id is below the new one.
  */
  function ForwardAsWritten(s: seq<Entry>, i: nat, cs: Entry): (r: nat)
    requires i <= |s|
    ensures i <= r <= |s|
    decreases |s| - i
  {
    if i < |s| && cs.depId == Some(s[i].id) && Ids.Less(s[i].id, cs.id) then ForwardAsWritten(s, i + 1, cs)
    else i
  }

  /** Where `insert_changeset_into_changsets` puts `cs`, as written. */
  function InsertIndexAsWritten(s: seq<Entry>, cs: Entry): nat {
    ForwardAsWritten(s, AfterLast(s, cs.depId), cs)
  }

  /**
    The forward loop never runs: just after the last entry with the
    dependency's id there is no entry with that id, so the new changeset
    always goes straight after its dependency, before any sibling.
  */
  lemma ForwardLoopIsDead(s: seq<Entry>, cs: Entry)
    ensures InsertIndexAsWritten(s, cs) == AfterLast(s, cs.depId)
  {
    var a := AfterLast(s, cs.depId);
    if a < |s| {
      assert Some(s[a].id) != cs.depId;
    }
  }

  /**
    The evidently intended forward loop: it moves past the siblings, the
    entries with the same dependency, whose id is below the new one.
  */
  function ForwardOrdered(s: seq<Entry>, i: nat, cs: Entry): (r: nat)
    requires i <= |s|
    ensures i <= r <= |s|
    ensures forall k | i <= k < r :: s[k].depId == cs.depId && Ids.Less(s[k].id, cs.id)
    ensures r < |s| ==> !(s[r].depId == cs.depId && Ids.Less(s[r].id, cs.id))
    decreases |s| - i
  {
    if i < |s| && s[i].depId == cs.depId && Ids.Less(s[i].id, cs.id) then ForwardOrdered(s, i + 1, cs)
    else i
  }

  /** Where the corrected insertion puts `cs`: after its dependency and after its smaller siblings. */
  function InsertIndexOrdered(s: seq<Entry>, cs: Entry): nat {
    ForwardOrdered(s, AfterLast(s, cs.depId), cs)
  }

  /** `s` with `cs` inserted at `i` (`list.insert`). */
  function InsertAt(s: seq<Entry>, i: nat, cs: Entry): (r: seq<Entry>)
    requires i <= |s|
    ensures |r| == |s| + 1 && r[i] == cs && r[..i] == s[..i] && r[i + 1..] == s[i..]
  {
    s[..i] + [cs] + s[i..]
  }

  /**
    Two siblings that arrive in either order end up in the same order with
    the corrected insertion, when their dependency is the last changeset.
  */
  lemma InsertOrderedConverges(s: seq<Entry>, b: Entry, c: Entry)
    requires |s| > 0 && b.depId == c.depId == Some(s[|s| - 1].id)
    requires b.id != c.id && Some(b.id) != b.depId && Some(c.id) != c.depId
    ensures var sb := InsertAt(s, InsertIndexOrdered(s, b), b);
      var sc := InsertAt(s, InsertIndexOrdered(s, c), c);
      InsertAt(sb, InsertIndexOrdered(sb, c), c) == InsertAt(sc, InsertIndexOrdered(sc, b), b)
  {
    var n := |s|;
    assert AfterLast(s, b.depId) == n;
    var sb, sc := s + [b], s + [c];
    assert InsertAt(s, n, b) == sb && InsertAt(s, n, c) == sc;
    assert sb[..n] == s && sc[..n] == s;
    assert AfterLast(sb, c.depId) == n;
    assert AfterLast(sc, b.depId) == n;
    Ids.LessTotal(b.id, c.id);
    if Ids.Less(b.id, c.id) {
      Ids.LessIrreflexive(b.id);
      if Ids.Less(c.id, b.id) {
        Ids.LessTransitive(b.id, c.id, b.id);
      }
      assert InsertIndexOrdered(sb, c) == n + 1;
      assert InsertIndexOrdered(sc, b) == n;
      assert InsertAt(sb, n + 1, c) == s + [b, c] == InsertAt(sc, n, b);
    } else {
      assert Ids.Less(c.id, b.id);
      assert InsertIndexOrdered(sb, c) == n;
      assert InsertIndexOrdered(sc, b) == n + 1;
      assert InsertAt(sb, n, c) == s + [c, b] == InsertAt(sc, n + 1, b);
    }
  }

  /**
    As written, the same two siblings end up in arrival order: with
    dependency D and siblings "b" and "c", receiving b then c gives
    [D, c, b] and receiving c then b gives [D, b, c]; the corrected
    insertion gives [D, b, c] both times.
  */
  lemma InsertAsWrittenDiverges()
    ensures var d := Entry("d", None, []);
      var b := Entry("b", Some("d"), []);
      var c := Entry("c", Some("d"), []);
      && InsertIndexAsWritten([d, b], c) == 1
      && InsertAt([d, b], InsertIndexAsWritten([d, b], c), c) == [d, c, b]
      && InsertAt([d, c], InsertIndexAsWritten([d, c], b), b) == [d, b, c]
      && InsertIndexOrdered([d, b], c) == 2
      && InsertAt([d, b], InsertIndexOrdered([d, b], c), c) == [d, b, c]
      && InsertAt([d, c], InsertIndexOrdered([d, c], b), b) == [d, b, c]
  {
    var d := Entry("d", None, []);
    var b := Entry("b", Some("d"), []);
    var c := Entry("c", Some("d"), []);
    assert [d, b][..1] == [d] && [d, c][..1] == [d];
    assert AfterLast([d, b], Some("d")) == 1;
    assert AfterLast([d, c], Some("d")) == 1;
    assert Ids.Less("b", "c") && !Ids.Less("c", "b");
    assert InsertAt([d, b], 1, c) == [d, c, b];
    assert InsertAt([d, c], 1, b) == [d, b, c];
    assert InsertAt([d, b], 2, c) == [d, b, c];
  }

  /** The outcome of replaying operations: the document reached, and the error that stopped the replay, if any. */
  datatype Replayed = Replayed(doc: Value, error: Option<string>)

  /** The value a transformed path names, as `get_value(op.t_path)` reads it. */
  function Lookup(doc: Value, p: Path): (r: Result<Value, string>)
    ensures r.Ok? <==> PyValid(doc, p)
    ensures r.Ok? ==> r.value == PyValueAt(doc, p)
  {
    if PyValid(doc, p) then Ok(PyValueAt(doc, p)) else Err("KeyError or IndexError: no value at t_path")
  }

  /**
    The value an action's handler returns (collaborator/document.py:253-308):
    `string_insert` and `string_delete` read the value at `t_path` with
    `t_offset` and `t_val`; the other handlers read the value at `path`
    with `offset` and `val`.
  */
  function LegacyEdit(doc: Value, op: LegacyOp): (r: Result<Value, string>)
    requires PyValid(doc, op.path) && op.action in EditActions
    ensures op.action == "set" ==> r == Ok(op.val)
    ensures op.action !in {"si", "sd"} ==> r == ProtoEdit(op.action, PyValueAt(doc, op.path), op.val, op.offset)
  {
    if op.action in {"si", "sd"} then
      match Lookup(doc, op.tPath)
      case Err(e) => Err(e)
      case Ok(cur) => ProtoEdit(op.action, cur, op.tVal, op.tOffset)
    else ProtoEdit(op.action, PyValueAt(doc, op.path), op.val, op.offset)
  }

  /**
    `apply_op` (collaborator/document.py:240-250) on the document `doc`: a
    path the document does not contain is rejected with "ERROR!"; an
    unknown action or a failing handler raises; otherwise the value at the
    path is replaced by the handler's result, the whole document for the
    empty path.
  */
  function LegacyApplySpec(doc: Value, op: LegacyOp): (r: Result<Outcome, string>)
    ensures ContainsSpec(doc, op.path) == Ok(false) ==> r == Ok(Rejected)
    ensures r.Ok? && r.value.Replaced? ==> PyValid(doc, op.path) && op.action in EditActions
    ensures r.Ok? && r.value.Replaced? && |op.path| == 0 ==> LegacyEdit(doc, op) == Ok(r.value.doc)
  {
    match ContainsSpec(doc, op.path)
    case Err(e) => Err(e)
    case Ok(ok) =>
      if !ok then Ok(Rejected)
      else if op.action !in EditActions then Err("KeyError: unknown action")
      else match LegacyEdit(doc, op)
        case Err(e) => Err(e)
        case Ok(x) => Ok(Replaced(PyReplaceAt(doc, op.path, x)))
  }

  /** Only the value at the path changes, and it becomes the handler's result. */
  lemma LegacyApplyFrame(doc: Value, op: LegacyOp, q: Path)
    requires LegacyApplySpec(doc, op).Ok? && LegacyApplySpec(doc, op).value.Replaced?
    requires ValidPath(doc, q) && Disjoint(q, Resolve(doc, op.path))
    ensures var d := LegacyApplySpec(doc, op).value.doc;
      && ValidPath(d, Resolve(doc, op.path))
      && Ok(ValueAt(d, Resolve(doc, op.path))) == LegacyEdit(doc, op)
      && ValidPath(d, q) && ValueAt(d, q) == ValueAt(doc, q)
  {
    var x := LegacyEdit(doc, op).value;
    var p := Resolve(doc, op.path);
    PyReplaceAtIsReplaceAt(doc, op.path, x);
    ReplaceAtReads(doc, p, x);
    ReplaceAtFrame(doc, p, x, q);
  }

  /**
    On an operation that was never transformed, the prototype and the later
    snapshot engine (snapshot.py) agree on every action but `array_insert`
    and `object_insert`, the two whose handlers changed.
  */
  lemma LegacyAgreesWithSnapshot(doc: Value, op: LegacyOp)
    requires op.tPath == op.path && op.tVal == op.val && op.tOffset == op.offset
    requires op.action !in {"ai", "oi"}
    ensures LegacyApplySpec(doc, op) == ApplyOpSpec(doc, EditOp(op.action, op.path, op.val, op.offset, op.val, op.offset))
  {
  }

  /** The operations of the changesets, in order. */
  function AllOps(css: seq<Entry>): seq<LegacyOp> {
    if |css| == 0 then [] else AllOps(css[..|css| - 1]) + css[|css| - 1].ops
  }

  lemma {:induction false} AllOpsAppend(a: seq<Entry>, b: seq<Entry>)
    ensures AllOps(a + b) == AllOps(a) + AllOps(b)
    decreases |b|
  {
    if |b| == 0 {
      assert a + b == a;
    } else {
      assert (a + b)[..|a + b| - 1] == a + b[..|b| - 1];
      assert (a + b)[|a + b| - 1] == b[|b| - 1];
      AllOpsAppend(a, b[..|b| - 1]);
    }
  }

  /** One step of `rebuild_snapshot`: `apply_op`, whose "ERROR!" result is ignored and whose exception ends the rebuild. */
  function ReplayStep(d: Value, op: LegacyOp): Replayed {
    match LegacyApplySpec(d, op)
    case Err(e) => Replayed(d, Some(e))
    case Ok(Rejected) => Replayed(d, None)
    case Ok(Replaced(x)) => Replayed(x, None)
  }

  /** The operations applied in order from `doc`, stopping at the first that raises. */
  function Replay(doc: Value, ops: seq<LegacyOp>): Replayed
    decreases |ops|
  {
    if |ops| == 0 then Replayed(doc, None)
    else
      var o := Replay(doc, ops[..|ops| - 1]);
      if o.error.Some? then o else ReplayStep(o.doc, ops[|ops| - 1])
  }

  /** Replaying `a + b` is replaying `a` and then, unless that raised, `b` from where it ended. */
  lemma {:induction false} ReplayAppend(doc: Value, a: seq<LegacyOp>, b: seq<LegacyOp>)
    ensures Replay(doc, a + b) == (var o := Replay(doc, a); if o.error.Some? then o else Replay(o.doc, b))
    decreases |b|
  {
    if |b| == 0 {
      assert a + b == a;
    } else {
      assert (a + b)[..|a + b| - 1] == a + b[..|b| - 1];
      ReplayAppend(doc, a, b[..|b| - 1]);
    }
  }

  /**
    The open changeset of a document (`open_changeset`): the id of the
    changeset that was last when it was opened, and the operations added
    to it so far. It gets its own id only when it is closed.
  */
  datatype Draft = Draft(depId: Option<string>, ops: seq<LegacyOp>)

  /** The id of the last changeset, None when there is none. */
  function LastId(s: seq<Entry>): (r: Option<string>)
    ensures r.None? <==> |s| == 0
    ensures r.Some? ==> r.value == s[|s| - 1].id
  {
    if |s| == 0 then None else Some(s[|s| - 1].id)
  }

  /** `Op('set', [], val=s)`, the operation `set_initial_snapshot` builds; its transformed copies are its own fields. */
  function SetOp(s: Value): LegacyOp {
    LegacyOp("set", [], s, Null, [], s, Null)
  }

  /** Replaying the one changeset `set_initial_snapshot` closes gives back the snapshot it was given. */
  lemma InitialSnapshotRebuilds(s: Value, digest: string)
    ensures Replay(Object(map[]), AllOps([Entry(digest, None, [SetOp(s)])])) == Replayed(s, None)
  {
    var e := Entry(digest, None, [SetOp(s)]);
    assert [e][..0] == [];
    assert AllOps([e]) == [SetOp(s)];
    assert [SetOp(s)][..0] == [];
  }

  const NoneGetId := "AttributeError: 'NoneType' object has no attribute 'get_id'"

  /**
    The TypeError `get_dependency_ids` raises on a changeset opened by the
    document, whose `dependencies` is the last changeset object or None:
    neither can be iterated.
  */
  function DependenciesNotIterable(depId: Option<string>): string {
    if depId.None? then "TypeError: 'NoneType' object is not iterable" else "TypeError: iteration over non-sequence"
  }

  class LegacyDocument {
    var id: string
    var user: string
    var changesets: seq<Entry>
    /** `pending_changesets`. */
    var pending: seq<Entry>
    var snapshot: Value
    /** `open_changeset`. */
    var open: Option<Draft>

    /**
      `Document(id_, user)` (collaborator/document.py:13-25), without an
      initial snapshot; a snapshot given to the source's constructor is
      `SetInitialSnapshot` called next.
    */
    constructor(id: string, user: string)
      ensures this.id == id && this.user == user
      ensures changesets == [] && pending == [] && snapshot == Object(map[]) && open == None
    {
      this.id := id;
      this.user := user;
      changesets := [];
      pending := [];
      snapshot := Object(map[]);
      open := None;
    }

    /** The operations of the open changeset, none when no changeset is open. */
    function OpenOps(): seq<LegacyOp>
      reads this
    {
      if open.Some? then open.value.ops else []
    }

    /** The open changeset depends on the changeset that is last. */
    predicate OpenFollowsLast()
      reads this
    {
      open.Some? ==> open.value.depId == LastId(changesets)
    }

    /**
      The snapshot is what `rebuild_snapshot` would rebuild from the
      applied changesets followed by the open one, without an exception.
    */
    predicate LocallyConsistent()
      reads this
    {
      Replay(Object(map[]), AllOps(changesets) + OpenOps()) == Replayed(snapshot, None)
    }

    /**
      `add_local_op` (collaborator/document.py:108-120): a changeset is
      opened on the last one when none is open, the operation is added to
      it and then applied. The operation stays in the open changeset even
      when applying it raises.
    */
    method AddLocalOp(op: LegacyOp) returns (r: Result<Option<string>, string>)
      modifies this`open, this`snapshot
      ensures var d := if old(open).Some? then old(open).value else Draft(LastId(changesets), []);
        open == Some(Draft(d.depId, d.ops + [op]))
      ensures match LegacyApplySpec(old(snapshot), op)
        case Err(e) => r.Err? && snapshot == old(snapshot)
        case Ok(Rejected) => r == Ok(Some("ERROR!")) && snapshot == old(snapshot)
        case Ok(Replaced(d)) => r == Ok(None) && snapshot == d
      ensures old(OpenFollowsLast()) ==> OpenFollowsLast()
      ensures old(LocallyConsistent()) && r.Ok? ==> LocallyConsistent()
    {
      ghost var before := AllOps(changesets) + OpenOps();
      if open.None? {
        open := Some(Draft(LastId(changesets), []));
      }
      open := Some(Draft(open.value.depId, open.value.ops + [op]));
      assert AllOps(changesets) + OpenOps() == before + [op];
      ReplayAppend(Object(map[]), before, [op]);
      assert [op][..0] == [];
      r := ApplyOp(op);
    }

    /**
      `close_changeset` (collaborator/document.py:122-135): the open
      changeset is appended to the applied changesets and no changeset is
      open any more; then `get_id()` raises. A changeset opened here has as
      `dependencies` the last changeset object or None, and
      `get_dependency_ids` (collaborator/changeset.py:27-29), which hashing
      needs, iterates over it: a TypeError either way. The appended
      changeset is recorded under `digest`. With none open the source
      appends None and raises on it.
    */
    method CloseChangeset(digest: string) returns (r: Result<Entry, string>)
      modifies this`changesets, this`open
      ensures open == None
      ensures old(open).None? ==> r == Err(NoneGetId) && changesets == old(changesets)
      ensures old(open).Some? ==>
        && r == Err(DependenciesNotIterable(old(open).value.depId))
        && changesets == old(changesets) + [Entry(digest, old(open).value.depId, old(open).value.ops)]
      ensures old(open).Some? && old(OpenFollowsLast()) ==> changesets[|changesets| - 1].depId == LastId(old(changesets))
      ensures old(LocallyConsistent()) ==> LocallyConsistent()
    {
      if open.None? {
        return Err(NoneGetId);
      }
      ghost var before := AllOps(changesets) + OpenOps();
      var e := Entry(digest, open.value.depId, open.value.ops);
      assert (changesets + [e])[..|changesets|] == changesets;
      assert AllOps(changesets + [e]) == before;
      changesets := changesets + [e];
      open := None;
      assert AllOps(changesets) + OpenOps() == before;
      return Err(DependenciesNotIterable(e.depId));
    }

    /**
      `set_initial_snapshot` (collaborator/document.py:69-77): a `set`
      operation with the empty path, added as a local operation, and the
      changeset closed. The snapshot becomes `s` and the changeset holding
      the operation is appended, and then closing raises its TypeError.
    */
    method SetInitialSnapshot(s: Value, digest: string) returns (r: Result<Entry, string>)
      modifies this`open, this`snapshot, this`changesets
      ensures var d := if old(open).Some? then old(open).value else Draft(LastId(old(changesets)), []);
        && r == Err(DependenciesNotIterable(d.depId))
        && changesets == old(changesets) + [Entry(digest, d.depId, d.ops + [SetOp(s)])]
      ensures snapshot == s && open == None
      ensures old(LocallyConsistent()) ==> LocallyConsistent()
    {
      var a := AddLocalOp(SetOp(s));
      r := CloseChangeset(digest);
    }

    /**
      `get_changeset_by_id` (collaborator/document.py:40-47): the first
      changeset with the id, looked for among the applied changesets and
      then among the pending ones.
    */
    method GetChangesetById(csId: string) returns (r: Option<Entry>)
      ensures var all := changesets + pending; var k := IndexOfId(all, Some(csId));
        r == if k < |all| then Some(all[k]) else None
      ensures r.Some? ==> r.value.id == csId && (r.value in changesets || r.value in pending)
    {
      ghost var all := changesets + pending;
      var i := 0;
      while i < |changesets|
        invariant 0 <= i <= |changesets|
        invariant forall j | 0 <= j < i :: all[j].id != csId
      {
        if changesets[i].id == csId {
          assert all[i] == changesets[i];
          return Some(changesets[i]);
        }
        i := i + 1;
      }
      i := 0;
      while i < |pending|
        invariant 0 <= i <= |pending|
        invariant forall j | 0 <= j < |changesets| + i :: all[j].id != csId
      {
        if pending[i].id == csId {
          assert all[|changesets| + i] == pending[i];
          return Some(pending[i]);
        }
        i := i + 1;
      }
      return None;
    }

    /** `get_last_changeset` (collaborator/document.py:37-38): the last applied changeset, None when there is none. */
    function GetLastChangeset(): (r: Option<Entry>)
      reads this
      ensures r.None? <==> |changesets| == 0
      ensures r.Some? ==> r.value == changesets[|changesets| - 1] && r.value in changesets
    {
      if |changesets| == 0 then None else Some(changesets[|changesets| - 1])
    }

    /** `knows_changeset` (collaborator/document.py:92-96): whether an applied changeset has the id. */
    method KnowsChangeset(csId: string) returns (r: bool)
      ensures r <==> exists k | 0 <= k < |changesets| :: changesets[k].id == csId
    {
      var i := 0;
      while i < |changesets|
        invariant 0 <= i <= |changesets|
        invariant forall j | 0 <= j < i :: changesets[j].id != csId
      {
        if changesets[i].id == csId {
          return true;
        }
        i := i + 1;
      }
      return false;
    }

    /** `get_changesets_in_range` (collaborator/document.py:52-64): the loop over the changesets. */
    method GetChangesetsInRange(start: Option<string>, end: Option<string>) returns (r: seq<Entry>)
      ensures r == InRange(changesets, start, end)
    {
      var s := changesets;
      r := [];
      var reached := !Given(start);
      var i := 0;
      while i < |s|
        invariant 0 <= i <= |s|
        invariant forall j | 0 <= j < i :: Some(s[j].id) != end
        invariant reached <==> !Given(start) || IndexOfId(s, start) < i
        invariant r == if !Given(start) then s[..i]
                      else if IndexOfId(s, start) < i then s[IndexOfId(s, start) + 1..i] else []
      {
        if Some(s[i].id) == end {
          assert IndexOfId(s, end) == i;
          return;
        }
        if reached {
          r := r + [s[i]];
        }
        if Some(s[i].id) == start {
          reached := true;
        }
        i := i + 1;
      }
      assert IndexOfId(s, end) == |s|;
    }

    /**
      `set_snapshot` (collaborator/document.py:80-90): every known changeset
      goes to the pending list and the given dependency, if any, becomes the
      only applied changeset.
    */
    method SetSnapshot(s: Value, deps: Option<Entry>)
      modifies this`pending, this`snapshot, this`changesets
      ensures pending == old(pending) + old(changesets)
      ensures snapshot == s
      ensures changesets == if deps.Some? then [deps.value] else []
    {
      pending := pending + changesets;
      snapshot := s;
      changesets := if deps.Some? then [deps.value] else [];
    }

    /**
      `insert_changeset_into_changsets` (collaborator/document.py:155-177)
      as written: the backward search for the dependency and the forward
      loop over entries with the dependency's id. The new changeset goes
      straight after the last entry with its dependency's id, at the front
      when there is none.
    */
    method InsertChangesetIntoChangesets(cs: Entry) returns (i: nat)
      modifies this`changesets
      ensures i == InsertIndexAsWritten(old(changesets), cs) == AfterLast(old(changesets), cs.depId)
      ensures changesets == InsertAt(old(changesets), i, cs)
    {
      var s := changesets;
      i := |s|;
      while i > 0
        invariant 0 <= i <= |s|
        invariant AfterLast(s, cs.depId) == AfterLast(s[..i], cs.depId)
      {
        if cs.depId == Some(s[i - 1].id) {
          break;
        }
        assert s[..i][..i - 1] == s[..i - 1];
        i := i - 1;
      }
      assert AfterLast(s, cs.depId) == i by {
        if i == 0 {
          assert s[..0] == [];
        }
      }
      // The forward loop, which never advances from here.
      i := ForwardAsWritten(s, i, cs);
      ForwardLoopIsDead(s, cs);
      changesets := InsertAt(s, i, cs);
    }

    /**
      The corrected insertion: after the dependency, the new changeset
      moves past the siblings (same dependency) with a smaller id, so
      siblings stay in id order whatever order they arrive in.
    */
    method InsertChangesetOrdered(cs: Entry) returns (i: nat)
      modifies this`changesets
      ensures i == InsertIndexOrdered(old(changesets), cs)
      ensures changesets == InsertAt(old(changesets), i, cs)
    {
      var s := changesets;
      i := |s|;
      while i > 0
        invariant 0 <= i <= |s|
        invariant AfterLast(s, cs.depId) == AfterLast(s[..i], cs.depId)
      {
        if cs.depId == Some(s[i - 1].id) {
          break;
        }
        assert s[..i][..i - 1] == s[..i - 1];
        i := i - 1;
      }
      assert AfterLast(s, cs.depId) == i by {
        if i == 0 {
          assert s[..0] == [];
        }
      }
      while i < |s| && s[i].depId == cs.depId && Ids.Less(s[i].id, cs.id)
        invariant i <= |s|
        invariant ForwardOrdered(s, i, cs) == InsertIndexOrdered(s, cs)
        decreases |s| - i
      {
        i := i + 1;
      }
      changesets := InsertAt(s, i, cs);
    }

    /**
      `apply_op` (collaborator/document.py:240-250): "ERROR!" (as `Some`)
      and the snapshot kept on a rejected path, an exception (Err) and the
      snapshot kept on a failing handler, otherwise None and the new
      document.
    */
    method ApplyOp(op: LegacyOp) returns (r: Result<Option<string>, string>)
      modifies this`snapshot
      ensures match LegacyApplySpec(old(snapshot), op)
        case Err(e) => r.Err? && snapshot == old(snapshot)
        case Ok(Rejected) => r == Ok(Some("ERROR!")) && snapshot == old(snapshot)
        case Ok(Replaced(d)) => r == Ok(None) && snapshot == d
    {
      var ok := ContainsSpec(snapshot, op.path);
      if ok.Err? {
        return Err(ok.error);
      }
      if !ok.value {
        return Ok(Some("ERROR!"));
      }
      if op.action !in EditActions {
        return Err("KeyError: unknown action");
      }
      var x := LegacyEdit(snapshot, op);
      if x.Err? {
        return Err(x.error);
      }
      snapshot := PyReplaceAt(snapshot, op.path, x.value);
      return Ok(None);
    }

    /**
      `rebuild_snapshot` (collaborator/document.py:199-208): from the empty
      dict, every operation of every changeset in order. An operation that
      raises ends the rebuild with the snapshot reached so far.
    */
    method RebuildSnapshot() returns (r: Result<(), string>)
      modifies this`snapshot
      ensures var o := Replay(Object(map[]), AllOps(changesets));
        snapshot == o.doc && (r.Err? <==> o.error.Some?)
    {
      snapshot := Object(map[]);
      var i := 0;
      while i < |changesets|
        invariant 0 <= i <= |changesets|
        invariant Replay(Object(map[]), AllOps(changesets[..i])) == Replayed(snapshot, None)
      {
        var res := ApplyOps(changesets[i].ops);
        AllOpsStep(changesets, i);
        ReplayAppend(Object(map[]), AllOps(changesets[..i]), changesets[i].ops);
        if res.Err? {
          RebuildStops(changesets, i + 1);
          return Err(res.error);
        }
        i := i + 1;
      }
      assert changesets[..i] == changesets;
      return Ok(());
    }

    /** The operations of one changeset in order, as the inner loop of `rebuild_snapshot` applies them. */
    method ApplyOps(ops: seq<LegacyOp>) returns (r: Result<(), string>)
      modifies this`snapshot
      ensures var o := Replay(old(snapshot), ops);
        snapshot == o.doc && (r.Err? <==> o.error.Some?)
    {
      var j := 0;
      while j < |ops|
        invariant 0 <= j <= |ops|
        invariant Replay(old(snapshot), ops[..j]) == Replayed(snapshot, None)
      {
        assert ops[..j + 1][..j] == ops[..j];
        var res := ApplyOp(ops[j]);
        if res.Err? {
          assert ops == ops[..j + 1] + ops[j + 1..];
          ReplayAppend(old(snapshot), ops[..j + 1], ops[j + 1..]);
          return Err(res.error);
        }
        j := j + 1;
      }
      assert ops[..j] == ops;
      return Ok(());
    }
  }

  /** The operations of the first `i + 1` changesets are those of the first `i` and then changeset `i`'s. */
  lemma AllOpsStep(css: seq<Entry>, i: nat)
    requires i < |css|
    ensures AllOps(css[..i + 1]) == AllOps(css[..i]) + css[i].ops
  {
    assert css[..i + 1][..i] == css[..i];
  }

  /** Once replaying the first `i` changesets raises, replaying all of them ends the same way. */
  lemma RebuildStops(css: seq<Entry>, i: nat)
    requires i <= |css|
    ensures var o := Replay(Object(map[]), AllOps(css[..i]));
      o.error.Some? ==> Replay(Object(map[]), AllOps(css)) == o
  {
    assert css == css[..i] + css[i..];
    AllOpsAppend(css[..i], css[i..]);
    ReplayAppend(Object(map[]), AllOps(css[..i]), AllOps(css[i..]));
  }
}
