/**
  The changeset of the collaborator prototype (collaborator/changeset.py):
  a mutable record of operations with a list of dependencies, each either
  another changeset object or just its id, and the list of "unaccounted"
  changesets that happened before it without being known to it.

  Identity matters here: the source compares changesets with `==`, which
  for these objects is reference equality, and one branch of
  `find_unaccounted_changesets` shares a list object between two
  changesets. The model is a class whose fields are the source's
  attributes, so both show.
*/
module LegacyChangesets {
  import opened Wrappers
  import opened Json

  /**
    An operation as the collaborator prototype reads it: the fields it was
    built with and the transformed copies `t_path`, `t_val`, `t_offset`.
    (The class that defines it, collaborator/op.py, is not part of this
    model.)
  */
  datatype LegacyOp = LegacyOp(action: string, path: Path, val: Value, offset: Value,
                               tPath: Path, tVal: Value, tOffset: Value)

  /** A dependency: a changeset object, or only the id of one that is not known yet. */
  datatype Dependency = Linked(cs: LegacyChangeset) | RawId(id: string)

  /** The position of the last occurrence of `x` in `s`. */
  function LastIndex<T(==)>(s: seq<T>, x: T): (r: Option<nat>)
    ensures r.None? <==> x !in s
    ensures r.Some? ==> r.value < |s| && s[r.value] == x && forall j | r.value < j < |s| :: s[j] != x
  {
    if |s| == 0 then None
    else if s[|s| - 1] == x then Some(|s| - 1)
    else LastIndex(s[..|s| - 1], x)
  }

  /** The position of the first occurrence of `x` in `s`. */
  function FirstIndex<T(==)>(s: seq<T>, x: T): (r: Option<nat>)
    ensures r.None? <==> x !in s
    ensures r.Some? ==> r.value < |s| && s[r.value] == x && forall j | 0 <= j < r.value :: s[j] != x
  {
    if |s| == 0 then None
    else if s[0] == x then Some(0)
    else match FirstIndex(s[1..], x)
      case None => None
      case Some(k) => Some(k + 1)
  }

  /** The outcome of the scan in the many-dependency branch: whether it finished, and the changesets it kept. */
  datatype Scan = Scan(finished: bool, kept: seq<LegacyChangeset>)

  /**
    The scan over `prev_css` in the many-dependency branch of
    `find_unaccounted_changesets` (collaborator/changeset.py:114-123), with
    `p` the changesets not yet met: a changeset in `p` is kept and leaves
    `p`; the moment `p` holds a single changeset, the current one is kept
    and the scan raises, because its inner search compares every element
    with the list itself.
  */
  function MultiScan(prev: seq<LegacyChangeset>, p: set<LegacyChangeset>): Scan
    decreases |prev|
  {
    if |prev| == 0 then Scan(true, [])
    else if |p| == 1 then Scan(false, [prev[0]])
    else if prev[0] in p then
      var rest := MultiScan(prev[1..], p - {prev[0]});
      Scan(rest.finished, [prev[0]] + rest.kept)
    else MultiScan(prev[1..], p)
  }

  /** A finished scan keeps each changeset of `p` at most once, in the order of `prev`. */
  lemma {:induction false} MultiScanKeeps(prev: seq<LegacyChangeset>, p: set<LegacyChangeset>)
    requires MultiScan(prev, p).finished
    ensures var k := MultiScan(prev, p).kept;
      (forall x | x in k :: x in p && x in prev)
      && forall i, j | 0 <= i < j < |k| :: k[i] != k[j]
    decreases |prev|
  {
    if |prev| > 0 {
      if prev[0] in p {
        MultiScanKeeps(prev[1..], p - {prev[0]});
        var k := MultiScan(prev, p).kept;
        assert k == [prev[0]] + MultiScan(prev[1..], p - {prev[0]}).kept;
        forall i, j | 0 <= i < j < |k| ensures k[i] != k[j] {
          if i == 0 {
            assert k[j] in MultiScan(prev[1..], p - {prev[0]}).kept;
          }
        }
      } else {
        MultiScanKeeps(prev[1..], p);
      }
    }
  }

  /**
    The scan cannot finish when every changeset still to be met is in
    `prev`: it runs until one is left and then raises.
  */
  lemma {:induction false} MultiScanRaises(prev: seq<LegacyChangeset>, p: set<LegacyChangeset>)
    requires |p| >= 1 && forall x | x in p :: x in prev
    ensures !MultiScan(prev, p).finished
    decreases |prev|
  {
    var x :| x in p;
    assert x in prev;
    if |p| != 1 {
      if prev[0] in p {
        var q := p - {prev[0]};
        assert |q| == |p| - 1;
        forall y | y in q ensures y in prev[1..] {
          assert y in prev && y != prev[0];
        }
        MultiScanRaises(prev[1..], q);
      } else {
        forall y | y in p ensures y in prev[1..] {
          assert y in prev && y != prev[0];
        }
        MultiScanRaises(prev[1..], p);
      }
    }
  }

  class LegacyChangeset {
    var docId: string
    var user: string
    /** `id_`: None until it is set or computed. */
    var id: Option<string>
    var ops: seq<LegacyOp>
    /** `preceding_changesets`: the changesets before this one that it does not account for. */
    var preceding: seq<LegacyChangeset>
    var dependencies: seq<Dependency>

    /** `Changeset(doc_id, user, dependencies)` (collaborator/changeset.py:5-11): no id, no operations, nothing unaccounted. */
    constructor(docId: string, user: string, dependencies: seq<Dependency>)
      ensures this.docId == docId && this.user == user && this.dependencies == dependencies
      ensures id == None && ops == [] && preceding == [] && IsEmpty()
    {
      this.docId := docId;
      this.user := user;
      this.dependencies := dependencies;
      id := None;
      ops := [];
      preceding := [];
    }

    /** `is_empty` (collaborator/changeset.py:14-15). */
    predicate IsEmpty()
      reads this
    {
      |ops| == 0
    }

    /** A changeset is closed once its id is a non-empty string (Python truthiness of `id_`). */
    predicate Closed()
      reads this
    {
      id.Some? && id.value != ""
    }

    /** `set_id` (collaborator/changeset.py:62-67). */
    method SetId(x: string)
      modifies this`id
      ensures id == Some(x)
    {
      id := Some(x);
    }

    /**
      `get_id` (collaborator/changeset.py:170-181): the cached id, or the
      digest of the changeset's JSON form, which is then cached. The SHA-1
      digest is the parameter `digestOf`.
    */
    method GetId(digestOf: LegacyChangeset -> string) returns (r: string)
      modifies this`id
      ensures old(id).Some? ==> r == old(id).value
      ensures old(id).None? ==> r == digestOf(this)
      ensures id == Some(r)
    {
      if id.None? {
        id := Some(digestOf(this));
      }
      r := id.value;
    }

    /**
      `add_op` (collaborator/changeset.py:69-79): a closed changeset refuses
      the operation with an exception; otherwise it is appended.
    */
    method AddOp(op: LegacyOp) returns (r: Result<bool, string>)
      modifies this`ops
      ensures Closed() ==> r.Err? && ops == old(ops)
      ensures !Closed() ==> r == Ok(true) && ops == old(ops) + [op] && !IsEmpty()
    {
      if Closed() {
        return Err("Can't add op. Changeset is already closed.");
      }
      ops := ops + [op];
      return Ok(true);
    }

    /** `has_full_dependency_info` (collaborator/changeset.py:17-25): no dependency is a bare id. */
    method HasFullDependencyInfo() returns (r: bool)
      ensures r <==> forall k | 0 <= k < |dependencies| :: dependencies[k].Linked?
    {
      var i := 0;
      while i < |dependencies|
        invariant 0 <= i <= |dependencies|
        invariant forall k | 0 <= k < i :: dependencies[k].Linked?
      {
        if !dependencies[i].Linked? {
          return false;
        }
        i := i + 1;
      }
      return true;
    }

    /**
      `get_dependency_ids` (collaborator/changeset.py:27-34): the id of each
      dependency in order, a bare id as it is. Each linked dependency's id
      is computed and cached if it had none.
    */
    method GetDependencyIds(digestOf: LegacyChangeset -> string) returns (ids: seq<string>)
      modifies (set k | 0 <= k < |dependencies| && dependencies[k].Linked? :: dependencies[k].cs)`id
      ensures |ids| == |dependencies|
      ensures forall k | 0 <= k < |dependencies| && dependencies[k].RawId? :: ids[k] == dependencies[k].id
      ensures forall k | 0 <= k < |dependencies| && dependencies[k].Linked? ::
        ids[k] == (if old(dependencies[k].cs.id).Some? then old(dependencies[k].cs.id.value) else digestOf(dependencies[k].cs))
      ensures forall k | 0 <= k < |dependencies| && dependencies[k].Linked? :: dependencies[k].cs.id == Some(ids[k])
    {
      var deps := dependencies;
      ids := [];
      var i := 0;
      while i < |deps|
        invariant 0 <= i <= |deps| && |ids| == i && deps == dependencies
        invariant forall k | 0 <= k < i && deps[k].RawId? :: ids[k] == deps[k].id
        invariant forall k | 0 <= k < |deps| && deps[k].Linked? ::
          deps[k].cs.id == old(deps[k].cs.id) || (old(deps[k].cs.id).None? && deps[k].cs.id == Some(digestOf(deps[k].cs)))
        invariant forall k | 0 <= k < i && deps[k].Linked? ::
          ids[k] == (if old(deps[k].cs.id).Some? then old(deps[k].cs.id.value) else digestOf(deps[k].cs))
          && deps[k].cs.id == Some(ids[k])
      {
        if deps[i].Linked? {
          var x := deps[i].cs.GetId(digestOf);
          ids := ids + [x];
        } else {
          ids := ids + [deps[i].id];
        }
        i := i + 1;
      }
    }

    /**
      `relink_changeset` (collaborator/changeset.py:81-87): the first
      dependency that is the bare id of `dep` becomes `dep` itself. The id
      of `dep` is asked for once per dependency compared, so it is computed
      only when there is a dependency.
    */
    method RelinkChangeset(dep: LegacyChangeset, digestOf: LegacyChangeset -> string)
      modifies this`dependencies, dep`id
      ensures old(dependencies) == [] ==> dependencies == [] && dep.id == old(dep.id)
      ensures old(dependencies) != [] ==> dep.id == Some(if old(dep.id).Some? then old(dep.id.value) else digestOf(dep))
      ensures old(dependencies) != [] ==>
        var k := FirstIndex(old(dependencies), RawId(dep.id.value));
        dependencies == if k.Some? then old(dependencies)[k.value := Linked(dep)] else old(dependencies)
    {
      var i := 0;
      var deps := dependencies;
      ghost var eid := if dep.id.Some? then dep.id.value else digestOf(dep);
      while i < |deps|
        invariant 0 <= i <= |deps| && dependencies == deps == old(dependencies)
        decreases |deps| - i
        invariant i > 0 ==> dep.id == Some(eid)
        invariant i == 0 ==> dep.id == old(dep.id)
        invariant forall j | 0 <= j < i :: deps[j] != RawId(eid)
      {
        var x := dep.GetId(digestOf);
        if deps[i] == RawId(x) {
          dependencies := deps[i := Linked(dep)];
          return;
        }
        i := i + 1;
      }
    }

    /**
      `find_unaccounted_changesets` (collaborator/changeset.py:89-128),
      given the changesets `prev` that precede this one: a copy of `prev`
      when there is no dependency, `FollowDependency` for one and
      `ScanDependencies` for more.
    */
    method FindUnaccountedChangesets(prev: seq<LegacyChangeset>) returns (r: Result<seq<LegacyChangeset>, string>)
      modifies this`preceding
      modifies (if |dependencies| == 1 && dependencies[0].Linked? then {dependencies[0].cs} else {})`preceding
      ensures |dependencies| == 0 ==> r == Ok(prev) && preceding == prev
      ensures |dependencies| == 1 && dependencies[0].RawId? ==> r.Err? && preceding == old(preceding)
      ensures |dependencies| == 1 && dependencies[0].Linked? ==>
        var dep := dependencies[0].cs;
        match LastIndex(prev, dep)
        case None => r.Err? && preceding == dep.preceding == old(dependencies[0].cs.preceding)
        case Some(i) => r == Ok(old(dependencies[0].cs.preceding) + prev[i + 1..]) && preceding == dep.preceding == r.value
      ensures |dependencies| > 1 && (exists k | 0 <= k < |dependencies| :: dependencies[k].RawId?) ==>
        r.Err? && preceding == old(preceding)
      ensures |dependencies| > 1 && (forall k | 0 <= k < |dependencies| :: dependencies[k].Linked?) ==>
        var s := MultiScan(prev, old(Unaccounted()));
        preceding == s.kept && (s.finished ==> r == Ok(s.kept)) && (!s.finished ==> r.Err?)
    {
      if |dependencies| == 0 {
        preceding := prev;
        return Ok(preceding);
      }
      if |dependencies| == 1 {
        if dependencies[0].RawId? {
          return Err("AttributeError: 'str' object has no attribute 'get_unaccounted_changesets'");
        }
        r := FollowDependency(dependencies[0].cs, prev);
        return;
      }
      if exists k | 0 <= k < |dependencies| :: dependencies[k].RawId? {
        return Err("AttributeError: 'str' object has no attribute 'get_unaccounted_changesets'");
      }
      r := ScanDependencies(prev);
    }

    /**
      The one-dependency branch (collaborator/changeset.py:100-104, 127-128):
      this changeset takes over the dependency's own list object, so
      extending it extends the dependency's list too. The list is extended
      with what follows the last occurrence of `dep` in `prev`; when `dep`
      is not in `prev`, the search raises after the list is shared.
    */
    method FollowDependency(dep: LegacyChangeset, prev: seq<LegacyChangeset>) returns (r: Result<seq<LegacyChangeset>, string>)
      modifies this`preceding, dep`preceding
      ensures match LastIndex(prev, dep)
        case None => r.Err? && preceding == dep.preceding == old(dep.preceding)
        case Some(i) => r == Ok(old(dep.preceding) + prev[i + 1..]) && preceding == dep.preceding == r.value
    {
      // The two changesets now hold one list: the shared object is modelled by updating both fields together.
      preceding := dep.preceding;
      var i := |prev| - 1;
      while i >= 0 && prev[i] != dep
        invariant -1 <= i < |prev|
        invariant forall j | i < j < |prev| :: prev[j] != dep
      {
        i := i - 1;
      }
      if i < 0 {
        // The search goes on through the negative indices, meets the same elements again, and runs off the list.
        return Err("IndexError: list index out of range");
      }
      preceding := preceding + prev[i + 1..];
      dep.preceding := preceding;
      return Ok(preceding);
    }

    /** The union of the unaccounted lists of the linked dependencies. */
    function Unaccounted(): set<LegacyChangeset>
      reads this, set k | 0 <= k < |dependencies| && dependencies[k].Linked? :: dependencies[k].cs
    {
      set k, j | 0 <= k < |dependencies| && dependencies[k].Linked? && 0 <= j < |dependencies[k].cs.preceding|
        :: dependencies[k].cs.preceding[j]
    }

    /**
      The many-dependency branch (collaborator/changeset.py:106-123,
      127-128): `MultiScan` of `prev` against the union of the
      dependencies' lists, into a fresh list.
    */
    method ScanDependencies(prev: seq<LegacyChangeset>) returns (r: Result<seq<LegacyChangeset>, string>)
      modifies this`preceding
      ensures var s := MultiScan(prev, old(Unaccounted()));
        preceding == s.kept && (s.finished ==> r == Ok(s.kept)) && (!s.finished ==> r.Err?)
    {
      var p := Unaccounted();
      ghost var p0 := p;
      var kept: seq<LegacyChangeset> := [];
      var idx := 0;
      while idx < |prev|
        invariant 0 <= idx <= |prev|
        invariant MultiScan(prev, p0) == Scan(MultiScan(prev[idx..], p).finished, kept + MultiScan(prev[idx..], p).kept)
      {
        assert prev[idx..][0] == prev[idx] && prev[idx..][1..] == prev[idx + 1..];
        if |p| == 1 {
          kept := kept + [prev[idx]];
          preceding := kept;
          return Err("IndexError: list index out of range");
        }
        if prev[idx] in p {
          kept := kept + [prev[idx]];
          p := p - {prev[idx]};
        }
        idx := idx + 1;
      }
      preceding := kept;
      return Ok(kept);
    }
  }
}
