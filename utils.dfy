/**
  `build_changeset_from_dict` of majormajor/utils.py: a changeset object
  rebuilt from the dictionary a peer sent, its dependencies resolved
  against the changesets a document knows.
*/
module Utils {
  import opened Wrappers
  import opened Json
  import opened Ids
  import opened Ancestry
  import opened Changesets
  import Ops

  /**
    The dependency list of utils.py:28-31: each id whose changeset the
    document knows becomes that changeset, any other stays an id, in order.
    `known` is `None` when no document is given.
  */
  function ResolvedDeps(ids: seq<Id>, known: Option<set<Id>>): (r: seq<Dep>)
    ensures |r| == |ids|
    ensures forall i | 0 <= i < |ids| :: r[i].id == ids[i]
    ensures forall i | 0 <= i < |ids| :: r[i].Linked? <==> known.Some? && ids[i] in known.value
  {
    if ids == [] then []
    else [if known.Some? && ids[0] in known.value then Linked(ids[0]) else Raw(ids[0])] + ResolvedDeps(ids[1..], known)
  }

  /** The ids of resolved dependencies are the ids they were resolved from. */
  lemma ResolvedIds(ids: seq<Id>, known: Option<set<Id>>)
    ensures DepIds(ResolvedDeps(ids, known)) == ids
  {
  }

  /** Without a document nothing is resolved: every dependency stays an id. */
  lemma NoDocumentResolvesNothing(ids: seq<Id>)
    ensures forall d | d in ResolvedDeps(ids, None) :: d.Raw?
  {
  }

  /** The op dictionaries of a list that gained one operation at its end. */
  lemma OpDictsAppend(ops: seq<Ops.Op>, op: Ops.Op)
    ensures OpDicts(ops + [op]) == OpDicts(ops) + [OpDict(op.action, op.path, op.val, op.offset)]
  {
    if ops != [] {
      assert (ops + [op])[1..] == ops[1..] + [op];
      OpDictsAppend(ops[1..], op);
    }
  }

  /**
    `build_changeset_from_dict(m, doc)` (utils.py:20-36), with `known` the
    ids of the changesets `doc` knows (`None` without a document). The new
    changeset has the dictionary's document id and user, the resolved
    dependencies, and one new operation per operation dictionary, in
    order, built by the `Op` factory. Sending it again gives back the
    dictionary, with the dependency ids sorted.
  */
  method BuildChangesetFromDict(m: CsDict, known: Option<set<Id>>) returns (cs: Changeset)
    ensures fresh(cs) && cs.Valid()
    ensures cs.docId == m.docId && cs.user == m.user && cs.dependencies == ResolvedDeps(m.depIds, known)
    ensures cs.id.None? && cs.parents == ResolvedDeps(m.depIds, known) && cs.children == [] && !cs.fullInfo
    ensures |cs.ops| == |m.ops|
    ensures forall i | 0 <= i < |cs.ops| :: (cs.ops[i].changeset == cs
      && cs.ops[i].kind == Ops.KindFor(m.ops[i].action, Ops.PlainOp) && cs.ops[i].Untransformed())
    ensures cs.ToDict() == CsDict(m.docId, m.user, Sort(m.depIds), m.ops)
  {
    var dependencies := ResolveDependencies(m.depIds, known);
    cs := new Changeset(m.docId, m.user, dependencies);
    AddOps(cs, m.ops);
    ResolvedIds(m.depIds, known);
  }

  /** The loop of utils.py:28-31. */
  method ResolveDependencies(ids: seq<Id>, known: Option<set<Id>>) returns (deps: seq<Dep>)
    ensures deps == ResolvedDeps(ids, known)
  {
    deps := [];
    for i := 0 to |ids|
      invariant deps == ResolvedDeps(ids[..i], known)
    {
      assert ids[..i + 1] == ids[..i] + [ids[i]];
      ResolvedAppend(ids[..i], ids[i], known);
      var d := ids[i];
      deps := deps + [if known.Some? && d in known.value then Linked(d) else Raw(d)];
    }
    assert ids[..|ids|] == ids;
  }

  /** `op` is an operation built for `cs` from the dictionary `d` and not yet transformed. */
  predicate BuiltFrom(op: Ops.Op, cs: Changeset, d: OpDict)
    reads op
  {
    op.changeset == cs && op.kind == Ops.KindFor(d.action, Ops.PlainOp) && op.Untransformed()
  }

  /** The loop of utils.py:33-35 on a changeset just built: one fresh operation per dictionary, added in order. */
  method AddOps(cs: Changeset, ds: seq<OpDict>)
    requires cs.Valid() && cs.id.None? && cs.ops == []
    modifies cs
    ensures cs.State() == old(cs.State()).(ops := cs.ops) && cs.Valid()
    ensures |cs.ops| == |ds|
    ensures forall i | 0 <= i < |cs.ops| :: BuiltFrom(cs.ops[i], cs, ds[i])
    ensures OpDicts(cs.ops) == ds
  {
    for j := 0 to |ds|
      invariant cs.State() == old(cs.State()).(ops := cs.ops) && cs.Valid() && |cs.ops| == j
      invariant forall i | 0 <= i < j :: BuiltFrom(cs.ops[i], cs, ds[i])
      invariant OpDicts(cs.ops) == ds[..j]
    {
      AddNextOp(cs, ds, j);
    }
    assert ds[..|ds|] == ds;
  }

  /** Operations built one by one from `ds[..j]`, followed by one built from `ds[j]`. */
  lemma BuiltExtend(ops: seq<Ops.Op>, ops': seq<Ops.Op>, cs: Changeset, ds: seq<OpDict>, j: nat)
    requires |ops| == j < |ds| && |ops'| == j + 1 && ops'[..j] == ops
    requires forall i | 0 <= i < j :: BuiltFrom(ops[i], cs, ds[i])
    requires BuiltFrom(ops'[j], cs, ds[j])
    ensures forall i | 0 <= i < j + 1 :: BuiltFrom(ops'[i], cs, ds[i])
  {
    forall i | 0 <= i < j + 1
      ensures BuiltFrom(ops'[i], cs, ds[i])
    {
      if i < j {
        assert ops'[i] == ops[i];
      }
    }
  }

  lemma PrefixSnoc(ds: seq<OpDict>, j: nat)
    requires j < |ds|
    ensures ds[..j + 1] == ds[..j] + [ds[j]]
  {
  }

  /** The body of the loop of utils.py:33-35 at index `j`: the first `j` dictionaries are built, and now the next one is. */
  method AddNextOp(cs: Changeset, ds: seq<OpDict>, j: nat)
    requires j < |ds| && cs.Valid() && cs.id.None? && |cs.ops| == j
    requires forall i | 0 <= i < j :: BuiltFrom(cs.ops[i], cs, ds[i])
    requires OpDicts(cs.ops) == ds[..j]
    modifies cs
    ensures cs.State() == old(cs.State()).(ops := cs.ops) && cs.Valid() && |cs.ops| == j + 1
    ensures forall i | 0 <= i < j + 1 :: BuiltFrom(cs.ops[i], cs, ds[i])
    ensures OpDicts(cs.ops) == ds[..j + 1]
  {
    ghost var before := cs.ops;
    AddOneOp(cs, ds[j]);
    assert forall i | 0 <= i < j :: BuiltFrom(before[i], cs, ds[i]);
    BuiltExtend(before, cs.ops, cs, ds, j);
    PrefixSnoc(ds, j);
  }

  /** One step of utils.py:33-35: a fresh operation built from `d` is added to the changeset. */
  method AddOneOp(cs: Changeset, d: OpDict)
    requires cs.Valid() && cs.id.None?
    modifies cs
    ensures |cs.ops| == |old(cs.ops)| + 1 && cs.ops[..|old(cs.ops)|] == old(cs.ops)
    ensures cs.State() == old(cs.State()).(ops := cs.ops) && cs.Valid()
    ensures fresh(cs.ops[|cs.ops| - 1]) && BuiltFrom(cs.ops[|cs.ops| - 1], cs, d)
    ensures OpDicts(cs.ops) == OpDicts(old(cs.ops)) + [d]
  {
    var op := new Ops.Op(Ops.PlainOp, d.action, d.path, d.val, d.offset);
    ghost var before := cs.ops;
    var _ := cs.AddOp(op);
    assert cs.ops == before + [op];
    OpDictsAppend(before, op);
  }

  lemma ResolvedAppend(ids: seq<Id>, d: Id, known: Option<set<Id>>)
    ensures ResolvedDeps(ids + [d], known) == ResolvedDeps(ids, known) + [if known.Some? && d in known.value then Linked(d) else Raw(d)]
  {
    if ids != [] {
      assert (ids + [d])[1..] == ids[1..] + [d];
      ResolvedAppend(ids[1..], d, known);
    }
  }
}
