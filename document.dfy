/**
  The document's linearisation of the changeset graph (majormajor/document.py).

  Every changeset a document knows is kept by id; the ordered list holds the
  ids of the changesets applied so far, each one after all of its parents.
  This module first states, on values, how a new changeset finds its place
  in such a list and how the whole list is rebuilt from the tree of
  children, and then models the `Document` object that keeps that list, the
  pending and missing bookkeeping and the open local changeset.
*/
module Documents {
  import opened Wrappers
  import opened Json
  import opened Ids
  import opened Ancestry
  import opened Changesets
  import Ops
  import opened Snapshots

  /** The state of every known changeset, by id. */
  type States = map<Id, CsState>

  const IndexError := "IndexError: list index out of range"
  const NoRemoveOldHazards := "AttributeError: Changeset instance has no attribute 'remove_old_hazards'"

  /** The parent lists of the known changesets: the graph `has_ancestor` walks. */
  function GraphOf(st: States): (g: Graph)
    ensures g.Keys == st.Keys && forall k | k in st :: g[k] == st[k].parents
  {
    map k | k in st :: st[k].parents
  }

  /** No id twice. */
  predicate Distinct(list: seq<Id>)
  {
    forall i, j | 0 <= i < j < |list| :: list[i] != list[j]
  }

  /** Every changeset of `list` is known and comes after all of its parents, which are objects. */
  predicate Topological(list: seq<Id>, st: States)
  {
    forall i | 0 <= i < |list| ::
      list[i] in st && forall d | d in st[list[i]].parents :: d.Linked? && d.id in list[..i]
  }

  /** Each child recorded by a changeset is known and lists that changeset as a parent object. */
  predicate ChildrenLinked(st: States)
  {
    forall k, c | k in st && c in st[k].children :: c in st && Linked(k) in st[c].parents
  }

  /** A parent object of a known changeset is itself known. */
  predicate ParentsKnown(st: States)
  {
    forall k, d | k in st && d in st[k].parents :: d.Linked? ==> d.id in st
  }

  /**
    `get_missing_dependency_ids` (document.py:87-92): the parents that are
    only ids, in order.
  */
  function MissingIds(ps: seq<Dep>): (r: seq<Id>)
    ensures |r| <= |ps|
    ensures forall a :: a in r <==> Raw(a) in ps
  {
    if ps == [] then []
    else
      assert forall d :: d in ps <==> d == ps[0] || d in ps[1..];
      (if ps[0].Raw? then [ps[0].id] else []) + MissingIds(ps[1..])
  }

  /**
    The last index `k <= i` whose element of `list` is a parent object in
    `ps`: the backward scan of `get_insertion_point_into_ordered_changesets`
    (document.py:504-507) over the non-negative indices.
  */
  function LastDepFrom(list: seq<Id>, ps: seq<Dep>, i: int): (r: Option<nat>)
    requires i < |list|
    ensures r.Some? ==> r.value <= i && Linked(list[r.value]) in ps
    ensures r.Some? ==> forall j | r.value < j <= i :: Linked(list[j]) !in ps
    ensures r.None? ==> forall j | 0 <= j <= i :: Linked(list[j]) !in ps
    decreases i + 1
  {
    if i < 0 then None
    else if Linked(list[i]) in ps then Some(i)
    else LastDepFrom(list, ps, i - 1)
  }

  /**
    The element at `j` lets the forward scan of the insertion point
    (document.py:512-520) move past it: it does not descend from `cs`, and it
    is either a child of `last` with an id not above `cs`'s, or a descendant
    of `last` through another parent.
  */
  predicate Passes(g: Graph, list: seq<Id>, cs: Id, last: Id, j: nat)
    requires j < |list|
  {
    && HasAncestor(g, list[j], cs, RecursionLimit) == Ok(false)
    && if Linked(last) in g[list[j]] then !Less(cs, list[j])
       else HasAncestor(g, list[j], last, RecursionLimit) == Ok(true)
  }

  /** The element at `j` stops the forward scan. */
  predicate Stops(g: Graph, list: seq<Id>, cs: Id, last: Id, j: nat)
    requires j < |list|
  {
    || HasAncestor(g, list[j], cs, RecursionLimit) == Ok(true)
    || (HasAncestor(g, list[j], cs, RecursionLimit) == Ok(false) && Linked(last) in g[list[j]] && Less(cs, list[j]))
    || (HasAncestor(g, list[j], cs, RecursionLimit) == Ok(false) && Linked(last) !in g[list[j]]
        && HasAncestor(g, list[j], last, RecursionLimit) == Ok(false))
  }

  /** The forward scan from `i`: past every element that passes, up to the first that stops it. */
  function Advance(g: Graph, list: seq<Id>, cs: Id, last: Id, i: nat): (r: Result<nat, string>)
    requires i <= |list|
    ensures r.Ok? ==> i <= r.value <= |list|
    ensures r.Ok? ==> forall j | i <= j < r.value :: Passes(g, list, cs, last, j)
    ensures r.Ok? && r.value < |list| ==> Stops(g, list, cs, last, r.value)
    ensures r.Err? ==> r.error in {UnknownChangeset, NotAChangeset, RecursionError}
    decreases |list| - i
  {
    if i == |list| then Ok(i)
    else match HasAncestor(g, list[i], cs, RecursionLimit)
      case Err(e) => Err(e)
      case Ok(descends) =>
        if descends then Ok(i)
        else if Linked(last) in g[list[i]] then
          if Less(cs, list[i]) then Ok(i) else Advance(g, list, cs, last, i + 1)
        else match HasAncestor(g, list[i], last, RecursionLimit)
          case Err(e) => Err(e)
          case Ok(below) => if below then Advance(g, list, cs, last, i + 1) else Ok(i)
  }

  /**
    Where `get_insertion_point_into_ordered_changesets` (document.py:498-522)
    puts the changeset `cs` with parents `ps` into `list`: after the last of
    its parents, then past the changesets that pass. With no parent in the
    list the backward scan runs off the front and raises IndexError.
  */
  function InsertionPoint(g: Graph, list: seq<Id>, cs: Id, ps: seq<Dep>): (r: Result<nat, string>)
    ensures r.Ok? ==> 0 < r.value <= |list|
    ensures r.Ok? ==> forall j | r.value <= j < |list| :: Linked(list[j]) !in ps
    ensures r == Err(IndexError) <==> forall j | 0 <= j < |list| :: Linked(list[j]) !in ps
    ensures r.Err? ==> r.error in {IndexError, UnknownChangeset, NotAChangeset, RecursionError}
  {
    match LastDepFrom(list, ps, |list| - 1)
    case None => Err(IndexError)
    case Some(k) => Advance(g, list, cs, list[k], k + 1)
  }

  /**
    The insertion point as the loops of document.py:498-522 compute it,
    including Python's negative indices: the backward scan goes on through
    `list[-1]`, `list[-2]`, ... and raises once it passes `-len(list)`.
  */
  method GetInsertionPoint(g: Graph, list: seq<Id>, cs: Id, ps: seq<Dep>) returns (r: Result<nat, string>)
    ensures r == InsertionPoint(g, list, cs, ps)
  {
    var i: int := |list| - 1;
    while true
      invariant -|list| - 1 <= i < |list|
      invariant forall j | (if i < 0 then 0 else i + 1) <= j < |list| :: Linked(list[j]) !in ps
      decreases i + |list| + 1
    {
      if i < -|list| {
        return Err(IndexError);
      }
      var x := if i >= 0 then list[i] else list[|list| + i];
      if Linked(x) in ps {
        break;
      }
      i := i - 1;
    }
    assert LastDepFrom(list, ps, |list| - 1) == Some(i);
    var last := list[i];
    i := i + 1;
    while i < |list|
      invariant i <= |list|
      invariant Advance(g, list, cs, last, i) == InsertionPoint(g, list, cs, ps)
      decreases |list| - i
    {
      var descends := HasAncestor(g, list[i], cs, RecursionLimit);
      if descends.Err? {
        return Err(descends.error);
      }
      if descends.value {
        break;
      }
      if Linked(last) in g[list[i]] {
        if Less(cs, list[i]) {
          break;
        }
      } else {
        var below := HasAncestor(g, list[i], last, RecursionLimit);
        if below.Err? {
          return Err(below.error);
        }
        if !below.value {
          break;
        }
      }
      i := i + 1;
    }
    return Ok(i);
  }

  /** Splicing a changeset in after all of its parents keeps a list in parent-first order. */
  lemma InsertKeepsTopological(list: seq<Id>, st: States, k: nat, x: Id)
    requires Topological(list, st) && k <= |list| && x in st
    requires forall d | d in st[x].parents :: d.Linked? && d.id in list[..k]
    ensures Topological(list[..k] + [x] + list[k..], st)
  {
    var r := list[..k] + [x] + list[k..];
    SpliceAt(list, k, x);
    forall i | 0 <= i < |r|
      ensures r[i] in st && forall d | d in st[r[i]].parents :: d.Linked? && d.id in r[..i]
    {
      if i < k {
        assert r[..i] == list[..i];
      } else if i == k {
        assert r[..k] == list[..k];
      } else {
        forall d | d in st[r[i]].parents
          ensures d.Linked? && d.id in r[..i]
        {
          assert d.id in list[..i - 1];
          var m :| 0 <= m < i - 1 && list[m] == d.id;
          if m < k {
            assert r[m] == d.id;
          } else {
            assert r[m + 1] == d.id;
          }
        }
      }
    }
  }

  /** With the parents placed before `k`: they are all objects, and every one of them is in `list[..k]`. */
  lemma ParentsBefore(list: seq<Id>, ps: seq<Dep>, k: nat)
    requires k <= |list|
    requires forall d | d in ps :: d.Linked? && d.id in list
    requires forall j | k <= j < |list| :: Linked(list[j]) !in ps
    ensures forall d | d in ps :: d.Linked? && d.id in list[..k]
  {
    forall d | d in ps
      ensures d.id in list[..k]
    {
      var m :| 0 <= m < |list| && list[m] == d.id;
      assert d == Linked(list[m]);
      assert list[..k][m] == d.id;
    }
  }

  /**
    A changeset can join the tree list: `_cs_cannot_be_inserted`
    (document.py:566-569) is false for it, as it is not yet in the list and
    all its parents are objects already there.
  */
  predicate Insertable(st: States, x: Id, tree: seq<Id>)
  {
    x in st && x !in tree && forall d | d in st[x].parents :: d.Linked? && d.id in tree
  }

  /** Under `ChildrenLinked`, a child with a single parent has exactly that parent. */
  lemma OnlyParent(st: States, p: Id, c: Id)
    requires ChildrenLinked(st) && p in st && c in st[p].children && |st[c].parents| <= 1
    ensures st[c].parents == [Linked(p)]
  {
  }

  /** Every element of `xs` is a known changeset. */
  predicate AllKnown(xs: seq<Id>, st: States)
  {
    forall i | 0 <= i < |xs| :: xs[i] in st
  }

  lemma ChildrenKnown(st: States, k: Id)
    requires ChildrenLinked(st) && k in st
    ensures AllKnown(st[k].children, st)
  {
    forall i | 0 <= i < |st[k].children|
      ensures st[k].children[i] in st
    {
      assert st[k].children[i] in st[k].children;
    }
  }

  lemma AllKnownTail(q: seq<Id>, c: seq<Id>, st: States)
    requires AllKnown(q, st) && AllKnown(c, st) && c != []
    ensures AllKnown(q + c[1..], st)
  {
    forall i | 0 <= i < |q + c[1..]|
      ensures (q + c[1..])[i] in st
    {
      if i >= |q| {
        assert (q + c[1..])[i] == c[i - |q| + 1];
      }
    }
  }

  /** How many known changesets the list does not hold yet. */
  function Unplaced(st: States, tree: seq<Id>): nat {
    |st.Keys - set y | y in tree|
  }

  /** One placement of `tree_to_list`: the list grows by `x` and keeps its order and its root. */
  lemma TreeInsert(st: States, tree: seq<Id>, ip: nat, x: Id, root: Id)
    requires Insertable(st, x, tree) && ip <= |tree|
    requires forall d | d in st[x].parents :: d.id in tree[..ip]
    requires Distinct(tree) && Topological(tree, st)
    requires tree == [] ==> x == root && ip == 0
    requires tree != [] ==> tree[0] == root && ip >= 1
    ensures var t := tree[..ip] + [x] + tree[ip..];
      && |t| == |tree| + 1 && t[ip] == x && t[0] == root
      && Distinct(t) && Topological(t, st)
      && (set y | y in t) == (set y | y in tree) + {x}
      && Unplaced(st, t) < Unplaced(st, tree)
  {
    var t := tree[..ip] + [x] + tree[ip..];
    InsertKeepsTopological(tree, st, ip, x);
    SpliceAt(tree, ip, x);
    forall i, j | 0 <= i < j < |t|
      ensures t[i] != t[j]
    {
      if i != ip && j != ip {
        var i' := if i < ip then i else i - 1;
        var j' := if j < ip then j else j - 1;
        assert t[i] == tree[i'] && t[j] == tree[j'];
      } else if i == ip {
        assert t[j] == tree[j - 1];
      } else {
        assert t[i] == tree[i];
      }
    }
    assert forall y :: y in t <==> y in tree || y == x by {
      forall y
        ensures y in t <==> y in tree || y == x
      {
        if y in tree {
          var m :| 0 <= m < |tree| && tree[m] == y;
          if m < ip { assert t[m] == y; } else { assert t[m + 1] == y; }
        }
        if y in t {
          var m :| 0 <= m < |t| && t[m] == y;
          if m < ip { assert tree[m] == y; } else if m > ip { assert tree[m - 1] == y; }
        }
      }
    }
    var before := set y | y in tree;
    assert (set y | y in t) == before + {x};
    assert st.Keys - (set y | y in t) < st.Keys - before;
  }

  /**
    The inner loop of `tree_to_list` (document.py:543-553): the first child
    if it can join the list, otherwise changesets popped from the end of the
    queue until one can; `found` is false once the queue runs out.
  */
  method PickNext(st: States, tree: seq<Id>, children: seq<Id>, queue: seq<Id>)
    returns (found: bool, next: Id, rest: seq<Id>, justIncrement: bool)
    requires AllKnown(children, st) && AllKnown(queue, st)
    ensures found ==> Insertable(st, next, tree)
    ensures AllKnown(rest, st) && |rest| <= |queue|
    ensures justIncrement ==> found && children != [] && next == children[0]
  {
    var cand: Option<Id> := if children == [] then None else Some(children[0]);
    rest := queue;
    justIncrement := true;
    while cand.None? || !Insertable(st, cand.value, tree)
      invariant cand.Some? ==> cand.value in st
      invariant AllKnown(rest, st) && |rest| <= |queue|
      invariant justIncrement ==> cand == (if children == [] then None else Some(children[0]))
      decreases |rest|
    {
      justIncrement := false;
      if rest == [] {
        return false, "", rest, false;
      }
      cand := Some(rest[|rest| - 1]);
      rest := rest[..|rest| - 1];
    }
    return true, cand.value, rest, justIncrement;
  }

  /**
    `tree_to_list` (document.py:524-564) from the root `root`: walks the
    first children, keeps the other children in a queue that is popped from
    the end, and places each changeset right after the previous one or at
    its insertion point. The list it returns starts at the root, has no
    repeats and puts every changeset after its parents.
  */
  method TreeOrder(st: States, root: Id) returns (r: Result<seq<Id>, string>)
    requires ChildrenLinked(st) && root in st && st[root].parents == []
    ensures r.Ok? ==> |r.value| > 0 && r.value[0] == root
    ensures r.Ok? ==> Distinct(r.value) && Topological(r.value, st)
  {
    var g := GraphOf(st);
    var tree: seq<Id> := [];
    var cs := root;
    var queue: seq<Id> := [];
    var ip: nat := 0;
    while true
      invariant Insertable(st, cs, tree) && ip <= |tree|
      invariant forall d | d in st[cs].parents :: d.id in tree[..ip]
      invariant Distinct(tree) && Topological(tree, st)
      invariant tree == [] ==> cs == root && ip == 0
      invariant tree != [] ==> tree[0] == root && ip >= 1
      invariant AllKnown(queue, st)
      decreases Unplaced(st, tree)
    {
      TreeInsert(st, tree, ip, cs, root);
      tree := tree[..ip] + [cs] + tree[ip..];
      ip := ip + 1;
      var next;
      next, queue := NextPlace(st, g, tree, cs, ip, queue);
      if next.Err? {
        return Err(next.error);
      }
      if next.value.None? {
        return Ok(tree);
      }
      cs, ip := next.value.value.0, next.value.value.1;
    }
  }

  /**
    The rest of one pass of `tree_to_list` (document.py:543-562), once
    `prev` has been placed just before `ip`: the other children of `prev`
    join the queue, the next changeset is picked, and its place is either
    straight after `prev` (the first child, when `prev` is its only
    parent) or its insertion point, whose other children then join the
    queue too. None when the queue runs out.
  */
  method NextPlace(st: States, g: Graph, tree: seq<Id>, prev: Id, ip: nat, queue: seq<Id>)
    returns (r: Result<Option<(Id, nat)>, string>, queue': seq<Id>)
    requires ChildrenLinked(st) && prev in st
    requires 1 <= ip <= |tree| && tree[ip - 1] == prev && AllKnown(queue, st)
    ensures AllKnown(queue', st)
    ensures r.Ok? && r.value.Some? ==>
      var cs, k := r.value.value.0, r.value.value.1;
      Insertable(st, cs, tree) && 1 <= k <= |tree| && forall d | d in st[cs].parents :: d.id in tree[..k]
  {
    queue' := queue;
    var children := st[prev].children;
    ChildrenKnown(st, prev);
    if children != [] {
      AllKnownTail(queue', children, st);
      queue' := queue' + children[1..];
    }
    var found, cs, justIncrement;
    found, cs, queue', justIncrement := PickNext(st, tree, children, queue');
    if !found {
      return Ok(None), queue';
    }
    if !justIncrement || |st[cs].parents| > 1 {
      var point := GetInsertionPoint(g, tree, cs, st[cs].parents);
      if point.Err? {
        return Err(point.error), queue';
      }
      ParentsBefore(tree, st[cs].parents, point.value);
      var grand := st[cs].children;
      ChildrenKnown(st, cs);
      if grand != [] {
        AllKnownTail(queue', grand, st);
        queue' := queue' + grand[1..];
      }
      return Ok(Some((cs, point.value))), queue';
    }
    OnlyParent(st, prev, cs);
    assert tree[..ip][ip - 1] == prev;
    return Ok(Some((cs, ip))), queue';
  }

  /* ---------------------------------------------------------------
     Linking a newly known changeset to its parents
     --------------------------------------------------------------- */

  /** `add_child` on a state: the child id appended if absent, then the children sorted by id. */
  function ChildAdded(s: CsState, c: Id): CsState
  {
    s.(children := Sort(s.children + (if c in s.children then [] else [c])))
  }

  /** After `add_child(c)` the children are those before and `c`. */
  lemma ChildAddedMembers(s: CsState, c: Id)
    ensures forall y :: y in ChildAdded(s, c).children <==> y in s.children || y == c
  {
    var l := s.children + (if c in s.children then [] else [c]);
    forall y
      ensures y in ChildAdded(s, c).children <==> y in l
    {
      assert y in Sort(l) <==> y in multiset(Sort(l));
      assert y in l <==> y in multiset(l);
    }
  }

  /**
    One parent entry `d` of the changeset `x`, as both the loop of
    `add_to_known_changesets` (document.py:381-388) and each step of
    `relink_changesets` (changeset.py:204-212) treat it: an id entry whose
    changeset is known is replaced by that object, and a known parent
    records `x` among its children.
  */
  function LinkStep(st: States, x: Id, d: Dep): (r: States)
    requires x in st
    ensures r.Keys == st.Keys
  {
    if d.id !in st then st
    else
      var st1 := if d.Raw? then st[x := st[x].(parents := Relinked(st[x].parents, d.id))] else st;
      st1[d.id := ChildAdded(st1[d.id], x)]
  }

  /** `LinkStep` for every entry of `ps` in turn. */
  function LinkAll(st: States, x: Id, ps: seq<Dep>): (r: States)
    requires x in st
    ensures r.Keys == st.Keys
    decreases |ps|
  {
    if ps == [] then st else LinkAll(LinkStep(st, x, ps[0]), x, ps[1..])
  }

  /** `LinkAll` from position `i` of `ps`, one step unfolded. */
  lemma LinkAllAt(st: States, x: Id, ps: seq<Dep>, i: nat)
    requires x in st && i < |ps|
    ensures LinkAll(st, x, ps[i..]) == LinkAll(LinkStep(st, x, ps[i]), x, ps[i + 1..])
  {
    assert ps[i..][0] == ps[i] && ps[i..][1..] == ps[i + 1..];
  }

  /**
    What linking `x` to the entries `ps` does: other changesets only gain
    `x` as a child, exactly when they are named in `ps`; `x` itself has its
    known id entries turned into objects (the walk over a copy of the
    list that `add_to_known_changesets` makes) and gains a child only if it names itself.
  */
  lemma {:induction false} LinkAllFacts(st: States, x: Id, ps: seq<Dep>)
    requires x in st
    ensures forall k | k in st && k != x :: LinkAll(st, x, ps)[k] == st[k].(children := LinkAll(st, x, ps)[k].children)
    ensures LinkAll(st, x, ps)[x] == st[x].(parents := RelinkEach(st[x].parents, ps, st.Keys),
                                            children := LinkAll(st, x, ps)[x].children)
    ensures forall k, c | k in st ::
      c in LinkAll(st, x, ps)[k].children <==> c in st[k].children || (c == x && (Raw(k) in ps || Linked(k) in ps))
    decreases |ps|
  {
    LinkAllRecords(st, x, ps);
    LinkAllChildren(st, x, ps);
  }

  lemma {:induction false} LinkAllRecords(st: States, x: Id, ps: seq<Dep>)
    requires x in st
    ensures forall k | k in st && k != x :: LinkAll(st, x, ps)[k] == st[k].(children := LinkAll(st, x, ps)[k].children)
    ensures LinkAll(st, x, ps)[x] == st[x].(parents := RelinkEach(st[x].parents, ps, st.Keys),
                                            children := LinkAll(st, x, ps)[x].children)
    decreases |ps|
  {
    if ps != [] {
      var d := ps[0];
      LinkStepFields(st, x, d);
      LinkStepParents(st, x, d);
      LinkAllRecords(LinkStep(st, x, d), x, ps[1..]);
    }
  }

  lemma {:induction false} LinkAllChildren(st: States, x: Id, ps: seq<Dep>)
    requires x in st
    ensures forall k, c | k in st ::
      c in LinkAll(st, x, ps)[k].children <==> c in st[k].children || (c == x && (Raw(k) in ps || Linked(k) in ps))
    decreases |ps|
  {
    if ps != [] {
      var d := ps[0];
      var st' := LinkStep(st, x, d);
      LinkAllChildren(st', x, ps[1..]);
      assert forall e :: e in ps <==> e == d || e in ps[1..];
      LinkStepChildLists(st, x, d);
    }
  }

  /** `LinkAllFacts` at one changeset `k`. */
  lemma LinkAllAtKey(st: States, x: Id, ps: seq<Dep>, k: Id)
    requires x in st && k in st
    ensures k != x ==> LinkAll(st, x, ps)[k].parents == st[k].parents
    ensures k == x ==> LinkAll(st, x, ps)[k].parents == RelinkEach(st[x].parents, ps, st.Keys)
    ensures LinkAll(st, x, ps)[k] == st[k].(parents := LinkAll(st, x, ps)[k].parents,
                                            children := LinkAll(st, x, ps)[k].children)
  {
    LinkAllFacts(st, x, ps);
  }

  /** `LinkAllFacts` for one child `c` of one changeset `k`. */
  lemma LinkAllChild(st: States, x: Id, ps: seq<Dep>, k: Id, c: Id)
    requires x in st && k in st
    ensures c in LinkAll(st, x, ps)[k].children <==> c in st[k].children || (c == x && (Raw(k) in ps || Linked(k) in ps))
  {
    LinkAllFacts(st, x, ps);
  }

  /** A list without id entries is left as it is by relinking. */
  lemma {:induction false} RelinkEachLinked(ps: seq<Dep>, todo: seq<Dep>, known: set<Id>)
    requires FullInfo(ps)
    ensures RelinkEach(ps, todo, known) == ps
    decreases |todo|
  {
    if todo != [] {
      assert Raw(todo[0].id) !in ps;
      RelinkEachLinked(ps, todo[1..], known);
    }
  }

  /** `a` is named in the list of ids of `ps` exactly when `ps` holds `a` as an id or as an object. */
  lemma DepIdsMembers(ps: seq<Dep>, a: Id)
    ensures a in DepIds(ps) <==> Raw(a) in ps || Linked(a) in ps
  {
    var ids := DepIds(ps);
    if a in ids {
      var i :| 0 <= i < |ids| && ids[i] == a;
      assert ps[i] == Raw(a) || ps[i] == Linked(a);
    }
    if Raw(a) in ps || Linked(a) in ps {
      var i :| 0 <= i < |ps| && (ps[i] == Raw(a) || ps[i] == Linked(a));
      assert ids[i] == a;
    }
  }

  /**
    What the document keeps true of its changesets: the ordered list has no
    repeats and puts parents first, children and parents point at each
    other, the dependencies are distinct ordered changesets, and the root has
    no parents and is ordered.
  */
  predicate DocInvariant(st: States, ordered: seq<Id>, dependencies: seq<Id>, root: Option<Id>)
  {
    && Distinct(ordered) && Topological(ordered, st)
    && ChildrenLinked(st) && ParentsKnown(st)
    && Distinct(dependencies) && (forall i | 0 <= i < |dependencies| :: dependencies[i] in ordered)
    && (root.Some? ==> root.value in st && root.value in ordered && st[root.value].parents == [])
  }

  /** A fresh changeset without children, whose parent objects are known, can join the known ones. */
  lemma AddKnownKeepsInvariant(st: States, x: Id, s: CsState, ordered: seq<Id>, deps: seq<Id>, root: Option<Id>)
    requires DocInvariant(st, ordered, deps, root) && x !in st && s.children == []
    requires forall d | d in s.parents :: d.Linked? ==> d.id in st
    ensures DocInvariant(st[x := s], ordered, deps, root)
  {
    var st' := st[x := s];
    assert forall i | 0 <= i < |ordered| :: ordered[i] != x;
    assert Topological(ordered, st') by {
      forall i | 0 <= i < |ordered|
        ensures ordered[i] in st' && forall d | d in st'[ordered[i]].parents :: d.Linked? && d.id in ordered[..i]
      {
        assert st'[ordered[i]] == st[ordered[i]];
      }
    }
  }

  /** Linking a known changeset that is not yet ordered to its own parents keeps the invariant. */
  lemma LinkKeepsInvariant(st: States, x: Id, ordered: seq<Id>, deps: seq<Id>, root: Option<Id>)
    requires DocInvariant(st, ordered, deps, root) && x in st && x !in ordered
    ensures DocInvariant(LinkAll(st, x, st[x].parents), ordered, deps, root)
  {
    LinkKeepsOrder(st, x, ordered);
    LinkKeepsChildren(st, x);
    LinkKeepsParents(st, x);
    if root.Some? {
      LinkAllAtKey(st, x, st[x].parents, root.value);
    }
  }

  lemma LinkKeepsOrder(st: States, x: Id, ordered: seq<Id>)
    requires Topological(ordered, st) && x in st && x !in ordered
    ensures Topological(ordered, LinkAll(st, x, st[x].parents))
  {
    var r := LinkAll(st, x, st[x].parents);
    forall i | 0 <= i < |ordered|
      ensures ordered[i] in r && forall d | d in r[ordered[i]].parents :: d.Linked? && d.id in ordered[..i]
    {
      LinkAllAtKey(st, x, st[x].parents, ordered[i]);
    }
  }

  /** A known changeset named among the parents is an object among them once they are relinked. */
  lemma RelinkedNamesKnown(ps: seq<Dep>, k: Id, known: set<Id>)
    requires k in known && (Raw(k) in ps || Linked(k) in ps)
    ensures Linked(k) in RelinkEach(ps, ps, known)
  {
    var rel := RelinkEach(ps, ps, known);
    RelinkEachEntries(ps, ps, known);
    RelinkEachLinksKnown(ps, ps, known);
    DepIdsMembers(ps, k);
    DepIdsMembers(rel, k);
    assert k in multiset(DepIds(rel));
  }

  lemma ChildOf(st: States, k: Id, c: Id)
    requires ChildrenLinked(st) && k in st && c in st[k].children
    ensures c in st && Linked(k) in st[c].parents
  {
  }

  lemma LinkKeepsChildren(st: States, x: Id)
    requires ChildrenLinked(st) && x in st
    ensures ChildrenLinked(LinkAll(st, x, st[x].parents))
  {
    var ps := st[x].parents;
    var r := LinkAll(st, x, ps);
    LinkAllFacts(st, x, ps);
    forall k | k in st && (Raw(k) in ps || Linked(k) in ps)
      ensures Linked(k) in r[x].parents
    {
      RelinkedNamesKnown(ps, k, st.Keys);
    }
    ChildrenLinkedAfter(st, x, ps, r);
  }

  /** The child lists and parent lists after linking `x`, as `LinkAllFacts` gives them, keep every child pointing back. */
  lemma ChildrenLinkedAfter(st: States, x: Id, ps: seq<Dep>, r: States)
    requires ChildrenLinked(st) && x in st && r.Keys == st.Keys && ps == st[x].parents
    requires forall k | k in st && k != x :: r[k].parents == st[k].parents
    requires forall k | k in st && (Raw(k) in ps || Linked(k) in ps) :: Linked(k) in r[x].parents
    requires forall k, c | k in st :: c in r[k].children <==> c in st[k].children || (c == x && (Raw(k) in ps || Linked(k) in ps))
    ensures ChildrenLinked(r)
  {
    forall k, c | k in r && c in r[k].children
      ensures c in r && Linked(k) in r[c].parents
    {
      if c in st[k].children {
        ChildOf(st, k, c);
      }
    }
  }

  /** One child recorded after linking `x` to its parents lists its parent back. */
  lemma LinkKeepsParents(st: States, x: Id)
    requires ParentsKnown(st) && x in st
    ensures ParentsKnown(LinkAll(st, x, st[x].parents))
  {
    var ps := st[x].parents;
    var r := LinkAll(st, x, ps);
    RelinkEachEntries(ps, ps, st.Keys);
    forall k, d | k in r && d in r[k].parents && d.Linked?
      ensures d.id in r
    {
      LinkAllAtKey(st, x, ps, k);
    }
  }

  /**
    Appending a known changeset whose parents are all ordered objects, and
    making it the only dependency, keeps the invariant; so does setting its
    preceding list.
  */
  lemma CloseKeepsInvariant(st: States, x: Id, ordered: seq<Id>, deps: seq<Id>, root: Option<Id>, pre: Option<seq<Id>>)
    requires DocInvariant(st, ordered, deps, root) && x in st && x !in ordered
    requires forall d | d in st[x].parents :: d.Linked? && d.id in ordered
    ensures DocInvariant(st[x := st[x].(preceding := pre)], ordered + [x], [x], root)
  {
    assert ordered[..|ordered|] == ordered && ordered[|ordered|..] == [];
    InsertKeepsTopological(ordered, st, |ordered|, x);
    assert ordered[..|ordered|] + [x] + ordered[|ordered|..] == ordered + [x];
    assert DocInvariant(st, ordered + [x], [x], root);
    SameLinksKeepInvariant(st, st[x := st[x].(preceding := pre)], ordered + [x], [x], root);
  }

  /** Changing neither parents nor children keeps the invariant, which looks at nothing else. */
  lemma SameLinksKeepInvariant(st: States, st': States, ordered: seq<Id>, deps: seq<Id>, root: Option<Id>)
    requires DocInvariant(st, ordered, deps, root)
    requires st'.Keys == st.Keys && forall k | k in st :: st'[k].parents == st[k].parents && st'[k].children == st[k].children
    ensures DocInvariant(st', ordered, deps, root)
  {
    assert Topological(ordered, st') by {
      forall i | 0 <= i < |ordered|
        ensures ordered[i] in st' && forall d | d in st'[ordered[i]].parents :: d.Linked? && d.id in ordered[..i]
      {
        assert ordered[i] in st;
      }
    }
  }
  /**
    `relink_changesets` (changeset.py:204-212) as written, on the changeset
    `x`: `LinkStep` for the entry at each position `i` of the parent list as
    it is at that moment, while the steps change that list. A relinked id
    leaves its place and its object goes to the end, so the entry that moves
    into its place is not visited. Relinking keeps the length, so the walk
    takes as many steps as there were parents.
  */
  function RelinkWalk(st: States, x: Id, i: nat): (r: States)
    requires x in st
    ensures r.Keys == st.Keys
    decreases |st[x].parents| - i
  {
    if i >= |st[x].parents| then st
    else
      var d := st[x].parents[i];
      LinkStepParents(st, x, d);
      RelinkWalk(LinkStep(st, x, d), x, i + 1)
  }

  /** One step changes the parents of `x` only when it relinks a known id, and keeps their number. */
  lemma LinkStepParents(st: States, x: Id, d: Dep)
    requires x in st
    ensures LinkStep(st, x, d)[x].parents == if d.Raw? && d.id in st then Relinked(st[x].parents, d.id) else st[x].parents
    ensures |LinkStep(st, x, d)[x].parents| == |st[x].parents|
  {
    RelinkedKeepsParents(st[x].parents, d.id);
  }

  /** The walk leaves `x` with the parent list `RelinkAsWritten` computes over the known ids. */
  lemma {:induction false} RelinkWalkParents(st: States, x: Id, i: nat)
    requires x in st
    ensures RelinkWalk(st, x, i)[x].parents == RelinkAsWritten(st[x].parents, st.Keys, i).0
    decreases |st[x].parents| - i
  {
    if i < |st[x].parents| {
      var d := st[x].parents[i];
      LinkStepParents(st, x, d);
      RelinkWalkParents(LinkStep(st, x, d), x, i + 1);
    }
  }

  /**
    With two parents that are both ids of known changesets, the walk relinks
    the first and skips the second, so the changeset is not ready however
    far the ordered list has got.
  */
  lemma RelinkWalkSkips(st: States, x: Id, a: Id, b: Id, ordered: seq<Id>)
    requires x in st && a in st && b in st && a != b && st[x].parents == [Raw(a), Raw(b)]
    ensures RelinkWalk(st, x, 0)[x].parents == [Raw(b), Linked(a)]
    ensures !Ready(RelinkWalk(st, x, 0), ordered, x)
  {
    var ps := [Raw(a), Raw(b)];
    var ps1 := [Raw(b), Linked(a)];
    assert RemoveFirst(ps, Raw(a)) == [Raw(b)];
    assert RemoveFirst(ps, Raw(a)) + [Linked(a)] == ps1;
    assert RelinkAsWritten(ps1, st.Keys, 2).0 == ps1;
    assert RelinkAsWritten(ps1, st.Keys, 1).0 == ps1 by { assert ps1[1] == Linked(a); }
    assert RelinkAsWritten(ps, st.Keys, 0).0 == ps1 by { assert ps[0] == Raw(a); }
    RelinkWalkParents(st, x, 0);
    assert ps1[0] in RelinkWalk(st, x, 0)[x].parents;
  }

  /**
    One step of the walk over a parent entry `d` of `x`, which is not
    ordered, keeps the document's state; only the parents of `x` and the
    children of `d`'s changeset change.
  */
  lemma LinkStepKeepsState(st: States, x: Id, d: Dep, ordered: seq<Id>, deps: seq<Id>, root: Option<Id>)
    requires DocState(st, ordered, deps, root) && x in st && x !in ordered && d in st[x].parents
    ensures DocState(LinkStep(st, x, d), ordered, deps, root)
    ensures forall k | k in st :: LinkStep(st, x, d)[k] == st[k].(parents := LinkStep(st, x, d)[k].parents,
                                                                   children := LinkStep(st, x, d)[k].children)
    ensures forall k | k in st && k != x :: LinkStep(st, x, d)[k].parents == st[k].parents
  {
    var r := LinkStep(st, x, d);
    LinkStepRecords(st, x, d);
    LinkStepChildren(st, x, d);
    LinkStepParentsKnown(st, x, d);
    assert Topological(ordered, r) by {
      forall i | 0 <= i < |ordered|
        ensures ordered[i] in r && forall e | e in r[ordered[i]].parents :: e.Linked? && e.id in ordered[..i]
      {
        assert ordered[i] != x;
      }
    }
  }

  /** The whole walk keeps the document's state, every field but parent and child lists, and the parents of every other changeset. */
  lemma {:induction false} RelinkWalkKeepsState(st: States, x: Id, i: nat, ordered: seq<Id>, deps: seq<Id>, root: Option<Id>)
    requires DocState(st, ordered, deps, root) && x in st && x !in ordered
    ensures DocState(RelinkWalk(st, x, i), ordered, deps, root)
    ensures forall k | k in st :: RelinkWalk(st, x, i)[k] == st[k].(parents := RelinkWalk(st, x, i)[k].parents,
                                                                    children := RelinkWalk(st, x, i)[k].children)
    ensures forall k | k in st && k != x :: RelinkWalk(st, x, i)[k].parents == st[k].parents
    decreases |st[x].parents| - i
  {
    if i < |st[x].parents| {
      var d := st[x].parents[i];
      LinkStepKeepsState(st, x, d, ordered, deps, root);
      LinkStepParents(st, x, d);
      RelinkWalkKeepsState(LinkStep(st, x, d), x, i + 1, ordered, deps, root);
    }
  }

  /** Caching the full-information flag of `x` keeps the document's state. */
  lemma FlagKeepsState(st: States, x: Id, ordered: seq<Id>, deps: seq<Id>, root: Option<Id>)
    requires DocState(st, ordered, deps, root) && x in st
    ensures DocState(st[x := st[x].(fullInfo := st[x].fullInfo || FullInfo(st[x].parents))], ordered, deps, root)
  {
    SameLinksKeepInvariant(st, st[x := st[x].(fullInfo := st[x].fullInfo || FullInfo(st[x].parents))], ordered, deps, root);
  }

  /** A step keeps every field but parent and child lists, the parents of every other changeset, and the cached flags. */
  lemma LinkStepRecords(st: States, x: Id, d: Dep)
    requires FlagsHold(st) && x in st
    ensures forall k | k in st :: LinkStep(st, x, d)[k] == st[k].(parents := LinkStep(st, x, d)[k].parents,
                                                                   children := LinkStep(st, x, d)[k].children)
    ensures forall k | k in st && k != x :: LinkStep(st, x, d)[k].parents == st[k].parents
    ensures FlagsHold(LinkStep(st, x, d))
  {
    LinkStepFields(st, x, d);
    LinkStepFlags(st, x, d);
  }

  lemma LinkStepFields(st: States, x: Id, d: Dep)
    requires x in st
    ensures forall k | k in st :: LinkStep(st, x, d)[k] == st[k].(parents := LinkStep(st, x, d)[k].parents,
                                                                   children := LinkStep(st, x, d)[k].children)
    ensures forall k | k in st && k != x :: LinkStep(st, x, d)[k].parents == st[k].parents
  {
  }

  lemma LinkStepFlags(st: States, x: Id, d: Dep)
    requires FlagsHold(st) && x in st
    ensures FlagsHold(LinkStep(st, x, d))
  {
    var r := LinkStep(st, x, d);
    LinkStepParents(st, x, d);
    LinkStepFields(st, x, d);
    if st[x].fullInfo {
      assert Raw(d.id) !in st[x].parents;
    }
    forall k | k in r && r[k].fullInfo
      ensures FullInfo(r[k].parents)
    {
      assert r[k].fullInfo == st[k].fullInfo;
    }
  }

  /** After a step over a parent entry `d`, every recorded child still lists its parent as an object. */
  lemma LinkStepChildren(st: States, x: Id, d: Dep)
    requires ChildrenLinked(st) && x in st && d in st[x].parents
    ensures ChildrenLinked(LinkStep(st, x, d))
  {
    var r := LinkStep(st, x, d);
    LinkStepChildLists(st, x, d);
    LinkStepParentLinks(st, x, d);
    forall k, c | k in r && c in r[k].children
      ensures c in r && Linked(k) in r[c].parents
    {
      if c in st[k].children {
        assert Linked(k) in st[c].parents;
      }
    }
  }

  /** A step over `d` adds `x` to the children of `d`'s changeset, when known, and to no other child list. */
  lemma LinkStepChildLists(st: States, x: Id, d: Dep)
    requires x in st
    ensures forall k, c | k in st :: c in LinkStep(st, x, d)[k].children <==> c in st[k].children || (c == x && k == d.id)
  {
    var r := LinkStep(st, x, d);
    if d.id in st {
      var st1 := if d.Raw? then st[x := st[x].(parents := Relinked(st[x].parents, d.id))] else st;
      forall k | k in st
        ensures r[k].children == if k == d.id then ChildAdded(st[k], x).children else st[k].children
      {
        assert st1[k].children == st[k].children;
      }
      ChildAddedMembers(st[d.id], x);
    }
  }

  /**
    A step over a parent entry `d` keeps the parents of every other
    changeset and the parent objects of `x`, and leaves `d`'s changeset,
    when known, a parent object of `x`.
  */
  lemma LinkStepParentLinks(st: States, x: Id, d: Dep)
    requires x in st && d in st[x].parents
    ensures forall k | k in st && k != x :: LinkStep(st, x, d)[k].parents == st[k].parents
    ensures forall a | Linked(a) in st[x].parents :: Linked(a) in LinkStep(st, x, d)[x].parents
    ensures d.id in st ==> Linked(d.id) in LinkStep(st, x, d)[x].parents
  {
    RelinkedKeepsParents(st[x].parents, d.id);
    LinkStepParents(st, x, d);
    LinkStepOthers(st, x, d);
  }

  /** A step changes the parent list of no changeset but `x`. */
  lemma LinkStepOthers(st: States, x: Id, d: Dep)
    requires x in st
    ensures forall k | k in st && k != x :: LinkStep(st, x, d)[k].parents == st[k].parents
  {
    if d.id in st {
      var r := LinkStep(st, x, d);
      var st1 := if d.Raw? then st[x := st[x].(parents := Relinked(st[x].parents, d.id))] else st;
      forall k | k in st && k != x
        ensures r[k].parents == st[k].parents
      {
        assert r[k].parents == st1[k].parents;
      }
    }
  }

  /** A step only adds parent objects that are known. */
  lemma LinkStepParentsKnown(st: States, x: Id, d: Dep)
    requires ParentsKnown(st) && x in st
    ensures ParentsKnown(LinkStep(st, x, d))
  {
    var r := LinkStep(st, x, d);
    if d.id in st {
      RelinkedEntries(st[x].parents, d.id);
      LinkStepParents(st, x, d);
    }
  }

  /* ---------------------------------------------------------------
     Dependencies, unaccounted changesets and the sync status
     --------------------------------------------------------------- */

  /** `list.remove(y)` on a list of ids, when `y` is there; the list unchanged otherwise. */
  function RemoveFirstId(s: seq<Id>, y: Id): (r: seq<Id>)
    ensures y in s ==> |r| == |s| - 1 && multiset(r) == multiset(s) - multiset{y}
    ensures y !in s ==> r == s
  {
    if s == [] then []
    else if s[0] == y then assert s == [s[0]] + s[1..]; s[1..]
    else assert s == [s[0]] + s[1..]; [s[0]] + RemoveFirstId(s[1..], y)
  }

  /** A list without repeats is a set of ids: membership follows the multiset. */
  lemma DistinctMultiset(s: seq<Id>)
    requires Distinct(s)
    ensures forall y | y in s :: multiset(s)[y] == 1
  {
    if s != [] {
      assert Distinct(s[1..]);
      DistinctMultiset(s[1..]);
      assert s == [s[0]] + s[1..];
      assert s[0] !in s[1..];
    }
  }

  /** A list in which every id counts at most once has no repeats. */
  lemma MultisetDistinct(s: seq<Id>)
    requires forall y | y in s :: multiset(s)[y] <= 1
    ensures Distinct(s)
  {
    forall i, j | 0 <= i < j < |s|
      ensures s[i] != s[j]
    {
      if s[i] == s[j] {
        CountedTwice(s, i, j);
      }
    }
  }

  lemma CountedTwice(s: seq<Id>, i: nat, j: nat)
    requires i < j < |s| && s[i] == s[j]
    ensures multiset(s)[s[i]] >= 2
  {
    assert s == s[..i] + [s[i]] + s[i + 1..j] + [s[j]] + s[j + 1..];
  }

  /** Taking an id out of a list without repeats: the other ids stay, still without repeats. */
  lemma RemoveDistinct(s: seq<Id>, y: Id)
    requires Distinct(s)
    ensures Distinct(RemoveFirstId(s, y))
    ensures forall z :: z in RemoveFirstId(s, y) <==> z in s && z != y
  {
    RemoveKeepsDistinct(s, y);
    RemoveMembers(s, y);
  }

  lemma RemoveKeepsDistinct(s: seq<Id>, y: Id)
    requires Distinct(s)
    ensures Distinct(RemoveFirstId(s, y))
  {
    var r := RemoveFirstId(s, y);
    DistinctMultiset(s);
    forall z | z in r
      ensures multiset(r)[z] <= 1
    {
      assert z in multiset(r);
    }
    MultisetDistinct(r);
  }

  lemma RemoveMembers(s: seq<Id>, y: Id)
    requires Distinct(s)
    ensures forall z :: z in RemoveFirstId(s, y) <==> z in s && z != y
  {
    var r := RemoveFirstId(s, y);
    DistinctMultiset(s);
    forall z
      ensures z in r <==> z in s && z != y
    {
      assert z in r <==> multiset(r)[z] > 0;
      assert z in s <==> multiset(s)[z] > 0;
    }
  }

  /**
    The loop of `activate_changeset_in_document` (document.py:305-308) over
    the parents `ps`: each parent object found among the dependencies is
    taken out of them.
  */
  function WithoutParents(deps: seq<Id>, ps: seq<Dep>): seq<Id>
    decreases |ps|
  {
    if ps == [] then deps
    else WithoutParents(if ps[0].Linked? then RemoveFirstId(deps, ps[0].id) else deps, ps[1..])
  }

  /**
    From dependencies without repeats, taking out the parents leaves exactly
    the dependencies that are not parent objects, still without repeats.
  */
  lemma {:induction false} WithoutParentsMembers(deps: seq<Id>, ps: seq<Dep>)
    requires Distinct(deps)
    ensures Distinct(WithoutParents(deps, ps))
    ensures forall y :: y in WithoutParents(deps, ps) <==> y in deps && Linked(y) !in ps
    decreases |ps|
  {
    if ps != [] {
      var d := ps[0];
      var deps' := if d.Linked? then RemoveFirstId(deps, d.id) else deps;
      if d.Linked? {
        RemoveDistinct(deps, d.id);
      }
      WithoutParentsMembers(deps', ps[1..]);
      assert forall e :: e in ps <==> e == d || e in ps[1..];
    }
  }


  /** `reversed(s)`: the same ids, last first. */
  function Reversed(s: seq<Id>): (r: seq<Id>)
    ensures |r| == |s| && forall i | 0 <= i < |s| :: r[i] == s[|s| - 1 - i]
  {
    if s == [] then [] else Reversed(s[1..]) + [s[0]]
  }

  /** Reversing keeps the ids. */
  lemma ReversedMembers(s: seq<Id>)
    ensures forall y :: y in Reversed(s) <==> y in s
  {
    var r := Reversed(s);
    forall y
      ensures y in r <==> y in s
    {
      if y in r {
        var i :| 0 <= i < |r| && r[i] == y;
        assert s[|s| - 1 - i] == y;
      }
      if y in s {
        var i :| 0 <= i < |s| && s[i] == y;
        assert r[|s| - 1 - i] == y;
      }
    }
  }

  /**
    The list comprehension of `update_unaccounted_changesets`
    (document.py:467-468): the ids of `s` that `x` does not descend from,
    in order, or the first error `has_ancestor` raises.
  */
  function NotAncestors(g: Graph, x: Id, s: seq<Id>): (r: Result<seq<Id>, string>)
    ensures r.Ok? ==> forall y | y in r.value :: y in s && HasAncestor(g, x, y, RecursionLimit) == Ok(false)
    ensures r.Ok? <==> forall y | y in s :: HasAncestor(g, x, y, RecursionLimit).Ok?
    ensures r.Ok? ==> forall y | y in s && HasAncestor(g, x, y, RecursionLimit) == Ok(false) :: y in r.value
    ensures r.Err? ==> r.error in {UnknownChangeset, NotAChangeset, RecursionError}
  {
    if s == [] then Ok([])
    else
      assert forall y :: y in s <==> y == s[0] || y in s[1..];
      match HasAncestor(g, x, s[0], RecursionLimit)
      case Err(e) => assert s[0] in s; Err(e)
      case Ok(b) =>
        match NotAncestors(g, x, s[1..])
        case Err(e) => Err(e)
        case Ok(rest) => Ok(if b then rest else [s[0]] + rest)
  }

  /**
    Where the backward walk of `update_unaccounted_changesets`
    (document.py:460-473) over `ordered`, from index `i` with the parent
    entries `deps` still to meet, stops, and whether it stops at the last of
    them (whose unaccounted list is then taken over) rather than at index 0
    or with no parents at all.
  */
  function UnaccountedWalkEnd(ordered: seq<Id>, deps: seq<Dep>, i: int): (r: (int, bool))
    requires i < |ordered|
    ensures r.0 <= i && (r.1 ==> 0 < r.0 && Linked(ordered[r.0]) in deps)
    decreases if i > 0 then i else 0
  {
    if |deps| == 0 || i <= 0 then (i, false)
    else if Linked(ordered[i]) in deps then
      if |deps| == 1 then (i, true)
      else
        RemoveFirstMembers(deps, Linked(ordered[i]));
        UnaccountedWalkEnd(ordered, RemoveFirst(deps, Linked(ordered[i])), i - 1)
    else UnaccountedWalkEnd(ordered, deps, i - 1)
  }

  /** A changeset `y` that is not among the parent objects `ps` of `x` and that `x` does not descend from. */
  predicate Unaccountable(g: Graph, x: Id, ps: seq<Dep>, y: Id) {
    Linked(y) !in ps && Unrelated(g, x, y)
  }

  /** `has_ancestor` answers that `x` does not descend from `y`. */
  predicate Unrelated(g: Graph, x: Id, y: Id) {
    HasAncestor(g, x, y, RecursionLimit) == Ok(false)
  }

  /**
    The list `l` is complete for `x` at `pos`: it holds every changeset the
    walk passes that is not a parent of `x` and that `x` does not descend
    from, and, when the walk stops at the last parent met, every changeset
    of that parent's unaccounted list that `x` does not descend from.
  */
  predicate CompleteUnaccounted(st: States, ordered: seq<Id>, x: Id, pos: nat, l: seq<Id>)
    requires x in st && AllKnown(ordered, st) && pos <= |ordered|
  {
    var g := GraphOf(st);
    var w := UnaccountedWalkEnd(ordered, st[x].parents, pos - 1);
    && (forall j | 0 <= j && w.0 < j < pos && Unaccountable(g, x, st[x].parents, ordered[j]) :: ordered[j] in l)
    && (w.1 ==> st[ordered[w.0]].preceding.Some? ==>
          forall y | y in st[ordered[w.0]].preceding.value && Unrelated(g, x, y) :: y in l)
  }

  /**
    The first part of `update_unaccounted_changesets` (document.py:455-476)
    for the changeset `x` placed at `pos` of `ordered`: walking back from
    just before `pos` (never to the root at index 0), the changesets `x`
    does not descend from are collected until the walk has passed all of
    `x`'s parents but the last one met, whose own unaccounted list (less
    `x`'s ancestors) is taken over. The result is reversed into list order.
  */
  method FindUnaccounted(st: States, ordered: seq<Id>, x: Id, pos: nat) returns (r: Result<seq<Id>, string>)
    requires x in st && AllKnown(ordered, st) && pos <= |ordered|
    ensures r.Ok? ==> forall y | y in r.value :: HasAncestor(GraphOf(st), x, y, RecursionLimit) == Ok(false)
    ensures r.Ok? ==> forall y | y in r.value :: y in ordered[..pos] || InSomePreceding(st, y)
    ensures r.Ok? ==> CompleteUnaccounted(st, ordered, x, pos, r.value)
    ensures r.Err? ==> r.error in {NotYetKnown, UnknownChangeset, NotAChangeset, RecursionError}
  {
    var found: seq<Id> := [];
    var deps := st[x].parents;
    var i: int := pos - 1;
    while |deps| > 0 && i > 0
      invariant WalkState(st, ordered, x, pos, deps, found, i)
      decreases i
    {
      if Linked(ordered[i]) in deps && |deps| == 1 {
        assert UnaccountedWalkEnd(ordered, deps, i) == (i, true);
        r := FinishAtParent(st, ordered, x, pos, i, found);
        return;
      }
      var err;
      deps, found, err := WalkPast(st, ordered, x, pos, deps, found, i);
      if err.Some? {
        return Err(err.value);
      }
      i := i - 1;
    }
    WalkStopsEarly(st, ordered, x, pos, deps, found, i);
    return Ok(Reversed(found));
  }

  /**
    The state of the backward walk of `FindUnaccounted` at index `i`, with
    the parent entries `deps` still to meet and the changesets `found` so far.
  */
  predicate WalkState(st: States, ordered: seq<Id>, x: Id, pos: nat, deps: seq<Dep>, found: seq<Id>, i: int)
    requires x in st && AllKnown(ordered, st) && pos <= |ordered|
  {
    && i < |ordered| && i < pos
    && UnaccountedWalkEnd(ordered, deps, i) == UnaccountedWalkEnd(ordered, st[x].parents, pos - 1)
    && (forall e | e in deps :: e in st[x].parents)
    && (forall y | y in found :: Unrelated(GraphOf(st), x, y))
    && (forall y | y in found :: y in ordered[..pos])
    && (forall j | 0 <= j && i < j < pos && Unaccountable(GraphOf(st), x, st[x].parents, ordered[j]) :: ordered[j] in found)
  }

  /**
    One step of the backward walk at index `i`, short of the last parent:
    a parent entry is removed from `deps`, any other changeset is collected
    when `x` does not descend from it; the error `has_ancestor` raises stops
    the walk.
  */
  method WalkPast(st: States, ordered: seq<Id>, x: Id, pos: nat, deps: seq<Dep>, found: seq<Id>, i: int)
    returns (deps': seq<Dep>, found': seq<Id>, err: Option<string>)
    requires x in st && AllKnown(ordered, st) && pos <= |ordered|
    requires WalkState(st, ordered, x, pos, deps, found, i) && |deps| > 0 && i > 0
    requires Linked(ordered[i]) in deps ==> |deps| > 1
    ensures err.None? ==> WalkState(st, ordered, x, pos, deps', found', i - 1)
    ensures err.None? ==> deps' == (if Linked(ordered[i]) in deps then RemoveFirst(deps, Linked(ordered[i])) else deps)
    ensures err.Some? ==> Linked(ordered[i]) !in deps && err.value in {UnknownChangeset, NotAChangeset, RecursionError}
  {
    var g := GraphOf(st);
    var old_ := ordered[i];
    WalkEndStep(ordered, deps, i);
    deps', found', err := deps, found, None;
    if Linked(old_) in deps {
      RemoveFirstMembers(deps, Linked(old_));
      deps' := RemoveFirst(deps, Linked(old_));
    } else {
      var next := CollectUnrelated(g, x, old_, found);
      if next.Err? {
        err := Some(next.error);
        return;
      }
      assert ordered[..pos][i] == old_;
      found' := next.value;
    }
    CompleteStep(ordered, g, x, st[x].parents, found, found', i, pos);
  }

  /**
    The walk ended without reaching a last parent (no parents left, or
    index 0): the reversed list is the answer.
  */
  lemma WalkStopsEarly(st: States, ordered: seq<Id>, x: Id, pos: nat, deps: seq<Dep>, found: seq<Id>, i: int)
    requires x in st && AllKnown(ordered, st) && pos <= |ordered|
    requires WalkState(st, ordered, x, pos, deps, found, i) && !(|deps| > 0 && i > 0)
    ensures forall y | y in Reversed(found) :: HasAncestor(GraphOf(st), x, y, RecursionLimit) == Ok(false)
    ensures forall y | y in Reversed(found) :: y in ordered[..pos] || InSomePreceding(st, y)
    ensures CompleteUnaccounted(st, ordered, x, pos, Reversed(found))
  {
    ReversedMembers(found);
  }

  /**
    One changeset `y` the backward walk passes that is not a parent of `x`:
    it joins `found` when `x` does not descend from it and it is not there
    yet; the error `has_ancestor` raises stops the walk.
  */
  method CollectUnrelated(g: Graph, x: Id, y: Id, found: seq<Id>) returns (r: Result<seq<Id>, string>)
    ensures r.Ok? ==> forall z :: z in r.value <==> z in found || (z == y && Unrelated(g, x, y))
    ensures r.Err? ==> HasAncestor(g, x, y, RecursionLimit).Err? && r.error == HasAncestor(g, x, y, RecursionLimit).error
  {
    var a := HasAncestor(g, x, y, RecursionLimit);
    if a.Err? {
      return Err(a.error);
    }
    if !a.value && y !in found {
      return Ok(found + [y]);
    }
    return Ok(found);
  }

  /**
    The walk of `FindUnaccounted` stopped at index `i`, on the last parent
    met: the changesets found so far are joined by that parent's
    unaccounted list, less the ancestors of `x`.
  */
  method FinishAtParent(st: States, ordered: seq<Id>, x: Id, pos: nat, i: int, found: seq<Id>) returns (r: Result<seq<Id>, string>)
    requires x in st && AllKnown(ordered, st) && pos <= |ordered| && 0 < i < pos
    requires UnaccountedWalkEnd(ordered, st[x].parents, pos - 1) == (i, true)
    requires forall y | y in found :: Unrelated(GraphOf(st), x, y)
    requires forall y | y in found :: y in ordered[..pos]
    requires forall j | 0 <= j && i < j < pos && Unaccountable(GraphOf(st), x, st[x].parents, ordered[j]) :: ordered[j] in found
    ensures r.Ok? ==> forall y | y in r.value :: HasAncestor(GraphOf(st), x, y, RecursionLimit) == Ok(false)
    ensures r.Ok? ==> forall y | y in r.value :: y in ordered[..pos] || InSomePreceding(st, y)
    ensures r.Ok? ==> CompleteUnaccounted(st, ordered, x, pos, r.value)
    ensures r.Err? ==> r.error in {NotYetKnown, UnknownChangeset, NotAChangeset, RecursionError}
  {
    var g := GraphOf(st);
    var old_ := ordered[i];
    r := Inherit(g, x, st[old_].preceding, found);
    if r.Ok? {
      assert forall y | y in r.value :: Unrelated(g, x, y);
      forall y | y in r.value && y !in ordered[..pos]
        ensures InSomePreceding(st, y)
      {
        assert old_ in st && y in st[old_].preceding.value;
      }
    }
  }

  /**
    The end of the walk at the last parent met, whose unaccounted list is
    `pre`: the changesets `found` so far and those of `pre` that `x` does
    not descend from, reversed into list order.
  */
  method Inherit(g: Graph, x: Id, pre: Option<seq<Id>>, found: seq<Id>) returns (r: Result<seq<Id>, string>)
    ensures r.Ok? ==> pre.Some? && forall y :: y in r.value <==> y in found || (y in pre.value && Unrelated(g, x, y))
    ensures r.Err? ==> r.error in {NotYetKnown, UnknownChangeset, NotAChangeset, RecursionError}
  {
    if pre.None? {
      return Err(NotYetKnown);
    }
    var kept := NotAncestors(g, x, Reversed(pre.value));
    if kept.Err? {
      return Err(kept.error);
    }
    ReversedMembers(pre.value);
    ReversedMembers(found + kept.value);
    return Ok(Reversed(found + kept.value));
  }

  /** `y` is in the unaccounted list of some known changeset. */
  predicate InSomePreceding(st: States, y: Id) {
    exists z | z in st :: st[z].preceding.Some? && y in st[z].preceding.value
  }

  /** The walk's completeness carried one index further back. */
  lemma CompleteStep(ordered: seq<Id>, g: Graph, x: Id, ps: seq<Dep>, found: seq<Id>, found': seq<Id>, i: int, pos: nat)
    requires 0 <= i < pos <= |ordered|
    requires forall j | 0 <= j && i < j < pos && Unaccountable(g, x, ps, ordered[j]) :: ordered[j] in found
    requires forall y | y in found :: y in found'
    requires Unaccountable(g, x, ps, ordered[i]) ==> ordered[i] in found'
    ensures forall j | 0 <= j && i - 1 < j < pos && Unaccountable(g, x, ps, ordered[j]) :: ordered[j] in found'
  {
  }

  /** One step of the backward walk, past a parent entry or past another changeset. */
  lemma WalkEndStep(ordered: seq<Id>, deps: seq<Dep>, i: int)
    requires 0 < i < |ordered| && |deps| > 0
    ensures Linked(ordered[i]) in deps && |deps| > 1 ==>
      UnaccountedWalkEnd(ordered, deps, i) == UnaccountedWalkEnd(ordered, RemoveFirst(deps, Linked(ordered[i])), i - 1)
    ensures Linked(ordered[i]) !in deps ==>
      UnaccountedWalkEnd(ordered, deps, i) == UnaccountedWalkEnd(ordered, deps, i - 1)
  {
  }

  /** What `list.remove(d)` leaves was in the list. */
  lemma RemoveFirstMembers(ps: seq<Dep>, d: Dep)
    ensures forall e | e in RemoveFirst(ps, d) :: e in ps
  {
    forall e | e in RemoveFirst(ps, d)
      ensures e in ps
    {
      assert e in multiset(RemoveFirst(ps, d));
    }
  }

  /**
    The second part of `update_unaccounted_changesets` (document.py:478-484):
    `add_to_unaccounted_changesets` of every changeset after `pos`, from
    index `i` on, told about `x`; the first exception stops the walk, with
    the lists updated so far kept.
  */
  function AddToLater(st: States, ordered: seq<Id>, x: Id, pos: nat, i: nat): (r: (States, Option<string>))
    requires AllKnown(ordered, st)
    ensures r.0.Keys == st.Keys
    ensures r.1.Some? ==> r.1.value in {NoChildren, NotYetKnown}
    decreases |ordered| - i
  {
    if i >= |ordered| then (st, None)
    else
      var y := ordered[i];
      var s := st[y];
      var parent := if |s.parents| == 1 && s.parents[0].Linked? && s.parents[0].id in st then Some(st[s.parents[0].id]) else None;
      match AddedToUnaccounted(s.parents, parent, s.preceding, y, x, pos, ordered)
      case Err(e) => (st, Some(e))
      case Ok(p) =>
        AddToLater(st[y := s.(preceding := p)], ordered, x, pos, i + 1)
  }

  /** Telling the later changesets about `x` changes nothing but their unaccounted lists. */
  lemma {:induction false} AddToLaterPrecedingOnly(st: States, ordered: seq<Id>, x: Id, pos: nat, i: nat)
    requires AllKnown(ordered, st)
    ensures PrecedingOnly(st, AddToLater(st, ordered, x, pos, i).0)
    decreases |ordered| - i
  {
    if i < |ordered| {
      var y := ordered[i];
      var s := st[y];
      var parent := if |s.parents| == 1 && s.parents[0].Linked? && s.parents[0].id in st then Some(st[s.parents[0].id]) else None;
      match AddedToUnaccounted(s.parents, parent, s.preceding, y, x, pos, ordered)
      case Err(_) =>
      case Ok(p) =>
        AddToLaterPrecedingOnly(st[y := s.(preceding := p)], ordered, x, pos, i + 1);
    }
  }

  /** `AddToLater` at index `i`, one step unfolded. */
  lemma AddToLaterStep(st: States, ordered: seq<Id>, x: Id, pos: nat, i: nat)
    requires AllKnown(ordered, st) && i < |ordered|
    ensures var y := ordered[i];
      var s := st[y];
      var parent := if |s.parents| == 1 && s.parents[0].Linked? && s.parents[0].id in st then Some(st[s.parents[0].id]) else None;
      match AddedToUnaccounted(s.parents, parent, s.preceding, y, x, pos, ordered)
      case Err(e) => AddToLater(st, ordered, x, pos, i) == (st, Some(e))
      case Ok(p) => AddToLater(st, ordered, x, pos, i) == AddToLater(st[y := s.(preceding := p)], ordered, x, pos, i + 1)
  {
  }

  /**
    What `has_needed_dependencies` (document.py:412-424) answers once the
    parents are relinked: every parent is an object and already ordered.
  */
  predicate Ready(st: States, ordered: seq<Id>, x: Id)
  {
    x in st && FullInfo(st[x].parents) && forall d | d in st[x].parents :: d.id in ordered
  }

  /** The remote dependencies this document does not know: the first list of `get_sync_status` (document.py:127-128). */
  function UnknownIds(remote: seq<Id>, known: set<Id>): (r: seq<Id>)
    ensures |r| <= |remote|
    ensures forall y :: y in r <==> y in remote && y !in known
  {
    if remote == [] then []
    else
      assert forall y :: y in remote <==> y == remote[0] || y in remote[1..];
      (if remote[0] in known then [] else [remote[0]]) + UnknownIds(remote[1..], known)
  }

  /** The dependencies the remote side does not list: the second list of `get_sync_status` (document.py:129-130). */
  function NotListed(deps: seq<Id>, remote: seq<Id>): (r: seq<Id>)
    ensures |r| <= |deps|
    ensures forall y :: y in r <==> y in deps && y !in remote
  {
    if deps == [] then []
    else
      assert forall y :: y in deps <==> y == deps[0] || y in deps[1..];
      (if deps[0] in remote then [] else [deps[0]]) + NotListed(deps[1..], remote)
  }
  /** The errors activation can raise: no place in the list, or one from `update_unaccounted_changesets`. */
  const ActivationErrors: set<string> := {IndexError, NotYetKnown, NoChildren, UnknownChangeset, NotAChangeset, RecursionError}

  /** The parent objects a new local changeset is given: the current dependencies, in order. */
  function LinkedDeps(deps: seq<Id>): (r: seq<Dep>)
    ensures |r| == |deps| && forall i | 0 <= i < |deps| :: r[i] == Linked(deps[i])
  {
    if deps == [] then [] else [Linked(deps[0])] + LinkedDeps(deps[1..])
  }

  /** An absent offset is JSON null to the snapshot. */
  function OffsetValue(o: Option<int>): Value
  {
    if o.None? then Null else Int(o.value)
  }

  /** What `Snapshot.apply_op` reads of an operation object. */
  function EditOf(op: Ops.Op): EditOp
    reads op
  {
    EditOp(op.action, op.path, op.val, OffsetValue(op.offset), op.tVal, OffsetValue(op.tOffset))
  }

  /** The loop of `has_needed_dependencies` (document.py:420-424): is every parent already in the ordered list? */
  method AllOrdered(ps: seq<Dep>, ordered: seq<Id>) returns (r: bool)
    ensures r <==> forall d | d in ps :: d.id in ordered
  {
    for i := 0 to |ps|
      invariant forall j | 0 <= j < i :: ps[j].id in ordered
    {
      if ps[i].id !in ordered {
        return false;
      }
    }
    return true;
  }

  /** The cached full-information flag of each known changeset is only set while its parents are all objects. */
  predicate FlagsHold(st: States)
  {
    forall k | k in st :: st[k].fullInfo ==> FullInfo(st[k].parents)
  }

  /**
    Linking `x` changes only parent and child lists: ids, operations,
    preceding lists and cached flags stay, other changesets keep their
    parents, and the cached flags stay true, since a changeset whose parents
    are all objects is not relinked.
  */
  lemma LinkKeepsRecords(st: States, x: Id)
    requires FlagsHold(st) && x in st
    ensures forall k | k in st :: (LinkAll(st, x, st[x].parents)[k] ==
      st[k].(parents := LinkAll(st, x, st[x].parents)[k].parents, children := LinkAll(st, x, st[x].parents)[k].children))
    ensures forall k | k in st && k != x :: LinkAll(st, x, st[x].parents)[k].parents == st[k].parents
    ensures FlagsHold(LinkAll(st, x, st[x].parents))
  {
    var ps := st[x].parents;
    var r := LinkAll(st, x, ps);
    forall k | k in st
      ensures r[k] == st[k].(parents := r[k].parents, children := r[k].children)
      ensures k != x ==> r[k].parents == st[k].parents
      ensures r[k].fullInfo ==> FullInfo(r[k].parents)
    {
      LinkAllAtKey(st, x, ps, k);
      if k == x && st[x].fullInfo {
        RelinkEachLinked(ps, ps, st.Keys);
      }
    }
  }

  /**
    Linking a closed local changeset `s`, stored as `x`, whose parents are
    all known objects: it stays as it was, and each parent gains `x` as a
    child while every other changeset keeps its children.
  */
  lemma CloseLinkFacts(st: States, x: Id, s: CsState)
    requires x !in st && s.children == [] && forall d | d in s.parents :: d.Linked? && d.id in st
    ensures LinkAll(st[x := s], x, s.parents)[x] == s
    ensures forall k | k in st :: LinkAll(st[x := s], x, s.parents)[k] == st[k].(children := LinkAll(st[x := s], x, s.parents)[k].children)
    ensures forall k, c | k in st :: c in LinkAll(st[x := s], x, s.parents)[k].children <==> c in st[k].children || (c == x && Linked(k) in s.parents)
  {
    var st' := st[x := s];
    var ps := s.parents;
    var r := LinkAll(st', x, ps);
    assert FullInfo(ps);
    RelinkEachLinked(ps, ps, st'.Keys);
    LinkAllAtKey(st', x, ps, x);
    assert Linked(x) !in ps && Raw(x) !in ps;
    if r[x].children != [] {
      LinkAllChild(st', x, ps, x, r[x].children[0]);
      assert false;
    }
    forall k | k in st
      ensures r[k] == st[k].(children := r[k].children)
    {
      LinkAllAtKey(st', x, ps, k);
    }
    forall k, c | k in st
      ensures c in r[k].children <==> c in st[k].children || (c == x && Linked(k) in ps)
    {
      assert Raw(k) !in ps;
      LinkAllChild(st', x, ps, k, c);
    }
  }

  /** Relinking every known id leaves as ids only parents that were not known. */
  lemma LinkLeavesUnknown(st: States, x: Id, a: Id)
    requires x in st && a in st
    ensures Raw(a) !in LinkAll(st, x, st[x].parents)[x].parents
  {
    var ps := st[x].parents;
    LinkAllParents(st, x, ps);
    RelinkEachLinksKnown(ps, ps, st.Keys);
  }

  /** The parents of `x` once linked: its entries relinked. */
  lemma LinkAllParents(st: States, x: Id, ps: seq<Dep>)
    requires x in st
    ensures LinkAll(st, x, ps)[x].parents == RelinkEach(st[x].parents, ps, st.Keys)
  {
    LinkAllFacts(st, x, ps);
  }

  /** Splicing a new id into a list without repeats leaves none. */
  lemma DistinctSplice(list: seq<Id>, k: nat, x: Id)
    requires Distinct(list) && k <= |list| && x !in list
    ensures Distinct(list[..k] + [x] + list[k..])
  {
    var r := list[..k] + [x] + list[k..];
    SpliceAt(list, k, x);
    forall i, j | 0 <= i < j < |r|
      ensures r[i] != r[j]
    {
      var a := if i < k then i else if i == k then -1 else i - 1;
      var b := if j < k then j else if j == k then -1 else j - 1;
      if a >= 0 && b >= 0 {
        assert r[i] == list[a] && r[j] == list[b] && a < b;
      } else if a < 0 {
        assert r[i] == x && r[j] == list[b];
      } else {
        assert r[j] == x && r[i] == list[a];
      }
    }
  }

  /** After activation the dependencies are those not among the parents, then the new changeset. */
  lemma ActivatedDeps(deps: seq<Id>, ps: seq<Dep>, x: Id, ordered: seq<Id>)
    requires Distinct(deps) && x !in deps && forall i | 0 <= i < |deps| :: deps[i] in ordered
    requires x in ordered
    ensures Distinct(WithoutParents(deps, ps) + [x])
    ensures forall i | 0 <= i < |WithoutParents(deps, ps) + [x]| :: (WithoutParents(deps, ps) + [x])[i] in ordered
    ensures forall y :: y in WithoutParents(deps, ps) + [x] <==> y == x || (y in deps && Linked(y) !in ps)
  {
    var w := WithoutParents(deps, ps);
    WithoutParentsMembers(deps, ps);
    var r := w + [x];
    forall i | 0 <= i < |r|
      ensures r[i] in ordered
    {
      if i < |w| {
        assert r[i] in w;
      }
    }
    forall i, j | 0 <= i < j < |r|
      ensures r[i] != r[j]
    {
      if j < |w| {
        assert r[i] == w[i] && r[j] == w[j];
      } else {
        assert r[i] in w;
      }
    }
  }

  /** Any distinct ordered changesets can be the dependency heads as far as the invariant goes. */
  lemma HeadsKeepState(st: States, ordered: seq<Id>, deps: seq<Id>, deps': seq<Id>, root: Option<Id>)
    requires DocState(st, ordered, deps, root)
    requires Distinct(deps') && forall i | 0 <= i < |deps'| :: deps'[i] in ordered
    ensures DocState(st, ordered, deps', root)
  {
  }

  /** Known changesets are stored under their own ids, their cached flags hold, and the ordering invariant holds. */
  predicate DocState(st: States, ordered: seq<Id>, deps: seq<Id>, root: Option<Id>)
  {
    && (forall k | k in st :: st[k].id == Some(k))
    && FlagsHold(st)
    && DocInvariant(st, ordered, deps, root)
  }

  /** The pending changesets are known, not ordered, and listed once. */
  predicate PendingState(pending: seq<Id>, st: States, ordered: seq<Id>)
  {
    Distinct(pending) && forall i | 0 <= i < |pending| :: pending[i] in st && pending[i] !in ordered
  }

  /**
    The known changesets after `close_changeset` (document.py:238-243) has
    stored the local changeset `s` as `x`: linked to its parents, with
    nothing unaccounted.
  */
  function Closing(st: States, s: CsState, x: Id): States
  {
    var st1 := LinkAll(st[x := s.(id := Some(x))], x, s.parents);
    st1[x := st1[x].(preceding := Some([]))]
  }

  /**
    What closing stores: the local changeset as it was, under its new id
    and with nothing unaccounted; every parent gains it as a child, and
    nothing else changes.
  */
  lemma ClosingFacts(st: States, s: CsState, x: Id)
    requires x !in st && s.children == [] && forall d | d in s.parents :: d.Linked? && d.id in st
    ensures Closing(st, s, x).Keys == st.Keys + {x}
    ensures Closing(st, s, x)[x] == s.(id := Some(x), preceding := Some([]))
    ensures forall k | k in st :: Closing(st, s, x)[k] == st[k].(children := Closing(st, s, x)[k].children)
    ensures forall k, c | k in st :: c in Closing(st, s, x)[k].children <==> c in st[k].children || (c == x && Linked(k) in s.parents)
  {
    var s' := s.(id := Some(x));
    var st1 := LinkAll(st[x := s'], x, s.parents);
    CloseLinkFacts(st, x, s');
    var r := Closing(st, s, x);
    assert r == st1[x := st1[x].(preceding := Some([]))];
    assert forall k | k in st :: r[k] == st1[k];
  }

  /**
    Closing the local changeset `s` as `x`, once it is known and linked and
    its parents are ordered objects, keeps the document's invariants with
    `x` appended to the ordered list and made the only dependency.
  */
  lemma CloseKeepsState(st: States, s: CsState, x: Id, ordered: seq<Id>, deps: seq<Id>, root: Option<Id>, pending: seq<Id>)
    requires x !in st && x !in ordered && PendingState(pending, st, ordered)
    requires DocState(LinkAll(st[x := s.(id := Some(x))], x, s.parents), ordered, deps, root)
    requires forall d | d in s.parents :: d.Linked? && d.id in ordered
    ensures DocState(Closing(st, s, x), ordered + [x], [x], root)
    ensures PendingState(pending, Closing(st, s, x), ordered + [x])
  {
    var st' := st[x := s.(id := Some(x))];
    var st1 := LinkAll(st', x, s.parents);
    assert FullInfo(s.parents);
    LinkAllParents(st', x, s.parents);
    RelinkEachLinked(s.parents, s.parents, st'.Keys);
    CloseKeepsInvariant(st1, x, ordered, deps, root, Some([]));
    assert forall i | 0 <= i < |pending| :: pending[i] != x && pending[i] in st1;
  }

  /** `st'` differs from `st` at most in the unaccounted lists. */
  predicate PrecedingOnly(st: States, st': States)
  {
    st'.Keys == st.Keys && forall k | k in st :: st'[k] == st[k].(preceding := st'[k].preceding)
  }

  /** Changing only unaccounted lists keeps the document's invariants. */
  lemma PrecedingOnlyKeepsState(st: States, st': States, ordered: seq<Id>, deps: seq<Id>, root: Option<Id>)
    requires DocState(st, ordered, deps, root) && PrecedingOnly(st, st')
    ensures DocState(st', ordered, deps, root)
  {
    SameLinksKeepInvariant(st, st', ordered, deps, root);
  }

  /** Telling the changesets after `pos` about `x`, after `x`'s own list was set, changes only unaccounted lists. */
  lemma AddToLaterKeepsState(st0: States, st1: States, ordered: seq<Id>, deps: seq<Id>, root: Option<Id>, x: Id, pos: nat)
    requires DocState(st0, ordered, deps, root) && PrecedingOnly(st0, st1) && AllKnown(ordered, st1)
    ensures PrecedingOnly(st0, AddToLater(st1, ordered, x, pos, pos + 1).0)
    ensures DocState(AddToLater(st1, ordered, x, pos, pos + 1).0, ordered, deps, root)
  {
    var st2 := AddToLater(st1, ordered, x, pos, pos + 1).0;
    AddToLaterPrecedingOnly(st1, ordered, x, pos, pos + 1);
    assert PrecedingOnly(st0, st2);
    PrecedingOnlyKeepsState(st0, st2, ordered, deps, root);
  }

  /** A changeset newly known and not ordered can join the end of the pending list. */
  lemma PendingGrows(pending: seq<Id>, st: States, st': States, ordered: seq<Id>, x: Id)
    requires PendingState(pending, st, ordered) && x !in st && st'.Keys == st.Keys + {x} && x !in ordered
    ensures PendingState(pending + [x], st', ordered)
  {
    var p := pending + [x];
    forall i, j | 0 <= i < j < |p|
      ensures p[i] != p[j]
    {
      if j < |pending| {
        assert p[i] == pending[i] && p[j] == pending[j];
      } else {
        assert p[i] == pending[i] && pending[i] in st;
      }
    }
    assert forall i | 0 <= i < |p| :: p[i] in st' && p[i] !in ordered;
  }

  /** Two lists that agree on their first `n` entries agree on their first `m <= n`. */
  lemma PrefixAgree(a: seq<Id>, b: seq<Id>, n: nat, m: nat)
    requires m <= n <= |a| && n <= |b| && a[..n] == b[..n]
    ensures a[..m] == b[..m]
  {
    assert a[..m] == a[..n][..m];
    assert b[..m] == b[..n][..m];
  }

  /** The ids of a list with `x` spliced in at `k` are those of the list and `x`; the prefix before `k` stays. */
  lemma SpliceMembers(s: seq<Id>, k: nat, x: Id)
    requires k <= |s|
    ensures forall y :: y in s[..k] + [x] + s[k..] <==> y in s || y == x
    ensures forall m: nat | m <= k :: (s[..k] + [x] + s[k..])[..m] == s[..m]
  {
    var t := s[..k] + [x] + s[k..];
    SpliceAt(s, k, x);
    forall y
      ensures y in t <==> y in s || y == x
    {
      if y in s {
        var a :| 0 <= a < |s| && s[a] == y;
        if a < k { assert t[a] == y; } else { assert t[a + 1] == y; }
      }
      if y in t {
        var a :| 0 <= a < |t| && t[a] == y;
        if a < k { assert s[a] == y; } else if a > k { assert s[a - 1] == y; }
      }
    }
  }

  /** Taking the entry at `i` out of the pending list keeps it a pending list and drops exactly that id. */
  lemma PendingWithout(pending: seq<Id>, i: nat, st: States, ordered: seq<Id>, x: Id)
    requires PendingState(pending, st, ordered) && i < |pending| && pending[i] == x
    ensures forall y :: y in pending[..i] + pending[i + 1..] <==> y in pending && y != x
    ensures |pending[..i] + pending[i + 1..]| == |pending| - 1
  {
    var r := pending[..i] + pending[i + 1..];
    forall y
      ensures y in r <==> y in pending && y != x
    {
      if y in pending && y != x {
        var a :| 0 <= a < |pending| && pending[a] == y;
        if a < i { assert r[a] == y; } else { assert a != i && r[a - 1] == y; }
      }
      if y in r {
        var a :| 0 <= a < |r| && r[a] == y;
        if a < i { assert pending[a] == y && a != i; } else { assert pending[a + 1] == y && a + 1 != i; }
      }
    }
  }

  /** After `x` joins the ordered list and leaves the pending list, the pending list is still well formed. */
  lemma PendingAfterActivation(pending: seq<Id>, i: nat, st: States, st': States, ordered: seq<Id>, ordered': seq<Id>, x: Id)
    requires PendingState(pending, st, ordered) && i < |pending| && pending[i] == x
    requires st'.Keys == st.Keys
    requires forall y :: y in ordered' <==> y in ordered || y == x
    ensures PendingState(pending[..i] + pending[i + 1..], st', ordered')
  {
    var r := pending[..i] + pending[i + 1..];
    assert forall a | 0 <= a < |r| :: r[a] == (if a < i then pending[a] else pending[a + 1]);
    forall a, b | 0 <= a < b < |r|
      ensures r[a] != r[b]
    {
      var a' := if a < i then a else a + 1;
      var b' := if b < i then b else b + 1;
      assert a' < b' && r[a] == pending[a'] && r[b] == pending[b'];
    }
    forall a | 0 <= a < |r|
      ensures r[a] in st' && r[a] !in ordered'
    {
      var a' := if a < i then a else a + 1;
      assert r[a] == pending[a'] && a' != i;
    }
  }

  /** What `receive_changeset` (document.py:272-275) records as missing: the parents still given only by id. */
  function MissingAfter(missing: set<Id>, x: Id, ps: seq<Dep>): (r: set<Id>)
    ensures forall a :: a in r <==> (a in missing && a != x) || Raw(a) in ps
  {
    (missing - {x}) + set a | a in MissingIds(ps)
  }

  /**
    `Document` (document.py:29-606): the known changesets by id, the ordered
    list of ids, the missing ids, the send queue, the pending ids, the open
    local changeset, the snapshot, the root and the dependency heads. The
    document holds the state of each known changeset; the open local
    changeset is an object until it is closed.
  */
  class Document {
    const id: string
    const user: string
    var ordered: seq<Id>
    var known: States
    var missing: set<Id>
    var sendQueue: seq<Id>
    var pending: seq<Id>
    var openCs: Changeset?
    const snapshot: Snapshot
    var root: Option<Id>
    var dependencies: seq<Id>
    var hasEventLoop: bool

    /** Known changesets are stored under their own ids, their cached flags hold, and the ordering invariant holds. */
    predicate Consistent()
      reads this
    {
      DocState(known, ordered, dependencies, root)
    }

    /** The open changeset is not yet closed, has no children, and depends on ordered changesets. */
    predicate OpenOk()
      reads this, openCs
    {
      openCs != null ==>
        && openCs.id.None? && openCs.Valid() && openCs.children == []
        && forall d | d in openCs.parents :: d.Linked? && d.id in ordered
    }

    /** The pending changesets are known, not ordered, and listed once. */
    predicate PendingOk()
      reads this
    {
      PendingState(pending, known, ordered)
    }

    predicate Valid()
      reads this, openCs
    {
      Consistent() && OpenOk() && PendingOk()
    }

    /**
      `Document(id, user, snapshot)` (document.py:34-55). With an initial
      value, `set_initial_snapshot` (document.py:165-177) records it as a
      local `set` at the root path in a changeset with digest `rootDigest`,
      which becomes the root, the only ordered changeset and the only
      dependency, and is not queued for sending.
    */
    constructor (id: string, user: string, initial: Option<Value>, rootDigest: Id)
      ensures this.id == id && this.user == user && hasEventLoop
      ensures pending == [] && missing == {} && sendQueue == [] && openCs == null
      ensures initial.None? ==> ordered == [] && known == map[] && root == None && dependencies == []
      ensures initial.Some? ==> (ordered == [rootDigest] && root == Some(rootDigest) && dependencies == [rootDigest]
                                 && known.Keys == {rootDigest})
      ensures Valid()
    {
      this.id := id;
      this.user := user;
      ordered := [];
      known := map[];
      missing := {};
      sendQueue := [];
      pending := [];
      openCs := null;
      snapshot := new Snapshot();
      root := None;
      dependencies := [];
      hasEventLoop := true;
      new;
      if initial.Some? {
        SetInitialSnapshot(initial.value, rootDigest);
      }
    }

    /**
      `set_initial_snapshot` (document.py:165-177) on a new document: the
      value becomes a local `set` at the root path in a changeset closed
      with digest `rootDigest`, which becomes the root and the only ordered
      changeset and is not queued for sending.
    */
    method SetInitialSnapshot(v: Value, rootDigest: Id)
      requires Valid() && openCs == null && ordered == [] && known == map[] && dependencies == [] && root.None?
      modifies this`openCs, this`ordered, this`known, this`dependencies, this`sendQueue, this`root, snapshot
      ensures openCs == null && sendQueue == []
      ensures ordered == [rootDigest] && root == Some(rootDigest) && dependencies == [rootDigest]
      ensures known.Keys == {rootDigest} && known[rootDigest].parents == [] && |known[rootDigest].ops| == 1
      ensures Valid()
    {
      var op := new Ops.Op(Ops.PlainOp, "set", [], v, None);
      var _ := AddLocalOp(op);
      ghost var s := openCs.State();
      var cs := CloseChangeset(rootDigest);
      ClosingFacts(map[], s, rootDigest);
      assert DocState(known, ordered, dependencies, Some(rootDigest));
      // the ordered list is already [rootDigest]
      sendQueue, root := [], cs;
    }

    /**
      Links the known changeset `x` to its parents, entry by entry over a
      copy of the list: a known id is replaced by its object
      (`relink_parent`) and a known parent records `x` as a child
      (`add_child`). This is the loop of `add_to_known_changesets`
      (document.py:381-388), which walks the copy `get_parents` returns, so
      unlike `relink_changesets` it visits every entry.
    */
    method LinkParents(x: Id)
      requires x in known
      modifies this`known
      ensures known == LinkAll(old(known), x, old(known)[x].parents)
    {
      var ps := known[x].parents;
      for i := 0 to |ps|
        invariant x in known
        invariant LinkAll(known, x, ps[i..]) == LinkAll(old(known), x, ps)
      {
        LinkAllAt(known, x, ps, i);
        var d := ps[i];
        if d.id in known {
          if d.Raw? {
            known := known[x := known[x].(parents := Relinked(known[x].parents, d.id))];
          }
          known := known[d.id := ChildAdded(known[d.id], x)];
        }
      }
    }

    /**
      `add_to_known_changesets` (document.py:373-388) for the changeset
      object `cs`, whose content digest is `digest`: nothing when its id is
      already known, otherwise its state is stored under its id and linked
      to its parents.
    */
    method AddToKnownChangesets(cs: Changeset, digest: Id) returns (x: Id)
      requires Consistent() && cs.children == [] && (cs.fullInfo ==> FullInfo(cs.parents))
      requires forall d | d in cs.parents :: d.Linked? ==> d.id in known
      modifies this`known, cs
      ensures x == if old(cs.id).Some? then old(cs.id).value else digest
      ensures cs.State() == old(cs.State()).(id := Some(x))
      ensures x in old(known) ==> known == old(known)
      ensures x !in old(known) ==> known == LinkAll(old(known)[x := cs.State()], x, cs.parents)
      ensures Consistent()
    {
      x := cs.GetId(digest);
      if x in known {
        return;
      }
      assert x !in ordered by {
        assert forall i | 0 <= i < |ordered| :: ordered[i] in known;
      }
      AddKnownKeepsInvariant(known, x, cs.State(), ordered, dependencies, root);
      known := known[x := cs.State()];
      LinkKeepsInvariant(known, x, ordered, dependencies, root);
      LinkKeepsRecords(known, x);
      LinkParents(x);
    }

    /**
      `add_local_op` (document.py:208-220): a changeset depending on the
      current dependencies is opened if none is, the operation is added to
      it and then applied to the snapshot. Adding the same operation object
      twice raises before the snapshot is touched.
    */
    method AddLocalOp(op: Ops.Op) returns (r: Result<(), string>)
      requires Valid()
      modifies this`openCs, openCs, op, snapshot
      ensures openCs != null && Valid()
      ensures old(openCs) == null ==> (fresh(openCs) && openCs.dependencies == LinkedDeps(dependencies)
                                       && openCs.docId == id && openCs.user == user)
      ensures old(openCs) != null ==> openCs == old(openCs)
      ensures op in (if old(openCs) == null then [] else old(openCs.ops)) ==>
        r == Err(SameOpError) && snapshot.snapshot == old(snapshot.snapshot)
        && openCs.ops == (if old(openCs) == null then [] else old(openCs.ops))
      ensures op !in (if old(openCs) == null then [] else old(openCs.ops)) ==>
        && openCs.ops == (if old(openCs) == null then [] else old(openCs.ops)) + [op] && op.changeset == openCs
        && match ApplyOpSpec(old(snapshot.snapshot), old(EditOf(op)))
           case Err(_) => r.Err? && snapshot.snapshot == old(snapshot.snapshot)
           case Ok(Rejected) => r == Ok(()) && snapshot.snapshot == old(snapshot.snapshot)
           case Ok(Replaced(d)) => r == Ok(()) && snapshot.snapshot == d
    {
      if openCs == null {
        openCs := new Changeset(id, user, LinkedDeps(dependencies));
      }
      ghost var e := EditOf(op);
      var added := openCs.AddOp(op);
      if added.Err? {
        return Err(added.error);
      }
      assert EditOf(op) == e;
      var applied := snapshot.ApplyOp(EditOf(op));
      if applied.Err? {
        return Err(applied.error);
      }
      return Ok(());
    }

    /**
      `close_changeset` (document.py:222-253) with `digest` the content
      digest of the open changeset: nothing to do without one; otherwise it
      gets its id, joins the known changesets linked to its parents, is
      appended to the ordered list with nothing unaccounted, and becomes the
      only dependency and the last entry of the send queue.
    */
    method CloseChangeset(digest: Id) returns (r: Option<Id>)
      requires Valid() && (openCs != null ==> digest !in known)
      modifies this`ordered, this`openCs, this`known, this`dependencies, this`sendQueue, openCs
      ensures openCs == null && Valid()
      ensures old(openCs) == null ==> (r.None? && ordered == old(ordered) && known == old(known)
                                       && dependencies == old(dependencies) && sendQueue == old(sendQueue))
      ensures old(openCs) != null ==> (r == Some(digest) && ordered == old(ordered) + [digest] && dependencies == [digest]
                                       && sendQueue == old(sendQueue) + [digest]
                                       && known == Closing(old(known), old(openCs.State()), digest))
    {
      if openCs == null {
        return None;
      }
      var cs := openCs;
      assert forall d | d in cs.parents :: d.Linked? && d.id in known by {
        assert forall i | 0 <= i < |ordered| :: ordered[i] in known;
      }
      ghost var st0 := known;
      ghost var s := cs.State();
      var x := AddToKnownChangesets(cs, digest);
      assert x == digest && x !in st0;
      assert x !in ordered by {
        assert forall i | 0 <= i < |ordered| :: ordered[i] in st0;
      }
      Closed(x, st0, s);
      return Some(x);
    }

    /**
      The end of `close_changeset` (document.py:240-247) for the newly known
      `x`, stored from the local changeset `s`: it is ordered last with
      nothing unaccounted, is the only dependency and is queued for sending.
    */
    method Closed(x: Id, ghost st: States, ghost s: CsState)
      requires x !in st && x !in ordered && PendingState(pending, st, ordered)
      requires known == LinkAll(st[x := s.(id := Some(x))], x, s.parents) && Consistent()
      requires forall d | d in s.parents :: d.Linked? && d.id in ordered
      modifies this`ordered, this`openCs, this`known, this`dependencies, this`sendQueue
      ensures ordered == old(ordered) + [x] && openCs == null && dependencies == [x] && sendQueue == old(sendQueue) + [x]
      ensures known == Closing(st, s, x)
      ensures Consistent() && PendingOk()
    {
      CloseKeepsState(st, s, x, ordered, dependencies, root, pending);
      var k := known[x := known[x].(preceding := Some([]))];
      assert k == Closing(st, s, x);
      var o := ordered + [x];
      assert DocState(k, o, [x], root) && PendingState(pending, k, o);
      ordered, known, dependencies := o, k, [x];
      openCs := null;
      sendQueue := sendQueue + [x];
    }

    /**
      `has_needed_dependencies(cs)` (document.py:412-424) for the known
      changeset `x`: `relink_changesets` runs over its parents as written
      (`RelinkWalk`, which skips the entry after each relinked id), the
      full-information flag is cached, and `x` is ready when every parent is
      then an object of an ordered changeset.
    */
    method HasNeededDependencies(x: Id) returns (r: bool)
      requires Consistent() && x in known && x !in ordered
      modifies this`known
      ensures var w := RelinkWalk(old(known), x, 0);
        known == w[x := w[x].(fullInfo := w[x].fullInfo || FullInfo(w[x].parents))]
      ensures r == Ready(known, ordered, x)
      ensures known.Keys == old(known).Keys
      ensures forall k | k in known && k != x :: known[k].parents == old(known)[k].parents
      ensures forall k | k in known :: known[k].preceding == old(known)[k].preceding
      ensures Consistent()
    {
      RelinkWalkKeepsState(known, x, 0, ordered, dependencies, root);
      var i := 0;
      while i < |known[x].parents|
        invariant x in known && RelinkWalk(known, x, i) == RelinkWalk(old(known), x, 0)
        decreases |known[x].parents| - i
      {
        var d := known[x].parents[i];
        LinkStepParents(known, x, d);
        if d.id in known {
          if d.Raw? {
            known := known[x := known[x].(parents := Relinked(known[x].parents, d.id))];
          }
          known := known[d.id := ChildAdded(known[d.id], x)];
        }
        i := i + 1;
      }
      var s := known[x];
      var full := s.fullInfo || FullInfo(s.parents);
      FlagKeepsState(known, x, ordered, dependencies, root);
      known := known[x := s.(fullInfo := full)];
      if !full {
        return false;
      }
      r := AllOrdered(s.parents, ordered);
    }

    /**
      `insert_changeset_into_ordered_list` (document.py:486-496): `x` is
      spliced into the ordered list at its insertion point, or the
      IndexError of a changeset with no parent in the list propagates.
    */
    method InsertIntoOrdered(x: Id) returns (r: Result<nat, string>)
      requires Consistent() && x in known && x !in ordered
      requires forall d | d in known[x].parents :: d.Linked? && d.id in ordered
      modifies this`ordered
      ensures r == InsertionPoint(GraphOf(known), old(ordered), x, known[x].parents)
      ensures r.Err? ==> ordered == old(ordered)
      ensures r.Ok? ==> r.value <= |old(ordered)| && ordered == old(ordered)[..r.value] + [x] + old(ordered)[r.value..]
      ensures Consistent()
    {
      r := GetInsertionPoint(GraphOf(known), ordered, x, known[x].parents);
      if r.Err? {
        return;
      }
      var k := r.value;
      ParentsBefore(ordered, known[x].parents, k);
      InsertKeepsTopological(ordered, known, k, x);
      DistinctSplice(ordered, k, x);
      SpliceAt(ordered, k, x);
      ordered := ordered[..k] + [x] + ordered[k..];
      assert forall i | 0 <= i < |dependencies| :: dependencies[i] in ordered;
    }

    /**
      `update_unaccounted_changesets` (document.py:449-484) for `x` at `pos`
      of the ordered list: `x` gets the changesets it does not descend from
      as its unaccounted list, then every later changeset is told about
      `x`. Only unaccounted lists change.
    */
    method UpdateUnaccounted(x: Id, pos: nat) returns (r: Result<(), string>)
      requires Consistent() && pos < |ordered| && ordered[pos] == x
      modifies this`known
      ensures PrecedingOnly(old(known), known)
      ensures r.Err? ==> r.error in ActivationErrors
      ensures r.Ok? ==> known[x].preceding.Some?
      ensures r.Ok? ==> forall y | y in known[x].preceding.value :: HasAncestor(GraphOf(old(known)), x, y, RecursionLimit) == Ok(false)
      ensures r.Ok? ==> AllKnown(ordered, old(known)) && CompleteUnaccounted(old(known), ordered, x, pos, known[x].preceding.value)
      ensures r.Ok? ==> AddToLater(old(known)[x := known[x]], ordered, x, pos, pos + 1) == (known, None)
      ensures Consistent()
    {
      ghost var st0 := known;
      r := FindOwnUnaccounted(x, pos);
      if r.Err? {
        return;
      }
      ghost var st1 := known;
      ghost var l := known[x].preceding.value;
      assert CompleteUnaccounted(st0, ordered, x, pos, l);
      assert PrecedingOnly(st0, st1) && st0[x := st1[x]] == st1;
      r := AddToLaterChangesets(x, pos);
      assert known[x] == st1[x];
      assert known[x].preceding.value == l;
      AddToLaterKeepsState(st0, st1, ordered, dependencies, root, x, pos);
    }

    /** The first part of `update_unaccounted_changesets` (document.py:455-476): the unaccounted list of `x` is set. */
    method FindOwnUnaccounted(x: Id, pos: nat) returns (r: Result<(), string>)
      requires Consistent() && pos < |ordered| && ordered[pos] == x
      modifies this`known
      ensures r.Err? ==> known == old(known) && r.error in ActivationErrors
      ensures r.Ok? ==> exists l :: known == old(known)[x := old(known)[x].(preceding := Some(l))]
      ensures r.Ok? ==> known[x].preceding.Some?
      ensures r.Ok? ==> forall y | y in known[x].preceding.value :: HasAncestor(GraphOf(old(known)), x, y, RecursionLimit) == Ok(false)
      ensures r.Ok? ==> AllKnown(ordered, old(known)) && CompleteUnaccounted(old(known), ordered, x, pos, known[x].preceding.value)
    {
      assert AllKnown(ordered, known);
      var found := FindUnaccounted(known, ordered, x, pos);
      if found.Err? {
        return Err(found.error);
      }
      known := known[x := known[x].(preceding := Some(found.value))];
      return Ok(());
    }

    /**
      The second part of `update_unaccounted_changesets` (document.py:478-484):
      every changeset after `pos` is told about `x`, until one raises.
    */
    method AddToLaterChangesets(x: Id, pos: nat) returns (r: Result<(), string>)
      requires AllKnown(ordered, known) && pos < |ordered| && ordered[pos] == x && Distinct(ordered)
      modifies this`known
      ensures known == AddToLater(old(known), ordered, x, pos, pos + 1).0
      ensures r.Err? <==> AddToLater(old(known), ordered, x, pos, pos + 1).1.Some?
      ensures r.Err? ==> r.error == AddToLater(old(known), ordered, x, pos, pos + 1).1.value
      ensures known[x] == old(known)[x]
    {
      ghost var target := AddToLater(known, ordered, x, pos, pos + 1);
      ghost var st1 := known;
      var i := pos + 1;
      while i < |ordered|
        invariant pos + 1 <= i <= |ordered|
        invariant AllKnown(ordered, known) && x in known && known[x] == st1[x]
        invariant AddToLater(known, ordered, x, pos, i) == target
        decreases |ordered| - i
      {
        var y := ordered[i];
        var s := known[y];
        var parent := if |s.parents| == 1 && s.parents[0].Linked? && s.parents[0].id in known then Some(known[s.parents[0].id]) else None;
        var p := AddedToUnaccounted(s.parents, parent, s.preceding, y, x, pos, ordered);
        AddToLaterStep(known, ordered, x, pos, i);
        if p.Err? {
          return Err(p.error);
        }
        assert y != x;
        known := known[y := s.(preceding := p.value)];
        i := i + 1;
      }
      return Ok(());
    }

    /**
      `activate_changeset_in_document` (document.py:286-310) for a changeset
      that is ready: it is inserted into the ordered list, the unaccounted
      lists are updated, its parents leave the dependencies and it joins
      them. It returns where it was inserted.
    */
    method Activate(x: Id) returns (r: Result<nat, string>)
      requires Consistent() && x !in ordered && Ready(known, ordered, x)
      modifies this`ordered, this`dependencies, this`known
      ensures known.Keys == old(known).Keys
      ensures forall k | k in old(known) :: known[k] == old(known)[k].(preceding := known[k].preceding)
      ensures r.Err? ==> r.error in ActivationErrors && dependencies == old(dependencies)
      ensures r.Ok? ==> r.value <= |old(ordered)| && ordered == old(ordered)[..r.value] + [x] + old(ordered)[r.value..]
      ensures r.Ok? ==> forall y :: y in dependencies <==> y == x || (y in old(dependencies) && Linked(y) !in known[x].parents)
      ensures |ordered| >= |old(ordered)|
      ensures forall y | y in old(ordered) :: y in ordered
      ensures r.Ok? ==> x in ordered
      ensures Consistent()
    {
      var k := InsertIntoOrdered(x);
      if k.Err? {
        return Err(k.error);
      }
      var u := UpdateUnaccounted(x, k.value);
      if u.Err? {
        return Err(u.error);
      }
      assert x !in dependencies;
      BecomeHead(x);
      return k;
    }

    /** The end of `activate_changeset_in_document` (document.py:305-309): `x` replaces its parents among the dependency heads. */
    method BecomeHead(x: Id)
      requires Consistent() && x in known && x in ordered && x !in dependencies
      modifies this`dependencies
      ensures forall y :: y in dependencies <==> y == x || (y in old(dependencies) && Linked(y) !in known[x].parents)
      ensures Consistent()
    {
      ghost var deps0 := dependencies;
      DropParents(known[x].parents);
      ActivatedDeps(deps0, known[x].parents, x, ordered);
      HeadsKeepState(known, ordered, deps0, dependencies + [x], root);
      dependencies := dependencies + [x];
    }

    /**
      One entry of a pass of `pull_from_pending_list` (document.py:329-333):
      the pending changeset at `i` is activated and removed from the pending
      list when it has its dependencies. On success `k` is where it was
      inserted.
    */
    method TryPending(i: nat) returns (r: Result<bool, string>, k: nat)
      requires Consistent() && PendingOk() && i < |pending|
      modifies this`ordered, this`dependencies, this`known, this`pending
      ensures known.Keys == old(known).Keys
      ensures r.Err? ==> r.error in ActivationErrors
      ensures r.Ok? ==> Consistent() && PendingOk()
      ensures r == Ok(false) ==> pending == old(pending) && ordered == old(ordered) && !Ready(known, ordered, pending[i])
      ensures r == Ok(false) ==> forall j | 0 <= j < |pending| && j != i :: Ready(known, ordered, pending[j]) == Ready(old(known), ordered, pending[j])
      ensures r == Ok(true) ==> pending == old(pending)[..i] + old(pending)[i + 1..]
      ensures r == Ok(true) ==> k <= |old(ordered)| && ordered == old(ordered)[..k] + [old(pending)[i]] + old(ordered)[k..]
      ensures |ordered| >= |old(ordered)| && forall y | y in pending :: y in old(pending)
    {
      var x := pending[i];
      var ready := HasNeededDependencies(x);
      if !ready {
        assert forall j | 0 <= j < |pending| && j != i :: pending[j] != x;
        return Ok(false), 0;
      }
      ghost var st0 := known;
      ghost var ordered0 := ordered;
      var a := Activate(x);
      if a.Err? {
        return Err(a.error), 0;
      }
      SpliceMembers(ordered0, a.value, x);
      PendingAfterActivation(pending, i, st0, known, ordered0, ordered, x);
      PendingWithout(pending, i, st0, ordered0, x);
      pending := pending[..i] + pending[i + 1..];
      return Ok(true), a.value;
    }

    /**
      One pass of `pull_from_pending_list` (document.py:327-333) over the
      pending list. As with Python's iteration over a list that shrinks
      while it is walked, the entry after a removed one is skipped in this
      pass. It returns the lowest insertion index, if anything was
      activated.
    */
    method PendingPass() returns (r: Result<Option<nat>, string>)
      requires Consistent() && PendingOk()
      modifies this`ordered, this`dependencies, this`known, this`pending
      ensures known.Keys == old(known).Keys
      ensures r.Err? ==> r.error in ActivationErrors
      ensures r.Ok? ==> Consistent() && PendingOk()
      ensures forall y | y in pending :: y in old(pending)
      ensures |ordered| >= |old(ordered)|
      ensures r.Ok? ==> forall y :: y in ordered <==> y in old(ordered) || (y in old(pending) && y !in pending)
      ensures r == Ok(None) ==> pending == old(pending) && ordered == old(ordered)
      ensures r == Ok(None) ==> forall y | y in pending :: !Ready(known, ordered, y)
      ensures r.Ok? && r.value.Some? ==> |pending| < |old(pending)|
      ensures r.Ok? && r.value.Some? ==> r.value.value <= |old(ordered)| && ordered[..r.value.value] == old(ordered)[..r.value.value]
    {
      var low: Option<nat> := None;
      var i := 0;
      while i < |pending|
        invariant i <= |pending| + 1
        invariant Consistent() && PendingOk()
        invariant known.Keys == old(known).Keys
        invariant forall y | y in pending :: y in old(pending)
        invariant |ordered| >= |old(ordered)|
        invariant forall y :: y in ordered <==> y in old(ordered) || (y in old(pending) && y !in pending)
        invariant low.None? ==> i <= |pending| && pending == old(pending) && ordered == old(ordered)
        invariant low.None? ==> forall j | 0 <= j < i :: !Ready(known, ordered, pending[j])
        invariant low.Some? ==> |pending| < |old(pending)| && low.value <= |old(ordered)|
        invariant low.Some? ==> ordered[..low.value] == old(ordered)[..low.value]
        decreases |pending| + 1 - i
      {
        ghost var ordered0 := ordered;
        ghost var pending0 := pending;
        var t, k := TryPending(i);
        if t.Err? {
          return Err(t.error);
        }
        if t.value {
          SpliceMembers(ordered0, k, pending0[i]);
          PendingWithout(pending0, i, known, ordered0, pending0[i]);
          var m := if low.None? then k else if k < low.value then k else low.value;
          assert ordered[..m] == ordered0[..m];
          if low.Some? {
            PrefixAgree(ordered0, old(ordered), low.value, m);
          }
          low := Some(m);
        }
        i := i + 1;
      }
      return Ok(low);
    }

    /**
      The passes of `pull_from_pending_list` (document.py:324-333), repeated
      while the pending list shrinks. It returns the lowest insertion index
      over all passes, if anything was activated; afterwards no pending
      changeset has its dependencies.
    */
    method ActivatePending() returns (r: Result<Option<nat>, string>)
      requires Consistent() && PendingOk()
      modifies this`ordered, this`dependencies, this`known, this`pending
      ensures known.Keys == old(known).Keys
      ensures r.Err? ==> r.error in ActivationErrors
      ensures r.Ok? ==> Consistent() && PendingOk()
      ensures forall y | y in pending :: y in old(pending)
      ensures |ordered| >= |old(ordered)|
      ensures r.Ok? ==> forall y :: y in ordered <==> y in old(ordered) || (y in old(pending) && y !in pending)
      ensures r.Ok? ==> forall y | y in pending :: !Ready(known, ordered, y)
      ensures r == Ok(None) ==> pending == old(pending) && ordered == old(ordered)
      ensures r.Ok? && r.value.Some? ==> r.value.value <= |old(ordered)| && ordered[..r.value.value] == old(ordered)[..r.value.value]
      ensures r.Ok? && r.value.Some? ==> |pending| < |old(pending)|
    {
      var low: Option<nat> := None;
      var l: int := -1;
      while l != |pending|
        invariant l == -1 || |pending| <= l
        invariant Consistent() && PendingOk()
        invariant known.Keys == old(known).Keys
        invariant forall y | y in pending :: y in old(pending)
        invariant |ordered| >= |old(ordered)|
        invariant forall y :: y in ordered <==> y in old(ordered) || (y in old(pending) && y !in pending)
        invariant l == |pending| ==> forall y | y in pending :: !Ready(known, ordered, y)
        invariant low.None? ==> pending == old(pending) && ordered == old(ordered)
        invariant low.Some? ==> low.value <= |old(ordered)| && ordered[..low.value] == old(ordered)[..low.value]
        invariant |pending| <= |old(pending)| && (low.Some? ==> |pending| < |old(pending)|)
        decreases |pending| + (if l == |pending| then 0 else 1)
      {
        l := |pending|;
        ghost var ordered0 := ordered;
        var pass := PendingPass();
        if pass.Err? {
          return Err(pass.error);
        }
        if pass.value.Some? {
          var k := pass.value.value;
          var m := if low.None? then k else if k < low.value then k else low.value;
          PrefixAgree(ordered, ordered0, k, m);
          if low.Some? {
            PrefixAgree(ordered0, old(ordered), low.value, m);
          }
          low := Some(m);
        }
      }
      return Ok(low);
    }

    /**
      `pull_from_pending_list` (document.py:318-336), with `openDigest` the
      content digest of the open local changeset: that changeset is closed,
      then the pending changesets whose dependencies are all ordered are
      activated, pass after pass. `low` is the lowest insertion index, from
      which the source transforms the ordered changesets. When nothing was
      activated the result is False. Otherwise `ot` (document.py:390-401)
      calls `remove_old_hazards` on the now non-empty ordered list, and the
      changeset class has no such method: AttributeError, with the
      activations already made. Everything before `low` is as it was after
      closing.
    */
    method PullFromPendingList(openDigest: Id) returns (r: Result<bool, string>, low: Option<nat>)
      requires Valid() && (openCs != null ==> openDigest !in known)
      modifies this`ordered, this`openCs, this`known, this`dependencies, this`sendQueue, this`pending, openCs
      ensures r != Ok(true)
      ensures low.Some? <==> r == Err(NoRemoveOldHazards)
      ensures r.Err? && low.None? ==> r.error in ActivationErrors
      ensures old(known).Keys <= known.Keys
      ensures r.Ok? || low.Some? ==> Valid() && openCs == null
      ensures r.Ok? || low.Some? ==> forall y | y in pending :: y in old(pending) && !Ready(known, ordered, y)
      ensures r.Ok? || low.Some? ==>
        forall y :: y in ordered <==> (y in old(ordered) || (old(openCs) != null && y == openDigest)
                                       || (y in old(pending) && y !in pending))
      ensures r == Ok(false) ==> (pending == old(pending)
                                  && ordered == old(ordered) + (if old(openCs) != null then [openDigest] else []))
      ensures |ordered| >= |old(ordered)| + (if old(openCs) != null then 1 else 0)
      ensures low.Some? ==> low.value <= |old(ordered)| + (if old(openCs) != null then 1 else 0) && |pending| < |old(pending)|
      ensures low.Some? ==> ordered[..low.value] == (old(ordered) + (if old(openCs) != null then [openDigest] else []))[..low.value]
    {
      CloseForPull(openDigest);
      ghost var closed := ordered;
      assert forall y :: y in closed <==> y in old(ordered) || (old(openCs) != null && y == openDigest);
      r, low := PullPending();
      assert r.Ok? || low.Some? ==> forall y :: y in ordered <==> y in closed || (y in old(pending) && y !in pending);
    }

    /** `close_changeset` as `pull_from_pending_list` first calls it (document.py:320). */
    method CloseForPull(openDigest: Id)
      requires Valid() && (openCs != null ==> openDigest !in known)
      modifies this`ordered, this`openCs, this`known, this`dependencies, this`sendQueue, openCs
      ensures Valid() && openCs == null
      ensures ordered == old(ordered) + (if old(openCs) != null then [openDigest] else [])
      ensures old(known).Keys <= known.Keys
    {
      ghost var st0 := known;
      ghost var s: Option<CsState> := None;
      if openCs != null {
        s := Some(openCs.State());
        assert forall d | d in openCs.parents :: d.Linked? && d.id in known by {
          assert forall i | 0 <= i < |ordered| :: ordered[i] in known;
        }
      }
      var _ := CloseChangeset(openDigest);
      if s.Some? {
        ClosingFacts(st0, s.value, openDigest);
      }
    }

    /**
      The part of `pull_from_pending_list` (document.py:321-336) after the
      open changeset is closed: the activation passes, then False when
      nothing was activated and otherwise the AttributeError `ot` raises,
      with `low` the lowest insertion index.
    */
    method PullPending() returns (r: Result<bool, string>, low: Option<nat>)
      requires Valid() && openCs == null
      modifies this`ordered, this`dependencies, this`known, this`pending
      ensures r != Ok(true)
      ensures low.Some? <==> r == Err(NoRemoveOldHazards)
      ensures r.Err? && low.None? ==> r.error in ActivationErrors
      ensures known.Keys == old(known).Keys
      ensures r.Ok? || low.Some? ==> Valid()
      ensures r.Ok? || low.Some? ==> forall y | y in pending :: y in old(pending) && !Ready(known, ordered, y)
      ensures r.Ok? || low.Some? ==> forall y :: y in ordered <==> y in old(ordered) || (y in old(pending) && y !in pending)
      ensures r == Ok(false) ==> pending == old(pending) && ordered == old(ordered)
      ensures |ordered| >= |old(ordered)|
      ensures low.Some? ==> low.value <= |old(ordered)| && |pending| < |old(pending)|
      ensures low.Some? ==> ordered[..low.value] == old(ordered)[..low.value]
    {
      var a := ActivatePending();
      r := if a.Err? then Err(a.error) else if a.value.None? then Ok(false) else Err(NoRemoveOldHazards);
      low := if a.Ok? then a.value else None;
    }

    /**
      The bookkeeping of `receive_changeset` (document.py:268-275) for a
      changeset object whose content digest is `digest`: an already known
      id changes nothing; otherwise the changeset joins the known
      changesets (linked to its parents) and the pending list, its own id
      stops being missing and the parents still given by id become missing.
    */
    method Enqueue(cs: Changeset, digest: Id) returns (x: Id, isNew: bool)
      requires Valid() && cs != openCs && cs.children == [] && (cs.fullInfo ==> FullInfo(cs.parents))
      requires forall d | d in cs.parents :: d.Linked? ==> d.id in known
      modifies this`known, this`missing, this`pending, cs
      ensures x == if old(cs.id).Some? then old(cs.id).value else digest
      ensures isNew <==> x !in old(known)
      ensures !isNew ==> known == old(known) && pending == old(pending) && missing == old(missing)
      ensures isNew ==> && known == LinkAll(old(known)[x := old(cs.State()).(id := Some(x))], x, old(cs.parents))
                        && missing == MissingAfter(old(missing), x, known[x].parents)
                        && pending == old(pending) + [x]
      ensures Valid()
    {
      x := cs.GetId(digest);
      if x in known {
        return x, false;
      }
      ghost var st0 := known;
      x := AddToKnownChangesets(cs, digest);
      assert x !in ordered by {
        assert forall i | 0 <= i < |ordered| :: ordered[i] in st0;
      }
      PendingGrows(pending, st0, known, ordered, x);
      missing := MissingAfter(missing, x, known[x].parents);
      pending := pending + [x];
      return x, true;
    }

    /**
      `receive_changeset` (document.py:260-284): `Enqueue`, refusing a known
      id with False; then, with an event loop, True at once, and without one
      the result of pulling the pending list, with `openDigest` the digest
      of the open local changeset: False when nothing could be activated,
      and otherwise the AttributeError that pulling raises, so never True.
    */
    method ReceiveChangeset(cs: Changeset, digest: Id, openDigest: Id) returns (r: Result<bool, string>)
      requires Valid() && cs != openCs && cs.children == [] && (cs.fullInfo ==> FullInfo(cs.parents))
      requires forall d | d in cs.parents :: d.Linked? ==> d.id in known
      requires openCs != null ==> openDigest !in known && openDigest != (if cs.id.Some? then cs.id.value else digest)
      modifies this`known, this`missing, this`pending, this`ordered, this`openCs, this`dependencies, this`sendQueue
      modifies cs, openCs
      ensures var x := if old(cs.id).Some? then old(cs.id).value else digest;
        x in old(known) ==> r == Ok(false) && known == old(known) && pending == old(pending)
                            && missing == old(missing) && ordered == old(ordered)
      ensures var x := if old(cs.id).Some? then old(cs.id).value else digest;
        x !in old(known) ==> x in known && missing == MissingAfter(old(missing), x,
          LinkAll(old(known)[x := old(cs.State()).(id := Some(x))], x, old(cs.parents))[x].parents)
      ensures hasEventLoop ==> Valid() && forall y | y in old(pending) :: y in pending
      ensures var x := if old(cs.id).Some? then old(cs.id).value else digest;
        hasEventLoop && x !in old(known) ==> r == Ok(true) && pending == old(pending) + [x]
      ensures var x := if old(cs.id).Some? then old(cs.id).value else digest;
        !hasEventLoop && x !in old(known) ==> r != Ok(true) && (r == Ok(false) ==> x in pending)
      ensures var x := if old(cs.id).Some? then old(cs.id).value else digest;
        !hasEventLoop && x !in old(known) && (r.Ok? || r == Err(NoRemoveOldHazards)) ==>
          Valid() && (x in ordered || x in pending) && forall y | y in pending :: !Ready(known, ordered, y)
    {
      var x, isNew := Enqueue(cs, digest);
      if !isNew {
        return Ok(false);
      }
      if hasEventLoop {
        return Ok(true);
      }
      assert openCs != null ==> openDigest !in known;
      var pulled, low := PullFromPendingList(openDigest);
      return pulled;
    }

    /**
      `get_sync_status` (document.py:126-131) for the dependency ids a peer
      reports: the ones this document does not know, to request, and this
      document's dependency heads the peer does not list, to send.
    */
    function SyncStatus(remote: seq<Id>): (r: (seq<Id>, seq<Id>))
      reads this
      ensures forall y :: y in r.0 <==> y in remote && y !in known
      ensures forall y :: y in r.1 <==> y in dependencies && y !in remote
    {
      (UnknownIds(remote, known.Keys), NotListed(dependencies, remote))
    }

    /** The loop of `activate_changeset_in_document` (document.py:305-308): each parent object is taken out of the dependencies. */
    method DropParents(ps: seq<Dep>)
      modifies this`dependencies
      ensures dependencies == WithoutParents(old(dependencies), ps)
    {
      for j := 0 to |ps|
        invariant WithoutParents(dependencies, ps[j..]) == WithoutParents(old(dependencies), ps)
      {
        assert ps[j..] == [ps[j]] + ps[j + 1..];
        if ps[j].Linked? && ps[j].id in dependencies {
          dependencies := RemoveFirstId(dependencies, ps[j].id);
        }
      }
    }
  }
}
