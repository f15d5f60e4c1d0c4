/**
  A changeset of majormajor (majormajor/changeset.py): the operations one
  user made in one go, its parents and children in the changeset graph, and
  the list of earlier changesets it did not know about ("unaccounted").

  Parents are `Dep`s (an object, or only the id of a parent that has not
  arrived); children are kept by id. Anything that needs another changeset
  object receives the objects the document knows, by id. The id is the
  SHA-1 digest of the content; where the source computes it, the model
  takes the digest as a parameter.
*/
module Changesets {
  import opened Wrappers
  import opened Json
  import opened Ids
  import opened Ancestry
  import Ops

  /** What `Op.to_dict` sends (ops/op.py:95-100). */
  datatype OpDict = OpDict(action: string, path: Path, val: Value, offset: Option<int>)

  /** What `Changeset.to_dict` sends (changeset.py:312-321) and `build_changeset_from_dict` reads. */
  datatype CsDict = CsDict(docId: string, user: string, depIds: seq<Id>, ops: seq<OpDict>)

  /** The fields of a changeset object that its methods change. */
  datatype CsState = CsState(id: Option<Id>, ops: seq<Ops.Op>, parents: seq<Dep>, children: seq<Id>,
                             preceding: Option<seq<Id>>, fullInfo: bool)

  /**
    What every method keeps: children ascending by id without repeats, the
    cached `_has_full_dependency_info` flag only set while it is true, and
    no operation object twice.
  */
  predicate ValidState(s: CsState)
  {
    && StrictlySorted(s.children)
    && (s.fullInfo ==> FullInfo(s.parents))
    && forall i, j | 0 <= i < j < |s.ops| :: s.ops[i] != s.ops[j]
  }

  const ClosedError := "Exception: Can't add op. Changeset is already closed."
  const SameOpError := "Exception: Can't add same op object multiple times."
  const NotYetKnown := "Exception: Preceding Changesets not yet known"
  const NoChildren := "AttributeError: 'str' object has no attribute 'get_children'"

  /** The ids a parent list names, in order. */
  function DepIds(ps: seq<Dep>): (r: seq<Id>)
    ensures |r| == |ps| && forall i | 0 <= i < |ps| :: r[i] == ps[i].id
  {
    seq(|ps|, i requires 0 <= i < |ps| => ps[i].id)
  }

  /** `list.remove(d)`: the first entry equal to `d` taken out. */
  function RemoveFirst(ps: seq<Dep>, d: Dep): (r: seq<Dep>)
    ensures d in ps ==> |r| == |ps| - 1 && multiset(r) == multiset(ps) - multiset{d}
    ensures d !in ps ==> r == ps
  {
    if ps == [] then []
    else if ps[0] == d then assert ps == [ps[0]] + ps[1..]; ps[1..]
    else assert ps == [ps[0]] + ps[1..]; [ps[0]] + RemoveFirst(ps[1..], d)
  }

  lemma {:induction false} RemoveFirstAt(ps: seq<Dep>, d: Dep, i: nat)
    requires i < |ps| && ps[i] == d && d !in ps[..i]
    ensures RemoveFirst(ps, d) == ps[..i] + ps[i + 1..]
  {
    if i == 0 {
      assert ps[..0] + ps[1..] == ps[1..];
    } else {
      var t := ps[1..];
      PrefixTail(ps, d, i);
      RemoveFirstAt(t, d, i - 1);
      TailSlices(ps, i);
      assert ps[0] != d by { assert ps[0] == ps[..i][0]; }
      calc {
        RemoveFirst(ps, d);
        [ps[0]] + RemoveFirst(t, d);
        [ps[0]] + (ps[1..i] + ps[i + 1..]);
        ps[..i] + ps[i + 1..];
      }
    }
  }

  lemma TailSlices(ps: seq<Dep>, i: nat)
    requires 0 < i < |ps|
    ensures ps[1..][..i - 1] == ps[1..i] && ps[1..][i..] == ps[i + 1..]
    ensures ps[..i] == [ps[0]] + ps[1..i]
  {
  }

  lemma PrefixTail(ps: seq<Dep>, d: Dep, i: nat)
    requires 0 < i < |ps| && d !in ps[..i]
    ensures d !in ps[1..][..i - 1]
  {
    assert ps[1..][..i - 1] == ps[..i][1..];
  }

  lemma DepIdsConcat(a: seq<Dep>, b: seq<Dep>)
    ensures DepIds(a + b) == DepIds(a) + DepIds(b)
  {
    assert forall i | 0 <= i < |a + b| :: DepIds(a + b)[i] == (DepIds(a) + DepIds(b))[i];
  }

  /** The dependency ids of a parent list with one entry removed. */
  lemma RemoveFirstIds(ps: seq<Dep>, d: Dep)
    requires d in ps
    ensures multiset(DepIds(RemoveFirst(ps, d))) == multiset(DepIds(ps)) - multiset{d.id}
  {
    var i := FirstIndex(ps, d);
    RemoveFirstAt(ps, d, i);
    var ids := DepIds(ps);
    DepIdsConcat(ps[..i], ps[i + 1..]);
    DepIdsSlices(ps, i);
    MultisetWithout(ids, i);
  }

  /** The ids of the entries before and after position `i` are the ids before and after it. */
  lemma DepIdsSlices(ps: seq<Dep>, i: nat)
    requires i < |ps|
    ensures DepIds(ps[..i]) == DepIds(ps)[..i] && DepIds(ps[i + 1..]) == DepIds(ps)[i + 1..]
  {
    var ids := DepIds(ps);
    var a, b := DepIds(ps[..i]), DepIds(ps[i + 1..]);
    forall j | 0 <= j < i
      ensures a[j] == ids[..i][j]
    {
      assert ps[..i][j] == ps[j];
    }
    forall j | 0 <= j < |ps| - i - 1
      ensures b[j] == ids[i + 1..][j]
    {
      assert ps[i + 1..][j] == ps[i + 1 + j];
    }
  }

  lemma MultisetWithout(s: seq<Id>, i: nat)
    requires i < |s|
    ensures multiset(s[..i] + s[i + 1..]) == multiset(s) - multiset{s[i]}
  {
    assert s == s[..i] + [s[i]] + s[i + 1..];
  }

  /** The first position of `d` in `ps`. */
  lemma FirstIndex(ps: seq<Dep>, d: Dep) returns (i: nat)
    requires d in ps
    ensures i < |ps| && ps[i] == d && d !in ps[..i]
  {
    i := 0;
    while ps[i] != d
      invariant i < |ps| && d !in ps[..i] && d in ps[i..]
      decreases |ps| - i
    {
      assert ps[..i + 1] == ps[..i] + [ps[i]];
      assert ps[i..] == [ps[i]] + ps[i + 1..];
      i := i + 1;
    }
  }

  /** `relink_parent(cs)` (changeset.py:215-224): the first entry that is only `c` becomes the object, at the end. */
  function Relinked(ps: seq<Dep>, c: Id): seq<Dep>
  {
    if Raw(c) in ps then RemoveFirst(ps, Raw(c)) + [Linked(c)] else ps
  }

  /**
    Relinking keeps the number of parents and the ids they name (so
    `get_dependency_ids`, which the id is hashed over, does not change),
    keeps every parent object, and turns one id entry into an object.
  */
  lemma RelinkedKeepsParents(ps: seq<Dep>, c: Id)
    ensures |Relinked(ps, c)| == |ps|
    ensures Sort(DepIds(Relinked(ps, c))) == Sort(DepIds(ps))
    ensures forall a | Linked(a) in ps :: Linked(a) in Relinked(ps, c)
    ensures Raw(c) in ps ==> (Linked(c) in Relinked(ps, c)
                              && multiset(Relinked(ps, c))[Raw(c)] == multiset(ps)[Raw(c)] - 1)
  {
    var q := Relinked(ps, c);
    if Raw(c) in ps {
      var r := RemoveFirst(ps, Raw(c));
      assert q == r + [Linked(c)];
      assert multiset(q) == multiset(r) + multiset{Linked(c)};
      forall a | Linked(a) in ps
        ensures Linked(a) in q
      {
        assert Linked(a) in multiset(ps);
        assert Linked(a) in multiset(r);
        assert Linked(a) in multiset(q);
      }
    }
    RelinkedIds(ps, c);
    SortSameIds(DepIds(q), DepIds(ps));
  }

  lemma RelinkedIds(ps: seq<Dep>, c: Id)
    ensures multiset(DepIds(Relinked(ps, c))) == multiset(DepIds(ps))
  {
    if Raw(c) in ps {
      RemoveFirstIds(ps, Raw(c));
      var r := RemoveFirst(ps, Raw(c));
      DepIdsConcat(r, [Linked(c)]);
      var i := FirstIndex(ps, Raw(c));
      assert DepIds(ps)[i] == c;
    }
  }

  /**
    `relink_changesets` (changeset.py:204-212) AS WRITTEN: it walks the
    parent list by position while removing an entry and appending the
    object, so the entry after each relinked one is skipped. Returns the new
    parent list and, in order, the ids whose objects were told to add this
    changeset as a child.
  */
  function RelinkAsWritten(ps: seq<Dep>, known: set<Id>, i: nat): (r: (seq<Dep>, seq<Id>))
    decreases |ps| - i
  {
    if i >= |ps| then (ps, [])
    else
      var d := ps[i];
      var ps' := if d.Raw? && d.id in known then RemoveFirst(ps, d) + [Linked(d.id)] else ps;
      var rest := RelinkAsWritten(ps', known, i + 1);
      (rest.0, (if d.id in known then [d.id] else []) + rest.1)
  }

  /** One step of the as-written walk is one `relink_parent` on the entry at `i`. */
  lemma RelinkAsWrittenStep(ps: seq<Dep>, known: set<Id>, i: nat)
    requires i < |ps|
    ensures RelinkAsWritten(ps, known, i).0
         == RelinkAsWritten(if ps[i].Raw? && ps[i].id in known then Relinked(ps, ps[i].id) else ps, known, i + 1).0
  {
    if ps[i].Raw? && ps[i].id in known {
      assert Raw(ps[i].id) in ps;
    }
  }

  /**
    `relink_changesets` as intended: every parent entry of the list as it
    was at the start is visited once, and each one that is only a known id is
    relinked as `relink_parent` does.
  */
  function RelinkEach(ps: seq<Dep>, todo: seq<Dep>, known: set<Id>): seq<Dep>
    decreases |todo|
  {
    if todo == [] then ps
    else RelinkEach(if todo[0].Raw? && todo[0].id in known then Relinked(ps, todo[0].id) else ps, todo[1..], known)
  }

  /** The parents whose objects `relink_changesets` tells about this child: those with a known id, in order. */
  function KnownParentIds(ps: seq<Dep>, known: set<Id>): (r: seq<Id>)
    ensures forall a :: a in r <==> a in known && (Linked(a) in ps || Raw(a) in ps)
  {
    if ps == [] then []
    else
      var rest := KnownParentIds(ps[1..], known);
      assert forall d :: d in ps <==> d == ps[0] || d in ps[1..];
      if ps[0].id in known then [ps[0].id] + rest else rest
  }

  /** Visiting each entry once leaves no parent that is only a known id. */
  lemma {:induction false} RelinkEachLinksKnown(ps: seq<Dep>, todo: seq<Dep>, known: set<Id>)
    requires forall c | c in known :: multiset(ps)[Raw(c)] <= multiset(todo)[Raw(c)]
    ensures forall c | c in known :: Raw(c) !in RelinkEach(ps, todo, known)
    decreases |todo|
  {
    if todo != [] {
      assert todo == [todo[0]] + todo[1..];
      var ps' := if todo[0].Raw? && todo[0].id in known then Relinked(ps, todo[0].id) else ps;
      forall c | c in known
        ensures multiset(ps')[Raw(c)] <= multiset(todo[1..])[Raw(c)]
      {
        assert multiset(todo)[Raw(c)] == multiset(todo[1..])[Raw(c)] + (if todo[0] == Raw(c) then 1 else 0);
        if todo[0].Raw? && todo[0].id in known {
          var c0 := todo[0].id;
          if Raw(c0) in ps {
            assert multiset(ps') == multiset(ps) - multiset{Raw(c0)} + multiset{Linked(c0)};
          }
        }
      }
      RelinkEachLinksKnown(ps', todo[1..], known);
    }
  }

  /** Relinking every entry keeps the dependency ids and the parent objects. */
  lemma {:induction false} RelinkEachKeepsParents(ps: seq<Dep>, todo: seq<Dep>, known: set<Id>)
    ensures |RelinkEach(ps, todo, known)| == |ps|
    ensures Sort(DepIds(RelinkEach(ps, todo, known))) == Sort(DepIds(ps))
    ensures FullInfo(ps) ==> FullInfo(RelinkEach(ps, todo, known))
    decreases |todo|
  {
    if todo != [] {
      var ps' := if todo[0].Raw? && todo[0].id in known then Relinked(ps, todo[0].id) else ps;
      if todo[0].Raw? && todo[0].id in known {
        RelinkedKeepsParents(ps, todo[0].id);
      }
      RelinkEachKeepsParents(ps', todo[1..], known);
    }
  }

  /**
    Relinking every entry keeps the parent objects and the ids named, adds
    only objects for ids in `known`, and leaves only id entries that were
    there before.
  */
  lemma {:induction false} RelinkEachEntries(ps: seq<Dep>, todo: seq<Dep>, known: set<Id>)
    ensures forall a | Linked(a) in ps :: Linked(a) in RelinkEach(ps, todo, known)
    ensures forall a | Linked(a) in RelinkEach(ps, todo, known) :: Linked(a) in ps || a in known
    ensures forall a | Raw(a) in RelinkEach(ps, todo, known) :: Raw(a) in ps
    ensures multiset(DepIds(RelinkEach(ps, todo, known))) == multiset(DepIds(ps))
    decreases |todo|
  {
    if todo != [] {
      var c := todo[0].id;
      var ps' := if todo[0].Raw? && c in known then Relinked(ps, c) else ps;
      RelinkEachEntries(ps', todo[1..], known);
      if todo[0].Raw? && c in known {
        RelinkedKeepsParents(ps, c);
        RelinkedIds(ps, c);
        RelinkedEntries(ps, c);
      }
    }
  }

  /** One relinking adds only the object for `c` and removes entries only. */
  lemma RelinkedEntries(ps: seq<Dep>, c: Id)
    ensures forall e | e in Relinked(ps, c) :: e in ps || e == Linked(c)
  {
    if Raw(c) in ps {
      var r := RemoveFirst(ps, Raw(c));
      forall e | e in r ensures e in ps {
        assert e in multiset(r);
      }
      assert Relinked(ps, c) == r + [Linked(c)];
    }
  }

  /** An id that is not known is never relinked: its id entries all stay. */
  lemma {:induction false} RelinkEachKeepsUnknown(ps: seq<Dep>, todo: seq<Dep>, known: set<Id>, a: Id)
    requires a !in known
    ensures multiset(RelinkEach(ps, todo, known))[Raw(a)] == multiset(ps)[Raw(a)]
    decreases |todo|
  {
    if todo != [] {
      var c := todo[0].id;
      var ps' := if todo[0].Raw? && c in known then Relinked(ps, c) else ps;
      RelinkEachKeepsUnknown(ps', todo[1..], known, a);
      if todo[0].Raw? && c in known && Raw(c) in ps {
        var r := RemoveFirst(ps, Raw(c));
        assert ps' == r + [Linked(c)];
        assert multiset(ps') == multiset(r) + multiset{Linked(c)};
      }
    }
  }

  /** The relinked list once a known entry is visited: as `RelinkEach`'s first step. */
  lemma RelinkEachStep(ps: seq<Dep>, todo: seq<Dep>, k: nat, known: set<Id>)
    requires k < |todo|
    ensures RelinkEach(ps, todo[k..], known)
         == RelinkEach(if todo[k].Raw? && todo[k].id in known then Relinked(ps, todo[k].id) else ps, todo[k + 1..], known)
  {
    assert todo[k..][0] == todo[k] && todo[k..][1..] == todo[k + 1..];
  }

  /**
    The defect: with two parents that are both only known ids, the walk
    relinks the first, then meets the appended object instead of the second,
    so the second stays an id and full dependency information is not reached;
    the intended walk links both.
  */
  lemma RelinkAsWrittenSkips()
    ensures RelinkAsWritten([Raw("a"), Raw("b")], {"a", "b"}, 0) == ([Raw("b"), Linked("a")], ["a", "a"])
    ensures !FullInfo(RelinkAsWritten([Raw("a"), Raw("b")], {"a", "b"}, 0).0)
    ensures RelinkEach([Raw("a"), Raw("b")], [Raw("a"), Raw("b")], {"a", "b"}) == [Linked("a"), Linked("b")]
  {
    var ps := [Raw("a"), Raw("b")];
    var known: set<Id> := {"a", "b"};
    var ps1 := [Raw("b"), Linked("a")];
    assert RemoveFirst(ps, Raw("a")) == [Raw("b")];
    assert RemoveFirst(ps, Raw("a")) + [Linked("a")] == ps1;
    var r2 := RelinkAsWritten(ps1, known, 2);
    assert r2 == (ps1, []);
    var r1 := RelinkAsWritten(ps1, known, 1);
    assert r1 == (r2.0, ["a"] + r2.1) by { assert ps1[1] == Linked("a"); }
    assert RelinkAsWritten(ps, known, 0) == (r1.0, ["a"] + r1.1) by { assert ps[0] == Raw("a"); }
    assert ["a"] + (["a"] + r2.1) == ["a", "a"];
    assert !FullInfo(ps1) by { assert ps1[0].Raw?; }
    assert RemoveFirst(ps1, Raw("b")) == [Linked("a")];
    assert Relinked(ps, "a") == ps1;
    assert Relinked(ps1, "b") == [Linked("a"), Linked("b")];
    assert RelinkEach([Linked("a"), Linked("b")], [], known) == [Linked("a"), Linked("b")];
    assert [Raw("a"), Raw("b")][1..] == [Raw("b")];
    assert [Raw("b")][1..] == [];
  }

  /**
    `add_to_unaccounted_changesets(cs, index, ordered)` (changeset.py:242-277)
    of the changeset `me`, whose parents are `parents` and whose list is `pre`;
    `parent` is the state of its first parent's object when that parent is
    one. Returns the new list.
  */
  function AddedToUnaccounted(parents: seq<Dep>, parent: Option<CsState>, pre: Option<seq<Id>>, me: Id,
                              cs: Id, index: nat, ordered: seq<Id>): Result<Option<seq<Id>>, string>
  {
    if |parents| == 1 && parents[0].Raw? then Err(NoChildren)
    else if |parents| == 1 && parent.Some? && |parent.value.children| == 1 then
      if parent.value.preceding.None? then Err(NotYetKnown) else Ok(parent.value.preceding)
    else if pre.None? || pre.value == [] then Ok(Some([cs]))
    else Ok(Some(PlaceInOrder(pre.value, me, cs, index, ordered)))
  }

  /**
    The loop of `add_to_unaccounted_changesets`: from `index` on in the
    ordered list, `cs` goes last when the list reaches `me` first, or before
    the first changeset met that is in `pre`; otherwise `pre` is unchanged.
  */
  function PlaceInOrder(pre: seq<Id>, me: Id, cs: Id, i: nat, ordered: seq<Id>): (r: seq<Id>)
    decreases |ordered| - i
  {
    if i >= |ordered| then pre
    else if ordered[i] == me then pre + [cs]
    else if ordered[i] in pre then
      var k := IndexOf(pre, ordered[i]);
      pre[..k] + [cs] + pre[k..]
    else PlaceInOrder(pre, me, cs, i + 1, ordered)
  }

  /** `list.index(x)`: the first position of `x`. */
  function IndexOf(s: seq<Id>, x: Id): (k: nat)
    requires x in s
    ensures k < |s| && s[k] == x && x !in s[..k]
  {
    if s[0] == x then 0 else assert s[1..][..IndexOf(s[1..], x)] == s[1..1 + IndexOf(s[1..], x)]; 1 + IndexOf(s[1..], x)
  }

  /** `xs` lists changesets in the order they have in `ordered`. */
  predicate InOrder(xs: seq<Id>, ordered: seq<Id>)
  {
    && (forall x | x in xs :: x in ordered)
    && forall i, j | 0 <= i < j < |xs| :: IndexOf(ordered, xs[i]) < IndexOf(ordered, xs[j])
  }

  /**
    The unaccounted list is "kept in ascending order" (changeset.py:233-237):
    when it lists changesets in document order, all before `me`, and `cs` has
    just been inserted at `index`, before `me`, then placing `cs` keeps the
    list in document order.
  */
  lemma PlaceInOrderKeepsOrder(pre: seq<Id>, me: Id, cs: Id, index: nat, ordered: seq<Id>)
    requires forall i, j | 0 <= i < j < |ordered| :: ordered[i] != ordered[j]
    requires index < |ordered| && ordered[index] == cs && cs !in pre
    requires me in ordered && index < IndexOf(ordered, me)
    requires InOrder(pre, ordered) && forall x | x in pre :: IndexOf(ordered, x) < IndexOf(ordered, me)
    ensures InOrder(PlaceInOrder(pre, me, cs, index, ordered), ordered)
  {
    PlaceFrom(pre, me, cs, index, index, ordered);
  }

  lemma {:induction false} PlaceFrom(pre: seq<Id>, me: Id, cs: Id, index: nat, i: nat, ordered: seq<Id>)
    requires forall a, b | 0 <= a < b < |ordered| :: ordered[a] != ordered[b]
    requires index < |ordered| && ordered[index] == cs && cs !in pre
    requires me in ordered && index <= i <= IndexOf(ordered, me)
    requires InOrder(pre, ordered) && forall x | x in pre :: IndexOf(ordered, x) < IndexOf(ordered, me)
    requires forall x | x in pre :: IndexOf(ordered, x) < index || IndexOf(ordered, x) >= i
    ensures InOrder(PlaceInOrder(pre, me, cs, i, ordered), ordered)
    decreases |ordered| - i
  {
    DistinctIndex(ordered, index);
    DistinctIndex(ordered, i);
    if ordered[i] == me {
      PlaceLast(pre, cs, ordered);
    } else if ordered[i] in pre {
      var k := IndexOf(pre, ordered[i]);
      forall a | 0 <= a < k
        ensures IndexOf(ordered, pre[a]) < IndexOf(ordered, cs)
      {
        assert IndexOf(ordered, pre[a]) < IndexOf(ordered, pre[k]);
      }
      PlaceBefore(pre, k, cs, ordered);
    } else {
      PlaceFrom(pre, me, cs, index, i + 1, ordered);
    }
  }

  /** Appending a changeset that comes after everything listed keeps the order. */
  lemma PlaceLast(pre: seq<Id>, cs: Id, ordered: seq<Id>)
    requires cs in ordered && InOrder(pre, ordered)
    requires forall x | x in pre :: IndexOf(ordered, x) < IndexOf(ordered, cs)
    ensures InOrder(pre + [cs], ordered)
  {
    var r := pre + [cs];
    forall a, b | 0 <= a < b < |r|
      ensures IndexOf(ordered, r[a]) < IndexOf(ordered, r[b])
    {
      assert r[a] == pre[a];
    }
  }

  /** Inserting a changeset just before the first listed one that comes after it keeps the order. */
  lemma PlaceBefore(pre: seq<Id>, k: nat, cs: Id, ordered: seq<Id>)
    requires cs in ordered && InOrder(pre, ordered) && k < |pre|
    requires forall a | 0 <= a < k :: IndexOf(ordered, pre[a]) < IndexOf(ordered, cs)
    requires IndexOf(ordered, cs) < IndexOf(ordered, pre[k])
    ensures InOrder(pre[..k] + [cs] + pre[k..], ordered)
  {
    var r := pre[..k] + [cs] + pre[k..];
    SpliceAt(pre, k, cs);
    PlaceInto(pre, k, cs, ordered, r);
  }

  /** Where the elements of `s` sit once `x` is spliced in at `k`. */
  lemma SpliceAt(s: seq<Id>, k: nat, x: Id)
    requires k <= |s|
    ensures |s[..k] + [x] + s[k..]| == |s| + 1 && (s[..k] + [x] + s[k..])[k] == x
    ensures forall a | 0 <= a < k :: (s[..k] + [x] + s[k..])[a] == s[a]
    ensures forall a | k < a <= |s| :: (s[..k] + [x] + s[k..])[a] == s[a - 1]
  {
  }

  lemma PlaceInto(pre: seq<Id>, k: nat, cs: Id, ordered: seq<Id>, r: seq<Id>)
    requires cs in ordered && InOrder(pre, ordered) && k < |pre|
    requires forall a | 0 <= a < k :: IndexOf(ordered, pre[a]) < IndexOf(ordered, cs)
    requires IndexOf(ordered, cs) < IndexOf(ordered, pre[k])
    requires |r| == |pre| + 1 && r[k] == cs
    requires forall a | 0 <= a < k :: r[a] == pre[a]
    requires forall a | k < a < |r| :: r[a] == pre[a - 1]
    ensures InOrder(r, ordered)
  {
    forall x | x in r
      ensures x in ordered
    {
      var a :| 0 <= a < |r| && r[a] == x;
      if a < k { assert x == pre[a]; } else if a > k { assert x == pre[a - 1]; }
    }
    forall a, b | 0 <= a < b < |r|
      ensures IndexOf(ordered, r[a]) < IndexOf(ordered, r[b])
    {
      PlacePair(pre, k, cs, ordered, r, a, b);
    }
  }

  lemma PlacePair(pre: seq<Id>, k: nat, cs: Id, ordered: seq<Id>, r: seq<Id>, a: nat, b: nat)
    requires cs in ordered && InOrder(pre, ordered) && k < |pre|
    requires forall a | 0 <= a < k :: IndexOf(ordered, pre[a]) < IndexOf(ordered, cs)
    requires IndexOf(ordered, cs) < IndexOf(ordered, pre[k])
    requires |r| == |pre| + 1 && r[k] == cs
    requires forall a | 0 <= a < k :: r[a] == pre[a]
    requires forall a | k < a < |r| :: r[a] == pre[a - 1]
    requires a < b < |r|
    ensures r[a] in ordered && r[b] in ordered
    ensures IndexOf(ordered, r[a]) < IndexOf(ordered, r[b])
  {
    var x, y := r[a], r[b];
    if b < k {
      assert x == pre[a] && y == pre[b];
      assert IndexOf(ordered, x) < IndexOf(ordered, y);
    } else if b == k {
      assert x == pre[a] && y == cs;
      assert IndexOf(ordered, x) < IndexOf(ordered, y);
    } else if a < k {
      assert x == pre[a] && y == pre[b - 1];
      assert IndexOf(ordered, x) < IndexOf(ordered, y);
    } else if a == k {
      assert x == cs && y == pre[b - 1];
      if b - 1 > k {
        assert IndexOf(ordered, pre[k]) < IndexOf(ordered, y);
      }
      assert IndexOf(ordered, x) < IndexOf(ordered, y);
    } else {
      assert x == pre[a - 1] && y == pre[b - 1];
      assert IndexOf(ordered, x) < IndexOf(ordered, y);
    }
  }

  /** In a list without repeats, the first position of an element is its position. */
  lemma DistinctIndex(s: seq<Id>, i: nat)
    requires i < |s| && forall a, b | 0 <= a < b < |s| :: s[a] != s[b]
    ensures IndexOf(s, s[i]) == i
  {
  }

  /** `to_dict` of each operation, in order. */
  function OpDicts(ops: seq<Ops.Op>): (r: seq<OpDict>)
    reads set i | 0 <= i < |ops| :: ops[i]
    ensures |r| == |ops|
  {
    if ops == [] then []
    else [OpDict(ops[0].action, ops[0].path, ops[0].val, ops[0].offset)] + OpDicts(ops[1..])
  }

  class Changeset {
    const docId: string
    const user: string
    /** The dependencies as given to the constructor. */
    const dependencies: seq<Dep>
    var id: Option<Id>
    var ops: seq<Ops.Op>
    var parents: seq<Dep>
    var children: seq<Id>
    var preceding: Option<seq<Id>>
    var fullInfo: bool

    function State(): CsState
      reads this
    {
      CsState(id, ops, parents, children, preceding, fullInfo)
    }

    predicate Valid()
      reads this
    {
      ValidState(State())
    }

    /** `Changeset(doc_id, user, dependencies)` (changeset.py:23-35), without the random cache flags. */
    constructor (docId: string, user: string, dependencies: seq<Dep>)
      ensures this.docId == docId && this.user == user && this.dependencies == dependencies
      ensures State() == CsState(None, [], dependencies, [], None, false)
      ensures Valid()
    {
      this.docId := docId;
      this.user := user;
      this.dependencies := dependencies;
      id := None;
      ops := [];
      parents := dependencies;
      children := [];
      preceding := None;
      fullInfo := false;
    }

    /** `to_dict` (changeset.py:312-321): what is sent to peers, dependency ids sorted. */
    function ToDict(): (d: CsDict)
      reads this, set i | 0 <= i < |ops| :: ops[i]
    {
      CsDict(docId, user, Sort(DepIds(parents)), OpDicts(ops))
    }

    /**
      `add_child(cs)` (changeset.py:46-57) for the child with id `c`: the
      children sorted by id after appending `c` if it is not there yet.
    */
    method AddChild(c: Id)
      requires Valid()
      modifies this
      ensures children == Sort(old(children) + (if c in old(children) then [] else [c]))
      ensures StrictlySorted(children) && forall x :: x in children <==> x in old(children) || x == c
      ensures State() == old(State()).(children := children)
      ensures Valid()
    {
      SortSorted(old(children) + [c]);
      if c in children {
        StrictlySortedIsSorted(children);
        SortOfSorted(children);
        assert children + [] == children;
      } else {
        InsertStrictlySorted(c, children);
        StrictlySortedIsSorted(children);
        InsertSorted(c, children);
        SortedUnique(Insert(c, children), Sort(children + [c]));
        children := Insert(c, children);
        forall x ensures x in children <==> x in old(children) || x == c {
          assert x in children <==> x in multiset(children);
        }
      }
    }

    /**
      `has_full_dependency_info` (changeset.py:135-146): the cached answer, or
      whether every parent is an object, which is then cached.
    */
    method HasFullDependencyInfo() returns (r: bool)
      requires Valid()
      modifies this
      ensures r == FullInfo(parents)
      ensures fullInfo == r && old(fullInfo) ==> r
      ensures State() == old(State()).(fullInfo := r)
      ensures Valid()
    {
      if fullInfo {
        return true;
      }
      for i := 0 to |parents|
        invariant forall j | 0 <= j < i :: parents[j].Linked?
      {
        if !parents[i].Linked? {
          return false;
        }
      }
      fullInfo := true;
      return true;
    }

    /** `get_dependency_ids` (changeset.py:148-156): the parents' ids, sorted. */
    method GetDependencyIds() returns (r: seq<Id>)
      ensures r == Sort(DepIds(parents))
      ensures Sorted(r) && multiset(r) == multiset(DepIds(parents))
    {
      var ids: seq<Id> := [];
      for i := 0 to |parents|
        invariant ids == DepIds(parents[..i])
      {
        assert DepIds(parents[..i + 1]) == DepIds(parents[..i]) + [parents[i].id] by {
          DepIdsAppend(parents[..i], parents[i]);
          assert parents[..i + 1] == parents[..i] + [parents[i]];
        }
        ids := ids + [parents[i].id];
      }
      assert parents[..|parents|] == parents;
      r := Sort(ids);
      SortSorted(ids);
    }

    /** `set_id` (changeset.py:173-179). */
    method SetId(x: Id)
      modifies this
      ensures State() == old(State()).(id := Some(x))
    {
      id := Some(x);
    }

    /** `get_id` (changeset.py:323-334): the stored id, or the digest of the content, which is then stored. */
    method GetId(digest: Id) returns (r: Id)
      modifies this
      ensures r == (if old(id).Some? then old(id).value else digest)
      ensures State() == old(State()).(id := Some(r))
    {
      if id.None? {
        id := Some(digest);
      }
      r := id.value;
    }

    /**
      `add_op` (changeset.py:181-193): refused once the changeset has a
      (non-empty) id, and for an operation object already in it; otherwise
      the operation is linked to this changeset and appended.
    */
    method AddOp(op: Ops.Op) returns (r: Result<bool, string>)
      requires Valid()
      modifies this, op
      ensures old(id).Some? && old(id).value != "" ==> r == Err(ClosedError) && unchanged(this, op)
      ensures (old(id).None? || old(id).value == "") && op in old(ops) ==> r == Err(SameOpError) && unchanged(this, op)
      ensures (old(id).None? || old(id).value == "") && op !in old(ops) ==>
        && r == Ok(true) && State() == old(State()).(ops := old(ops) + [op])
        && op.changeset == this && op.Fields() == old(op.Fields()) && op.hazards == old(op.hazards)
        && op.action == old(op.action) && op.val == old(op.val) && op.offset == old(op.offset) && op.tAction == old(op.tAction)
      ensures Valid()
    {
      if id.Some? && id.value != "" {
        return Err(ClosedError);
      }
      if op in ops {
        return Err(SameOpError);
      }
      op.SetChangeset(this);
      ops := ops + [op];
      return Ok(true);
    }

    /** `relink_parent(cs)` (changeset.py:215-224) for the parent object with id `c`. */
    method RelinkParent(c: Id)
      requires Valid()
      modifies this
      ensures parents == Relinked(old(parents), c)
      ensures State() == old(State()).(parents := parents)
      ensures Valid()
    {
      var i := 0;
      while i < |parents| && parents[i] != Raw(c)
        invariant 0 <= i <= |parents| && Raw(c) !in parents[..i]
      {
        assert parents[..i + 1] == parents[..i] + [parents[i]];
        i := i + 1;
      }
      if i < |parents| {
        RemoveFirstAt(parents, Raw(c), i);
        parents := parents[..i] + parents[i + 1..] + [Linked(c)];
      } else {
        assert parents[..i] == parents;
      }
    }

    /**
      The parent half of `relink_changesets` (changeset.py:204-212) as
      written: the loop indexes the live parent list, and each entry found
      at the current position that is only the id of a changeset in
      `known` is removed and its object appended (what `relink_parent`
      does), so the entry that moves into its place is not visited. The
      number of parents and the ids they name, which the changeset's id is
      computed from, stay.
    */
    method RelinkParents(known: set<Id>)
      requires Valid()
      modifies this
      ensures parents == RelinkAsWritten(old(parents), known, 0).0
      ensures |parents| == |old(parents)|
      ensures Sort(DepIds(parents)) == Sort(DepIds(old(parents)))
      ensures State() == old(State()).(parents := parents)
      ensures Valid()
    {
      var i := 0;
      while i < |parents|
        invariant RelinkAsWritten(parents, known, i).0 == RelinkAsWritten(old(parents), known, 0).0
        invariant |parents| == |old(parents)| && Sort(DepIds(parents)) == Sort(DepIds(old(parents)))
        invariant State() == old(State()).(parents := parents) && Valid()
        decreases |parents| - i
      {
        RelinkStep(known, i, old(parents));
        i := i + 1;
      }
    }

    /** One pass of the loop in `relink_changesets` at position `i`. */
    method RelinkStep(known: set<Id>, i: nat, ghost start: seq<Dep>)
      requires Valid() && i < |parents|
      requires RelinkAsWritten(parents, known, i).0 == RelinkAsWritten(start, known, 0).0
      requires |parents| == |start| && Sort(DepIds(parents)) == Sort(DepIds(start))
      modifies this
      ensures RelinkAsWritten(parents, known, i + 1).0 == RelinkAsWritten(start, known, 0).0
      ensures |parents| == |start| && Sort(DepIds(parents)) == Sort(DepIds(start))
      ensures State() == old(State()).(parents := parents) && Valid()
    {
      var d := parents[i];
      RelinkedKeepsParents(parents, d.id);
      RelinkAsWrittenStep(parents, known, i);
      if d.Raw? && d.id in known {
        RelinkParent(d.id);
      }
    }

    /** `set_unaccounted_changesets` (changeset.py:226-231). */
    method SetUnaccounted(css: seq<Id>)
      modifies this
      ensures State() == old(State()).(preceding := Some(css))
    {
      preceding := Some(css);
    }

    /** `get_unaccounted_changesets` (changeset.py:233-240): an exception before the list is set. */
    method GetUnaccounted() returns (r: Result<seq<Id>, string>)
      ensures preceding.None? ==> r == Err(NotYetKnown)
      ensures preceding.Some? ==> r == Ok(preceding.value)
    {
      if preceding.None? {
        return Err(NotYetKnown);
      }
      return Ok(preceding.value);
    }

    /**
      `add_to_unaccounted_changesets(cs, index, ordered)` (changeset.py:242-277)
      of this changeset, whose id is `me`, with the objects of the document by
      id; a parent object is one of them.
    */
    method AddToUnaccounted(me: Id, cs: Id, index: nat, ordered: seq<Id>, known: map<Id, Changeset>)
      returns (r: Result<(), string>)
      requires Valid()
      requires |parents| == 1 && parents[0].Linked? ==> parents[0].id in known
      modifies this
      ensures var parent := if |old(parents)| == 1 && old(parents)[0].Linked? then Some(old(known[parents[0].id].State())) else None;
        match AddedToUnaccounted(old(parents), parent, old(preceding), me, cs, index, ordered)
        case Err(e) => r == Err(e) && unchanged(this)
        case Ok(p) => r == Ok(()) && State() == old(State()).(preceding := p)
      ensures Valid()
    {
      if |parents| == 1 {
        if parents[0].Raw? {
          return Err(NoChildren);
        }
        var parent := known[parents[0].id];
        if |parent.children| == 1 {
          if parent.preceding.None? {
            return Err(NotYetKnown);
          }
          preceding := parent.preceding;
          return Ok(());
        }
      }
      if preceding.None? || preceding.value == [] {
        preceding := Some([cs]);
        return Ok(());
      }
      var pre := preceding.value;
      var i := index;
      while i < |ordered|
        invariant index <= i
        invariant PlaceInOrder(pre, me, cs, index, ordered) == PlaceInOrder(pre, me, cs, i, ordered)
        decreases |ordered| - i
      {
        if ordered[i] == me {
          preceding := Some(pre + [cs]);
          return Ok(());
        }
        if ordered[i] in pre {
          var k := IndexOf(pre, ordered[i]);
          preceding := Some(pre[..k] + [cs] + pre[k..]);
          return Ok(());
        }
        i := i + 1;
      }
      return Ok(());
    }

    /**
      `ot` (changeset.py:279-295). Every operation is reset first. The loop
      then calls `op.ot(pc, hazards)`, but `Op.ot` takes the past changeset
      only (ops/op.py:109), so the call raises TypeError as soon as there is a
      preceding changeset and an operation; without preceding changesets the
      result is the empty hazard list. Before the list is set, iterating over
      None raises TypeError.
    */
    method Ot() returns (r: Result<seq<Ops.OpHazard>, string>)
      requires Valid()
      modifies set i | 0 <= i < |ops| :: ops[i]
      ensures forall i | 0 <= i < |ops| :: ops[i].Untransformed()
      ensures forall i | 0 <= i < |ops| :: ops[i].path == old(ops[i].path) && ops[i].hazards == old(ops[i].hazards)
                                          && ops[i].changeset == old(ops[i].changeset)
      ensures preceding.None? ==> r.Err?
      ensures preceding.Some? ==> (r.Err? <==> |preceding.value| > 0 && |ops| > 0)
      ensures r.Ok? ==> r.value == []
    {
      for i := 0 to |ops|
        invariant forall j | 0 <= j < i :: ops[j].Untransformed()
        invariant forall j | 0 <= j < |ops| :: ops[j].path == old(ops[j].path) && ops[j].hazards == old(ops[j].hazards)
                                              && ops[j].changeset == old(ops[j].changeset)
      {
        ops[i].ResetTransformations();
      }
      if preceding.None? {
        return Err("TypeError: 'NoneType' object is not iterable");
      }
      if |preceding.value| > 0 && |ops| > 0 {
        return Err("TypeError: ot() takes exactly 2 arguments (3 given)");
      }
      return Ok([]);
    }
  }

  lemma DepIdsAppend(ps: seq<Dep>, d: Dep)
    ensures DepIds(ps + [d]) == DepIds(ps) + [d.id]
  {
  }
}
