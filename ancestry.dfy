/**
  Ancestry in the changeset graph (majormajor/changeset.py:101-146).

  A changeset's parent list holds either the parent object or, while that
  parent has not arrived, only its id string. The model writes both as
  `Dep`s carrying the id, and evaluates the recursive `has_ancestor` and
  `get_ancestors` over a `Graph`: the parent lists of the changeset objects
  that exist, keyed by id. The recursion is bounded by `fuel`, standing for
  Python's recursion limit; running out is the `RuntimeError` Python raises.
*/
module Ancestry {
  import opened Wrappers
  import opened Ids

  /** One entry of a parent list: the parent changeset object, or only its id. */
  datatype Dep = Linked(id: Id) | Raw(id: Id)

  /** The parent list of every changeset object, by id. */
  type Graph = map<Id, seq<Dep>>

  /** Python's default recursion limit. */
  const RecursionLimit: nat := 1000

  const RecursionError := "RuntimeError: maximum recursion depth exceeded"
  const UnknownChangeset := "unknown changeset"
  const NoFullInfo := "Exception: Cannot get ancestor list without full dependency info."
  const NotAChangeset := "AttributeError: 'str' object has no attribute 'has_ancestor'"

  /** `has_full_dependency_info` (changeset.py:135-146): every parent is an object, none only an id. */
  predicate FullInfo(ps: seq<Dep>)
  {
    forall i | 0 <= i < |ps| :: ps[i].Linked?
  }

  /** The ids of the parent objects in `ps`. */
  function LinkedIds(ps: seq<Dep>): (r: set<Id>)
    ensures forall a :: a in r <==> Linked(a) in ps
  {
    set d | d in ps && d.Linked? :: d.id
  }

  /**
    `has_ancestor(a)` of the changeset `x` (changeset.py:125-133): true at
    once when `a` is a parent object, otherwise asked of each parent in
    turn. A parent known only by its id has no such method.
  */
  function HasAncestor(g: Graph, x: Id, a: Id, fuel: nat): (r: Result<bool, string>)
    ensures r.Ok? ==> x in g
    ensures r.Err? ==> r.error in {UnknownChangeset, NotAChangeset, RecursionError}
    decreases fuel, 1, 0
  {
    if x !in g then Err(UnknownChangeset)
    else if Linked(a) in g[x] then Ok(true)
    else AnyHasAncestor(g, g[x], a, fuel)
  }

  /** The loop of `has_ancestor` over the parents `ps`: the first one that answers true, or the first error. */
  function AnyHasAncestor(g: Graph, ps: seq<Dep>, a: Id, fuel: nat): (r: Result<bool, string>)
    ensures r.Err? ==> r.error in {UnknownChangeset, NotAChangeset, RecursionError}
    decreases fuel, 0, |ps|
  {
    if ps == [] then Ok(false)
    else if ps[0].Raw? then Err(NotAChangeset)
    else if fuel == 0 then Err(RecursionError)
    else match HasAncestor(g, ps[0].id, a, fuel - 1)
      case Err(e) => Err(e)
      case Ok(b) => if b then Ok(true) else AnyHasAncestor(g, ps[1..], a, fuel)
  }

  /**
    `get_ancestors` of the changeset `x` (changeset.py:101-123), without the
    cache: its parents together with the ancestors of each parent, and an
    exception when some parent is only an id.
  */
  function GetAncestors(g: Graph, x: Id, fuel: nat): Result<set<Id>, string>
    decreases fuel, 1, 0
  {
    if x !in g then Err(UnknownChangeset)
    else if !FullInfo(g[x]) then Err(NoFullInfo)
    else match UnionAncestors(g, g[x], fuel)
      case Err(e) => Err(e)
      case Ok(s) => Ok(LinkedIds(g[x]) + s)
  }

  /** The loop of `get_ancestors`: the union of the ancestors of each parent in `ps`. */
  function UnionAncestors(g: Graph, ps: seq<Dep>, fuel: nat): Result<set<Id>, string>
    decreases fuel, 0, |ps|
  {
    if ps == [] then Ok({})
    else if fuel == 0 then Err(RecursionError)
    else match GetAncestors(g, ps[0].id, fuel - 1)
      case Err(e) => Err(e)
      case Ok(s) => match UnionAncestors(g, ps[1..], fuel)
        case Err(e) => Err(e)
        case Ok(t) => Ok(s + t)
  }

  /** `c` is a chain of changesets, each one a parent object of the one before it. */
  predicate IsChain(g: Graph, c: seq<Id>)
  {
    && |c| >= 2
    && forall i | 0 <= i < |c| - 1 :: c[i] in g && Linked(c[i + 1]) in g[c[i]]
  }

  /** `a` is reached from `x` by following parent objects one or more times. */
  ghost predicate Reachable(g: Graph, x: Id, a: Id)
  {
    exists c :: IsChain(g, c) && c[0] == x && c[|c| - 1] == a
  }

  /**
    Whenever `get_ancestors` returns a set, `has_ancestor` answers exactly
    membership in that set; the ancestor cache, which stores that set, is
    therefore invisible in the answers.
  */
  lemma {:induction false} HasAncestorMatchesGetAncestors(g: Graph, x: Id, a: Id, fuel: nat)
    requires GetAncestors(g, x, fuel).Ok?
    ensures HasAncestor(g, x, a, fuel) == Ok(a in GetAncestors(g, x, fuel).value)
    decreases fuel, 1, 0
  {
    AnyMatchesUnion(g, g[x], a, fuel);
  }

  lemma {:induction false} AnyMatchesUnion(g: Graph, ps: seq<Dep>, a: Id, fuel: nat)
    requires FullInfo(ps) && UnionAncestors(g, ps, fuel).Ok?
    ensures AnyHasAncestor(g, ps, a, fuel) == Ok(a in UnionAncestors(g, ps, fuel).value)
    decreases fuel, 0, |ps|
  {
    if ps != [] {
      var p := ps[0].id;
      HasAncestorMatchesGetAncestors(g, p, a, fuel - 1);
      assert FullInfo(ps[1..]) by {
        forall i | 0 <= i < |ps[1..]| ensures ps[1..][i].Linked? { assert ps[1..][i] == ps[i + 1]; }
      }
      AnyMatchesUnion(g, ps[1..], a, fuel);
    }
  }

  /** A `true` from `has_ancestor` is backed by a chain of parent objects. */
  lemma {:induction false} HasAncestorSound(g: Graph, x: Id, a: Id, fuel: nat)
    requires HasAncestor(g, x, a, fuel) == Ok(true)
    ensures Reachable(g, x, a)
    decreases fuel, 1, 0
  {
    if Linked(a) in g[x] {
      assert IsChain(g, [x, a]);
    } else {
      var p := AnySound(g, g[x], a, fuel);
      assert HasAncestor(g, p, a, fuel - 1) == Ok(true);
      HasAncestorSound(g, p, a, fuel - 1);
      var c :| IsChain(g, c) && c[0] == p && c[|c| - 1] == a;
      var c' := [x] + c;
      assert IsChain(g, c') by {
        forall i | 0 <= i < |c'| - 1
          ensures c'[i] in g && Linked(c'[i + 1]) in g[c'[i]]
        {
          if i > 0 { assert c'[i] == c[i - 1] && c'[i + 1] == c[i]; }
        }
      }
    }
  }

  /** The parent through which the loop of `has_ancestor` answered true. */
  lemma {:induction false} AnySound(g: Graph, ps: seq<Dep>, a: Id, fuel: nat) returns (p: Id)
    requires AnyHasAncestor(g, ps, a, fuel) == Ok(true)
    ensures fuel > 0 && Linked(p) in ps && HasAncestor(g, p, a, fuel - 1) == Ok(true)
    decreases |ps|
  {
    if HasAncestor(g, ps[0].id, a, fuel - 1) == Ok(true) {
      p := ps[0].id;
      assert ps[0] == Linked(p);
    } else {
      p := AnySound(g, ps[1..], a, fuel);
      assert Linked(p) in ps[1..];
    }
  }

  /** A `false` from `has_ancestor` means no chain of parent objects leads there. */
  lemma {:induction false} HasAncestorComplete(g: Graph, x: Id, a: Id, fuel: nat, c: seq<Id>)
    requires HasAncestor(g, x, a, fuel) == Ok(false)
    requires IsChain(g, c) && c[0] == x
    ensures c[|c| - 1] != a
    decreases |c|
  {
    assert c[0] in g && Linked(c[1]) in g[c[0]];
    if |c| > 2 {
      AnyAllFalse(g, g[x], a, fuel, c[1]);
      var c' := c[1..];
      assert IsChain(g, c') by {
        forall i | 0 <= i < |c'| - 1
          ensures c'[i] in g && Linked(c'[i + 1]) in g[c'[i]]
        {
          assert c'[i] == c[i + 1] && c'[i + 1] == c[i + 2];
        }
      }
      HasAncestorComplete(g, c[1], a, fuel - 1, c');
    }
  }

  /** When the loop of `has_ancestor` answers false, every parent object answered false. */
  lemma {:induction false} AnyAllFalse(g: Graph, ps: seq<Dep>, a: Id, fuel: nat, p: Id)
    requires AnyHasAncestor(g, ps, a, fuel) == Ok(false) && Linked(p) in ps
    ensures fuel > 0 && HasAncestor(g, p, a, fuel - 1) == Ok(false)
    decreases |ps|
  {
    if ps[0] != Linked(p) {
      assert Linked(p) in ps[1..] by {
        var i :| 0 <= i < |ps| && ps[i] == Linked(p);
        assert ps[1..][i - 1] == Linked(p);
      }
      AnyAllFalse(g, ps[1..], a, fuel, p);
    }
  }

  /** `has_ancestor` answers true exactly for the changesets reachable through parent objects. */
  lemma HasAncestorIffReachable(g: Graph, x: Id, a: Id, fuel: nat)
    requires HasAncestor(g, x, a, fuel).Ok?
    ensures HasAncestor(g, x, a, fuel).value <==> Reachable(g, x, a)
  {
    if HasAncestor(g, x, a, fuel).value {
      HasAncestorSound(g, x, a, fuel);
    } else {
      forall c | IsChain(g, c) && c[0] == x
        ensures c[|c| - 1] != a
      {
        HasAncestorComplete(g, x, a, fuel, c);
      }
    }
  }

  /** `get_ancestors` returns exactly the changesets reachable through parent objects. */
  lemma GetAncestorsIsReachableSet(g: Graph, x: Id, a: Id, fuel: nat)
    requires GetAncestors(g, x, fuel).Ok?
    ensures a in GetAncestors(g, x, fuel).value <==> Reachable(g, x, a)
  {
    HasAncestorMatchesGetAncestors(g, x, a, fuel);
    HasAncestorIffReachable(g, x, a, fuel);
  }

  /** Without full dependency info `get_ancestors` raises. */
  lemma GetAncestorsNeedsFullInfo(g: Graph, x: Id, fuel: nat)
    requires x in g && !FullInfo(g[x])
    ensures GetAncestors(g, x, fuel) == Err(NoFullInfo)
  {
  }
}
