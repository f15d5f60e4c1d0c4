/**
  Changeset ids and the order Python 2 sorts them in. An id is the hex
  SHA-1 digest of a changeset's content; the model treats it as an opaque
  string, and two changesets with the same id as the same changeset.
*/
module Ids {

  type Id = string

  /** Python 2 `<` on byte strings: lexicographic, a proper prefix first. */
  predicate Less(a: Id, b: Id)
  {
    if |b| == 0 then false
    else if |a| == 0 then true
    else if a[0] != b[0] then a[0] < b[0]
    else Less(a[1..], b[1..])
  }

  lemma {:induction false} LessIrreflexive(a: Id)
    ensures !Less(a, a)
  {
    if |a| > 0 {
      LessIrreflexive(a[1..]);
    }
  }

  lemma {:induction false} LessTransitive(a: Id, b: Id, c: Id)
    requires Less(a, b) && Less(b, c)
    ensures Less(a, c)
  {
    if |a| > 0 && a[0] == b[0] && b[0] == c[0] {
      LessTransitive(a[1..], b[1..], c[1..]);
    }
  }

  /** Any two different ids are ordered one way or the other, and only one way. */
  lemma {:induction false} LessTotal(a: Id, b: Id)
    ensures a == b || Less(a, b) || Less(b, a)
    ensures !(Less(a, b) && Less(b, a))
  {
    if |a| > 0 && |b| > 0 && a[0] == b[0] {
      LessTotal(a[1..], b[1..]);
      if a[1..] == b[1..] {
        assert a == [a[0]] + a[1..] && b == [b[0]] + b[1..];
      }
    }
  }

  /** Ascending, equal neighbours allowed: what `list.sort()` leaves. */
  predicate Sorted(s: seq<Id>)
  {
    forall i, j | 0 <= i < j < |s| :: !Less(s[j], s[i])
  }

  /** Ascending without repeats. */
  predicate StrictlySorted(s: seq<Id>)
  {
    forall i, j | 0 <= i < j < |s| :: Less(s[i], s[j])
  }

  /** `x` placed before the first element of `s` that is larger than it. */
  function Insert(x: Id, s: seq<Id>): (r: seq<Id>)
    ensures multiset(r) == multiset(s) + multiset{x} && |r| == |s| + 1
  {
    if s == [] || Less(x, s[0]) then [x] + s
    else assert s == [s[0]] + s[1..]; [s[0]] + Insert(x, s[1..])
  }

  lemma {:induction false} InsertSorted(x: Id, s: seq<Id>)
    requires Sorted(s)
    ensures Sorted(Insert(x, s))
  {
    var r := Insert(x, s);
    if s == [] || Less(x, s[0]) {
      forall j | 0 < j < |r|
        ensures !Less(r[j], x)
      {
        assert r[j] == s[j - 1];
        LessTotal(s[0], s[j - 1]);
        LessTotal(x, s[j - 1]);
        if Less(s[j - 1], x) {
          if s[0] == s[j - 1] {
            LessTotal(x, s[0]);
          } else {
            LessTransitive(s[0], s[j - 1], x);
            LessTotal(x, s[0]);
          }
        }
      }
    } else {
      assert s == [s[0]] + s[1..];
      assert Sorted(s[1..]);
      InsertSorted(x, s[1..]);
      var t := Insert(x, s[1..]);
      assert r == [s[0]] + t;
      forall j | 0 <= j < |t|
        ensures !Less(t[j], s[0])
      {
        assert t[j] in multiset(t);
        assert t[j] in multiset(s[1..]) || t[j] == x;
        if t[j] == x {
        } else {
          var k :| 0 <= k < |s[1..]| && s[1..][k] == t[j];
          assert s[k + 1] == t[j];
        }
      }
    }
  }

  /** `list.sort()` on ids: insertion sort. */
  function Sort(s: seq<Id>): (r: seq<Id>)
    ensures multiset(r) == multiset(s) && |r| == |s|
  {
    if s == [] then [] else assert s == [s[0]] + s[1..]; Insert(s[0], Sort(s[1..]))
  }

  lemma {:induction false} SortSorted(s: seq<Id>)
    ensures Sorted(Sort(s))
  {
    if s != [] {
      SortSorted(s[1..]);
      InsertSorted(s[0], Sort(s[1..]));
    }
  }

  /** Two ascending arrangements of the same ids start with the same id. */
  lemma SortedSameHead(a: seq<Id>, b: seq<Id>)
    requires Sorted(a) && Sorted(b) && multiset(a) == multiset(b) && a != []
    ensures b != [] && a[0] == b[0]
  {
    assert |b| == |a| by { assert |multiset(a)| == |multiset(b)|; }
    assert b[0] in multiset(a) && a[0] in multiset(b) by {
      assert a[0] in multiset(a) && b[0] in multiset(b);
    }
    var i :| 0 <= i < |a| && a[i] == b[0];
    var j :| 0 <= j < |b| && b[j] == a[0];
    assert !Less(b[0], a[0]) by { LessIrreflexive(a[0]); }
    assert !Less(a[0], b[0]) by { LessIrreflexive(b[0]); }
    LessTotal(a[0], b[0]);
  }

  /** Dropping the same head from both leaves the same ids. */
  lemma SameTails(a: seq<Id>, b: seq<Id>)
    requires multiset(a) == multiset(b) && a != [] && b != [] && a[0] == b[0]
    ensures multiset(a[1..]) == multiset(b[1..])
  {
    assert a == [a[0]] + a[1..] && b == [b[0]] + b[1..];
    assert multiset(a) == multiset{a[0]} + multiset(a[1..]);
    assert multiset(b) == multiset{b[0]} + multiset(b[1..]);
    assert multiset(a[1..]) == multiset(a) - multiset{a[0]};
    assert multiset(b[1..]) == multiset(b) - multiset{b[0]};
  }

  /** Two ascending arrangements of the same ids are the same list: sorting has one answer. */
  lemma {:induction false} SortedUnique(a: seq<Id>, b: seq<Id>)
    requires Sorted(a) && Sorted(b) && multiset(a) == multiset(b)
    ensures a == b
  {
    if a != [] {
      SortedSameHead(a, b);
      SameTails(a, b);
      SortedUnique(a[1..], b[1..]);
      assert a == [a[0]] + a[1..] && b == [b[0]] + b[1..];
    } else {
      assert |multiset(b)| == 0;
    }
  }

  /** A list already in ascending order is left as it is by sorting. */
  lemma SortOfSorted(s: seq<Id>)
    requires Sorted(s)
    ensures Sort(s) == s
  {
    SortSorted(s);
    SortedUnique(Sort(s), s);
  }

  /** Ascending with no id twice is strictly ascending. */
  lemma StrictlySortedOfSorted(s: seq<Id>)
    requires Sorted(s) && forall i, j | 0 <= i < j < |s| :: s[i] != s[j]
    ensures StrictlySorted(s)
  {
    forall i, j | 0 <= i < j < |s|
      ensures Less(s[i], s[j])
    {
      LessTotal(s[i], s[j]);
    }
  }

  /** Strictly ascending is ascending. */
  lemma StrictlySortedIsSorted(s: seq<Id>)
    requires StrictlySorted(s)
    ensures Sorted(s)
  {
    forall i, j | 0 <= i < j < |s|
      ensures !Less(s[j], s[i])
    {
      LessTotal(s[i], s[j]);
    }
  }

  /** Lists with the same ids sort to the same list. */
  lemma SortSameIds(a: seq<Id>, b: seq<Id>)
    requires multiset(a) == multiset(b)
    ensures Sort(a) == Sort(b)
  {
    SortSorted(a);
    SortSorted(b);
    SortedUnique(Sort(a), Sort(b));
  }

  /** Placing a new id into a strictly ascending list it is not in keeps the list strictly ascending. */
  lemma {:induction false} InsertStrictlySorted(x: Id, s: seq<Id>)
    requires StrictlySorted(s) && x !in s
    ensures StrictlySorted(Insert(x, s))
  {
    var r := Insert(x, s);
    if s == [] || Less(x, s[0]) {
      assert r == [x] + s;
      forall i, j | 0 <= i < j < |r|
        ensures Less(r[i], r[j])
      {
        if i == 0 {
          assert r[j] == s[j - 1];
          if j > 1 { LessTransitive(x, s[0], s[j - 1]); }
        } else {
          assert r[i] == s[i - 1] && r[j] == s[j - 1];
        }
      }
    } else {
      LessTotal(x, s[0]);
      assert s == [s[0]] + s[1..];
      assert StrictlySorted(s[1..]);
      InsertStrictlySorted(x, s[1..]);
      var t := Insert(x, s[1..]);
      assert r == [s[0]] + t;
      forall j | 0 <= j < |t|
        ensures Less(s[0], t[j])
      {
        assert t[j] in multiset(t);
        if t[j] != x {
          assert t[j] in multiset(s[1..]);
          var k :| 0 <= k < |s[1..]| && s[1..][k] == t[j];
          assert s[k + 1] == t[j];
        }
      }
      forall i, j | 0 <= i < j < |r|
        ensures Less(r[i], r[j])
      {
        if i == 0 {
          assert r[j] == t[j - 1];
        } else {
          assert r[i] == t[i - 1] && r[j] == t[j - 1];
        }
      }
    }
  }
}
