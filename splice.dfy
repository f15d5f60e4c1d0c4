/**
  The slice-and-splice edits that the string and list handlers perform:
  `cur[:k] + t + cur[k:]` and `cur[:k] + cur[k + n:]`, with Python's
  slicing, over any element type (characters of a string or items of a
  list).
*/
module Splice {
  import opened Json

  /** `s[:k] + t + s[k:]`: `t` inserted at offset `k`. */
  function Insert<T>(s: seq<T>, k: int, t: seq<T>): seq<T> {
    Take(s, k) + t + Drop(s, k)
  }

  /** `s[:k] + s[k + n:]`: `n` elements removed from offset `k`. */
  function Delete<T>(s: seq<T>, k: int, n: int): seq<T> {
    Take(s, k) + Drop(s, k + n)
  }

  /** Inside the sequence an insertion keeps the prefix, then `t`, then the shifted suffix. */
  lemma InsertAt<T>(s: seq<T>, k: int, t: seq<T>)
    requires 0 <= k <= |s|
    ensures |Insert(s, k, t)| == |s| + |t|
    ensures Insert(s, k, t)[..k] == s[..k]
    ensures Insert(s, k, t)[k..k + |t|] == t
    ensures Insert(s, k, t)[k + |t|..] == s[k..]
    ensures forall i {:trigger Insert(s, k, t)[i]} :: 0 <= i < |s| + |t| ==>
              Insert(s, k, t)[i] == if i < k then s[i] else if i < k + |t| then t[i - k] else s[i - |t|]
  {
  }

  /** Inside the sequence a deletion keeps the prefix and closes the gap. */
  lemma DeleteAt<T>(s: seq<T>, k: int, n: int)
    requires 0 <= k && 0 <= n && k + n <= |s|
    ensures |Delete(s, k, n)| == |s| - n
    ensures Delete(s, k, n)[..k] == s[..k]
    ensures Delete(s, k, n)[k..] == s[k + n..]
    ensures forall i {:trigger Delete(s, k, n)[i]} :: 0 <= i < |s| - n ==>
              Delete(s, k, n)[i] == if i < k then s[i] else s[i + n]
  {
  }

  /** Deleting an insertion right away gives back the original sequence. */
  lemma DeleteUndoesInsert<T>(s: seq<T>, k: int, t: seq<T>)
    requires 0 <= k <= |s|
    ensures Delete(Insert(s, k, t), k, |t|) == s
  {
    InsertAt(s, k, t);
    DeleteAt(Insert(s, k, t), k, |t|);
    var r := Delete(Insert(s, k, t), k, |t|);
    assert forall i | 0 <= i < |s| :: r[i] == s[i];
  }

  /** Inside the sequence an insertion is plain slicing. */
  lemma InsertSlices<T>(s: seq<T>, k: int, t: seq<T>)
    requires 0 <= k <= |s|
    ensures Insert(s, k, t) == s[..k] + t + s[k..]
  {
  }

  /** Inside the sequence a deletion is plain slicing. */
  lemma DeleteSlices<T>(s: seq<T>, k: int, n: int)
    requires 0 <= k && 0 <= n && k + n <= |s|
    ensures Delete(s, k, n) == s[..k] + s[k + n..]
  {
  }

  /** Two insertions, the later one at or after the earlier one, commute once the later offset is shifted. */
  lemma {:induction false} InsertsCommute<T>(s: seq<T>, a: int, u: seq<T>, b: int, t: seq<T>)
    requires 0 <= a <= b <= |s|
    ensures Insert(Insert(s, a, u), b + |u|, t) == Insert(Insert(s, b, t), a, u)
  {
    var x := s[..a] + u + s[a..];
    InsertSlices(s, a, u);
    InsertSlices(x, b + |u|, t);
    assert x[..b + |u|] == s[..a] + u + s[a..b];
    assert x[b + |u|..] == s[b..];
    var y := s[..b] + t + s[b..];
    InsertSlices(s, b, t);
    InsertSlices(y, a, u);
    assert y[..a] == s[..a];
    assert y[a..] == s[a..b] + t + s[b..];
  }

  /** An insertion at or before a deletion commutes with it once the deletion is pushed right. */
  lemma {:induction false} InsertBeforeDelete<T>(s: seq<T>, a: int, t: seq<T>, b: int, m: int)
    requires 0 <= a <= b && 0 <= m && b + m <= |s|
    ensures Insert(Delete(s, b, m), a, t) == Delete(Insert(s, a, t), b + |t|, m)
  {
    var x := s[..b] + s[b + m..];
    DeleteSlices(s, b, m);
    InsertSlices(x, a, t);
    assert x[..a] == s[..a];
    assert x[a..] == s[a..b] + s[b + m..];
    var y := s[..a] + t + s[a..];
    InsertSlices(s, a, t);
    DeleteSlices(y, b + |t|, m);
    assert y[..b + |t|] == s[..a] + t + s[a..b];
    assert y[b + |t| + m..] == s[b + m..];
  }

  /** An insertion at or after the end of a deletion commutes with it once the insertion is pulled left. */
  lemma {:induction false} InsertAfterDelete<T>(s: seq<T>, b: int, m: int, a: int, t: seq<T>)
    requires 0 <= b && 0 <= m && b + m <= a <= |s|
    ensures Insert(Delete(s, b, m), a - m, t) == Delete(Insert(s, a, t), b, m)
  {
    var x := s[..b] + s[b + m..];
    DeleteSlices(s, b, m);
    InsertSlices(x, a - m, t);
    assert x[..a - m] == s[..b] + s[b + m..a];
    assert x[a - m..] == s[a..];
    var y := s[..a] + t + s[a..];
    InsertSlices(s, a, t);
    DeleteSlices(y, b, m);
    assert y[..b] == s[..b];
    assert y[b + m..] == s[b + m..a] + t + s[a..];
  }

  /** A deletion widened by the length of an insertion inside it removes the insertion too. */
  lemma {:induction false} DeleteSwallowsInsert<T>(s: seq<T>, b: int, m: int, a: int, t: seq<T>)
    requires 0 <= b <= a <= b + m <= |s|
    ensures Delete(Insert(s, a, t), b, m + |t|) == Delete(s, b, m)
  {
    var y := s[..a] + t + s[a..];
    InsertSlices(s, a, t);
    DeleteSlices(y, b, m + |t|);
    DeleteSlices(s, b, m);
    assert y[..b] == s[..b];
    assert y[b + m + |t|..] == s[b + m..];
  }

  /** Inserting nothing changes nothing. */
  lemma InsertNothing<T>(s: seq<T>, k: int)
    ensures Insert(s, k, []) == s
  {
  }
  /** Two disjoint deletions commute once the later one is pulled left by the length of the earlier one. */
  lemma {:induction false} DeletesCommute<T>(s: seq<T>, a: int, n: int, b: int, m: int)
    requires 0 <= a && 0 <= n && a + n <= b && 0 <= m && b + m <= |s|
    ensures Delete(Delete(s, b, m), a, n) == Delete(Delete(s, a, n), b - n, m)
  {
    var x := s[..b] + s[b + m..];
    DeleteSlices(s, b, m);
    DeleteSlices(x, a, n);
    assert x[..a] == s[..a];
    assert x[a + n..] == s[a + n..b] + s[b + m..];
    var y := s[..a] + s[a + n..];
    DeleteSlices(s, a, n);
    DeleteSlices(y, b - n, m);
    assert y[..b - n] == s[..a] + s[a + n..b];
    assert y[b - n + m..] == s[b + m..];
  }

  /**
    A deletion of `m` at `b`, followed by a deletion of `n` at `a` that reaches
    the point where the first one closed its gap, deletes `n + m` at `a`.
  */
  lemma {:induction false} DeletesMerge<T>(s: seq<T>, b: int, m: int, a: int, n: int)
    requires 0 <= a <= b <= a + n && 0 <= m && a + n + m <= |s|
    ensures Delete(Delete(s, b, m), a, n) == Delete(s, a, n + m)
  {
    var x := s[..b] + s[b + m..];
    DeleteSlices(s, b, m);
    DeleteSlices(x, a, n);
    DeleteSlices(s, a, n + m);
    assert x[..a] == s[..a];
    assert x[a + n..] == s[a + n + m..];
  }
}
