/**
  The JSON value set (RFC 8259, section 3) as the documents of the library
  hold it, paths into such a value, and the Python slicing rules that the
  edit handlers rely on.

  A path step is a dictionary key (a Python `str`) or a list index (a Python
  `int`). Numbers are integers only.
*/
module Json {

  datatype Value =
    | Null
    | Bool(b: bool)
    | Int(i: int)
    | Str(s: string)
    | Array(items: seq<Value>)
    | Object(fields: map<string, Value>)

  datatype Step = Key(k: string) | Index(i: int)

  type Path = seq<Step>

  /** Python truthiness: None, False, 0, "", [] and {} are false. */
  predicate Truthy(v: Value) {
    match v
    case Null => false
    case Bool(b) => b
    case Int(i) => i != 0
    case Str(s) => s != ""
    case Array(xs) => xs != []
    case Object(m) => m != map[]
  }

  /** One step of the path walk: a key of a dict, or an index below a list's length. */
  predicate StepValid(v: Value, step: Step) {
    match step
    case Key(k) => v.Object? && k in v.fields
    case Index(i) => v.Array? && 0 <= i < |v.items|
  }

  function Child(v: Value, step: Step): Value
    requires StepValid(v, step)
  {
    match step
    case Key(k) => v.fields[k]
    case Index(i) => v.items[i]
  }

  /** The node under `v` with `step` replaced by `c`. */
  function WithChild(v: Value, step: Step, c: Value): (r: Value)
    requires StepValid(v, step)
    ensures StepValid(r, step) && Child(r, step) == c
  {
    match step
    case Key(k) => Object(v.fields[k := c])
    case Index(i) => Array(v.items[i := c])
  }

  /** Every step of `p`, taken from `v`, succeeds. */
  predicate ValidPath(v: Value, p: Path)
    decreases |p|
  {
    |p| == 0 || (StepValid(v, p[0]) && ValidPath(Child(v, p[0]), p[1..]))
  }

  /** The value reached by walking `p` from `v`. */
  function ValueAt(v: Value, p: Path): Value
    requires ValidPath(v, p)
    decreases |p|
  {
    if |p| == 0 then v else ValueAt(Child(v, p[0]), p[1..])
  }

  /** `v` with the value at `p` replaced by `x` (the whole of `v` when `p` is empty). */
  function ReplaceAt(v: Value, p: Path, x: Value): Value
    requires ValidPath(v, p)
    decreases |p|
  {
    if |p| == 0 then x else WithChild(v, p[0], ReplaceAt(Child(v, p[0]), p[1..], x))
  }

  predicate IsPrefix<T(==)>(a: seq<T>, b: seq<T>) {
    |a| <= |b| && b[..|a|] == a
  }

  /** Neither path lies along the other: they lead to unrelated nodes. */
  predicate Disjoint(p: Path, q: Path) {
    !IsPrefix(p, q) && !IsPrefix(q, p)
  }

  /** A walk splits at any point: first `p`, then `q` from where `p` ended. */
  lemma {:induction false} ValidPathAppend(v: Value, p: Path, q: Path)
    ensures ValidPath(v, p + q) <==> ValidPath(v, p) && ValidPath(ValueAt(v, p), q)
    ensures ValidPath(v, p + q) ==> ValueAt(v, p + q) == ValueAt(ValueAt(v, p), q)
    decreases |p|
  {
    if |p| == 0 {
      assert p + q == q;
    } else {
      assert (p + q)[0] == p[0];
      assert (p + q)[1..] == p[1..] + q;
      if StepValid(v, p[0]) {
        ValidPathAppend(Child(v, p[0]), p[1..], q);
      }
    }
  }

  /** Every prefix of a valid path is valid. */
  lemma ValidPathPrefix(v: Value, p: Path, k: nat)
    requires ValidPath(v, p) && k <= |p|
    ensures ValidPath(v, p[..k])
  {
    assert p == p[..k] + p[k..];
    ValidPathAppend(v, p[..k], p[k..]);
  }

  /** After a replacement the path still exists and leads to the new value. */
  lemma {:induction false} ReplaceAtReads(v: Value, p: Path, x: Value)
    requires ValidPath(v, p)
    ensures ValidPath(ReplaceAt(v, p, x), p)
    ensures ValueAt(ReplaceAt(v, p, x), p) == x
    decreases |p|
  {
    if |p| > 0 {
      ReplaceAtReads(Child(v, p[0]), p[1..], x);
    }
  }

  /** A replacement leaves every node on an unrelated path as it was. */
  lemma {:induction false} ReplaceAtFrame(v: Value, p: Path, x: Value, q: Path)
    requires ValidPath(v, p) && ValidPath(v, q) && Disjoint(p, q)
    ensures ValidPath(ReplaceAt(v, p, x), q)
    ensures ValueAt(ReplaceAt(v, p, x), q) == ValueAt(v, q)
    decreases |p|
  {
    assert |p| > 0 && |q| > 0;
    var r := ReplaceAt(v, p, x);
    if p[0] == q[0] {
      assert Disjoint(p[1..], q[1..]);
      ReplaceAtFrame(Child(v, p[0]), p[1..], x, q[1..]);
    } else {
      assert Child(r, q[0]) == Child(v, q[0]) by {
        match p[0]
        case Key(k) =>
        case Index(i) =>
      }
    }
  }

  /** Python's normalisation of a slice bound `k` against a length `n`. */
  function Clamp(n: nat, k: int): (r: nat)
    ensures r <= n
    ensures 0 <= k <= n ==> r == k
    ensures k > n ==> r == n
    ensures k < 0 ==> r == if n + k >= 0 then n + k else 0
  {
    if k >= 0 then (if k <= n then k else n)
    else (if n + k >= 0 then n + k else 0)
  }

  /** Python's `s[:k]`. */
  function Take<T>(s: seq<T>, k: int): seq<T> {
    s[..Clamp(|s|, k)]
  }

  /** Python's `s[k:]`. */
  function Drop<T>(s: seq<T>, k: int): seq<T> {
    s[Clamp(|s|, k)..]
  }

  lemma TakeDrop<T>(s: seq<T>, k: int)
    ensures Take(s, k) + Drop(s, k) == s
  {
  }

  /** Python's `a == b[:len(a)]`, the prefix test of the transformation rules. */
  predicate SlicePrefix<T(==)>(a: seq<T>, b: seq<T>) {
    a == Take(b, |a|)
  }

  lemma SlicePrefixIsPrefix<T>(a: seq<T>, b: seq<T>)
    ensures SlicePrefix(a, b) <==> IsPrefix(a, b)
  {
  }
}
