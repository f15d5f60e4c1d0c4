/**
  The prototype changeset of changeset.py: one operation on a JSON
  document with a revision number, a path and a position, and the three
  rules that merge a past changeset into it.

  A path element is a dictionary key or a list index, as in the rest of the
  model; a position is the same (a key, or an index into a list). Python
  2 orders every integer below every string, and that order decides the
  `<=` of `merge_in_insert_into_array` when the two are mixed.
*/
module ProtoChangesets {
  import opened Wrappers
  import opened Json
  import opened Splice
  import Ids

  /** The `path` argument of the constructor: a list, stored as given, or a comma-separated string, parsed. */
  datatype PathArg = ListPath(steps: Path) | TextPath(text: string)

  /** The characters Python 2's `int()` strips from both ends. */
  predicate IsSpace(c: char) {
    c == ' ' || c == '\t' || c == '\n' || c == '\r' || c == 11 as char || c == 12 as char
  }

  predicate IsDigit(c: char) {
    '0' <= c <= '9'
  }

  /** A non-empty run of decimal digits. */
  predicate AllDigits(s: string) {
    |s| > 0 && forall i | 0 <= i < |s| :: IsDigit(s[i])
  }

  function LStrip(s: string): (r: string)
    ensures |r| == 0 || !IsSpace(r[0])
    decreases |s|
  {
    if |s| > 0 && IsSpace(s[0]) then LStrip(s[1..]) else s
  }

  function RStrip(s: string): (r: string)
    ensures |r| == 0 || !IsSpace(r[|r| - 1])
    decreases |s|
  {
    if |s| > 0 && IsSpace(s[|s| - 1]) then RStrip(s[..|s| - 1]) else s
  }

  /** The number a run of digits spells, most significant digit first. */
  function DigitsValue(s: string): int
    decreases |s|
  {
    if |s| == 0 then 0 else DigitsValue(s[..|s| - 1]) * 10 + (s[|s| - 1] as int - '0' as int)
  }

  /**
    `int(seg)` for a string, as Python 2 parses it: surrounding whitespace
    ignored, an optional sign, whitespace again after the sign, then
    decimal digits only; None where Python raises ValueError.
  */
  function ParseInt(seg: string): (r: Option<int>)
    ensures r.Some? ==> |seg| > 0
  {
    var t := RStrip(LStrip(seg));
    if |t| > 0 && (t[0] == '-' || t[0] == '+') then
      var u := LStrip(t[1..]);
      if AllDigits(u) then Some(if t[0] == '-' then -DigitsValue(u) else DigitsValue(u)) else None
    else if AllDigits(t) then Some(DigitsValue(t))
    else None
  }

  /** `text.split(',')`: the pieces between commas, one more than there are commas. */
  function Split(s: string): (r: seq<string>)
    ensures |r| >= 1
    ensures forall i | 0 <= i < |r| :: ',' !in r[i]
    decreases |s|
  {
    if |s| == 0 then [""]
    else
      var rest := Split(s[1..]);
      if s[0] == ',' then [""] + rest else [[s[0]] + rest[0]] + rest[1..]
  }

  /** One piece of the split path: nothing when empty, an index when `int()` accepts it, a key otherwise. */
  function Segment(seg: string): seq<Step> {
    if seg == "" then []
    else match ParseInt(seg)
      case Some(n) => [Index(n)]
      case None => [Key(seg)]
  }

  /** The path the pieces make, in order. */
  function ParseSegments(segs: seq<string>): Path
    decreases |segs|
  {
    if |segs| == 0 then [] else ParseSegments(segs[..|segs| - 1]) + Segment(segs[|segs| - 1])
  }

  /** The path `parse_path` builds from a string. */
  function Parsed(text: string): Path {
    ParseSegments(Split(text))
  }

  /** A key that survives the comma-separated form: not empty, no comma, not a number to `int()`. */
  predicate PlainKey(k: string) {
    k != "" && ',' !in k && ParseInt(k).None?
  }

  /** Every key of the path is plain. */
  predicate PlainPath(p: Path) {
    forall i | 0 <= i < |p| :: p[i].Key? ==> PlainKey(p[i].k)
  }

  function DigitChar(d: nat): char
    requires d < 10
  {
    ('0' as int + d) as char
  }

  /** The decimal digits of `n`. */
  function NatText(n: nat): (r: string)
    ensures AllDigits(r)
    decreases n
  {
    if n < 10 then [DigitChar(n)] else NatText(n / 10) + [DigitChar(n % 10)]
  }

  /** `str(i)` for an integer. */
  function IntText(i: int): string {
    if i < 0 then "-" + NatText(-i) else NatText(i)
  }

  /** A path element written out: the key itself, or the index in decimal. */
  function StepText(s: Step): string {
    match s
    case Key(k) => k
    case Index(i) => IntText(i)
  }

  /** The pieces joined with commas. */
  function Join(segs: seq<string>): string
    requires |segs| >= 1
    decreases |segs|
  {
    if |segs| == 1 then segs[0] else segs[0] + "," + Join(segs[1..])
  }

  /** The elements of a path written out, in order. */
  function Texts(p: Path): (r: seq<string>)
    ensures |r| == |p|
    decreases |p|
  {
    if |p| == 0 then [] else Texts(p[..|p| - 1]) + [StepText(p[|p| - 1])]
  }

  /** A path in the comma-separated form `parse_path` reads. */
  function Format(p: Path): string {
    if |p| == 0 then "" else Join(Texts(p))
  }

  lemma {:induction false} DigitsValueOfNatText(n: nat)
    ensures DigitsValue(NatText(n)) == n
    decreases n
  {
    if n >= 10 {
      var t := NatText(n);
      assert t[..|t| - 1] == NatText(n / 10);
      DigitsValueOfNatText(n / 10);
    }
  }

  /** `int(str(i)) == i`. */
  lemma ParseIntText(i: int)
    ensures ParseInt(IntText(i)) == Some(i)
    ensures IntText(i) != "" && ',' !in IntText(i)
  {
    IntTextValue(i);
    IntTextNoComma(i);
  }

  lemma IntTextValue(i: int)
    ensures ParseInt(IntText(i)) == Some(i)
  {
    var t := IntText(i);
    var n: nat := if i < 0 then -i else i;
    DigitsValueOfNatText(n);
    assert LStrip(t) == t;
    assert RStrip(t) == t;
    if i < 0 {
      assert t[1..] == NatText(n);
    }
  }

  lemma IntTextNoComma(i: int)
    ensures IntText(i) != "" && ',' !in IntText(i)
  {
    var t := IntText(i);
    var n: nat := if i < 0 then -i else i;
    DigitsValueOfNatText(n);
    forall j | 0 <= j < |t|
      ensures t[j] != ','
    {
      if i < 0 && j > 0 {
        assert t[j] == NatText(n)[j - 1];
      }
    }
  }

  /** Python 2's `int()` on a few texts: whitespace is allowed around the sign, not inside the digits. */
  lemma ParseIntSpaces()
    ensures ParseInt(" - 5") == Some(-5)
    ensures ParseInt("+\t12 ") == Some(12)
    ensures ParseInt("1 2") == None
    ensures ParseInt("- ") == None
  {
    assert LStrip(" - 5") == "- 5" by { assert " - 5"[1..] == "- 5"; }
    assert RStrip("- 5") == "- 5";
    assert LStrip("- 5"[1..]) == "5" by { assert "- 5"[1..] == " 5" && " 5"[1..] == "5"; }
    assert DigitsValue("5") == 5 by { assert "5"[..0] == ""; }
    assert LStrip("+\t12 ") == "+\t12 ";
    assert RStrip("+\t12 ") == "+\t12" by { assert "+\t12 "[..4] == "+\t12"; }
    assert LStrip("+\t12"[1..]) == "12" by { assert "+\t12"[1..] == "\t12" && "\t12"[1..] == "12"; }
    assert DigitsValue("12") == 12 by { assert "12"[..1] == "1" && "1"[..0] == ""; }
    assert RStrip(LStrip("1 2")) == "1 2";
    assert !AllDigits("1 2") by { assert "1 2"[1] == ' '; }
    assert LStrip("- ") == "- ";
    assert RStrip("- ") == "-" by { assert "- "[..1] == "-"; }
    assert LStrip("-"[1..]) == "";
  }

  lemma {:induction false} SplitNoComma(a: string)
    requires ',' !in a
    ensures Split(a) == [a]
    decreases |a|
  {
    if |a| > 0 {
      SplitNoComma(a[1..]);
      assert [a[0]] + a[1..] == a;
    }
  }

  lemma {:induction false} SplitAtComma(a: string, b: string)
    requires ',' !in a
    ensures Split(a + "," + b) == [a] + Split(b)
    decreases |a|
  {
    var s := a + "," + b;
    if |a| == 0 {
      assert s[0] == ',' && s[1..] == b;
    } else {
      assert s[0] == a[0] && s[1..] == a[1..] + "," + b;
      SplitAtComma(a[1..], b);
      assert [a[0]] + a[1..] == a;
    }
  }

  /** Splitting undoes joining when no piece holds a comma. */
  lemma {:induction false} SplitJoin(segs: seq<string>)
    requires |segs| >= 1 && forall i | 0 <= i < |segs| :: ',' !in segs[i]
    ensures Split(Join(segs)) == segs
    decreases |segs|
  {
    if |segs| == 1 {
      SplitNoComma(segs[0]);
    } else {
      SplitJoin(segs[1..]);
      SplitAtComma(segs[0], Join(segs[1..]));
      assert [segs[0]] + segs[1..] == segs;
    }
  }

  lemma SnocLast<T>(p: seq<T>)
    requires |p| > 0
    ensures p[..|p| - 1] + [p[|p| - 1]] == p
  {
  }

  lemma ParseSegmentsSnoc(t: seq<string>, x: string)
    ensures ParseSegments(t + [x]) == ParseSegments(t) + Segment(x)
  {
    assert (t + [x])[..|t|] == t;
  }

  /** A written-out element reads back as itself. */
  lemma SegmentOfStepText(s: Step)
    requires s.Key? ==> PlainKey(s.k)
    ensures Segment(StepText(s)) == [s]
  {
    if s.Index? {
      ParseIntText(s.i);
    }
  }

  /** Reading the written-out pieces of a plain path gives the path back, element by element. */
  lemma {:induction false} ParseSegmentsOfTexts(p: Path)
    requires PlainPath(p)
    ensures ParseSegments(Texts(p)) == p
    decreases |p|
  {
    if |p| > 0 {
      var q, last := p[..|p| - 1], p[|p| - 1];
      ParseSegmentsSnoc(Texts(q), StepText(last));
      ParseSegmentsOfTexts(q);
      SegmentOfStepText(last);
      SnocLast(p);
    }
  }

  lemma {:induction false} TextsNoComma(p: Path)
    requires PlainPath(p)
    ensures forall i | 0 <= i < |p| :: ',' !in Texts(p)[i]
    decreases |p|
  {
    if |p| > 0 {
      TextsNoComma(p[..|p| - 1]);
      match p[|p| - 1]
      case Key(k) =>
      case Index(n) => ParseIntText(n);
    }
  }

  /** `parse_path` reads back any plain path written in the comma-separated form. */
  lemma ParseFormat(p: Path)
    requires PlainPath(p)
    ensures Parsed(Format(p)) == p
  {
    if |p| == 0 {
      assert Split("") == [""];
      assert ParseSegments([""]) == ParseSegments([]) + Segment("");
    } else {
      TextsNoComma(p);
      SplitJoin(Texts(p));
      ParseSegmentsOfTexts(p);
    }
  }

  /** Every key `parse_path` produces is plain, so parsing the written-out form of its result changes nothing. */
  lemma {:induction false} ParsedIsPlain(segs: seq<string>)
    requires forall i | 0 <= i < |segs| :: ',' !in segs[i]
    ensures PlainPath(ParseSegments(segs))
    decreases |segs|
  {
    if |segs| > 0 {
      ParsedIsPlain(segs[..|segs| - 1]);
    }
  }

  lemma ParseIdempotent(text: string)
    ensures PlainPath(Parsed(text))
    ensures Parsed(Format(Parsed(text))) == Parsed(text)
  {
    ParsedIsPlain(Split(text));
    ParseFormat(Parsed(text));
  }

  /** Python 2's `a <= b` on a position and a path element: integers first, strings in their own order. */
  predicate PyLessEq(a: Step, b: Step) {
    match (a, b)
    case (Index(x), Index(y)) => x <= y
    case (Index(_), Key(_)) => true
    case (Key(_), Index(_)) => false
    case (Key(x), Key(y)) => x == y || Ids.Less(x, y)
  }

  /**
    The path after `merge_in_insert_into_array` (changeset.py:60-65): when
    the past path is a prefix, the element just below it grows by one if
    the past position is at or before it. A past path as long as this one
    raises IndexError; a string element that must grow raises TypeError.
  */
  function InsertIntoArrayPath(pastPath: Path, pos: Step, p: Path): (r: Result<Path, string>)
    ensures r.Ok? ==> |r.value| == |p|
    ensures r.Ok? && r.value != p ==>
      && IsPrefix(pastPath, p) && |pastPath| < |p| && p[|pastPath|].Index?
      && r.value == p[|pastPath| := Index(p[|pastPath|].i + 1)]
  {
    if !SlicePrefix(pastPath, p) then Ok(p)
    else if |pastPath| >= |p| then Err("IndexError: list index out of range")
    else if !PyLessEq(pos, p[|pastPath|]) then Ok(p)
    else match p[|pastPath|]
      case Index(j) => Ok(p[|pastPath| := Index(j + 1)])
      case Key(_) => Err("TypeError: cannot concatenate 'str' and 'int' objects")
  }

  /** The document after one value is inserted at position `pos` of the list at `pp`. */
  function InsertedInto(doc: Value, pp: Path, pos: nat, x: Value): Value
    requires ValidPath(doc, pp) && ValueAt(doc, pp).Array? && pos <= |ValueAt(doc, pp).items|
  {
    ReplaceAt(doc, pp, Array(Insert(ValueAt(doc, pp).items, pos, [x])))
  }

  /** The walk into a replaced node: after `p`, continue in the new value. */
  lemma ReplaceAtDescends(v: Value, p: Path, x: Value, rest: Path)
    requires ValidPath(v, p) && ValidPath(x, rest)
    ensures ValidPath(ReplaceAt(v, p, x), p + rest)
    ensures ValueAt(ReplaceAt(v, p, x), p + rest) == ValueAt(x, rest)
  {
    ReplaceAtReads(v, p, x);
    ValidPathAppend(ReplaceAt(v, p, x), p, rest);
  }

  /** A valid path that runs through a list at `pp` continues with an index into it. */
  lemma ThroughList(doc: Value, pp: Path, q: Path)
    requires ValidPath(doc, pp) && ValueAt(doc, pp).Array?
    requires ValidPath(doc, q) && IsPrefix(pp, q) && |pp| < |q|
    ensures q[|pp|].Index? && 0 <= q[|pp|].i < |ValueAt(doc, pp).items|
    ensures q == pp + ([q[|pp|]] + q[|pp| + 1..])
    ensures ValidPath(ValueAt(doc, pp).items[q[|pp|].i], q[|pp| + 1..])
    ensures ValueAt(doc, q) == ValueAt(ValueAt(doc, pp).items[q[|pp|].i], q[|pp| + 1..])
  {
    var k := |pp|;
    var rest := q[k + 1..];
    assert q == pp + ([q[k]] + rest);
    ValidPathAppend(doc, pp, [q[k]] + rest);
    assert ([q[k]] + rest)[1..] == rest;
  }

  lemma UpdateAfterPrefix<T>(a: seq<T>, x: T, b: seq<T>, y: T)
    ensures (a + ([x] + b))[|a| := y] == a + ([y] + b)
  {
  }

  /** The item at `j` of a list moves to `j + 1` when a value is inserted at or before it, and stays otherwise. */
  lemma InsertedItem(items: seq<Value>, pos: nat, x: Value, j: nat)
    requires pos <= |items| && j < |items|
    ensures var j' := if pos <= j then j + 1 else j;
      j' < |Insert(items, pos, [x])| && Insert(items, pos, [x])[j'] == items[j]
  {
    InsertAt(items, pos, [x]);
  }

  /** Below a list, the merge raises nothing: the index after the prefix grows when the position is at or before it. */
  lemma MergedIndexPath(pp: Path, pos: int, q: Path)
    requires IsPrefix(pp, q) && |pp| < |q| && q[|pp|].Index?
    ensures InsertIntoArrayPath(pp, Index(pos), q)
      == Ok(if pos <= q[|pp|].i then q[|pp| := Index(q[|pp|].i + 1)] else q)
  {
    assert pp == Take(q, |pp|);
  }

  /**
    What the array merge is for: after a past changeset inserts one value
    into the list at `pp`, the merged path of a changeset below that list
    leads to the same node it led to before.
  */
  lemma InsertIntoArrayKeepsTarget(doc: Value, pp: Path, pos: nat, x: Value, q: Path)
    requires ValidPath(doc, pp) && ValueAt(doc, pp).Array? && pos <= |ValueAt(doc, pp).items|
    requires ValidPath(doc, q) && IsPrefix(pp, q) && |pp| < |q|
    ensures InsertIntoArrayPath(pp, Index(pos), q).Ok?
    ensures var q' := InsertIntoArrayPath(pp, Index(pos), q).value;
      ValidPath(InsertedInto(doc, pp, pos, x), q') && ValueAt(InsertedInto(doc, pp, pos, x), q') == ValueAt(doc, q)
  {
    var k := |pp|;
    var items := ValueAt(doc, pp).items;
    var rest := q[k + 1..];
    ThroughList(doc, pp, q);
    var j := q[k].i;
    var j' := if pos <= j then j + 1 else j;
    MergedPathAfter(pp, pos, q);
    TailLeadsTo(items, pos, x, j, rest);
    ReplaceAtDescends(doc, pp, Array(Insert(items, pos, [x])), [Index(j')] + rest);
  }

  /** The merged path keeps the prefix and the rest, with the index after the prefix moved as the insertion requires. */
  lemma MergedPathAfter(pp: Path, pos: int, q: Path)
    requires IsPrefix(pp, q) && |pp| < |q| && q[|pp|].Index? && q == pp + ([q[|pp|]] + q[|pp| + 1..])
    ensures InsertIntoArrayPath(pp, Index(pos), q)
      == Ok(pp + ([Index(if pos <= q[|pp|].i then q[|pp|].i + 1 else q[|pp|].i)] + q[|pp| + 1..]))
  {
    MergedIndexPath(pp, pos, q);
    UpdateAfterPrefix(pp, q[|pp|], q[|pp| + 1..], Index(q[|pp|].i + 1));
  }

  /** In the list with `x` inserted at `pos`, the moved index followed by `rest` leads where `rest` led from item `j`. */
  lemma TailLeadsTo(items: seq<Value>, pos: nat, x: Value, j: nat, rest: Path)
    requires pos <= |items| && j < |items| && ValidPath(items[j], rest)
    ensures var tail := [Index(if pos <= j then j + 1 else j)] + rest;
      ValidPath(Array(Insert(items, pos, [x])), tail) && ValueAt(Array(Insert(items, pos, [x])), tail) == ValueAt(items[j], rest)
  {
    InsertedItem(items, pos, x, j);
    assert ([Index(if pos <= j then j + 1 else j)] + rest)[1..] == rest;
  }

  /**
    What the remove merge is for: a changeset is nulled only when its path
    runs through the removed pair, and then the path no longer exists once
    the pair is gone.
  */
  lemma RemovedPathIsGone(doc: Value, pp: Path, key: string, q: Path)
    requires ValidPath(doc, pp) && ValueAt(doc, pp).Object?
    requires IsPrefix(pp + [Key(key)], q)
    ensures !ValidPath(ReplaceAt(doc, pp, Object(ValueAt(doc, pp).fields - {key})), q)
  {
    var d := ReplaceAt(doc, pp, Object(ValueAt(doc, pp).fields - {key}));
    var rest := q[|pp|..];
    assert q[..|pp| + 1] == pp + [Key(key)];
    assert q[|pp|] == Key(key);
    assert q == pp + rest && rest[0] == Key(key);
    ReplaceAtReads(doc, pp, Object(ValueAt(doc, pp).fields - {key}));
    ValidPathAppend(d, pp, rest);
  }

  /** `parse_path('')` is the empty path. */
  lemma ParsedEmpty()
    ensures Parsed("") == []
  {
    assert Split("") == [""];
    assert ParseSegments([""]) == ParseSegments([]) + Segment("");
  }

  /** Array merges on the path ['fifth', 2]: a past insertion after the index, at it, and before it. */
  lemma InsertIntoArrayExamples()
    ensures InsertIntoArrayPath([Key("fifth")], Index(3), [Key("fifth"), Index(2)]) == Ok([Key("fifth"), Index(2)])
    ensures InsertIntoArrayPath([Key("fifth")], Index(2), [Key("fifth"), Index(2)]) == Ok([Key("fifth"), Index(3)])
    ensures InsertIntoArrayPath([Key("fifth")], Index(1), [Key("fifth"), Index(3)]) == Ok([Key("fifth"), Index(4)])
  {
    var p2 := [Key("fifth"), Index(2)];
    var p3 := [Key("fifth"), Index(3)];
    assert Take(p2, 1) == [Key("fifth")] && Take(p3, 1) == [Key("fifth")];
    assert p2[1 := Index(3)] == p3;
    assert p3[1 := Index(4)] == [Key("fifth"), Index(4)];
  }

  class ProtoChangeset {
    var opRaw: string
    var op: Option<string>
    var revRaw: int
    var rev: int
    var syncedRev: int
    var valueRaw: Value
    var value: Value
    var posRaw: Step
    var pos: Step
    var path: Path

    /**
      `Changeset(op, rev, synced_rev, path, pos, value)` (changeset.py:2-23):
      the raw and working copies start equal; a list path is kept, a string
      path is parsed.
    */
    constructor (op: string, rev: int, syncedRev: int, pathArg: PathArg, pos: Step, value: Value)
      ensures opRaw == op && this.op == Some(op) && revRaw == rev && this.rev == rev && this.syncedRev == syncedRev
      ensures valueRaw == value && this.value == value && posRaw == pos && this.pos == pos
      ensures path == match pathArg case ListPath(steps) => steps case TextPath(text) => Parsed(text)
    {
      opRaw, this.op := op, Some(op);
      revRaw, this.rev := rev, rev;
      this.syncedRev := syncedRev;
      valueRaw, this.value := value, value;
      posRaw, this.pos := pos, pos;
      path := if pathArg.ListPath? then pathArg.steps else [];
      new;
      if pathArg.TextPath? {
        var _ := ParsePath(pathArg.text);
      }
    }

    /** `parse_path` (changeset.py:25-35): each non-empty piece between commas, as an index where `int()` accepts it. */
    method ParsePath(text: string) returns (r: Path)
      modifies this`path
      ensures path == Parsed(text) && r == path
    {
      path := [];
      var traverse := Split(text);
      var i := 0;
      while i < |traverse|
        invariant 0 <= i <= |traverse|
        invariant path == ParseSegments(traverse[..i])
      {
        var seg := traverse[i];
        if seg != "" {
          match ParseInt(seg) {
            case Some(index) => path := path + [Index(index)];
            case None => path := path + [Key(seg)];
          }
        }
        assert traverse[..i + 1][..i] == traverse[..i];
        i := i + 1;
      }
      assert traverse[..i] == traverse;
      return path;
    }

    /** `merge_in_insert_pair` (changeset.py:46-47): the revision follows the past one. */
    method MergeInInsertPair(past: ProtoChangeset)
      modifies this`rev
      ensures rev == old(past.rev) + 1
    {
      rev := past.rev + 1;
    }

    /**
      `merge_in_remove_pair` (changeset.py:51-56): the past position is
      appended to the past changeset's own path list, and this changeset is
      nulled when that lengthened path is a prefix of its path.
    */
    method MergeInRemovePair(past: ProtoChangeset)
      modifies this`op, past`path
      ensures past.path == old(past.path) + [old(past.pos)]
      ensures op == if IsPrefix(past.path, path) then None else old(op)
    {
      past.path := past.path + [past.pos];
      var removed := past.path;
      SlicePrefixIsPrefix(removed, path);
      if removed == Take(path, |removed|) {
        op := None;
      }
    }

    /** `merge_in_insert_into_array` (changeset.py:60-65). */
    method MergeInInsertIntoArray(past: ProtoChangeset) returns (r: Result<(), string>)
      modifies this`path
      ensures InsertIntoArrayPath(old(past.path), old(past.pos), old(path)) == if r.Ok? then Ok(path) else Err(r.error)
      ensures r.Err? ==> path == old(path)
    {
      var k := |past.path|;
      if past.path == Take(path, k) {
        if k >= |path| {
          return Err("IndexError: list index out of range");
        }
        if PyLessEq(past.pos, path[k]) {
          match path[k] {
            case Index(j) => path := path[k := Index(j + 1)];
            case Key(_) => return Err("TypeError: cannot concatenate 'str' and 'int' objects");
          }
        }
      }
      return Ok(());
    }

    /**
      `merge_past_changeset` (changeset.py:37-44): the rule named by the
      past changeset's current `op`; any other operation changes nothing.
    */
    method MergePastChangeset(past: ProtoChangeset) returns (r: Result<(), string>)
      modifies this`rev, this`op, this`path, past`path
      ensures old(past.op) == Some("insert_pair") ==>
        r == Ok(()) && rev == old(past.rev) + 1 && op == old(op) && path == old(path)
      ensures old(past.op) == Some("remove_pair") ==>
        && r == Ok(()) && rev == old(rev)
        && past.path == old(past.path) + [old(past.pos)]
        && op == (if IsPrefix(past.path, path) then None else old(op))
      ensures old(past.op) == Some("insert_into_array") ==>
        && rev == old(rev) && op == old(op)
        && InsertIntoArrayPath(old(past.path), old(past.pos), old(path)) == (if r.Ok? then Ok(path) else Err(r.error))
      ensures old(past.op) !in {Some("insert_pair"), Some("remove_pair"), Some("insert_into_array")} ==>
        r == Ok(()) && rev == old(rev) && op == old(op) && path == old(path) && past.path == old(past.path)
    {
      var kind := past.op;
      r := Ok(());
      if kind == Some("insert_pair") {
        MergeInInsertPair(past);
      } else if kind == Some("remove_pair") {
        MergeInRemovePair(past);
      } else if kind == Some("insert_into_array") {
        r := MergeInInsertIntoArray(past);
      }
    }
  }
}
