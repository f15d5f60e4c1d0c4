/**
  The hazard lists that operations of majormajor/ops/op.py keep.

  A past operation collects the hazards created when later operations were
  transformed against it. A hazard matters to an operation being transformed
  when its conflict changeset is that operation's changeset or one of its
  ancestors (ops/op.py:72-85); old hazards are dropped by conflict changeset
  (ops/op.py:69-70). The shifts a list of hazards asks for are summed
  (string_insert_op.py:33-37, string_delete_op.py:34-40,
  array_delete_op.py:31-37).

  Changesets appear here only by identity, as `object?`; ancestry is given as
  a set, computed by the changeset model.
*/
module HazardLists {
  import opened Wrappers
  import opened Hazards
  import opened StringRules

  type CsHazard<O> = Hazard<O, object?>

  /** The hazards whose conflict changeset is (`inside`) or is not (`!inside`) in `s`, in their original order. */
  function Select<O>(hs: seq<CsHazard<O>>, s: set<object?>, inside: bool): (r: seq<CsHazard<O>>)
    ensures |r| <= |hs|
    ensures forall i | 0 <= i < |r| :: r[i] in hs && (r[i].conflictCs in s) == inside
    ensures forall i | 0 <= i < |hs| && (hs[i].conflictCs in s) == inside :: hs[i] in r
    decreases |hs|
  {
    if |hs| == 0 then []
    else (if (hs[0].conflictCs in s) == inside then [hs[0]] else []) + Select(hs[1..], s, inside)
  }

  /** Selection keeps the order of the list: it distributes over concatenation. */
  lemma {:induction false} SelectAppend<O>(a: seq<CsHazard<O>>, b: seq<CsHazard<O>>, s: set<object?>, inside: bool)
    ensures Select(a + b, s, inside) == Select(a, s, inside) + Select(b, s, inside)
    decreases |a|
  {
    if |a| == 0 {
      assert a + b == b;
    } else {
      assert (a + b)[0] == a[0];
      assert (a + b)[1..] == a[1..] + b;
      SelectAppend(a[1..], b, s, inside);
    }
  }

  /** The two selections split a list: every hazard is kept by exactly one of them. */
  lemma {:induction false} SelectSplits<O>(hs: seq<CsHazard<O>>, s: set<object?>)
    ensures |Select(hs, s, true)| + |Select(hs, s, false)| == |hs|
    decreases |hs|
  {
    if |hs| > 0 {
      SelectSplits(hs[1..], s);
    }
  }

  /**
    `get_relevant_hazards` (ops/op.py:72-85): nothing without a changeset,
    otherwise the hazards whose conflict changeset is `cs` or one of its
    ancestors `anc`.
  */
  function RelevantHazards<O>(hs: seq<CsHazard<O>>, cs: object?, anc: set<object?>): (r: seq<CsHazard<O>>)
    ensures cs == null ==> r == []
    ensures forall i | 0 <= i < |r| :: r[i] in hs && (r[i].conflictCs == cs || r[i].conflictCs in anc)
    ensures cs != null ==> forall i | 0 <= i < |hs| && (hs[i].conflictCs == cs || hs[i].conflictCs in anc) :: hs[i] in r
  {
    if cs == null then [] else Select(hs, {cs} + anc, true)
  }

  /** `remove_old_hazards` (ops/op.py:69-70): the hazards whose conflict changeset is not among `css`. */
  function CurrentHazards<O>(hs: seq<CsHazard<O>>, css: seq<object?>): (r: seq<CsHazard<O>>)
    ensures forall i | 0 <= i < |r| :: r[i] in hs && r[i].conflictCs !in css
    ensures forall i | 0 <= i < |hs| && hs[i].conflictCs !in css :: hs[i] in r
    ensures |r| <= |hs|
  {
    Select(hs, set c | c in css, false)
  }

  /** The offset shifts of a list of hazards, an absent shift counting as zero. */
  function OffsetShiftSum<O, C>(hs: seq<Hazard<O, C>>): int
    decreases |hs|
  {
    if |hs| == 0 then 0 else OffsetShiftSum(hs[..|hs| - 1]) + ShiftOrZero(hs[|hs| - 1].offsetShift)
  }

  /** The value shifts of a list of hazards, an absent shift counting as zero. */
  function ValShiftSum<O, C>(hs: seq<Hazard<O, C>>): int
    decreases |hs|
  {
    if |hs| == 0 then 0 else ValShiftSum(hs[..|hs| - 1]) + ShiftOrZero(hs[|hs| - 1].valShift)
  }

  /** Summing over two lists is summing over each. */
  lemma {:induction false} ShiftSumsAppend<O, C>(a: seq<Hazard<O, C>>, b: seq<Hazard<O, C>>)
    ensures OffsetShiftSum(a + b) == OffsetShiftSum(a) + OffsetShiftSum(b)
    ensures ValShiftSum(a + b) == ValShiftSum(a) + ValShiftSum(b)
    decreases |b|
  {
    if |b| == 0 {
      assert a + b == a;
    } else {
      assert (a + b)[..|a + b| - 1] == a + b[..|b| - 1];
      ShiftSumsAppend(a, b[..|b| - 1]);
    }
  }

  /** Every hazard in the list carries an offset shift. */
  predicate AllOffsetShifts<O, C>(hs: seq<Hazard<O, C>>) {
    forall i | 0 <= i < |hs| :: hs[i].offsetShift.Some?
  }

  /** Every hazard in the list carries a value shift. */
  predicate AllValShifts<O, C>(hs: seq<Hazard<O, C>>) {
    forall i | 0 <= i < |hs| :: hs[i].valShift.Some?
  }

  /**
    The hazard a transformation returns, from the shift its rule reports:
    `Hazard(op, self, offset_shift=…)` or `Hazard(op, self, val_shift=…)`,
    and nothing (Python's False) when the rule reports none.
  */
  function HazardFromShift<O>(base: O, baseCs: object?, conflict: O, conflictCs: object?, s: Shift): (r: Option<CsHazard<O>>)
    ensures r.None? <==> s == NoHazard
    ensures r.Some? ==> r.value.baseOp == base && r.value.conflictOp == conflict
    ensures r.Some? ==> r.value.baseCs == baseCs && r.value.conflictCs == conflictCs
    ensures r.Some? ==> ShiftOrZero(r.value.offsetShift) == OffsetShiftOf(s) && ShiftOrZero(r.value.valShift) == ValShiftOf(s)
    ensures r.Some? ==> !r.value.IsPathHazard() && !r.value.IsNoopHazard() && !r.value.IsInterbranchHazard()
  {
    match s
    case NoHazard => None
    case OffsetHazard(n) => Some(OffsetHazardOf(base, baseCs, conflict, conflictCs, n))
    case ValHazard(n) => Some(ValHazardOf(base, baseCs, conflict, conflictCs, n))
  }

  /** What `add_new_hazard` appends for a transformation's result: the hazard, or nothing for a falsy result. */
  function Listed<O>(h: Option<CsHazard<O>>): (r: seq<CsHazard<O>>)
    ensures |r| <= 1 && (h.Some? ==> r == [h.value])
  {
    if h.Some? then [h.value] else []
  }

  /** A hazard made by a transformation rule carries exactly one of the two shifts, never both. */
  lemma HazardFromShiftHasOneShift<O>(base: O, baseCs: object?, conflict: O, conflictCs: object?, s: Shift)
    requires s != NoHazard
    ensures var h := HazardFromShift(base, baseCs, conflict, conflictCs, s).value;
      h.offsetShift.Some? != h.valShift.Some?
  {
  }

  /** The sums over a single hazard made from a rule's shift are the shifts the rule reported. */
  lemma SumsOfOneHazard<O>(base: O, baseCs: object?, conflict: O, conflictCs: object?, s: Shift)
    requires s != NoHazard
    ensures var hs := [HazardFromShift(base, baseCs, conflict, conflictCs, s).value];
      OffsetShiftSum(hs) == OffsetShiftOf(s) && ValShiftSum(hs) == ValShiftOf(s)
  {
    var hs := [HazardFromShift(base, baseCs, conflict, conflictCs, s).value];
    assert hs[..0] == [];
  }
}
