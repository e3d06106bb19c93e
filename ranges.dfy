/** Index and slice arithmetic of src/zpz/biglist.py: `regulate_index`,
    `slice_to_range` and `regulate_range`, over Python's `range` and `slice`.

    `Elements` is the reference meaning of a `range`: the arithmetic
    progression from `start` by `step` that stops before crossing `stop`.
    `PyIndices` is the reference meaning of a slice, the rule CPython applies
    in `slice.indices` (clamping to -1..n-1 or 0..n by the sign of the step).
 */
module Ranges {
  import opened Wrappers

  /** A Python `range(start, stop, step)`. */
  datatype Range = Range(start: int, stop: int, step: int)

  /** A Python `slice(start, stop, step)`; `None` parts are absent. */
  datatype Slice = Slice(start: Option<int>, stop: Option<int>, step: Option<int>)

  /** `range(0)`, the normal form of every empty result. */
  const EmptyRange: Range := Range(0, 0, 1)

  /** The next element of the progression is still before `stop`. */
  predicate Continues(r: Range) {
    (r.step > 0 && r.start < r.stop) || (r.step < 0 && r.start > r.stop)
  }

  /** The values a `range` enumerates, in order. */
  function Elements(r: Range): seq<int>
    requires r.step != 0
    decreases if r.step > 0 then r.stop - r.start else r.start - r.stop
  {
    if Continues(r) then [r.start] + Elements(Range(r.start + r.step, r.stop, r.step))
    else []
  }

  /** Element `k` of a range is `start + k * step`. */
  lemma {:induction false} ElementsAt(r: Range, k: nat)
    requires r.step != 0 && k < |Elements(r)|
    ensures Elements(r)[k] == r.start + k * r.step
    decreases k
  {
    if k > 0 {
      var next := Range(r.start + r.step, r.stop, r.step);
      ElementsAt(next, k - 1);
      assert Elements(r)[k] == Elements(next)[k - 1];
      assert (k - 1) * r.step + r.step == k * r.step;
    }
  }

  // ---------------------------------------------------------------------
  // regulate_index

  /** `regulate_index(idx, length)`: an index into a sequence of `length`
      elements, negative indices counting from the end. */
  function RegulateIndex(idx: int, length: int): (r: Result<int>)
    ensures r.Err? <==> idx >= length || idx < -length
    ensures r.Err? ==> r.error == IndexError
    ensures r.Ok? ==> 0 <= r.value < length
    ensures r.Ok? ==> r.value == if idx < 0 then length + idx else idx
  {
    if idx >= length || idx < -length then Err(IndexError)
    else if idx < 0 then Ok(length + idx)
    else Ok(idx)
  }

  // ---------------------------------------------------------------------
  // slice_to_range and regulate_range

  /** `slice_to_range(s, n)`: explicit bounds for slice `s` over a sequence of
      length `n`, before clipping to the sequence. */
  function SliceToRange(s: Slice, n: int): (r: Result<Range>)
    ensures r.Ok? ==> r.value.step != 0
    ensures r.Err? <==> n >= 1 && s.step == Some(0)
  {
    if n < 1 then Ok(EmptyRange)
    else
      var step := if s.step.None? then 1 else s.step.value;
      if step == 0 then Err(ValueError)
      else if step > 0 then
        var start := if s.start.None? then 0
          else if s.start.value < 0 then Max(0, n + s.start.value) else s.start.value;
        var stop := if s.stop.None? then n
          else if s.stop.value < 0 then n + s.stop.value else s.stop.value;
        Ok(Range(start, stop, step))
      else
        var start := if s.start.None? then n - 1
          else if s.start.value < 0 then n + s.start.value else s.start.value;
        var stop := if s.stop.None? then -1
          else if s.stop.value < 0 then Max(-1, n + s.stop.value) else s.stop.value;
        Ok(Range(start, stop, step))
  }

  function Max(a: int, b: int): int {
    if a < b then b else a
  }

  function Min(a: int, b: int): int {
    if a < b then a else b
  }

  /** `regulate_range(r, n)`: the bounds of `r` clipped to a sequence of
      length `n`; every empty result becomes `range(0, 0, 1)`. */
  function RegulateRange(r: Range, n: int): (q: Range)
    requires r.step != 0
    ensures q.step != 0
    ensures q == EmptyRange || q.step == r.step
  {
    if r.step > 0 then
      if r.start >= n then EmptyRange
      else
        var start := Max(r.start, 0);
        var stop := Min(r.stop, n);
        if stop <= start then EmptyRange else Range(start, stop, r.step)
    else
      if r.start < 0 then EmptyRange
      else
        var start := Min(r.start, n - 1);
        var stop := Max(-1, r.stop);
        if stop >= start then EmptyRange else Range(start, stop, r.step)
  }

  /** Every value of a progression lies between its start and its stop. */
  lemma {:induction false} ElementsBetween(r: Range, lo: int, hi: int)
    requires r.step != 0
    requires r.step > 0 ==> lo <= r.start && r.stop <= hi
    requires r.step < 0 ==> r.start < hi && lo <= r.stop + 1
    ensures forall x :: x in Elements(r) ==> lo <= x < hi
    decreases if r.step > 0 then r.stop - r.start else r.start - r.stop
  {
    if Continues(r) {
      var next := Range(r.start + r.step, r.stop, r.step);
      if Continues(next) {
        ElementsBetween(next, lo, hi);
      }
    }
  }

  /** A regulated range only yields indices of the sequence, and an empty one
      is always `range(0, 0, 1)`. */
  lemma {:induction false} RegulatedInBounds(r: Range, n: int)
    requires r.step != 0
    ensures var q := RegulateRange(r, n);
      (forall x :: x in Elements(q) ==> 0 <= x < n) &&
      (|Elements(q)| == 0 ==> q == EmptyRange)
  {
    var q := RegulateRange(r, n);
    if q != EmptyRange {
      ElementsBetween(q, 0, n);
    }
  }

  // ---------------------------------------------------------------------
  // The reference: Python's own slice rule

  /** One bound of a slice as CPython adjusts it: a negative value counts
      from the end, and the result is clamped to `lower..upper`. */
  function Adjust(v: Option<int>, dflt: int, n: int, lower: int, upper: int): int {
    if v.None? then dflt
    else if v.value < 0 then (if v.value + n < lower then lower else v.value + n)
    else if v.value > upper then upper
    else v.value
  }

  /** `slice.indices(n)` as a range: the indices Python's `xs[s]` selects
      from a sequence of length `n`. */
  function PyIndices(s: Slice, n: nat): (r: Result<Range>)
    ensures r.Ok? ==> r.value.step != 0
  {
    var step := if s.step.None? then 1 else s.step.value;
    if step == 0 then Err(ValueError)
    else
      var lower := if step < 0 then -1 else 0;
      var upper := if step < 0 then n - 1 else n;
      var start := Adjust(s.start, if step < 0 then upper else lower, n, lower, upper);
      var stop := Adjust(s.stop, if step < 0 then lower else upper, n, lower, upper);
      Ok(Range(start, stop, step))
  }

  /** On a non-empty sequence, `regulate_range(slice_to_range(s, n), n)`
      enumerates exactly the indices Python's slice `s` selects, and a zero
      step is refused by both. */
  lemma {:induction false} SliceMatchesPython(s: Slice, n: nat)
    requires n >= 1
    ensures SliceToRange(s, n).Err? <==> PyIndices(s, n).Err?
    ensures SliceToRange(s, n).Ok? ==>
      Elements(RegulateRange(SliceToRange(s, n).value, n)) == Elements(PyIndices(s, n).value)
  {
    if SliceToRange(s, n).Ok? {
      var q := RegulateRange(SliceToRange(s, n).value, n);
      var p := PyIndices(s, n).value;
      assert q == p || (!Continues(q) && !Continues(p));
    }
  }

  /** Every index Python's slice selects lies inside the sequence. */
  lemma {:induction false} PyIndicesInBounds(s: Slice, n: nat)
    requires PyIndices(s, n).Ok?
    ensures forall x :: x in Elements(PyIndices(s, n).value) ==> 0 <= x < n
  {
    ElementsBetween(PyIndices(s, n).value, 0, n);
  }

  // ---------------------------------------------------------------------
  // Progressions by position

  /** Position `k` of the progression of `r`. */
  function At(r: Range, k: int): int {
    r.start + k * r.step
  }

  /** `x` comes before the stop of `r`, in the direction of its step. */
  predicate Before(r: Range, x: int) {
    (r.step > 0 && x < r.stop) || (r.step < 0 && x > r.stop)
  }

  /** A range has `L` elements when its first `L` positions come before the
      stop and position `L` does not. */
  lemma {:induction false} LengthByPositions(r: Range, L: nat)
    requires r.step != 0
    requires forall k :: 0 <= k < L ==> Before(r, At(r, k))
    requires !Before(r, At(r, L))
    ensures |Elements(r)| == L
    decreases L
  {
    var next := Range(r.start + r.step, r.stop, r.step);
    if L == 0 {
      assert At(r, 0) == r.start;
    } else {
      assert Before(r, At(r, 0));
      assert At(r, 0) == r.start;
      forall k | 0 <= k < L - 1
        ensures Before(next, At(next, k))
      {
        assert At(next, k) == At(r, k + 1);
      }
      assert At(next, L - 1) == At(r, L);
      LengthByPositions(next, L - 1);
    }
  }

  /** The converse: the first `|Elements(r)|` positions come before the stop
      and the next does not. */
  lemma {:induction false} PositionsOfLength(r: Range)
    requires r.step != 0
    ensures forall k :: 0 <= k < |Elements(r)| ==> Before(r, At(r, k))
    ensures !Before(r, At(r, |Elements(r)|))
    decreases if r.step > 0 then r.stop - r.start else r.start - r.stop
  {
    if Continues(r) {
      var next := Range(r.start + r.step, r.stop, r.step);
      PositionsOfLength(next);
      forall k | 1 <= k < |Elements(r)|
        ensures Before(r, At(r, k))
      {
        assert At(next, k - 1) == At(r, k);
      }
      assert At(next, |Elements(next)|) == At(r, |Elements(r)|);
      assert At(r, 0) == r.start;
    } else {
      assert At(r, 0) == r.start;
    }
  }

  /** Moving both bounds by `d` moves every element by `d`. */
  lemma {:induction false} ElementsShift(r: Range, d: int)
    requires r.step != 0
    ensures |Elements(Range(r.start - d, r.stop - d, r.step))| == |Elements(r)|
    ensures forall i :: 0 <= i < |Elements(r)| ==>
      Elements(Range(r.start - d, r.stop - d, r.step))[i] == Elements(r)[i] - d
    decreases if r.step > 0 then r.stop - r.start else r.start - r.stop
  {
    if Continues(r) {
      var next := Range(r.start + r.step, r.stop, r.step);
      ElementsShift(next, d);
      assert Range(r.start - d + r.step, r.stop - d, r.step) == Range(next.start - d, next.stop - d, r.step);
    }
  }

  /** A progression splits where it crosses an earlier bound `b`: the
      elements before `b`, then the progression resumed at the first
      position past it. */
  lemma {:induction false} ElementsSplit(r: Range, b: int)
    requires r.step != 0
    requires (r.step > 0 && b <= r.stop) || (r.step < 0 && b >= r.stop)
    ensures var first := Elements(Range(r.start, b, r.step));
      Elements(r) == first + Elements(Range(r.start + |first| * r.step, r.stop, r.step))
    decreases if r.step > 0 then r.stop - r.start else r.start - r.stop
  {
    var first := Elements(Range(r.start, b, r.step));
    if Continues(Range(r.start, b, r.step)) {
      var next := Range(r.start + r.step, r.stop, r.step);
      ElementsSplit(next, b);
      var first' := Elements(Range(next.start, b, r.step));
      var L := |first'|;
      assert first == [r.start] + first';
      assert |first| == L + 1;
      assert (L + 1) * r.step == L * r.step + r.step;
      assert r.start + |first| * r.step == next.start + L * r.step;
      assert Continues(r);
    } else {
      assert first == [];
      assert Range(r.start + |first| * r.step, r.stop, r.step) == r;
    }
  }
}
