/** `ListView` and `ChainListView` of src/zpz/biglist.py: read-only windows
    onto sequences.  A view is modelled by the sequence it looks at and the
    regulated `range` of positions it shows; `Materialize` is the reference
    meaning of a view, the list of the elements it shows in order.
 */
module Views {
  import opened Wrappers
  import opened Ranges

  /** The elements of `xs` at positions `idx`, in order. */
  function Pick<T>(xs: seq<T>, idx: seq<int>): (r: seq<T>)
    requires forall x :: x in idx ==> 0 <= x < |xs|
    ensures |r| == |idx|
    ensures forall k :: 0 <= k < |idx| ==> idx[k] in idx && r[k] == xs[idx[k]]
  {
    seq(|idx|, k requires 0 <= k < |idx| => assert idx[k] in idx; xs[idx[k]])
  }

  /** Python's `xs[s]` on a list. */
  function PySlice<T>(xs: seq<T>, s: Slice): (r: Result<seq<T>>)
    ensures r.Err? <==> PyIndices(s, |xs|).Err?
  {
    match PyIndices(s, |xs|)
    case Err(e) => Err(e)
    case Ok(p) =>
      PyIndicesInBounds(s, |xs|);
      Ok(Pick(xs, Elements(p)))
  }

  // ---------------------------------------------------------------------
  // ListView

  datatype ListView<T> = ListView(list: seq<T>, range: Range)

  /** A view's range only shows positions of its list. */
  ghost predicate ViewOk<T>(v: ListView<T>) {
    v.range.step != 0 && forall x :: x in Elements(v.range) ==> 0 <= x < |v.list|
  }

  /** `len(view)`. */
  function Len<T>(v: ListView<T>): nat
    requires v.range.step != 0
  {
    |Elements(v.range)|
  }

  /** The elements a view shows, in order. */
  function Materialize<T>(v: ListView<T>): (m: seq<T>)
    requires ViewOk(v)
    ensures |m| == Len(v)
  {
    Pick(v.list, Elements(v.range))
  }

  /** `ListView(list_, range_)`: the whole list when no range is given,
      otherwise the range regulated against the list's length. */
  function MakeView<T>(list: seq<T>, range: Option<Range>): (v: ListView<T>)
    requires range.Some? ==> range.value.step != 0
    ensures ViewOk(v) && v.list == list
    ensures range.Some? ==> v.range == RegulateRange(range.value, |list|)
  {
    var r := if range.None? then Range(0, |list|, 1) else RegulateRange(range.value, |list|);
    if range.None? then
      ElementsBetween(r, 0, |list|);
      ListView(list, r)
    else
      RegulatedInBounds(range.value, |list|);
      ListView(list, r)
  }

  /** A view made without a range shows its whole list. */
  lemma {:induction false} WholeView<T>(list: seq<T>)
    ensures Len(MakeView(list, None)) == |list|
    ensures Materialize(MakeView(list, None)) == list
  {
    var r := Range(0, |list|, 1);
    var v := MakeView(list, None);
    assert v.range == r;
    forall k | 0 <= k < |list| ensures Before(r, At(r, k)) {
      assert At(r, k) == k;
    }
    assert At(r, |list|) == |list|;
    LengthByPositions(r, |list|);
    var m := Materialize(v);
    forall k | 0 <= k < |list| ensures m[k] == list[k] {
      ElementsAt(r, k);
      assert Elements(r)[k] == k;
    }
    assert m == list;
  }

  /** `view[idx]` for an integer: `list[range[idx]]`, negative indices
      counting from the end. */
  function ViewGet<T>(v: ListView<T>, idx: int): (r: Result<T>)
    requires ViewOk(v)
    ensures r.Ok? <==> -(Len(v) as int) <= idx < Len(v)
    ensures r.Err? ==> r.error == IndexError
    ensures r.Ok? ==> r.value == Materialize(v)[if idx < 0 then Len(v) + idx else idx]
  {
    match RegulateIndex(idx, Len(v))
    case Err(e) => Err(e)
    case Ok(i) =>
      assert Elements(v.range)[i] in Elements(v.range);
      Ok(v.list[Elements(v.range)[i]])
  }

  /** `view[s]` for a slice: the regulated slice of the view's own positions,
      mapped through its range into a new view of the same list. */
  function ViewSlice<T>(v: ListView<T>, s: Slice): (r: Result<ListView<T>>)
    requires ViewOk(v)
    ensures r.Ok? ==> ViewOk(r.value)
  {
    match SliceToRange(s, Len(v))
    case Err(e) => Err(e)
    case Ok(r0) =>
      var q := RegulateRange(r0, Len(v));
      if !Continues(q) then Ok(MakeView([], None))
      else
        var base := v.range;
        var start := At(base, q.start);
        var step := base.step * q.step;
        MulNonZero(base.step, q.step);
        var stop :=
          if q.stop >= 0 then base.start + base.step * q.stop
          else
            assert q.stop == -1 && q.step < 0;
            if base.step > 0 then base.start - 1 else base.start + 1;
        Ok(MakeView(v.list, Some(Range(start, stop, step))))
  }

  // ---------------------------------------------------------------------
  // Arithmetic behind ViewSlice

  lemma {:induction false} MulNonZero(a: int, b: int)
    requires a != 0 && b != 0
    ensures a * b != 0
    ensures a * b > 0 <==> (a > 0) == (b > 0)
  {
    if a > 0 && b > 0 {
      assert a * b > 0;
    } else if a > 0 && b < 0 {
      assert a * (-b) > 0;
    } else if a < 0 && b > 0 {
      assert (-a) * b > 0;
    } else {
      assert (-a) * (-b) > 0;
    }
  }

  /** Multiplying by a positive factor keeps the order; by a negative one,
      reverses it. */
  lemma {:induction false} MulOrder(m: int, a: int, b: int)
    requires m != 0
    ensures m > 0 ==> (a < b <==> m * a < m * b)
    ensures m < 0 ==> (a < b <==> m * a > m * b)
  {
    assert m * b - m * a == m * (b - a);
    if a < b {
      MulNonZero(m, b - a);
    } else if a > b {
      MulNonZero(m, a - b);
      assert m * a - m * b == m * (a - b);
    }
  }

  /** Positions of the sliced range are the base positions of the slice's
      positions. */
  lemma {:induction false} AtCompose(base: Range, q: Range, k: int)
    ensures At(Range(At(base, q.start), 0, base.step * q.step), k) == At(base, At(q, k))
  {
    calc {
      At(base, At(q, k));
      base.start + (q.start + k * q.step) * base.step;
      base.start + q.start * base.step + (k * q.step) * base.step;
      { assert (k * q.step) * base.step == k * (base.step * q.step); }
      At(base, q.start) + k * (base.step * q.step);
    }
  }

  /** The sliced range stops exactly where the slice's positions do. */
  lemma {:induction false} BeforeCompose(base: Range, q: Range, stop: int, x: int)
    requires base.step != 0 && q.step != 0
    requires q.stop >= 0 || (q.stop == -1 && q.step < 0)
    requires stop == if q.stop >= 0 then base.start + base.step * q.stop
      else if base.step > 0 then base.start - 1 else base.start + 1
    ensures Before(Range(0, stop, base.step * q.step), At(base, x)) <==> Before(q, x)
  {
    MulNonZero(base.step, q.step);
    assert x * base.step == base.step * x;
    if q.stop >= 0 {
      MulOrder(base.step, x, q.stop);
      MulOrder(base.step, q.stop, x);
    } else if base.step > 0 {
      MulOrder(base.step, x, 0);
      MulOrder(base.step, -1, x);
    } else {
      MulOrder(base.step, x, 0);
      MulOrder(base.step, 0, x);
      MulOrder(base.step, x, -1);
    }
  }

  /** Regulating a non-empty range whose values all lie inside the sequence
      changes none of its values. */
  lemma {:induction false} RegulateKeeps(r: Range, n: int)
    requires r.step != 0 && Continues(r)
    requires forall x :: x in Elements(r) ==> 0 <= x < n
    ensures Elements(RegulateRange(r, n)) == Elements(r)
  {
    var q := RegulateRange(r, n);
    var L := |Elements(r)|;
    assert r.start in Elements(r);
    assert q.start == r.start && q.step == r.step;
    PositionsOfLength(r);
    forall k | 0 <= k < L ensures Before(q, At(q, k)) {
      ElementsAt(r, k);
      assert Elements(r)[k] in Elements(r);
    }
    LengthByPositions(q, L);
    forall k | 0 <= k < L ensures Elements(q)[k] == Elements(r)[k] {
      ElementsAt(r, k);
      ElementsAt(q, k);
    }
  }

  /** The range a slice of a view is mapped to has one value per position
      of the slice: the base range's value at that position. */
  lemma {:induction false} SlicedPositions(base: Range, q: Range, stop: int)
    requires base.step != 0 && q.step != 0 && Continues(q)
    requires q.stop >= 0 || (q.stop == -1 && q.step < 0)
    requires stop == if q.stop >= 0 then base.start + base.step * q.stop
      else if base.step > 0 then base.start - 1 else base.start + 1
    requires forall x :: x in Elements(q) ==> 0 <= x < |Elements(base)|
    ensures base.step * q.step != 0
    ensures var R := Range(At(base, q.start), stop, base.step * q.step);
      |Elements(R)| == |Elements(q)| &&
      forall k :: 0 <= k < |Elements(q)| ==>
        Elements(q)[k] in Elements(q) && Elements(R)[k] == Elements(base)[Elements(q)[k]]
  {
    MulNonZero(base.step, q.step);
    var R := Range(At(base, q.start), stop, base.step * q.step);
    var L := |Elements(q)|;
    PositionsOfLength(q);
    forall k | 0 <= k <= L
      ensures Before(R, At(R, k)) <==> Before(q, At(q, k))
    {
      AtCompose(base, q, k);
      BeforeCompose(base, q, stop, At(q, k));
    }
    LengthByPositions(R, L);
    forall k | 0 <= k < L
      ensures Elements(q)[k] in Elements(q) && Elements(R)[k] == Elements(base)[Elements(q)[k]]
    {
      assert Elements(q)[k] in Elements(q);
      ElementsAt(R, k);
      ElementsAt(q, k);
      ElementsAt(base, Elements(q)[k]);
      AtCompose(base, q, k);
    }
  }

  /** A non-empty regulated slice of a view: the new view shows the
      view's elements at the slice's positions. */
  lemma {:induction false} NonEmptySlice<T>(v: ListView<T>, s: Slice)
    requires ViewOk(v)
    requires SliceToRange(s, Len(v)).Ok?
    requires Continues(RegulateRange(SliceToRange(s, Len(v)).value, Len(v)))
    ensures ViewSlice(v, s).Ok?
    ensures var q := RegulateRange(SliceToRange(s, Len(v)).value, Len(v));
      (forall x :: x in Elements(q) ==> 0 <= x < Len(v)) &&
      Materialize(ViewSlice(v, s).value) == Pick(Materialize(v), Elements(q))
  {
    var n := Len(v);
    var r0 := SliceToRange(s, n).value;
    var q := RegulateRange(r0, n);
    RegulatedInBounds(r0, n);
    var base := v.range;
    var stop :=
      if q.stop >= 0 then base.start + base.step * q.stop
      else if base.step > 0 then base.start - 1 else base.start + 1;
    SlicedPositions(base, q, stop);
    var R := Range(At(base, q.start), stop, base.step * q.step);
    assert ViewSlice(v, s).value == MakeView(v.list, Some(R));
    assert R.start in Elements(R);
    forall x | x in Elements(R) ensures 0 <= x < |v.list| {
      var k :| 0 <= k < |Elements(R)| && Elements(R)[k] == x;
      assert Elements(base)[Elements(q)[k]] in Elements(base);
    }
    RegulateKeeps(R, |v.list|);
    var got := Materialize(ViewSlice(v, s).value);
    var want := Pick(Materialize(v), Elements(q));
    forall k | 0 <= k < |Elements(q)| ensures got[k] == want[k] {
      assert Elements(q)[k] in Elements(q);
    }
  }

  /** Slicing a view gives a view of exactly the elements that slicing its
      materialised list gives; on a non-empty view a zero step is refused
      just as Python refuses it. */
  lemma {:induction false} ViewSliceMatches<T>(v: ListView<T>, s: Slice)
    requires ViewOk(v) && Len(v) >= 1
    ensures ViewSlice(v, s).Err? <==> PySlice(Materialize(v), s).Err?
    ensures ViewSlice(v, s).Ok? ==>
      Materialize(ViewSlice(v, s).value) == PySlice(Materialize(v), s).value
  {
    var n := Len(v);
    SliceMatchesPython(s, n);
    if SliceToRange(s, n).Ok? {
      var q := RegulateRange(SliceToRange(s, n).value, n);
      var p := PyIndices(s, n).value;
      assert Elements(q) == Elements(p);
      if !Continues(q) {
        WholeView<T>([]);
      } else {
        NonEmptySlice(v, s);
      }
    }
  }

  // ---------------------------------------------------------------------
  // ChainListView

  /** The elements of a chain of sequences, one after another. */
  function Flatten<T>(parts: seq<seq<T>>): seq<T> {
    if |parts| == 0 then [] else parts[0] + Flatten(parts[1..])
  }

  /** `ChainListView(*views)._len`: the sum of the parts' lengths, which is
      the length of their concatenation. */
  function ChainLen<T>(parts: seq<seq<T>>): (n: nat)
    ensures n == |Flatten(parts)|
  {
    if |parts| == 0 then 0 else |parts[0]| + ChainLen(parts[1..])
  }

  lemma {:induction false} FlattenFrom<T>(parts: seq<seq<T>>, n: nat)
    requires n < |parts|
    ensures Flatten(parts[n..]) == parts[n] + Flatten(parts[n + 1..])
  {
    assert parts[n..][1..] == parts[n + 1..];
  }

  /** Flattening distributes over concatenation of the parts. */
  lemma {:induction false} FlattenConcat<T>(a: seq<seq<T>>, b: seq<seq<T>>)
    ensures Flatten(a + b) == Flatten(a) + Flatten(b)
    decreases |a|
  {
    if |a| > 0 {
      assert (a + b)[0] == a[0];
      assert (a + b)[1..] == a[1..] + b;
      FlattenConcat(a[1..], b);
    } else {
      assert a + b == b;
    }
  }

  /** `chain[idx]` for an integer: past the parts that lie wholly before the
      index, into the part that holds it. */
  method ChainGet<T>(parts: seq<seq<T>>, idx: int) returns (r: Result<T>)
    ensures r.Ok? <==> -(ChainLen(parts) as int) <= idx < ChainLen(parts)
    ensures r.Err? ==> r.error == IndexError
    ensures r.Ok? ==> r.value == Flatten(parts)[if idx < 0 then ChainLen(parts) + idx else idx]
  {
    var reg := RegulateIndex(idx, ChainLen(parts));
    if reg.Err? {
      return Err(reg.error);
    }
    var i := reg.value;
    var n := 0;
    assert parts[0..] == parts;
    FlattenFrom(parts, 0);
    while i >= |parts[n]|
      invariant 0 <= n < |parts|
      invariant 0 <= i < |Flatten(parts[n..])|
      invariant Flatten(parts[n..])[i] == Flatten(parts)[reg.value]
      invariant Flatten(parts[n..]) == parts[n] + Flatten(parts[n + 1..])
      decreases |parts| - n
    {
      i := i - |parts[n]|;
      n := n + 1;
      FlattenFrom(parts, n);
    }
    return Ok(parts[n][i]);
  }

  /** Every position of `r` is an index of a sequence of length `n`. */
  ghost predicate InBounds(r: Range, n: int) {
    r.step != 0 && forall x :: x in Elements(r) ==> 0 <= x < n
  }

  lemma {:induction false} PickConcat<T>(xs: seq<T>, a: seq<int>, b: seq<int>)
    requires forall x :: x in a ==> 0 <= x < |xs|
    requires forall x :: x in b ==> 0 <= x < |xs|
    ensures Pick(xs, a + b) == Pick(xs, a) + Pick(xs, b)
  {
    assert Pick(xs, a + b) == Pick(xs, a) + Pick(xs, b) by {
      forall k | 0 <= k < |a + b|
        ensures Pick(xs, a + b)[k] == (Pick(xs, a) + Pick(xs, b))[k]
      {
        if k >= |a| {
          assert (a + b)[k] == b[k - |a|];
        }
      }
    }
  }

  lemma AppendAssoc<T>(a: seq<T>, b: seq<T>, c: seq<T>)
    ensures (a + b) + c == a + (b + c)
  {
  }

  /** Picking along a progression that crosses bound `b` is picking up to
      `b`, then picking along the rest. */
  lemma {:induction false} PickSplit<T>(xs: seq<T>, r: Range, b: int)
    requires r.step != 0
    requires r.step > 0 ==> 0 <= r.start && b <= r.stop <= |xs|
    requires r.step < 0 ==> r.start < |xs| && r.stop <= b && -1 <= r.stop
    ensures var first := Range(r.start, b, r.step);
      var rest := Range(r.start + |Elements(first)| * r.step, r.stop, r.step);
      InBounds(r, |xs|) && InBounds(first, |xs|) && InBounds(rest, |xs|) &&
      Pick(xs, Elements(r)) == Pick(xs, Elements(first)) + Pick(xs, Elements(rest))
  {
    var first := Range(r.start, b, r.step);
    var rest := Range(r.start + |Elements(first)| * r.step, r.stop, r.step);
    var e, ef, er := Elements(r), Elements(first), Elements(rest);
    assert e == ef + er by {
      ElementsSplit(r, b);
    }
    ElementsBetween(r, 0, |xs|);
    forall x | x in ef
      ensures 0 <= x < |xs|
    {
      assert x in e;
    }
    forall x | x in er
      ensures 0 <= x < |xs|
    {
      assert x in e;
    }
    PickConcat(xs, ef, er);
  }

  /** The positions of `r` that fall inside part `n` of a chain pick the
      same elements from that part, counted from its own start. */
  lemma {:induction false} PartWindow<T>(parts: seq<seq<T>>, n: nat, r: Range)
    requires n < |parts|
    requires r.step != 0
    requires var o := |Flatten(parts[..n])|;
      (r.step > 0 ==> o <= r.start && r.stop <= o + |parts[n]|) &&
      (r.step < 0 ==> r.start < o + |parts[n]| && o <= r.stop + 1)
    ensures InBounds(r, |Flatten(parts)|)
    ensures var o := |Flatten(parts[..n])|;
      InBounds(Range(r.start - o, r.stop - o, r.step), |parts[n]|) &&
      Pick(Flatten(parts), Elements(r)) == Pick(parts[n], Elements(Range(r.start - o, r.stop - o, r.step)))
  {
    var o := |Flatten(parts[..n])|;
    var e := Elements(r);
    var f := Elements(Range(r.start - o, r.stop - o, r.step));
    assert parts[..n + 1] == parts[..n] + [parts[n]];
    FlattenConcat(parts[..n], [parts[n]]);
    assert Flatten([parts[n]]) == parts[n] + Flatten([parts[n]][1..]);
    assert parts == parts[..n + 1] + parts[n + 1..];
    FlattenConcat(parts[..n + 1], parts[n + 1..]);
    var whole := Flatten(parts);
    assert whole == Flatten(parts[..n]) + parts[n] + Flatten(parts[n + 1..]);
    ElementsBetween(r, o, o + |parts[n]|);
    ElementsShift(r, o);
    assert forall x :: x in f ==> 0 <= x < |parts[n]| by {
      forall x | x in f
        ensures 0 <= x < |parts[n]|
      {
        var i :| 0 <= i < |f| && f[i] == x;
        assert e[i] in e;
      }
    }
    forall i | 0 <= i < |e|
      ensures Pick(whole, e)[i] == Pick(parts[n], f)[i]
    {
      assert e[i] in e;
      assert whole[e[i]] == parts[n][e[i] - o];
    }
  }

  lemma {:induction false} FlattenSnoc<T>(acc: seq<seq<T>>, piece: seq<T>)
    ensures Flatten(acc + [piece]) == Flatten(acc) + piece
  {
    FlattenConcat(acc, [piece]);
    assert Flatten([piece]) == piece + Flatten([piece][1..]);
  }

  /** The offset of part `n + 1` is that of part `n` plus its length. */
  lemma {:induction false} OffsetStep<T>(parts: seq<seq<T>>, n: nat)
    requires n < |parts|
    ensures |Flatten(parts[..n + 1])| == |Flatten(parts[..n])| + |parts[n]|
  {
    assert parts[..n + 1] == parts[..n] + [parts[n]];
    FlattenSnoc(parts[..n], parts[n]);
  }

  /** The last part a forward slice touches: the range ends inside it. */
  lemma {:induction false} ForwardLast<T>(parts: seq<seq<T>>, whole: seq<T>, n: nat, o: int,
                                         start: int, stop: int, step: int)
    requires n < |parts| && whole == Flatten(parts) && o == |Flatten(parts[..n])|
    requires step > 0 && 0 <= start < stop <= |parts[n]|
    ensures InBounds(Range(o + start, o + stop, step), |whole|)
    ensures PySlice(parts[n], Slice(Some(start), Some(stop), Some(step))) ==
      Ok(Pick(whole, Elements(Range(o + start, o + stop, step))))
  {
    var r := Range(o + start, o + stop, step);
    PartWindow(parts, n, r);
    assert Range(r.start - o, r.stop - o, step) == Range(start, stop, step);
  }

  /** A part a forward slice runs past: it contributes `v[start::step]`,
      and the range resumes at the first position past the part. */
  lemma {:induction false} ForwardMiddle<T>(parts: seq<seq<T>>, whole: seq<T>, n: nat, o: int,
                                           start: int, stop: int, step: int, piece: seq<T>)
    requires n < |parts| && whole == Flatten(parts) && o == |Flatten(parts[..n])|
    requires step > 0 && 0 <= start < |parts[n]| < stop && o + stop <= |whole|
    requires PySlice(parts[n], Slice(Some(start), None, Some(step))) == Ok(piece)
    ensures start + |piece| * step >= |parts[n]|
    ensures InBounds(Range(o + start, o + stop, step), |whole|)
    ensures InBounds(Range(o + start + |piece| * step, o + stop, step), |whole|)
    ensures Pick(whole, Elements(Range(o + start, o + stop, step))) ==
      piece + Pick(whole, Elements(Range(o + start + |piece| * step, o + stop, step)))
  {
    var k := |parts[n]|;
    var r := Range(o + start, o + stop, step);
    var first := Range(o + start, o + k, step);
    PartWindow(parts, n, first);
    assert Range(first.start - o, first.stop - o, step) == Range(start, k, step);
    assert piece == Pick(parts[n], Elements(Range(start, k, step)));
    var newstart := start + |piece| * step;
    PositionsOfLength(Range(start, k, step));
    assert At(Range(start, k, step), |piece|) == newstart;
    ElementsSplit(r, o + k);
    var rest := Range(o + newstart, o + stop, step);
    assert o + start + |Elements(first)| * step == o + newstart;
    ElementsBetween(r, 0, |whole|);
    ElementsBetween(rest, 0, |whole|);
    PickConcat(whole, Elements(first), Elements(rest));
  }

  /** The state of the forward walk before part `n`, at offset `o`: the
      parts collected so far followed by the positions still to pick make the
      whole slice `target`. */
  ghost predicate Walk<T>(parts: seq<seq<T>>, whole: seq<T>, target: seq<T>, n: int, o: int,
                          start: int, stop: int, step: int, views: seq<seq<T>>)
  {
    0 <= n < |parts| && whole == Flatten(parts) && o == |Flatten(parts[..n])| &&
    step > 0 && 0 <= start < stop && o + stop <= |whole| &&
    InBounds(Range(o + start, o + stop, step), |whole|) &&
    Flatten(views) + Pick(whole, Elements(Range(o + start, o + stop, step))) == target
  }

  /** A part wholly before `start` is skipped. */
  lemma {:induction false} SkipPart<T>(parts: seq<seq<T>>, whole: seq<T>, target: seq<T>, n: int, o: int,
                                      start: int, stop: int, step: int, views: seq<seq<T>>)
    requires Walk(parts, whole, target, n, o, start, stop, step, views)
    requires start >= |parts[n]|
    ensures Walk(parts, whole, target, n + 1, o + |parts[n]|, start - |parts[n]|, stop - |parts[n]|, step, views)
  {
    var k := |parts[n]|;
    OffsetStep(parts, n);
    assert Range(o + k + (start - k), o + k + (stop - k), step) == Range(o + start, o + stop, step);
    assert parts[..|parts|] == parts;
  }

  /** The part where the range ends contributes `v[start:stop:step]`, which
      completes the slice. */
  lemma {:induction false} LastPart<T>(parts: seq<seq<T>>, whole: seq<T>, target: seq<T>, n: int, o: int,
                                      start: int, stop: int, step: int, views: seq<seq<T>>)
    requires Walk(parts, whole, target, n, o, start, stop, step, views)
    requires start < |parts[n]| && stop <= |parts[n]|
    ensures PySlice(parts[n], Slice(Some(start), Some(stop), Some(step))).Ok?
    ensures Flatten(views + [PySlice(parts[n], Slice(Some(start), Some(stop), Some(step))).value]) == target
  {
    ForwardLast(parts, whole, n, o, start, stop, step);
    FlattenSnoc(views, PySlice(parts[n], Slice(Some(start), Some(stop), Some(step))).value);
  }

  /** A part the range runs past contributes `v[start::step]`; the walk
      resumes past it unless the range is exhausted. */
  lemma {:induction false} MiddlePart<T>(parts: seq<seq<T>>, whole: seq<T>, target: seq<T>, n: int, o: int,
                                        start: int, stop: int, step: int, views: seq<seq<T>>, piece: seq<T>)
    requires Walk(parts, whole, target, n, o, start, stop, step, views)
    requires start < |parts[n]| < stop
    requires PySlice(parts[n], Slice(Some(start), None, Some(step))) == Ok(piece)
    ensures start + |piece| * step >= |parts[n]|
    ensures start + |piece| * step >= stop ==> Flatten(views + [piece]) == target
    ensures start + |piece| * step < stop ==>
      Walk(parts, whole, target, n + 1, o + |parts[n]|, start + |piece| * step - |parts[n]|,
           stop - |parts[n]|, step, views + [piece])
  {
    var k := |parts[n]|;
    var newstart := start + |piece| * step;
    var later := Range(o + newstart, o + stop, step);
    assert newstart >= k && InBounds(later, |whole|) &&
           Flatten(views + [piece]) + Pick(whole, Elements(later)) == target by {
      ForwardMiddle(parts, whole, n, o, start, stop, step, piece);
      FlattenSnoc(views, piece);
      AppendAssoc(Flatten(views), piece, Pick(whole, Elements(later)));
    }
    if newstart >= stop {
      assert Elements(later) == [];
    } else {
      assert Walk(parts, whole, target, n + 1, o + k, newstart - k, stop - k, step, views + [piece]) by {
        OffsetStep(parts, n);
        assert Range(o + k + (newstart - k), o + k + (stop - k), step) == later;
        assert parts[..|parts|] == parts;
      }
    }
  }

  /** The positive-step walk of `ChainListView[slice]`: parts that lie
      wholly before `start` are skipped; each part that holds positions of
      the range contributes its own slice. */
  method ChainSliceForward<T>(parts: seq<seq<T>>, q: Range) returns (views: seq<seq<T>>)
    requires q.step > 0 && 0 <= q.start < q.stop <= ChainLen(parts)
    ensures InBounds(q, |Flatten(parts)|)
    ensures Flatten(views) == Pick(Flatten(parts), Elements(q))
  {
    ghost var whole := Flatten(parts);
    ElementsBetween(q, 0, |whole|);
    ghost var target := Pick(whole, Elements(q));
    var step := q.step;
    var start := q.start;
    var stop := q.stop;
    views := [];
    var n := 0;
    ghost var o := 0;
    assert parts[..0] == [];
    assert Walk(parts, whole, target, n, o, start, stop, step, views);
    while true
      invariant Walk(parts, whole, target, n, o, start, stop, step, views)
      decreases |parts| - n
    {
      var v := parts[n];
      var k := |v|;
      if start >= k {
        SkipPart(parts, whole, target, n, o, start, stop, step, views);
        start := start - k;
        stop := stop - k;
      } else if stop <= k {
        LastPart(parts, whole, target, n, o, start, stop, step, views);
        views := views + [PySlice(v, Slice(Some(start), Some(stop), Some(step))).value];
        break;
      } else {
        var piece := PySlice(v, Slice(Some(start), None, Some(step))).value;
        MiddlePart(parts, whole, target, n, o, start, stop, step, views, piece);
        views := views + [piece];
        var newstart := start + |piece| * step;
        assert newstart >= k;
        if newstart >= stop {
          break;
        }
        start := newstart - k;
        stop := stop - k;
      }
      o := o + k;
      n := n + 1;
    }
  }

  /** The state of the backward walk before part `m`, whose end is at offset
      `w`; `start` and `stop` count from that end, as negative numbers. */
  ghost predicate BackWalk<T>(parts: seq<seq<T>>, whole: seq<T>, target: seq<T>, m: int, w: int,
                              start: int, stop: int, step: int, views: seq<seq<T>>)
  {
    0 <= m < |parts| && whole == Flatten(parts) && w == |Flatten(parts[..m + 1])| &&
    w <= |whole| && step < 0 && 0 <= w + start && start < 0 && stop < start && -1 <= w + stop &&
    InBounds(Range(w + start, w + stop, step), |whole|) &&
    Flatten(views) + Pick(whole, Elements(Range(w + start, w + stop, step))) == target
  }

  /** A part wholly after `start` is skipped. */
  lemma {:induction false} BackSkip<T>(parts: seq<seq<T>>, whole: seq<T>, target: seq<T>, m: int, w: int,
                                      start: int, stop: int, step: int, views: seq<seq<T>>)
    requires BackWalk(parts, whole, target, m, w, start, stop, step, views)
    requires -start > |parts[m]|
    ensures BackWalk(parts, whole, target, m - 1, w - |parts[m]|, start + |parts[m]|, stop + |parts[m]|, step, views)
  {
    var k := |parts[m]|;
    OffsetStep(parts, m);
    assert parts[..0] == [];
    assert Range(w - k + (start + k), w - k + (stop + k), step) == Range(w + start, w + stop, step);
  }

  /** The part where the range ends contributes `v[start:stop:step]`, which
      completes the slice. */
  lemma {:induction false} BackLast<T>(parts: seq<seq<T>>, whole: seq<T>, target: seq<T>, m: int, w: int,
                                      start: int, stop: int, step: int, views: seq<seq<T>>)
    requires BackWalk(parts, whole, target, m, w, start, stop, step, views)
    requires -start <= |parts[m]| && -stop <= |parts[m]| + 1
    ensures PySlice(parts[m], Slice(Some(start), Some(stop), Some(step))).Ok?
    ensures Flatten(views + [PySlice(parts[m], Slice(Some(start), Some(stop), Some(step))).value]) == target
  {
    var k := |parts[m]|;
    var r := Range(w + start, w + stop, step);
    var piece := PySlice(parts[m], Slice(Some(start), Some(stop), Some(step))).value;
    assert piece == Pick(whole, Elements(r)) by {
      OffsetStep(parts, m);
      PartWindow(parts, m, r);
      assert Range(r.start - (w - k), r.stop - (w - k), step) == Range(k + start, k + stop, step);
    }
    FlattenSnoc(views, piece);
  }

  /** `v[start::step]` with a negative step and a negative `start`: the
      positions from `len(v) + start` down to the first element. */
  lemma {:induction false} BackPiece<T>(parts: seq<seq<T>>, whole: seq<T>, m: int, w: int,
                                       start: int, step: int, piece: seq<T>)
    requires 0 <= m < |parts| && whole == Flatten(parts) && w == |Flatten(parts[..m + 1])|
    requires step < 0 && -|parts[m]| <= start < 0
    requires PySlice(parts[m], Slice(Some(start), None, Some(step))) == Ok(piece)
    ensures start + |piece| * step < -|parts[m]|
    ensures InBounds(Range(w + start, w - |parts[m]| - 1, step), |whole|)
    ensures |piece| == |Elements(Range(w + start, w - |parts[m]| - 1, step))|
    ensures piece == Pick(whole, Elements(Range(w + start, w - |parts[m]| - 1, step)))
  {
    var k := |parts[m]|;
    var first := Range(w + start, w - k - 1, step);
    OffsetStep(parts, m);
    PartWindow(parts, m, first);
    assert Range(first.start - (w - k), first.stop - (w - k), step) == Range(k + start, -1, step);
    assert piece == Pick(parts[m], Elements(Range(k + start, -1, step)));
    PositionsOfLength(Range(k + start, -1, step));
    assert At(Range(k + start, -1, step), |piece|) == k + start + |piece| * step;
  }

  /** A part the range runs past contributes `v[start::step]`, down to its
      first element; the positions picked from it take `start` past the
      part's beginning. */
  lemma {:induction false} BackwardMiddle<T>(parts: seq<seq<T>>, whole: seq<T>, m: int, w: int,
                                            start: int, stop: int, step: int, piece: seq<T>)
    requires 0 <= m < |parts| && whole == Flatten(parts) && w == |Flatten(parts[..m + 1])| && w <= |whole|
    requires step < 0 && 0 <= w + start && -|parts[m]| <= start < 0 && -1 <= w + stop
    requires stop < -|parts[m]| - 1
    requires PySlice(parts[m], Slice(Some(start), None, Some(step))) == Ok(piece)
    ensures start + |piece| * step < -|parts[m]|
    ensures InBounds(Range(w + start, w + stop, step), |whole|)
    ensures InBounds(Range(w + start + |piece| * step, w + stop, step), |whole|)
    ensures Pick(whole, Elements(Range(w + start, w + stop, step))) ==
      piece + Pick(whole, Elements(Range(w + start + |piece| * step, w + stop, step)))
  {
    var k := |parts[m]|;
    var r := Range(w + start, w + stop, step);
    BackPiece(parts, whole, m, w, start, step, piece);
    PickSplit(whole, r, w - k - 1);
  }

  /** The backward walk past a part: it resumes before the part unless the
      range is exhausted. */
  lemma {:induction false} BackMiddle<T>(parts: seq<seq<T>>, whole: seq<T>, target: seq<T>, m: int, w: int,
                                        start: int, stop: int, step: int, views: seq<seq<T>>, piece: seq<T>)
    requires BackWalk(parts, whole, target, m, w, start, stop, step, views)
    requires -start <= |parts[m]| && -stop > |parts[m]| + 1
    requires PySlice(parts[m], Slice(Some(start), None, Some(step))) == Ok(piece)
    ensures -(start + |piece| * step) > |parts[m]|
    ensures start + |piece| * step <= stop ==> Flatten(views + [piece]) == target
    ensures start + |piece| * step > stop ==>
      BackWalk(parts, whole, target, m - 1, w - |parts[m]|, start + |piece| * step + |parts[m]|,
               stop + |parts[m]|, step, views + [piece])
  {
    var k := |parts[m]|;
    var newstart := start + |piece| * step;
    var later := Range(w + newstart, w + stop, step);
    assert newstart < -k && InBounds(later, |whole|) &&
           Flatten(views + [piece]) + Pick(whole, Elements(later)) == target by {
      BackwardMiddle(parts, whole, m, w, start, stop, step, piece);
      FlattenSnoc(views, piece);
      AppendAssoc(Flatten(views), piece, Pick(whole, Elements(later)));
    }
    if newstart <= stop {
      assert Elements(later) == [];
    } else {
      assert BackWalk(parts, whole, target, m - 1, w - k, newstart + k, stop + k, step, views + [piece]) by {
        OffsetStep(parts, m);
        assert parts[..0] == [];
        assert Range(w - k + (newstart + k), w - k + (stop + k), step) == later;
      }
    }
  }

  /** The negative-step walk of `ChainListView[slice]`: from the last part
      backwards, with `start` and `stop` counted from the end. */
  method ChainSliceBackward<T>(parts: seq<seq<T>>, q: Range) returns (views: seq<seq<T>>)
    requires q.step < 0 && -1 <= q.stop < q.start < ChainLen(parts)
    ensures InBounds(q, |Flatten(parts)|)
    ensures Flatten(views) == Pick(Flatten(parts), Elements(q))
  {
    ghost var whole := Flatten(parts);
    ElementsBetween(q, 0, |whole|);
    ghost var target := Pick(whole, Elements(q));
    var total := ChainLen(parts);
    var step := q.step;
    var start := q.start - total;
    var stop := q.stop - total;
    views := [];
    var m := |parts| - 1;
    ghost var w := total;
    assert parts[..|parts|] == parts;
    assert Range(w + start, w + stop, step) == q;
    assert BackWalk(parts, whole, target, m, w, start, stop, step, views);
    while true
      invariant BackWalk(parts, whole, target, m, w, start, stop, step, views)
      decreases m
    {
      var v := parts[m];
      var k := |v|;
      if -start > k {
        BackSkip(parts, whole, target, m, w, start, stop, step, views);
        start := start + k;
        stop := stop + k;
      } else if -stop <= k + 1 {
        BackLast(parts, whole, target, m, w, start, stop, step, views);
        views := views + [PySlice(v, Slice(Some(start), Some(stop), Some(step))).value];
        break;
      } else {
        var piece := PySlice(v, Slice(Some(start), None, Some(step))).value;
        BackMiddle(parts, whole, target, m, w, start, stop, step, views, piece);
        views := views + [piece];
        var newstart := start + |piece| * step;
        assert -newstart > k;
        if newstart <= stop {
          break;
        }
        start := newstart + k;
        stop := stop + k;
      }
      w := w - k;
      m := m - 1;
    }
  }

  /** `chain[s]` for a slice: the regulated range of the whole chain, cut
      into one slice per part it touches.  The new chain holds exactly the
      elements Python's slice selects from the concatenation, and is as
      long as the regulated range. */
  method ChainSlice<T>(parts: seq<seq<T>>, s: Slice) returns (r: Result<seq<seq<T>>>)
    ensures r.Err? <==> SliceToRange(s, ChainLen(parts)).Err?
    ensures r.Err? ==> r.error == ValueError
    ensures ChainLen(parts) == 0 ==> r == Ok([[]])
    ensures ChainLen(parts) >= 1 ==> (r.Err? <==> PySlice(Flatten(parts), s).Err?)
    ensures ChainLen(parts) >= 1 && r.Ok? ==> PySlice(Flatten(parts), s) == Ok(Flatten(r.value))
    ensures r.Ok? ==>
      ChainLen(r.value) == |Elements(RegulateRange(SliceToRange(s, ChainLen(parts)).value, ChainLen(parts)))|
  {
    var n := ChainLen(parts);
    var rr := SliceToRange(s, n);
    if rr.Err? {
      return Err(rr.error);
    }
    var q := RegulateRange(rr.value, n);
    RegulatedInBounds(rr.value, n);
    if n >= 1 {
      SliceMatchesPython(s, n);
    }
    if |Elements(q)| == 0 {
      var none: seq<seq<T>> := [[]];
      assert Flatten(none) == none[0] + Flatten(none[1..]);
      return Ok(none);
    }
    assert Continues(q);
    var views;
    if q.step > 0 {
      views := ChainSliceForward(parts, q);
    } else {
      views := ChainSliceBackward(parts, q);
    }
    return Ok(views);
  }
}
