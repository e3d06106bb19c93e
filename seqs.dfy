/** The list utilities `flatten` and `ordered_dedupe` of utilities/list.py
    and `all_distinct` of src/zpz/iter.py. */
module Seqs {

  // ---------------------------------------------------------------------
  // flatten

  /** An element of a Python list that `flatten` looks at: a nested list,
      or any other value. */
  datatype Item<T> = Atom(value: T) | Nested(items: seq<Item<T>>)

  /** No element is a list. */
  predicate Flat<T>(xs: seq<Item<T>>) {
    forall i :: 0 <= i < |xs| ==> xs[i].Atom?
  }

  /** `flatten(x)`: nested lists are replaced by their flattened contents,
      in place, at any depth. */
  function Flatten<T>(xs: seq<Item<T>>): (r: seq<Item<T>>)
    ensures Flat(r)
    decreases xs
  {
    if xs == [] then xs
    else if xs[0].Nested? then Flatten(xs[0].items) + Flatten(xs[1..])
    else xs[..1] + Flatten(xs[1..])
  }

  /** A list without nested lists is its own flattening. */
  lemma {:induction false} FlattenFlat<T>(xs: seq<Item<T>>)
    requires Flat(xs)
    ensures Flatten(xs) == xs
    decreases |xs|
  {
    if xs != [] {
      FlattenFlat(xs[1..]);
      assert xs == xs[..1] + xs[1..];
    }
  }

  /** Flattening distributes over concatenation. */
  lemma {:induction false} FlattenAppend<T>(a: seq<Item<T>>, b: seq<Item<T>>)
    ensures Flatten(a + b) == Flatten(a) + Flatten(b)
    decreases |a|
  {
    if a == [] {
      assert a + b == b;
    } else {
      var ab := a + b;
      assert ab != [] && ab[0] == a[0];
      assert ab[1..] == a[1..] + b;
      FlattenAppend(a[1..], b);
      if a[0].Nested? {
        assert Flatten(ab) == Flatten(a[0].items) + Flatten(ab[1..]);
      } else {
        assert ab[..1] == a[..1];
        assert Flatten(ab) == ab[..1] + Flatten(ab[1..]);
      }
    }
  }

  /** Flattening twice is flattening once. */
  lemma {:induction false} FlattenIdempotent<T>(xs: seq<Item<T>>)
    ensures Flatten(Flatten(xs)) == Flatten(xs)
  {
    FlattenFlat(Flatten(xs));
  }

  // ---------------------------------------------------------------------
  // ordered_dedupe

  /** `ordered_dedupe(x)`, the keys of `OrderedDict.fromkeys(x)`: each
      value once, where it first occurs. */
  function Dedupe<T(==)>(xs: seq<T>): (r: seq<T>)
    ensures |r| <= |xs|
    decreases |xs|
  {
    if |xs| == 0 then []
    else
      var init := xs[..|xs| - 1];
      var d := Dedupe(init);
      if xs[|xs| - 1] in init then d else d + [xs[|xs| - 1]]
  }

  /** No value occurs twice. */
  predicate Distinct<T(==)>(xs: seq<T>) {
    forall i, j :: 0 <= i < j < |xs| ==> xs[i] != xs[j]
  }

  /** The positions of first occurrences, in increasing order. */
  function FirstPositions<T(==)>(xs: seq<T>): (ps: seq<nat>)
    ensures forall k :: 0 <= k < |ps| ==> ps[k] < |xs|
    ensures forall j, k :: 0 <= j < k < |ps| ==> ps[j] < ps[k]
    decreases |xs|
  {
    if |xs| == 0 then []
    else
      var init := xs[..|xs| - 1];
      FirstPositions(init) + (if xs[|xs| - 1] in init then [] else [|xs| - 1])
  }

  /** `ordered_dedupe` keeps the same values, each once. */
  lemma {:induction false} DedupeSameValues<T>(xs: seq<T>)
    ensures Distinct(Dedupe(xs))
    ensures forall v :: v in Dedupe(xs) <==> v in xs
    decreases |xs|
  {
    if |xs| > 0 {
      var init := xs[..|xs| - 1];
      DedupeSameValues(init);
      assert xs == init + [xs[|xs| - 1]];
    }
  }

  /** `ordered_dedupe` keeps the first occurrences in their original order:
      its result is the input read at the positions where a value is seen
      for the first time. */
  lemma {:induction false} DedupeFirstOccurrences<T>(xs: seq<T>)
    ensures var ps := FirstPositions(xs);
      |Dedupe(xs)| == |ps| &&
      (forall k :: 0 <= k < |ps| ==> ps[k] < |xs| && Dedupe(xs)[k] == xs[ps[k]] && xs[ps[k]] !in xs[..ps[k]])
    decreases |xs|
  {
    if |xs| > 0 {
      var init := xs[..|xs| - 1];
      DedupeFirstOccurrences(init);
      var ps0, d0 := FirstPositions(init), Dedupe(init);
      var ps, d := FirstPositions(xs), Dedupe(xs);
      assert forall k :: 0 <= k < |ps0| ==> ps[k] == ps0[k] && d[k] == d0[k];
      forall k | 0 <= k < |ps0|
        ensures ps[k] < |xs| && d[k] == xs[ps[k]] && xs[ps[k]] !in xs[..ps[k]]
      {
        assert xs[..ps0[k]] == init[..ps0[k]];
      }
      if xs[|xs| - 1] !in init {
        assert ps == ps0 + [|xs| - 1] && d == d0 + [xs[|xs| - 1]];
        assert xs[..|xs| - 1] == init;
      }
    }
  }

  /** A list without duplicates is left as it is. */
  lemma {:induction false} DedupeDistinct<T>(xs: seq<T>)
    requires Distinct(xs)
    ensures Dedupe(xs) == xs
    decreases |xs|
  {
    if |xs| > 0 {
      var init := xs[..|xs| - 1];
      DedupeDistinct(init);
      assert xs == init + [xs[|xs| - 1]];
    }
  }

  /** Deduplicating twice is deduplicating once. */
  lemma {:induction false} DedupeIdempotent<T>(xs: seq<T>)
    ensures Dedupe(Dedupe(xs)) == Dedupe(xs)
  {
    DedupeSameValues(xs);
    DedupeDistinct(Dedupe(xs));
  }

  // ---------------------------------------------------------------------
  // all_distinct

  /** `all_distinct(x)`: the values go into a set one by one, and the first
      one already there ends the walk with `False`. */
  method AllDistinct<T(==)>(xs: seq<T>) returns (r: bool)
    ensures r <==> Distinct(xs)
  {
    var seen: set<T> := {};
    var i := 0;
    while i < |xs|
      invariant 0 <= i <= |xs|
      invariant seen == set k | 0 <= k < i :: xs[k]
      invariant Distinct(xs[..i])
    {
      if xs[i] in seen {
        var k :| 0 <= k < i && xs[k] == xs[i];
        return false;
      }
      DistinctSnoc(xs[..i], xs[i]);
      assert xs[..i + 1] == xs[..i] + [xs[i]];
      seen := seen + {xs[i]};
      i := i + 1;
    }
    assert xs[..i] == xs;
    return true;
  }

  /** One more value keeps a list without duplicates so exactly when it is
      new. */
  lemma {:induction false} DistinctSnoc<T>(xs: seq<T>, y: T)
    ensures Distinct(xs + [y]) <==> Distinct(xs) && y !in xs
  {
    var ys := xs + [y];
    if y in xs {
      var k :| 0 <= k < |xs| && xs[k] == y;
      assert ys[k] == ys[|xs|];
    }
    if Distinct(ys) {
      assert forall i, j :: 0 <= i < j < |xs| ==> xs[i] == ys[i] && xs[j] == ys[j];
    }
  }

  /** `all_distinct(x)` holds exactly when `ordered_dedupe(x)` is `x`. */
  lemma {:induction false} DistinctIffDedupeFixed<T>(xs: seq<T>)
    ensures Distinct(xs) <==> Dedupe(xs) == xs
  {
    if Distinct(xs) {
      DedupeDistinct(xs);
    }
    if Dedupe(xs) == xs {
      DedupeSameValues(xs);
    }
  }
}
