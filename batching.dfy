/** Cutting a sequence into consecutive batches, the shape shared by
    `batch_iterable` of src/zpz/iterate.py, `CachedAppendOnlyList.batches`
    of src/zpz/cachedlist.py and `Batcher` of src/coyote/streamer.py.

    `Chunks(xs, b)` is the reference: slices of `b` elements taken from the
    front, the last one shorter when `b` does not divide `|xs|`.
 */
module Batching {
  import opened Wrappers
  import opened Views

  /** Consecutive slices of `xs` with `b` elements each, except a shorter,
      non-empty last one. */
  function Chunks<T>(xs: seq<T>, b: nat): seq<seq<T>>
    requires b > 0
    decreases |xs|
  {
    if |xs| == 0 then []
    else if |xs| <= b then [xs]
    else [xs[..b]] + Chunks(xs[b..], b)
  }

  /** Concatenating the chunks gives back the sequence. */
  lemma {:induction false} ChunksFlatten<T>(xs: seq<T>, b: nat)
    requires b > 0
    ensures Flatten(Chunks(xs, b)) == xs
    decreases |xs|
  {
    var c := Chunks(xs, b);
    if |xs| == 0 {
    } else if |xs| <= b {
      assert Flatten(c) == xs + Flatten(c[1..]);
    } else {
      ChunksFlatten(xs[b..], b);
      assert c[1..] == Chunks(xs[b..], b);
      assert Flatten(c) == xs[..b] + Flatten(c[1..]);
      assert xs == xs[..b] + xs[b..];
    }
  }

  /** Every chunk but the last has exactly `b` elements; the last has between
      one and `b`. */
  lemma {:induction false} ChunksSizes<T>(xs: seq<T>, b: nat)
    requires b > 0
    ensures var c := Chunks(xs, b);
      (forall i :: 0 <= i < |c| - 1 ==> |c[i]| == b) &&
      (|c| > 0 ==> 0 < |c[|c| - 1]| <= b)
    decreases |xs|
  {
    if |xs| > b {
      ChunksSizes(xs[b..], b);
      var c := Chunks(xs, b);
      var rest := Chunks(xs[b..], b);
      assert c == [xs[..b]] + rest;
      forall i | 0 <= i < |c| - 1
        ensures |c[i]| == b
      {
        if i > 0 {
          assert c[i] == rest[i - 1];
        }
      }
    }
  }

  /** There are `ceil(|xs| / b)` chunks: `|c| - 1` whole chunks fall short
      of `|xs|`, and `|c|` of them cover it. */
  lemma {:induction false} ChunksCount<T>(xs: seq<T>, b: nat)
    requires b > 0
    ensures var n := |Chunks(xs, b)|; (n - 1) * b < |xs| <= n * b
    decreases |xs|
  {
    if |xs| > b {
      ChunksCount(xs[b..], b);
      var n := |Chunks(xs[b..], b)|;
      assert |Chunks(xs, b)| == n + 1;
      assert (n + 1) * b == n * b + b;
    }
  }

  /** A chunk appended after `q` whole chunks is one more chunk. */
  lemma {:induction false} ChunksSnoc<T>(xs: seq<T>, b: nat, q: nat, piece: seq<T>)
    requires b > 0 && |xs| == q * b
    requires 0 < |piece| <= b
    ensures Chunks(xs + piece, b) == Chunks(xs, b) + [piece]
    decreases q
  {
    if q == 0 {
      assert xs + piece == piece;
    } else {
      assert |xs| >= b by {
        assert q * b == (q - 1) * b + b;
      }
      var ys := xs + piece;
      assert |xs[b..]| == (q - 1) * b;
      ChunksSnoc(xs[b..], b, q - 1, piece);
      assert ys[..b] == xs[..b];
      assert ys[b..] == xs[b..] + piece;
      if |xs| == b {
        assert xs[b..] == [];
        assert Chunks(xs, b) == [xs];
        assert xs[..b] == xs;
      }
    }
  }

  /** The chunks of a prefix of `|out|` whole chunks, extended by the next
      run of at most `b` elements. */
  lemma {:induction false} ChunksExtend<T>(whole: seq<T>, b: nat, out: seq<seq<T>>, n: int, todo: int, piece: seq<T>)
    requires b > 0 && n == |out| * b && 0 < todo <= b && n + todo <= |whole|
    requires out == Chunks(whole[..n], b) && piece == whole[n..n + todo]
    ensures out + [piece] == Chunks(whole[..n + todo], b)
  {
    ChunksSnoc(whole[..n], b, |out|, piece);
    assert whole[..n] + piece == whole[..n + todo];
  }

  // ---------------------------------------------------------------------
  // batch_iterable

  /** The present values of a group, in order: a padded `None` and a `None`
      of the input are dropped alike. */
  function Present<T>(group: seq<Option<T>>): (r: seq<T>)
    ensures |r| <= |group|
  {
    if |group| == 0 then []
    else (if group[0].Some? then [group[0].value] else []) + Present(group[1..])
  }

  /** `batch_iterable(x, batch_size)`: `batch_size` must exceed 1; batch `i`
      is chunk `i` of the input with its `None` values removed. */
  function BatchIterable<T>(x: seq<Option<T>>, batchSize: int): (r: Result<seq<seq<T>>>)
    ensures r.Err? <==> batchSize <= 1
    ensures r.Err? ==> r.error == AssertionError
    ensures r.Ok? ==> |r.value| == |Chunks(x, batchSize)|
    ensures r.Ok? ==> forall i :: 0 <= i < |r.value| ==> r.value[i] == Present(Chunks(x, batchSize)[i])
  {
    if batchSize <= 1 then Err(AssertionError)
    else
      var c := Chunks(x, batchSize);
      Ok(seq(|c|, i requires 0 <= i < |c| => Present(c[i])))
  }

  /** Values that are all present pass through `Present` unchanged. */
  lemma {:induction false} PresentAll<T>(group: seq<Option<T>>)
    requires forall i :: 0 <= i < |group| ==> group[i].Some?
    ensures |Present(group)| == |group|
    ensures forall i :: 0 <= i < |group| ==> Present(group)[i] == group[i].value
    decreases |group|
  {
    if |group| > 0 {
      PresentAll(group[1..]);
      forall i | 0 <= i < |group|
        ensures Present(group)[i] == group[i].value
      {
        if i > 0 {
          assert group[1..][i - 1] == group[i];
        }
      }
    }
  }

  /** No `None` of the input, nor any padding, reaches a batch: every value
      in a batch is present in the input. */
  lemma {:induction false} PresentOnly<T>(group: seq<Option<T>>, v: T)
    ensures v in Present(group) ==> Some(v) in group
    decreases |group|
  {
    if |group| > 0 {
      PresentOnly(group[1..], v);
      if v in Present(group) && v !in Present(group[1..]) {
        assert group[0] == Some(v);
      }
      if Some(v) in group[1..] {
        assert group[1..][0..] == group[1..];
      }
    }
  }

  /** Without `None` values the batches are the chunks of the values: all of
      size `batch_size` but the last, and concatenated they give the input
      back. */
  lemma {:induction false} BatchIterableNoNone<T>(x: seq<Option<T>>, batchSize: int)
    requires batchSize > 1
    requires forall i :: 0 <= i < |x| ==> x[i].Some?
    ensures var r := BatchIterable(x, batchSize).value;
      var values := seq(|x|, i requires 0 <= i < |x| => x[i].value);
      r == Chunks(values, batchSize)
  {
    var values := seq(|x|, i requires 0 <= i < |x| => x[i].value);
    ChunksMap(x, values, batchSize);
  }

  /** Chunking commutes with taking the values of an all-present sequence. */
  lemma {:induction false} ChunksMap<T>(x: seq<Option<T>>, values: seq<T>, b: nat)
    requires b > 1
    requires |values| == |x| && forall i :: 0 <= i < |x| ==> x[i] == Some(values[i])
    ensures BatchIterable(x, b).value == Chunks(values, b)
    decreases |x|
  {
    var c := Chunks(x, b);
    var r := BatchIterable(x, b).value;
    if |x| == 0 {
    } else if |x| <= b {
      PresentAll(x);
      assert Present(c[0]) == values;
    } else {
      ChunksMap(x[b..], values[b..], b);
      PresentAll(x[..b]);
      assert Present(x[..b]) == values[..b];
      var rest := BatchIterable(x[b..], b).value;
      assert r == [values[..b]] + rest by {
        forall i | 0 <= i < |r|
          ensures r[i] == ([values[..b]] + rest)[i]
        {
          if i > 0 {
            assert c[i] == Chunks(x[b..], b)[i - 1];
          }
        }
      }
    }
  }
}
