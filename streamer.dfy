/** `Stream`, `Batcher` and `Unbatcher` of src/coyote/streamer.py, on
    finite sequences: the asynchronous iteration becomes a loop over the
    input, and what a stage yields becomes the sequence it returns. */
module Streamer {
  import opened Wrappers
  import opened Views
  import opened Batching

  /** The largest batch size `Batcher` accepts. */
  const MaxBatchSize := 10000

  /** `Stream(data)`: every element of `data`, in order. */
  method Stream<T>(data: seq<T>) returns (out: seq<T>)
    ensures out == data
  {
    out := [];
    var i := 0;
    while i < |data|
      invariant 0 <= i <= |data| && out == data[..i]
    {
      out := out + [data[i]];
      i := i + 1;
    }
  }

  /** `Batcher(in_stream, batch_size)`: the batch size must lie in
      `1..10000`; elements are collected into a batch that is yielded and
      restarted as soon as it holds `batch_size` of them, and a last,
      partial batch is yielded when the input ends.  The batches are the
      chunks of the input. */
  method Batcher<T>(input: seq<T>, batchSize: int) returns (r: Result<seq<seq<T>>>)
    ensures r.Err? <==> !(0 < batchSize <= MaxBatchSize)
    ensures r.Err? ==> r.error == AssertionError
    ensures r.Ok? ==> r.value == Chunks(input, batchSize)
  {
    if !(0 < batchSize <= MaxBatchSize) {
      return Err(AssertionError);
    }
    var out: seq<seq<T>> := [];
    var batch: seq<T> := [];
    var n := 0;
    var i := 0;
    while i < |input|
      invariant 0 <= n <= i <= |input| && n < batchSize
      invariant i - n == |out| * batchSize
      invariant batch == input[i - n..i] && n == |batch|
      invariant out == Chunks(input[..i - n], batchSize)
    {
      batch := batch + [input[i]];
      n := n + 1;
      i := i + 1;
      assert batch == input[i - n..i];
      if n == batchSize {
        FullBatch(input, batchSize, out, i, batch);
        out := out + [batch];
        batch := [];
        n := 0;
      }
    }
    LastBatch(input, batchSize, out, n, batch);
    if n > 0 {
      out := out + [batch];
    }
    return Ok(out);
  }

  /** When the input ends, a partial batch closes the last chunk. */
  lemma {:induction false} LastBatch<T>(input: seq<T>, b: int, out: seq<seq<T>>, n: int, batch: seq<T>)
    requires 0 <= n < b && n <= |input|
    requires |input| - n == |out| * b && batch == input[|input| - n..]
    requires out == Chunks(input[..|input| - n], b)
    ensures (if n > 0 then out + [batch] else out) == Chunks(input, b)
  {
    assert input[..|input|] == input;
    if n > 0 {
      ChunksExtend(input, b, out, |input| - n, n, batch);
    }
  }

  /** A batch that fills up to `b` elements closes one more chunk. */
  lemma {:induction false} FullBatch<T>(input: seq<T>, b: int, out: seq<seq<T>>, i: int, batch: seq<T>)
    requires 0 < b && |batch| == b && b <= i <= |input|
    requires i - b == |out| * b && batch == input[i - b..i]
    requires out == Chunks(input[..i - b], b)
    ensures i == |out + [batch]| * b
    ensures out + [batch] == Chunks(input[..i], b)
  {
    ChunksExtend(input, b, out, i - b, b, batch);
    assert (|out| + 1) * b == |out| * b + b;
  }

  /** `Unbatcher(in_stream)`: the elements of every batch, batch after
      batch. */
  method Unbatcher<T>(batches: seq<seq<T>>) returns (out: seq<T>)
    ensures out == Flatten(batches)
  {
    out := [];
    var i := 0;
    while i < |batches|
      invariant 0 <= i <= |batches| && out == Flatten(batches[..i])
    {
      var batch := batches[i];
      var j := 0;
      while j < |batch|
        invariant 0 <= j <= |batch| && out == Flatten(batches[..i]) + batch[..j]
      {
        out := out + [batch[j]];
        j := j + 1;
      }
      assert batch[..j] == batch;
      FlattenConcat(batches[..i], [batch]);
      assert Flatten([batch]) == batch + Flatten([batch][1..]);
      assert batches[..i + 1] == batches[..i] + [batch];
      i := i + 1;
    }
    assert batches[..i] == batches;
  }

  /** `Unbatcher(Batcher(s, b))` gives back `s`: the chunks concatenate to
      the input. */
  lemma {:induction false} UnbatchBatch<T>(s: seq<T>, b: int)
    requires 0 < b <= MaxBatchSize
    ensures Flatten(Chunks(s, b)) == s
    ensures |Chunks(s, b)| == 0 <==> |s| == 0
  {
    ChunksFlatten(s, b);
    ChunksCount(s, b);
  }
}
