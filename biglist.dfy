/** The bookkeeping of `Biglist` in src/zpz/biglist.py: an append buffer in
    memory, full batches "on disk", the files' lengths and their prefix sums,
    and a one-file read cache.

    The store directory is an in-memory sequence of files, file `k` holding
    the batch that `flush` pickled to `k.pickle`.
 */
module BigLists {
  import opened Wrappers
  import opened Ranges
  import opened Views

  /** `_cum_file_lengths` for the file lengths `ls`: `[0]` followed by the
      running totals. */
  function PrefixSums(ls: seq<int>): (c: seq<int>)
    ensures |c| == |ls| + 1 && c[0] == 0
  {
    if |ls| == 0 then [0]
    else
      var c := PrefixSums(ls[..|ls| - 1]);
      c + [c[|c| - 1] + ls[|ls| - 1]]
  }

  /** Appending a length appends one running total. */
  lemma {:induction false} PrefixSumsSnoc(ls: seq<int>, n: int)
    ensures PrefixSums(ls + [n]) == PrefixSums(ls) + [PrefixSums(ls)[|ls|] + n]
  {
    var ls2 := ls + [n];
    assert ls2[..|ls2| - 1] == ls;
  }

  /** The files' lengths agree with the files. */
  ghost predicate LengthsOf<T>(files: seq<seq<T>>, ls: seq<int>) {
    |files| == |ls| && forall k :: 0 <= k < |ls| ==> ls[k] == |files[k]|
  }

  /** The prefix sums of the lengths are the offsets of the files in their
      concatenation. */
  lemma {:induction false} PrefixSumsAreOffsets<T>(files: seq<seq<T>>, ls: seq<int>)
    requires LengthsOf(files, ls)
    ensures forall k :: 0 <= k <= |ls| ==> PrefixSums(ls)[k] == |Flatten(files[..k])|
    decreases |ls|
  {
    if |ls| > 0 {
      var n := |ls| - 1;
      PrefixSumsAreOffsets(files[..n], ls[..n]);
      forall k | 0 <= k <= n
        ensures PrefixSums(ls)[k] == |Flatten(files[..k])|
      {
        assert files[..n][..k] == files[..k];
      }
      assert files[..n + 1] == files[..n] + [files[n]];
      FlattenConcat(files[..n], [files[n]]);
      assert Flatten([files[n]]) == files[n] + Flatten([files[n]][1..]);
    }
  }

  /** Offsets never decrease. */
  lemma {:induction false} OffsetsMonotone<T>(files: seq<seq<T>>, i: nat, j: nat)
    requires i <= j <= |files|
    ensures |Flatten(files[..i])| <= |Flatten(files[..j])|
  {
    assert files[..j] == files[..i] + files[i..j];
    FlattenConcat(files[..i], files[i..j]);
  }

  /** The element at `idx` of the concatenation lies in file `k` when the
      offsets of files `k` and `k + 1` bracket it. */
  lemma {:induction false} ElementInFile<T>(files: seq<seq<T>>, k: nat, idx: int)
    requires k < |files|
    requires |Flatten(files[..k])| <= idx < |Flatten(files[..k + 1])|
    ensures |Flatten(files[..k + 1])| == |Flatten(files[..k])| + |files[k]|
    ensures idx < |Flatten(files)|
    ensures Flatten(files)[idx] == files[k][idx - |Flatten(files[..k])|]
  {
    assert files[..k + 1] == files[..k] + [files[k]];
    FlattenConcat(files[..k], [files[k]]);
    assert Flatten([files[k]]) == files[k] + Flatten([files[k]][1..]);
    assert files == files[..k + 1] + files[k + 1..];
    FlattenConcat(files[..k + 1], files[k + 1..]);
  }

  class Biglist<T> {
    /** `_buffer_cap`, the batch size. */
    const bufferCap: int
    /** The pickled batches, file `k` being `store/k.pickle`. */
    var files: seq<seq<T>>
    var fileLengths: seq<int>
    var cumFileLengths: seq<int>
    var readBuffer: Option<seq<T>>
    var readBufferFileIdx: Option<int>
    var appendBuffer: seq<T>
    /** `_len`. */
    var length: int

    /** The bookkeeping: lengths and prefix sums describe the files, `_len`
        counts every element, and the read cache holds the content of the
        file it names. */
    ghost predicate Books()
      reads this
    {
      bufferCap > 0 &&
      LengthsOf(files, fileLengths) &&
      cumFileLengths == PrefixSums(fileLengths) &&
      length == cumFileLengths[|fileLengths|] + |appendBuffer| &&
      (readBufferFileIdx.None? ==> readBuffer.None?) &&
      (readBufferFileIdx.Some? ==>
        0 <= readBufferFileIdx.value < |files| &&
        readBuffer == Some(files[readBufferFileIdx.value]))
    }

    /** Between calls the append buffer is shorter than a batch. */
    ghost predicate Valid()
      reads this
    {
      Books() && |appendBuffer| < bufferCap
    }

    /** The list's elements: the flushed files, then the append buffer. */
    function Contents(): seq<T>
      reads this
    {
      Flatten(files) + appendBuffer
    }

    /** `Biglist(batch_size=...)` over an empty directory. */
    constructor(batchSize: int)
      requires batchSize > 0
      ensures Valid()
      ensures bufferCap == batchSize && Contents() == []
      ensures fileLengths == [] && cumFileLengths == [0] && appendBuffer == []
      ensures readBuffer == None && readBufferFileIdx == None && length == 0
    {
      bufferCap := batchSize;
      files := [];
      fileLengths := [];
      cumFileLengths := [0];
      readBuffer := None;
      readBufferFileIdx := None;
      appendBuffer := [];
      length := 0;
    }

    /** `len(biglist)`: every element, flushed or buffered. */
    function Len(): (n: int)
      reads this
      requires Books()
      ensures n == |Contents()|
    {
      PrefixSumsAreOffsets(files, fileLengths);
      assert files[..|files|] == files;
      length
    }

    /** `clear()`: as if freshly made over an empty directory. */
    method Clear()
      requires Valid()
      modifies this
      ensures Valid()
      ensures Contents() == [] && files == []
      ensures fileLengths == [] && cumFileLengths == [0] && appendBuffer == []
      ensures readBuffer == None && readBufferFileIdx == None && length == 0
    {
      files := [];
      fileLengths := [];
      cumFileLengths := [0];
      readBuffer := None;
      readBufferFileIdx := None;
      appendBuffer := [];
      length := 0;
    }

    /** `flush()`: nothing to do for an empty buffer; otherwise the buffer
        becomes a new file, its length and running total are recorded, and the
        buffer restarts empty.  The elements are unchanged. */
    method Flush()
      requires Books() && |appendBuffer| <= bufferCap
      modifies this
      ensures Valid()
      ensures Contents() == old(Contents()) && length == old(length)
      ensures readBuffer == old(readBuffer) && readBufferFileIdx == old(readBufferFileIdx)
      ensures old(appendBuffer) == [] ==>
        files == old(files) && fileLengths == old(fileLengths) &&
        cumFileLengths == old(cumFileLengths) && appendBuffer == []
      ensures old(appendBuffer) != [] ==>
        files == old(files) + [old(appendBuffer)] &&
        fileLengths == old(fileLengths) + [|old(appendBuffer)|] &&
        cumFileLengths == old(cumFileLengths) + [old(cumFileLengths)[|old(fileLengths)|] + |old(appendBuffer)|] &&
        appendBuffer == []
    {
      if appendBuffer == [] {
        return;
      }
      PrefixSumsSnoc(fileLengths, |appendBuffer|);
      FlattenConcat(files, [appendBuffer]);
      assert Flatten([appendBuffer]) == appendBuffer + Flatten([appendBuffer][1..]);
      files := files + [appendBuffer];
      fileLengths := fileLengths + [|appendBuffer|];
      cumFileLengths := cumFileLengths + [cumFileLengths[|cumFileLengths| - 1] + |appendBuffer|];
      appendBuffer := [];
    }

    /** `append(x)`: `x` becomes the last element; a buffer that reaches the
        batch size is flushed. */
    method Append(x: T)
      requires Valid()
      modifies this
      ensures Valid()
      ensures Contents() == old(Contents()) + [x] && length == old(length) + 1
      ensures readBuffer == old(readBuffer) && readBufferFileIdx == old(readBufferFileIdx)
      ensures |old(appendBuffer)| + 1 < bufferCap ==>
        files == old(files) && appendBuffer == old(appendBuffer) + [x]
      ensures |old(appendBuffer)| + 1 == bufferCap ==>
        files == old(files) + [old(appendBuffer) + [x]] && appendBuffer == []
    {
      appendBuffer := appendBuffer + [x];
      length := length + 1;
      if |appendBuffer| >= bufferCap {
        Flush();
      }
    }

    /** `extend(xs)`: `append` each element in turn. */
    method Extend(xs: seq<T>)
      requires Valid()
      modifies this
      ensures Valid()
      ensures Contents() == old(Contents()) + xs && length == old(length) + |xs|
    {
      var i := 0;
      while i < |xs|
        invariant 0 <= i <= |xs|
        invariant Valid()
        invariant Contents() == old(Contents()) + xs[..i] && length == old(length) + i
      {
        Append(xs[i]);
        assert xs[..i + 1] == xs[..i] + [xs[i]];
        i := i + 1;
      }
      assert xs[..i] == xs;
    }

    /** `_get_file_idx_for_item(idx)`: the file holding element `idx`, or
        `len(_file_lengths)` for an element of the append buffer.  The search
        starts from the cached read file when there is one, but the answer
        does not depend on it. */
    method FileIdxForItem(idx: int) returns (k: int)
      requires Books() && 0 <= idx < length
      ensures idx >= cumFileLengths[|fileLengths|] ==> k == |fileLengths|
      ensures idx < cumFileLengths[|fileLengths|] ==>
        0 <= k < |fileLengths| && cumFileLengths[k] <= idx < cumFileLengths[k + 1]
    {
      var cum := cumFileLengths;
      if idx >= cum[|cum| - 1] {
        return |fileLengths|;
      }
      PrefixSumsAreOffsets(files, fileLengths);
      assert forall i, j :: 0 <= i <= j < |cum| ==> cum[i] <= cum[j] by {
        forall i, j | 0 <= i <= j < |cum|
          ensures cum[i] <= cum[j]
        {
          OffsetsMonotone(files, i, j);
        }
      }
      if readBufferFileIdx.None? {
        // the first running total above `idx` closes its file
        var j := 0;
        while idx >= cum[j]
          invariant 0 <= j < |cum|
          invariant forall m :: 0 <= m < j ==> cum[m] <= idx
          decreases |cum| - j
        {
          j := j + 1;
        }
        return j - 1;
      }
      var rb := readBufferFileIdx.value;
      if idx < cum[rb] {
        // downwards from the file before the cached one
        var j := rb - 1;
        while idx < cum[j]
          invariant 0 <= j < rb
          invariant idx < cum[j + 1]
          decreases j
        {
          j := j - 1;
        }
        return j;
      } else if idx >= cum[rb + 1] {
        // upwards from the file after the next one
        var j := rb + 2;
        while idx >= cum[j]
          invariant rb + 2 <= j < |cum|
          invariant cum[j - 1] <= idx
          decreases |cum| - j
        {
          j := j + 1;
        }
        return j - 1;
      } else {
        return rb;
      }
    }

    /** `biglist[idx]`: element `idx` of the list, negative indices counting
        from the end; a file other than the cached one is loaded into the read
        cache first. */
    method Get(idx: int) returns (r: Result<T>)
      requires Valid()
      modifies this`readBuffer, this`readBufferFileIdx
      ensures Valid()
      ensures length == |Contents()|
      ensures r.Ok? <==> -length <= idx < length
      ensures r.Err? ==> r.error == IndexError
      ensures r.Ok? ==> r.value == Contents()[if idx < 0 then length + idx else idx]
    {
      ghost var _ := Len();
      var reg := RegulateIndex(idx, length);
      if reg.Err? {
        return Err(reg.error);
      }
      var i := reg.value;
      var k := FileIdxForItem(i);
      PrefixSumsAreOffsets(files, fileLengths);
      assert files[..|files|] == files;
      if k >= |fileLengths| {
        return Ok(appendBuffer[i - cumFileLengths[|cumFileLengths| - 1]]);
      }
      if readBufferFileIdx != Some(k) {
        readBuffer := Some(files[k]);
        readBufferFileIdx := Some(k);
      }
      var n1 := cumFileLengths[k];
      var n2 := cumFileLengths[k + 1];
      assert n1 <= i < n2;
      ElementInFile(files, k, i);
      return Ok(readBuffer.value[i - n1]);
    }

    /** `iter(biglist)`: `biglist[i]` for each index in turn, which is every
        element in order. */
    method Iterate() returns (out: seq<T>)
      requires Valid()
      modifies this`readBuffer, this`readBufferFileIdx
      ensures Valid()
      ensures out == Contents()
    {
      ghost var _ := Len();
      out := [];
      var i := 0;
      while i < length
        invariant Valid() && length == |Contents()|
        invariant 0 <= i <= length
        invariant out == Contents()[..i]
      {
        var r := Get(i);
        assert Contents()[..i + 1] == Contents()[..i] + [Contents()[i]];
        out := out + [r.value];
        i := i + 1;
      }
      assert Contents()[..i] == Contents();
    }

    /** `view`: a `ListView` over the whole list. */
    function View(): (v: ListView<T>)
      reads this
      requires Books()
      ensures ViewOk(v)
      ensures Views.Len(v) == Len() && Materialize(v) == Contents()
    {
      WholeView(Contents());
      MakeView(Contents(), None)
    }
  }
}
