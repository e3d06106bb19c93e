/** `CachedAppendOnlyList` of src/zpz/cachedlist.py: the sibling of
    `Biglist` with slice and batch access and a mode without a directory.

    As for `Biglist`, the store directory is an in-memory sequence of
    files, file `k` holding the batch `_flush` pickled to `k.pickle`.  The
    list is modelled as written.  `clear` with a directory deletes the
    store and then calls `os.makedires`.  `_get_file_idx_for_item` reports
    an element of the append buffer as `len(_cum_file_lengths)`, which is
    not the index `_getslice` tests for the buffer, so a slice reaching the
    append buffer tries to load a file that was never written.
 */
module CachedLists {
  import opened Wrappers
  import opened Ranges
  import opened Views
  import opened BigLists
  import opened Batching

  /** Python's `v or d` for an optional integer: `None` and `0` both give
      way to the default. */
  function OrElse(v: Option<int>, d: int): int {
    if v.None? || v.value == 0 then d else v.value
  }

  /** Python's `a // b`, which rounds toward negative infinity. */
  function FloorDiv(a: int, b: int): (q: int)
    requires b != 0
    ensures b > 0 ==> q * b <= a < q * b + b
    ensures b < 0 ==> q * b + b < a <= q * b
  {
    if b > 0 then a / b else (-a) / (-b)
  }

  /** The numbers `_getslice` derives from its slice: bounds with Python's
      `or` defaults, the element count `(stop - start) // step` it checks
      against the batch size, and the last index it checks against the
      length. */
  datatype SliceBounds = SliceBounds(start: int, stop: int, step: int, count: int, last: int)

  function Bounds(s: Slice, length: int): (b: SliceBounds)
    ensures b.step != 0
    ensures b.step == 1 ==> b.count == b.stop - b.start && b.last == b.stop - 1
  {
    var start := OrElse(s.start, 0);
    var stop := OrElse(s.stop, length);
    var step := OrElse(s.step, 1);
    var n := FloorDiv(stop - start, step);
    SliceBounds(start, stop, step, n, start + step * (n - 1))
  }

  /** The running totals of the lengths of some files never decrease. */
  lemma {:induction false} OffsetsSorted<T>(files: seq<seq<T>>, ls: seq<int>)
    requires LengthsOf(files, ls)
    ensures forall i, j :: 0 <= i <= j <= |ls| ==> PrefixSums(ls)[i] <= PrefixSums(ls)[j]
  {
    PrefixSumsAreOffsets(files, ls);
    forall i, j | 0 <= i <= j <= |ls|
      ensures PrefixSums(ls)[i] <= PrefixSums(ls)[j]
    {
      OffsetsMonotone(files, i, j);
    }
  }

  /** The part of the elements between offsets `a` and `b` that lie in file
      `k` is a slice of that file. */
  lemma {:induction false} WithinFile<T>(files: seq<seq<T>>, tail: seq<T>, k: nat, a: int, b: int)
    requires k < |files|
    requires |Flatten(files[..k])| <= a <= b <= |Flatten(files[..k + 1])|
    ensures |Flatten(files[..k + 1])| == |Flatten(files[..k])| + |files[k]|
    ensures b <= |Flatten(files) + tail|
    ensures (Flatten(files) + tail)[a..b] ==
      files[k][a - |Flatten(files[..k])|..b - |Flatten(files[..k])|]
  {
    var o := |Flatten(files[..k])|;
    assert files[..k + 1] == files[..k] + [files[k]];
    FlattenConcat(files[..k], [files[k]]);
    assert Flatten([files[k]]) == files[k] + Flatten([files[k]][1..]);
    assert files == files[..k + 1] + files[k + 1..];
    FlattenConcat(files[..k + 1], files[k + 1..]);
    assert Flatten(files) == Flatten(files[..k]) + files[k] + Flatten(files[k + 1..]);
  }

  /** A step-1 slice with non-negative bounds is the contiguous run of the
      list between the bounds clipped to its length. */
  lemma {:induction false} ContiguousSlice<T>(xs: seq<T>, a: int, b: int)
    requires 0 <= a && 0 <= b
    ensures var lo := Min(a, |xs|); var hi := Max(lo, Min(b, |xs|));
      PySlice(xs, Slice(Some(a), Some(b), Some(1))) == Ok(xs[lo..hi])
  {
    var lo := Min(a, |xs|);
    var hi := Max(lo, Min(b, |xs|));
    var p := PyIndices(Slice(Some(a), Some(b), Some(1)), |xs|).value;
    assert p == Range(lo, Min(b, |xs|), 1);
    var L := hi - lo;
    forall k | 0 <= k < L ensures Before(p, At(p, k)) {
    }
    LengthByPositions(p, L);
    var e := Elements(p);
    PyIndicesInBounds(Slice(Some(a), Some(b), Some(1)), |xs|);
    forall k | 0 <= k < L
      ensures Pick(xs, e)[k] == xs[lo..hi][k]
    {
      ElementsAt(p, k);
    }
    assert Pick(xs, e) == xs[lo..hi];
  }

  /** The state of `_getslice`'s walk over files `ff..fl` for a step of 1:
      `result` holds the elements from `start0` up to the next position
      `cur`, which is the start of file `fidx` once the walk has left file
      `ff`, and the slice's stop once it has passed file `fl`. */
  /** `k` is what `_get_file_idx_for_item` answers for element `idx`: the
      file holding it, or one more than the number `nf` of files for an
      element of the append buffer. */
  ghost predicate FileOf(cum: seq<int>, nf: int, idx: int, k: int) {
    |cum| == nf + 1 && nf >= 0 &&
    (idx >= cum[nf] ==> k == nf + 1) &&
    (idx < cum[nf] ==> 0 <= k < nf && cum[k] <= idx < cum[k + 1])
  }

  ghost predicate Walk1<T>(whole: seq<T>, cum: seq<int>, nf: int, ff: int, fl: int,
                           start0: int, stop: int, fidx: int, cur: int, result: seq<T>)
  {
    |cum| == nf + 1 && 0 <= ff <= fidx <= Max(ff, fl + 1) && fidx <= nf + 1 &&
    0 <= start0 <= cur <= |whole| && result == whole[start0..cur] &&
    (fidx == ff ==> cur == start0) &&
    (ff < fidx <= fl && fidx <= nf ==> cur == cum[fidx]) &&
    (ff <= fl && fidx == fl + 1 ==> cur == stop)
  }

  /** What `_getslice` takes from one file whose elements lie at offsets
      `k` up to `m` of the list, resuming at offset `start`: up to the end
      of the file or the stop for a positive step, down to the stop or the
      file's first element for a negative one. */
  function Piece<T>(buffer: seq<T>, start: int, k: int, m: int, stop: int, step: int): seq<T>
    requires step != 0
  {
    if step > 0 then PySlice(buffer, Slice(Some(start - k), Some(Min(m - k, stop - k)), Some(step))).value
    else PySlice(buffer, Slice(Some(start - k), Some(Max(-1, stop - k)), Some(step))).value
  }

  /** Where the walk over several files starts: nothing taken yet. */
  lemma {:induction false} WalkStart<T>(whole: seq<T>, cum: seq<int>, nf: int, ff: int, fl: int,
                                       start0: int, stop: int)
    requires |cum| == nf + 1 && 0 <= ff <= nf + 1 && 0 <= start0 < |whole|
    ensures Walk1(whole, cum, nf, ff, fl, start0, stop, ff, start0, [])
  {
  }

  /** The part of a step-1 slice that file `fidx` holds, from position
      `cur` up to its end or `stop`, is that run of the elements. */
  lemma {:induction false} FilePiece<T>(files: seq<seq<T>>, ab: seq<T>, ls: seq<int>, fidx: int,
                                        cur: int, stop: int, piece: seq<T>)
    requires LengthsOf(files, ls) && 0 <= fidx < |ls|
    requires var cum := PrefixSums(ls);
      cum[fidx] <= cur <= Min(cum[fidx + 1], stop) &&
      PySlice(files[fidx], Slice(Some(cur - cum[fidx]), Some(Min(cum[fidx + 1] - cum[fidx], stop - cum[fidx])), Some(1))) == Ok(piece)
    ensures var hi := Min(PrefixSums(ls)[fidx + 1], stop);
      0 <= cur && hi <= |Flatten(files) + ab| && piece == (Flatten(files) + ab)[cur..hi]
  {
    var cum := PrefixSums(ls);
    PrefixSumsAreOffsets(files, ls);
    var k, m := cum[fidx], cum[fidx + 1];
    ContiguousSlice(files[fidx], cur - k, Min(m - k, stop - k));
    WithinFile(files, ab, fidx, cur, Min(m, stop));
  }

  /** Where file `fidx` of the walk with a step of 1 starts and stops
      taking elements: from the current position, which lies in the file, to
      the file's end before file `fl`, and to the slice's stop in file `fl`. */
  lemma {:induction false} FileBounds<T>(files: seq<seq<T>>, ls: seq<int>, cum: seq<int>, whole: seq<T>,
                                         ff: int, fl: int, start0: int, stop: int, fidx: int, cur: int,
                                         result: seq<T>)
    requires LengthsOf(files, ls) && cum == PrefixSums(ls) && 0 <= start0 && ff != fl
    requires FileOf(cum, |ls|, start0, ff) && FileOf(cum, |ls|, stop - 1, fl)
    requires Walk1(whole, cum, |ls|, ff, fl, start0, stop, fidx, cur, result)
    requires fidx <= fl && 0 <= fidx < |ls|
    ensures cum[fidx] <= cur <= Min(cum[fidx + 1], stop)
    ensures fidx < fl ==> Min(cum[fidx + 1], stop) == cum[fidx + 1]
    ensures fidx == fl ==> Min(cum[fidx + 1], stop) == stop
  {
    OffsetsSorted(files, ls);
    var F := cum[|ls|];
    assert cum[fidx + 1] <= F;
    if fidx == ff {
      assert cum[ff] <= start0 < cum[ff + 1];
      if fl <= |ls| {
        assert cum[ff + 1] <= cum[fl];
      }
    } else {
      assert cur == cum[fidx];
      if fl <= |ls| {
        assert cum[fidx] <= cum[fl];
      }
    }
    if fidx < fl && fl <= |ls| {
      assert cum[fidx + 1] <= cum[fl];
    }
  }

  /** One flushed file of the walk with a step of 1: the file contributes
      the elements from the current position up to its end or the stop,
      whichever comes first. */
  lemma {:induction false} FileStep<T>(files: seq<seq<T>>, ab: seq<T>, ls: seq<int>, cum: seq<int>,
                                       ff: int, fl: int, start0: int, stop: int, fidx: int, cur: int,
                                       result: seq<T>, buffer: seq<T>, piece: seq<T>)
    requires LengthsOf(files, ls) && cum == PrefixSums(ls) && 0 <= start0 && ff != fl
    requires FileOf(cum, |ls|, start0, ff) && FileOf(cum, |ls|, stop - 1, fl)
    requires Walk1(Flatten(files) + ab, cum, |ls|, ff, fl, start0, stop, fidx, cur, result)
    requires fidx <= fl && 0 <= fidx < |ls| && buffer == files[fidx]
    requires piece == Piece(buffer, cur, cum[fidx], cum[fidx + 1], stop, 1)
    ensures Walk1(Flatten(files) + ab, cum, |ls|, ff, fl, start0, stop, fidx + 1, cur + |piece|, result + piece)
  {
    var whole := Flatten(files) + ab;
    var k, m := cum[fidx], cum[fidx + 1];
    var hi := Min(m, stop);
    assert k <= cur <= hi && (fidx < fl ==> hi == m) && (fidx == fl ==> hi == stop) by {
      FileBounds(files, ls, cum, whole, ff, fl, start0, stop, fidx, cur, result);
    }
    assert hi <= |whole| && piece == whole[cur..hi] by {
      assert PySlice(files[fidx], Slice(Some(cur - k), Some(Min(m - k, stop - k)), Some(1))) == Ok(piece);
      FilePiece(files, ab, ls, fidx, cur, stop, piece);
    }
    Walk1Step(whole, cum, |ls|, ff, fl, start0, stop, fidx, cur, result, piece);
  }

  /** The walk with a step of 1 moves past a file once the elements from
      the current position up to the file's end, or the stop in the last
      file, are taken. */
  lemma {:induction false} Walk1Step<T>(whole: seq<T>, cum: seq<int>, nf: int, ff: int, fl: int,
                                        start0: int, stop: int, fidx: int, cur: int, result: seq<T>,
                                        piece: seq<T>)
    requires Walk1(whole, cum, nf, ff, fl, start0, stop, fidx, cur, result)
    requires ff != fl && fidx <= fl && 0 <= fidx < nf
    requires cur + |piece| <= |whole| && piece == whole[cur..cur + |piece|]
    requires fidx < fl ==> cur + |piece| == cum[fidx + 1]
    requires fidx == fl ==> cur + |piece| == stop
    ensures Walk1(whole, cum, nf, ff, fl, start0, stop, fidx + 1, cur + |piece|, result + piece)
  {
    var hi := cur + |piece|;
    assert whole[start0..cur] + whole[cur..hi] == whole[start0..hi];
  }

  /** The part of a step-1 slice that the append buffer holds, from its
      start up to the stop or the end of the list. */
  lemma {:induction false} BufferPiece<T>(files: seq<seq<T>>, ab: seq<T>, ls: seq<int>, stop: int,
                                          piece: seq<T>)
    requires LengthsOf(files, ls)
    requires var F := PrefixSums(ls)[|ls|];
      F <= stop &&
      PySlice(ab, Slice(Some(0), Some(Min(|Flatten(files) + ab| - F, stop - F)), Some(1))) == Ok(piece)
    ensures var F := PrefixSums(ls)[|ls|];
      F == |Flatten(files)| && piece == (Flatten(files) + ab)[F..Min(|Flatten(files) + ab|, stop)]
  {
    PrefixSumsAreOffsets(files, ls);
    assert files[..|files|] == files;
    var F := PrefixSums(ls)[|ls|];
    var whole := Flatten(files) + ab;
    ContiguousSlice(ab, 0, Min(|whole| - F, stop - F));
    assert piece == ab[0..Min(|whole|, stop) - F];
  }

  /** The append buffer's turn in the walk with a step of 1: it is reached
      only when the last element is buffered, so the walk goes on to the
      file after it, which does not exist. */
  lemma {:induction false} BufferStep<T>(files: seq<seq<T>>, ab: seq<T>, ls: seq<int>, cum: seq<int>,
                                         ff: int, fl: int, start0: int, stop: int, fidx: int, cur: int,
                                         result: seq<T>, piece: seq<T>)
    requires LengthsOf(files, ls) && cum == PrefixSums(ls) && 0 <= start0
    requires FileOf(cum, |ls|, start0, ff) && FileOf(cum, |ls|, stop - 1, fl)
    requires Walk1(Flatten(files) + ab, cum, |ls|, ff, fl, start0, stop, fidx, cur, result)
    requires fidx <= fl && fidx == |ls|
    requires piece == Piece(ab, cur, cum[|ls|], |Flatten(files) + ab|, stop, 1)
    ensures fl == |ls| + 1
    ensures Walk1(Flatten(files) + ab, cum, |ls|, ff, fl, start0, stop, fidx + 1, cur + |piece|, result + piece)
  {
    var whole := Flatten(files) + ab;
    var F := cum[|ls|];
    assert cur == F;
    assert fl == |ls| + 1;
    assert PySlice(ab, Slice(Some(0), Some(Min(|whole| - F, stop - F)), Some(1))) == Ok(piece);
    BufferPiece(files, ab, ls, stop, piece);
    var hi := Min(|whole|, stop);
    assert whole[start0..cur] + whole[cur..hi] == whole[start0..hi];
  }

  /** Where the walk with a step of 1 ends normally: the last element is
      flushed and `result` is the whole run from `start0` to `stop`. */
  lemma {:induction false} WalkEnd<T>(files: seq<seq<T>>, ab: seq<T>, ls: seq<int>, ff: int, fl: int,
                                      start0: int, stop: int, fidx: int, cur: int, result: seq<T>)
    requires LengthsOf(files, ls) && 0 <= start0 && ff != fl
    requires FileOf(PrefixSums(ls), |ls|, start0, ff) && FileOf(PrefixSums(ls), |ls|, stop - 1, fl)
    requires Walk1(Flatten(files) + ab, PrefixSums(ls), |ls|, ff, fl, start0, stop, fidx, cur, result)
    requires fidx >= fl + 1
    ensures stop - 1 < PrefixSums(ls)[|ls|]
    ensures start0 <= Max(start0, stop) <= |Flatten(files) + ab|
    ensures result == (Flatten(files) + ab)[start0..Max(start0, stop)]
  {
    var cum := PrefixSums(ls);
    OffsetsSorted(files, ls);
    if ff > fl {
      assert start0 > stop - 1;
    }
  }

  /** The single-file branch with a step of 1 gives the run of elements from
      `start` to `stop` when that file is flushed. */
  lemma {:induction false} WithinStep<T>(files: seq<seq<T>>, ab: seq<T>, ls: seq<int>, f: int,
                                         start: int, stop: int, r: Result<seq<T>>)
    requires LengthsOf(files, ls) && 0 <= start
    requires FileOf(PrefixSums(ls), |ls|, start, f) && FileOf(PrefixSums(ls), |ls|, stop - 1, f)
    requires 0 <= f < |ls|
    requires var k0 := PrefixSums(ls)[f];
      r == PySlice(files[f], Slice(Some(start - k0), Some(stop - k0), Some(1)))
    ensures start <= Max(start, stop) <= |Flatten(files) + ab|
    ensures r == Ok((Flatten(files) + ab)[start..Max(start, stop)])
  {
    var cum := PrefixSums(ls);
    PrefixSumsAreOffsets(files, ls);
    var k0 := cum[f];
    ContiguousSlice(files[f], start - k0, stop - k0);
    WithinFile(files, ab, f, start, Max(start, stop));
  }

  /** How `batches` ends for elements `whole` of which the first `flushed`
      are in files: with every batch when all are flushed; otherwise, with a
      file that cannot be opened, after the whole batches of the files. */
  ghost predicate BatchOutcome<T>(whole: seq<T>, flushed: int, b: nat, out: seq<seq<T>>, err: Option<ErrorKind>)
    requires b > 0
  {
    (flushed == |whole| ==> err == None && out == Chunks(whole, b)) &&
    (flushed < |whole| ==> (err == Some(FileNotFoundError) &&
      0 <= |out| * b <= flushed < |out| * b + b &&
      out == Chunks(whole[..|out| * b], b)))
  }

  /** The loop of `batches` that runs out of elements has read them all. */
  lemma {:induction false} BatchDone<T>(whole: seq<T>, flushed: int, b: nat, out: seq<seq<T>>, n: int)
    requires b > 0 && n == |whole| && n <= flushed <= |whole|
    requires out == Chunks(whole[..n], b)
    ensures BatchOutcome(whole, flushed, b, out, None)
  {
    assert whole[..n] == whole;
  }

  /** A batch read in full extends the chunks read so far. */
  lemma {:induction false} BatchStep<T>(whole: seq<T>, b: nat, out: seq<seq<T>>, nDone: int, nTodo: int, batch: seq<T>)
    requires b > 0 && 0 <= nDone < |whole| && nDone == |out| * b
    requires nTodo == Min(|whole| - nDone, b) && out == Chunks(whole[..nDone], b)
    requires batch == whole[nDone..nDone + nTodo]
    ensures out + [batch] == Chunks(whole[..nDone + nTodo], b)
    ensures nDone + nTodo < |whole| ==> nDone + nTodo == |out + [batch]| * b
  {
    ChunksExtend(whole, b, out, nDone, nTodo, batch);
    assert (|out| + 1) * b == |out| * b + b;
  }

  /** A batch that reaches beyond the flushed elements ends `batches` with
      the chunks read so far. */
  lemma {:induction false} BatchFailed<T>(whole: seq<T>, flushed: int, b: nat, out: seq<seq<T>>, nDone: int, nTodo: int)
    requires b > 0 && 0 <= nDone < |whole| && nDone == |out| * b && nDone <= flushed
    requires nTodo == Min(|whole| - nDone, b) && out == Chunks(whole[..nDone], b)
    requires flushed < nDone + nTodo
    ensures BatchOutcome(whole, flushed, b, out, Some(FileNotFoundError))
  {
  }

  class CachedList<T> {
    /** `_path` was given: the list keeps a store directory. */
    const hasPath: bool
    /** `_buffer_cap`: the batch size, `-1` without a directory. */
    const bufferCap: int
    /** The pickled batches, file `k` being `store/k.pickle`. */
    var files: seq<seq<T>>
    var fileLengths: seq<int>
    var cumFileLengths: seq<int>
    var readBuffer: Option<seq<T>>
    var readBufferFileIdx: Option<int>
    var appendBuffer: seq<T>
    /** `_len`. */
    var length: int

    /** The bookkeeping: without a directory nothing is ever written; the
        lengths and prefix sums describe the files, `_len` counts every
        element, and the read cache holds the file it names. */
    ghost predicate Books()
      reads this
    {
      (!hasPath ==> bufferCap == -1 && files == []) &&
      LengthsOf(files, fileLengths) &&
      cumFileLengths == PrefixSums(fileLengths) &&
      length == cumFileLengths[|fileLengths|] + |appendBuffer| &&
      (readBufferFileIdx.None? ==> readBuffer.None?) &&
      (readBufferFileIdx.Some? ==>
        0 <= readBufferFileIdx.value < |files| &&
        readBuffer == Some(files[readBufferFileIdx.value]))
    }

    /** Between calls, with a positive batch size the append buffer is
        shorter than a batch. */
    ghost predicate Valid()
      reads this
    {
      Books() && (bufferCap > 0 ==> |appendBuffer| < bufferCap)
    }

    /** The list's elements: the flushed files, then the append buffer. */
    function Contents(): seq<T>
      reads this`files, this`appendBuffer
    {
      Flatten(files) + appendBuffer
    }

    /** `CachedAppendOnlyList(path, batch_size)` over an absent or empty
        directory.  Without a path (`None` or `''`) the batch size is `-1`;
        a path must be absolute. */
    constructor(path: Option<string>, batchSize: int)
      requires path.Some? && path.value != "" ==> path.value[0] == '/'
      ensures Valid()
      ensures hasPath <==> path.Some? && path.value != ""
      ensures bufferCap == if hasPath then batchSize else -1
      ensures Contents() == [] && files == []
      ensures fileLengths == [] && cumFileLengths == [0] && appendBuffer == []
      ensures readBuffer == None && readBufferFileIdx == None && length == 0
    {
      hasPath := path.Some? && path.value != "";
      bufferCap := if path.Some? && path.value != "" then batchSize else -1;
      files := [];
      fileLengths := [];
      cumFileLengths := [0];
      readBuffer := None;
      readBufferFileIdx := None;
      appendBuffer := [];
      length := 0;
    }

    /** `len(lst)`: every element, flushed or buffered. */
    function Len(): (n: int)
      reads this
      requires Books()
      ensures n == |Contents()|
    {
      PrefixSumsAreOffsets(files, fileLengths);
      assert files[..|files|] == files;
      length
    }

    /** `clear()`: without a directory the list is reset to empty.  With one,
        the store is deleted and the call then fails at `os.makedires`, which
        `os` does not have; the bookkeeping still describes the deleted files,
        so the list is consistent afterwards only if nothing had been
        written. */
    method Clear() returns (r: Result<()>)
      requires Valid()
      modifies this
      ensures hasPath ==> (r == Err(AttributeError) && files == [] &&
        fileLengths == old(fileLengths) &&
        cumFileLengths == old(cumFileLengths) && appendBuffer == old(appendBuffer) &&
        readBuffer == old(readBuffer) && readBufferFileIdx == old(readBufferFileIdx) &&
        length == old(length))
      ensures hasPath ==> (Valid() <==> old(files) == [])
      ensures !hasPath ==> (Valid() && r == Ok(()) && Contents() == [] &&
        fileLengths == [] && cumFileLengths == [0] && appendBuffer == [] &&
        readBuffer == None && readBufferFileIdx == None && length == 0)
    {
      files := [];
      if hasPath {
        return Err(AttributeError);
      }
      fileLengths := [];
      cumFileLengths := [0];
      readBuffer := None;
      readBufferFileIdx := None;
      appendBuffer := [];
      length := 0;
      return Ok(());
    }

    /** `_flush()`: nothing to do for an empty buffer or without a
        directory; otherwise the buffer becomes a new file, its length and
        running total are recorded, and the buffer restarts empty.  The
        elements are unchanged either way. */
    method Flush()
      requires Books()
      modifies this
      ensures Books()
      ensures Contents() == old(Contents()) && length == old(length)
      ensures readBuffer == old(readBuffer) && readBufferFileIdx == old(readBufferFileIdx)
      ensures old(appendBuffer) == [] || !hasPath ==>
        files == old(files) && fileLengths == old(fileLengths) &&
        cumFileLengths == old(cumFileLengths) && appendBuffer == old(appendBuffer)
      ensures old(appendBuffer) != [] && hasPath ==>
        files == old(files) + [old(appendBuffer)] &&
        fileLengths == old(fileLengths) + [|old(appendBuffer)|] &&
        cumFileLengths == old(cumFileLengths) + [old(cumFileLengths)[|old(fileLengths)|] + |old(appendBuffer)|] &&
        appendBuffer == []
    {
      if appendBuffer == [] {
        return;
      }
      if !hasPath {
        return;
      }
      PrefixSumsSnoc(fileLengths, |appendBuffer|);
      FlattenConcat(files, [appendBuffer]);
      assert Flatten([appendBuffer]) == appendBuffer + Flatten([appendBuffer][1..]);
      files := files + [appendBuffer];
      fileLengths := fileLengths + [|appendBuffer|];
      cumFileLengths := cumFileLengths + [cumFileLengths[|cumFileLengths| - 1] + |appendBuffer|];
      appendBuffer := [];
    }

    /** `append(x)`: `x` becomes the last element; with a positive batch
        size a buffer that reaches it is flushed, otherwise (in particular
        without a directory) every element stays in the buffer. */
    method Append(x: T)
      requires Valid()
      modifies this
      ensures Valid()
      ensures Contents() == old(Contents()) + [x] && length == old(length) + 1
      ensures readBuffer == old(readBuffer) && readBufferFileIdx == old(readBufferFileIdx)
      ensures bufferCap <= 0 || |old(appendBuffer)| + 1 < bufferCap ==>
        files == old(files) && appendBuffer == old(appendBuffer) + [x]
      ensures 0 < bufferCap == |old(appendBuffer)| + 1 ==>
        files == old(files) + [old(appendBuffer) + [x]] && appendBuffer == []
    {
      appendBuffer := appendBuffer + [x];
      length := length + 1;
      if bufferCap > 0 && |appendBuffer| >= bufferCap {
        Flush();
      }
    }

    /** `extend(xs)`: `append` each element in turn. */
    method Extend(xs: seq<T>)
      requires Valid()
      modifies this
      ensures Valid()
      ensures Contents() == old(Contents()) + xs && length == old(length) + |xs|
    {
      var i := 0;
      while i < |xs|
        invariant 0 <= i <= |xs|
        invariant Valid()
        invariant Contents() == old(Contents()) + xs[..i] && length == old(length) + i
      {
        Append(xs[i]);
        assert xs[..i + 1] == xs[..i] + [xs[i]];
        i := i + 1;
      }
      assert xs[..i] == xs;
    }

    /** What opening a file that was never written raises: with a directory
        the file is not found; without one `__init__` returned before it set
        `_store_dir`, so reading that attribute raises. */
    function MissingFile(): ErrorKind {
      if hasPath then FileNotFoundError else AttributeError
    }

    /** `_load_file_to_buffer(idx)`: file `idx` becomes the read cache; a
        file that was never written cannot be opened. */
    method LoadFile(idx: int) returns (r: Result<()>)
      requires Valid()
      modifies this`readBuffer, this`readBufferFileIdx
      ensures Valid()
      ensures r.Ok? <==> 0 <= idx < |files|
      ensures r.Err? ==> (r.error == MissingFile() &&
        readBuffer == old(readBuffer) && readBufferFileIdx == old(readBufferFileIdx))
      ensures r.Ok? ==> readBuffer == Some(files[idx]) && readBufferFileIdx == Some(idx)
    {
      if idx < 0 || idx >= |files| {
        return Err(MissingFile());
      }
      readBuffer := Some(files[idx]);
      readBufferFileIdx := Some(idx);
      return Ok(());
    }

    /** `_get_file_idx_for_item(idx)`: the file holding element `idx`, or
        `len(_cum_file_lengths)` (one more than the number of files) for an
        element of the append buffer.  The search starts from the cached
        read file when there is one, but the answer does not depend on it. */
    method FileIdxForItem(idx: int) returns (k: int)
      requires Valid() && 0 <= idx
      ensures idx >= cumFileLengths[|fileLengths|] ==> k == |cumFileLengths|
      ensures idx < cumFileLengths[|fileLengths|] ==>
        0 <= k < |fileLengths| && cumFileLengths[k] <= idx < cumFileLengths[k + 1]
    {
      var cum := cumFileLengths;
      if idx >= cum[|cum| - 1] {
        return |cum|;
      }
      OffsetsSorted(files, fileLengths);
      if readBufferFileIdx.None? {
        // the first running total above `idx` closes its file
        var j := 0;
        while idx >= cum[j]
          invariant 0 <= j < |cum|
          invariant forall m :: 0 <= m < j ==> cum[m] <= idx
          decreases |cum| - j
        {
          j := j + 1;
        }
        return j - 1;
      }
      var rb := readBufferFileIdx.value;
      if idx < cum[rb] {
        // downwards from the file before the cached one
        var j := rb - 1;
        while idx < cum[j]
          invariant 0 <= j < rb
          invariant idx < cum[j + 1]
          decreases j
        {
          j := j - 1;
        }
        return j;
      } else if idx >= cum[rb + 1] {
        // upwards from the file after the next one
        var j := rb + 2;
        while idx >= cum[j]
          invariant rb + 2 <= j < |cum|
          invariant cum[j - 1] <= idx
          decreases |cum| - j
        {
          j := j + 1;
        }
        return j - 1;
      } else {
        return rb;
      }
    }

    /** `_getone(idx)`: element `idx` of the list; a negative index is out of
        range, as is one at or past the length. */
    method GetOne(idx: int) returns (r: Result<T>)
      requires Valid()
      modifies this`readBuffer, this`readBufferFileIdx
      ensures Valid()
      ensures length == |Contents()|
      ensures r.Ok? <==> 0 <= idx < length
      ensures r.Err? ==> r.error == IndexError
      ensures r.Ok? ==> r.value == Contents()[idx]
    {
      ghost var _ := Len();
      if idx < 0 || idx >= length {
        return Err(IndexError);
      }
      var k := FileIdxForItem(idx);
      PrefixSumsAreOffsets(files, fileLengths);
      assert files[..|files|] == files;
      if k >= |fileLengths| {
        return Ok(appendBuffer[idx - cumFileLengths[|cumFileLengths| - 1]]);
      }
      if readBufferFileIdx != Some(k) {
        var _ := LoadFile(k);
      }
      var n1 := cumFileLengths[k];
      ElementInFile(files, k, idx);
      return Ok(readBuffer.value[idx - n1]);
    }
    /** `_getslice(s)`: a slice without negative indices.  Missing or zero
        bounds default to `0`, the length and `1`; more than a batch of
        requested elements, counted as `(stop - start) // step`, is a
        `ValueError`; a first or last index outside the list is an
        `IndexError`.  With a step of 1 the result is the run of elements
        from `start` to `stop` when the last one is flushed, and every slice
        whose last element is in the append buffer fails trying to open a
        file that was never written. */
    method GetSlice(s: Slice) returns (r: Result<seq<T>>)
      requires Valid()
      modifies this`readBuffer, this`readBufferFileIdx
      ensures Valid() && length == |Contents()|
      ensures r.Err? ==> r.error == ValueError || r.error == IndexError || r.error == MissingFile()
      ensures var b := Bounds(s, length);
        if b.count > bufferCap then r == Err(ValueError)
        else if b.start < 0 || b.start >= length || b.last < 0 || b.last >= length then r == Err(IndexError)
        else b.step == 1 ==>
          if b.last >= cumFileLengths[|fileLengths|] then r == Err(MissingFile())
          else r == Ok(Contents()[b.start..Max(b.start, b.stop)])
    {
      ghost var _ := Len();
      var b := Bounds(s, length);
      var start, stop, step := b.start, b.stop, b.step;
      var n := b.count;
      if n > bufferCap {
        return Err(ValueError);
      }
      var first, last := start, b.last;
      if first < 0 || first >= length || last < 0 || last >= length {
        return Err(IndexError);
      }
      var ff := FileIdxForItem(first);
      var fl := FileIdxForItem(last);
      if ff == fl {
        r := SliceWithin(ff, start, stop, step, last);
      } else {
        // the requested slice straddles several files
        r := SliceAcross(ff, fl, start, stop, step, last);
      }
    }

    /** `batches(batch_size)`: consecutive slices of `batch_size` elements
        (the object's batch size when it is missing or not positive), read
        through `_getslice`.  `out` holds the batches yielded and `err` the
        exception that ends the iteration, if any.  Without a directory the
        batch size is `-1` and the assertion fails; a requested size above
        the object's is refused.  Every batch that reaches into the append
        buffer fails to open its file, so the iteration ends with the whole
        batches of the flushed files. */
    method Batches(batchSize: Option<int>) returns (out: seq<seq<T>>, err: Option<ErrorKind>)
      requires Valid()
      modifies this`readBuffer, this`readBufferFileIdx
      ensures Valid() && length == |Contents()|
      ensures bufferCap <= 0 ==> out == [] && err == Some(AssertionError)
      ensures bufferCap > 0 && batchSize.Some? && batchSize.value > bufferCap ==>
        out == [] && err == Some(ZpzError)
      ensures bufferCap > 0 && !(batchSize.Some? && batchSize.value > bufferCap) ==>
        var bs := if batchSize.None? || batchSize.value <= 0 then bufferCap else batchSize.value;
        var flushed := cumFileLengths[|fileLengths|];
        (appendBuffer == [] ==> err == None && out == Chunks(Contents(), bs)) &&
        (appendBuffer != [] ==> (err == Some(FileNotFoundError) &&
          |out| * bs <= flushed < |out| * bs + bs && flushed <= length &&
          out == Chunks(Contents()[..|out| * bs], bs)))
    {
      ghost var _ := Len();
      if bufferCap <= 0 {
        return [], Some(AssertionError);
      }
      var bs := bufferCap;
      if batchSize.Some? && batchSize.value > 0 {
        if batchSize.value > bufferCap {
          return [], Some(ZpzError);
        }
        bs := batchSize.value;
      }
      out, err := BatchLoop(bs);
    }

    /** The loop of `batches` for a batch size `bs` within the object's:
        every batch is read with `_getslice` until the elements run out or a
        batch reaches into the append buffer. */
    method BatchLoop(bs: int) returns (out: seq<seq<T>>, err: Option<ErrorKind>)
      requires Valid() && 0 < bs <= bufferCap
      modifies this`readBuffer, this`readBufferFileIdx
      ensures Valid() && length == |Contents()|
      ensures BatchOutcome(Contents(), cumFileLengths[|fileLengths|], bs, out, err)
    {
      ghost var _ := Len();
      ghost var whole := Contents();
      var n := length;
      ghost var flushed := cumFileLengths[|fileLengths|];
      out := [];
      var nDone := 0;
      while nDone < n
        invariant Valid() && n == length == |whole| && whole == Contents()
        invariant flushed == cumFileLengths[|fileLengths|] <= n
        invariant 0 <= nDone <= n && nDone <= flushed
        invariant nDone < n ==> nDone == |out| * bs
        invariant out == Chunks(whole[..nDone], bs)
        decreases n - nDone
      {
        var nTodo := Min(n - nDone, bs);
        var got := ReadBatch(nDone, nTodo);
        if got.Err? {
          BatchFailed(whole, flushed, bs, out, nDone, nTodo);
          return out, Some(got.error);
        }
        BatchStep(whole, bs, out, nDone, nTodo, got.value);
        out := out + [got.value];
        nDone := nDone + nTodo;
      }
      BatchDone(whole, flushed, bs, out, nDone);
      err := None;
    }

    /** One batch of `batches`: `_getslice(slice(start, start + n))` within
        the batch size, which is the run of `n` elements from `start` when
        they are all flushed and fails to open a file otherwise. */
    method ReadBatch(start: int, n: int) returns (r: Result<seq<T>>)
      requires Valid() && 0 <= start && 0 < n <= bufferCap && start + n <= length
      modifies this`readBuffer, this`readBufferFileIdx
      ensures Valid() && length == |Contents()|
      ensures r.Ok? <==> start + n <= cumFileLengths[|fileLengths|]
      ensures r.Err? ==> r.error == FileNotFoundError
      ensures r.Ok? ==> r.value == Contents()[start..start + n]
    {
      r := GetSlice(Slice(Some(start), Some(start + n), None));
    }

    /** The single-file branch of `_getslice`: the slice of the file both
        ends lie in, positions taken relative to the file. */
    method SliceWithin(f: int, start: int, stop: int, step: int, last: int) returns (r: Result<seq<T>>)
      requires Valid() && step != 0
      requires 0 <= start < length && 0 <= last < length
      requires step == 1 ==> last == stop - 1
      requires FileOf(cumFileLengths, |fileLengths|, start, f)
      requires FileOf(cumFileLengths, |fileLengths|, last, f)
      modifies this`readBuffer, this`readBufferFileIdx
      ensures Valid() && length == |Contents()|
      ensures r.Err? ==> r.error == MissingFile()
      ensures step == 1 ==>
        if last >= cumFileLengths[|fileLengths|] then r == Err(MissingFile())
        else r == Ok(Contents()[start..Max(start, stop)])
    {
      ghost var _ := Len();
      if f == |fileLengths| {
        // unreachable: an element of the buffer is reported as `len(_cum_file_lengths)`
        assert false;
      }
      if readBufferFileIdx != Some(f) {
        var ld := LoadFile(f);
        if ld.Err? {
          return Err(ld.error);
        }
      }
      var k0 := cumFileLengths[f];
      r := PySlice(readBuffer.value, Slice(Some(start - k0), Some(stop - k0), Some(step)));
      if step == 1 {
        WithinStep(files, appendBuffer, fileLengths, f, start, stop, r);
      }
    }

    /** One turn of the walk of `_getslice`: file `fidx`, or the append
        buffer when `fidx` is the number of files, read into the cache when
        needed, and the part of the slice it holds. */
    method TakeFrom(fidx: int, start: int, stop: int, step: int) returns (r: Result<seq<T>>)
      requires Valid() && step != 0
      modifies this`readBuffer, this`readBufferFileIdx
      ensures Valid()
      ensures r.Err? <==> fidx != |fileLengths| && !(0 <= fidx < |files|)
      ensures r.Err? ==> r.error == MissingFile()
      ensures r.Ok? && fidx == |fileLengths| ==>
        r.value == Piece(appendBuffer, start, cumFileLengths[|fileLengths|], length, stop, step)
      ensures r.Ok? && fidx != |fileLengths| ==>
        r.value == Piece(files[fidx], start, cumFileLengths[fidx], cumFileLengths[fidx + 1], stop, step)
    {
      var k, m, buffer;
      if fidx == |fileLengths| {
        k, m, buffer := cumFileLengths[|cumFileLengths| - 1], length, appendBuffer;
      } else {
        if readBufferFileIdx != Some(fidx) {
          var ld := LoadFile(fidx);
          if ld.Err? {
            return Err(ld.error);
          }
        }
        k, m, buffer := cumFileLengths[fidx], cumFileLengths[fidx + 1], readBuffer.value;
      }
      return Ok(Piece(buffer, start, k, m, stop, step));
    }

    /** The walk of `_getslice` over files `ff, ff + step, ...` up to `fl`,
        each contributing its part of the slice, resuming after the elements
        taken so far. */
    method SliceAcross(ff: int, fl: int, start0: int, stop: int, step: int, last: int) returns (r: Result<seq<T>>)
      requires Valid() && step != 0 && ff != fl
      requires 0 <= start0 < length && 0 <= last < length
      requires step == 1 ==> last == stop - 1
      requires FileOf(cumFileLengths, |fileLengths|, start0, ff)
      requires FileOf(cumFileLengths, |fileLengths|, last, fl)
      modifies this`readBuffer, this`readBufferFileIdx
      ensures Valid() && length == |Contents()|
      ensures r.Err? ==> r.error == MissingFile()
      ensures step == 1 ==>
        if last >= cumFileLengths[|fileLengths|] then r == Err(MissingFile())
        else r == Ok(Contents()[start0..Max(start0, stop)])
    {
      ghost var _ := Len();
      ghost var fs, ab, ls := files, appendBuffer, fileLengths;
      ghost var whole := Flatten(fs) + ab;
      var cum := cumFileLengths;
      var nf := |fileLengths|;
      var start := start0;
      var result: seq<T> := [];
      var fidx := ff;
      WalkStart(whole, cum, nf, ff, fl, start0, stop);
      while if step > 0 then fidx < fl + 1 else fidx > fl - 1
        invariant Valid()
        invariant files == fs && appendBuffer == ab && fileLengths == ls
        invariant LengthsOf(fs, ls) && cum == PrefixSums(ls) && nf == |ls| && length == |whole|
        invariant step == 1 ==> Walk1(whole, cum, nf, ff, fl, start0, stop, fidx, start, result)
        decreases if step > 0 then fl + 1 - fidx else fidx - fl + 1
      {
        var got := TakeFrom(fidx, start, stop, step);
        if got.Err? {
          return Err(got.error);
        }
        var piece := got.value;
        if step == 1 {
          if fidx == nf {
            BufferStep(fs, ab, ls, cum, ff, fl, start0, stop, fidx, start, result, piece);
          } else {
            FileStep(fs, ab, ls, cum, ff, fl, start0, stop, fidx, start, result, fs[fidx], piece);
          }
          assert step * |piece| == |piece|;
        }
        result := result + piece;
        start := start + step * |piece|;
        fidx := fidx + step;
      }
      if step == 1 {
        WalkEnd(fs, ab, ls, ff, fl, start0, stop, fidx, start, result);
      }
      r := Ok(result);
    }
  }
}
