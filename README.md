# A verified model of the sequential core of zpz/utilities

This project models in Dafny the parts of the `zpz` / `coyote` Python utility
packages that are plain sequential logic. These are path resolution and two
virtual file stores on top of it, and the bookkeeping of two out-of-core lists
with their Python slice arithmetic. They also cover the Avro `int` encoder and
schema inference, the SQL, Hive-table and Hive-UDF string builders, and a
command-line tail parser. The rest are version strings, the Livy helpers, the
alert policy of the `notify` decorator, date arithmetic over `YYYY-MM-DD`
texts, and a few sequence utilities. Each source file is one Dafny module.
Python exceptions become `Err(kind)` values of a `Result` type, named after the
class the source raises. A failing `assert` is `Err(AssertionError)`.

| module (file) | models |
|---|---|
| `Wrappers` (wrappers.dfy) | `Option`, `Result` and the exception kinds |
| `Strs` (strs.dfy) | the Python `str` operations the code relies on (`find`, `split`, `strip`, `replace`, `os.path.join`, ...) |
| `Paths` (paths.dfy) | `join_path` of src/zpz/filesys/path.py: the loop procedure, proved equal to a reference resolver `Join` |
| `FileSys` (fs.dfy) | class `FS` of src/zpz/filesys/_fs.py over a map of stored files |
| `BlobStore` (store.dfy) | class `Store` of src/zpz/blobstore/_store.py over a map of stored files |
| `Ranges` (ranges.dfy) | `regulate_index`, `slice_to_range`, `regulate_range` of src/zpz/biglist.py, against CPython's `slice.indices` |
| `Views` (views.dfy) | `ListView` and `ChainListView` of src/zpz/biglist.py |
| `BigLists` (biglist.dfy) | class `Biglist` of src/zpz/biglist.py, its files held in memory |
| `CachedLists` (cachedlist.dfy) | class `CachedAppendOnlyList` of src/zpz/cachedlist.py, its files held in memory |
| `Batching` (batching.dfy) | `batch_iterable` of src/zpz/iterate.py and the chunking shared with the other batchers |
| `AvroInt` (avro_int.dfy) | `BinaryEncoder.write_int` of src/zpz/avro.py: zig-zag and base-128 varint, as the Apache Avro specification (Binary Encoding, Primitive Types) prescribes for `int` |
| `AvroSchema` (avro_schema.dfy) | `_make_schema` of src/zpz/avro.py and of utilities/avro.py |
| `OtherArgs` (otherargs.dfy) | `is_arg_name`, `parse_other_args` of src/coyote/otherargs.py |
| `SqlUtil`, `CoyoteSql` (sql.dfy) | `split_sql`, `ColumnMapper`, `RowMapper` of utilities/sql/util.py; `cleanse_sql`, `split_sql` of src/coyote/sql/util.py |
| `HiveTable` (hive_table.dfy) | `HiveTableMixin` of src/zpz/sql/hive_table.py and the Athena location rewriting |
| `HiveUdf` (hive_udf.dfy) | `make_udf` of src/zpz/sql/hive_udf.py, with the URL-safe Base64 of RFC 4648 section 5, padded as in section 4 |
| `Notify` (notify.dfy) | `log_notify`, `should_send_alert` and the `notify` decorator of src/coyote/notify.py |
| `Versioned` (versioned.dfy) | `make_version`, `is_version`, `VersionedUploadableMixin` of src/coyote/dropbox/_versioned_uploadable.py |
| `Spark` (spark.dfy) | `_get_livy_host`, `unquote`, `polling_intervals` of src/coyote/spark.py |
| `Calendar` (calendar.dfy) | proleptic Gregorian dates in years 1..9999, their day numbers, and the `YYYY-MM-DD` text of ISO 8601:2004 section 4.1.2.2 |
| `DateTime` (datetime.dfy) | `shift_day`, `shift_hour`, `DateRange` of src/coyote/datetime.py |
| `Seqs` (seqs.dfy) | `flatten`, `ordered_dedupe` of utilities/list.py; `all_distinct` of src/zpz/iter.py |
| `Streamer` (streamer.dfy) | `Stream`, `Batcher`, `Unbatcher` of src/coyote/streamer.py, on finite sequences |

Objects whose fields the source updates are classes, and their methods state
the whole new state. These are `FS`, `Store`, `Biglist`,
`CachedAppendOnlyList`, `RowMapper`, `VersionedUploadableMixin` and
`DateRange`. Loops of the source are `while` loops with invariants. They are
proved against reference functions, such as `Join` for `join_path`, `Chunks`
for the batchers, `Flatten` for the lists' contents, CPython's slice rule for
the slicing, day numbers for dates and the Avro coding for `write_int`.

Where the docstrings and the code disagree, the model follows the code. The
`notify` decorator writes `ERROR`, not the `CRITICAL` its docstring names. A
list of exception classes, which the docstring allows, is refused with
`TypeError` (see Findings). A version passed to `VersionedUploadableMixin` is
not stored.

## Model

| member | source | states |
|---|---|---|
| Paths.JoinPath | src/zpz/filesys/path.py:28-76 | the loop implementation equals the reference `Join`; a base not starting with '/' fails the assertion with `AssertionError`; for an absolute base, '', '.' and './' return the base verbatim and a relative path starting with '/' ignores the base |
| Paths.ResolveOrigin | src/zpz/filesys/path.py:35-58 | the prefix handling (trailing '/' on the base, '..' read as '../', '/', './', and the climbing loop over leading '../') equals the reference `Origin` |
| Paths.AppendSegments | src/zpz/filesys/path.py:60-74 | the segment loop succeeds exactly when every segment is named (non-empty, not all dots, the last may be empty) and then appends the tail; otherwise `ZpzError` |
| Paths.Join | src/zpz/filesys/path.py:28-76 | a relative base is an `AssertionError`; every resolved path starts with '/' |
| Paths.WithSlash | src/zpz/filesys/path.py:35-37 | the base gets a trailing '/' and stays absolute |
| Paths.Parent | src/zpz/filesys/path.py:51-57 | one step up keeps the path absolute and '/'-terminated and makes it shorter; at '/' it is an error |
| Paths.Ascend | src/zpz/filesys/path.py:50-58 | any number of steps up keeps the path absolute and '/'-terminated |
| Paths.AfterUps | src/zpz/filesys/path.py:50-58 | what is left after the leading '../' groups no longer starts with '../' |
| Paths.Origin | src/zpz/filesys/path.py:35-58 | resolution starts at an absolute '/'-terminated directory with the tail left after the prefix |
| Paths.TailStep | src/zpz/filesys/path.py:60-74 | one iteration of the segment loop: a leading '/' is an error, a last segment must be named, otherwise the named head and the valid rest |
| Paths.ParentDropsLastSegment | src/zpz/filesys/path.py:53-57 | the parent of `p + name + '/'` is `p` |
| Paths.UpOneLevel | src/zpz/filesys/path.py:48-58 | a leading '../' moves exactly one directory up (or fails at '/') and then resolves the rest from there |
| Paths.DoubleSlashRejected | src/zpz/filesys/path.py:60-63 | any '//' in the relative path is an error |
| Paths.DoubleSlashTailInvalid | src/zpz/filesys/path.py:60-63 | a tail containing '//' has an empty segment and is rejected |
| Paths.JoinRejectsInvalidTail | src/zpz/filesys/path.py:60-74 | a tail with an empty or all-dot segment makes the whole resolution fail |
| Paths.DotSegmentRejected | src/zpz/filesys/path.py:73-74 | an all-dot segment after a named one ('a/..', 'a/.', 'a/...') is an error |
| Paths.DotsHead | src/zpz/filesys/path.py:73-74 | a tail that starts with an all-dot segment is invalid |
| Paths.NamedHead | src/zpz/filesys/path.py:64-74 | after a named first segment the tail is valid exactly when the rest is |
| Paths.NamedStart | src/zpz/filesys/path.py:35-37 | a relative path with a named first segment starts from the base with '/' enforced, with its whole text as tail |
| Paths.JoinPlainName | src/zpz/filesys/path.py:35-67 | a plain name without '/' resolves to the base with '/' enforced followed by the name |
| Paths.JoinTrailingSlash | src/zpz/filesys/path.py:39-71 | for a non-trivial relative path the result ends with '/' iff the relative path does or is '..' |
| Paths.OriginTrailingSlash | src/zpz/filesys/path.py:39-58 | the tail after the prefix ends with '/' or is empty iff the relative path ends with '/' or is '..' |
| Paths.JoinSingleRoot | src/zpz/filesys/path.py:28-76 | a base with a single leading '/' never resolves to a path starting with '//' |
| FileSys.FS.constructor | src/zpz/filesys/_fs.py:8-26 | no `_pwd` yet, so `pwd` is `HOME` ('/') |
| FileSys.FS.Pwd | src/zpz/filesys/_fs.py:17-26 | `pwd` is absolute and ends with '/', and is `HOME` before any `cd` |
| FileSys.FS.Cd | src/zpz/filesys/_fs.py:28-36 | `cd(None)` goes to `HOME`; `cd(p)` sets `pwd` to `join_path(old pwd, p)` with '/' appended, and a resolution error leaves `pwd` unchanged; the files never change |
| FileSys.FS.FullPath | src/zpz/filesys/_fs.py:38-43 | `fullpath(p)` is `join_path(pwd, p)`, absolute, and changes nothing |
| FileSys.FS.IsFile | src/zpz/filesys/_fs.py:45-74 | a path is a file iff its full path has no trailing '/' |
| FileSys.IsFilePath | src/zpz/filesys/_fs.py:45-46 | `_isfile(path)`: a path names a file iff it is empty or its last character is not '/'; `FS.IsFile` states it through `fullpath` |
| FileSys.IsDirPath | src/zpz/filesys/_fs.py:48-49 | `_isdir(path)` is the exact complement of `_isfile(path)`; `FS.IsDir` states it through `fullpath` |
| FileSys.FS.IsDir | src/zpz/filesys/_fs.py:48-77 | a path is a directory iff its full path has a trailing '/', the exact complement of `isfile` |
| FileSys.FS.Exists | src/zpz/filesys/_fs.py:59-80 | `exists(p)` iff the non-recursive listing of `fullpath(p)` is non-empty |
| FileSys.ExistsMeaning | src/zpz/filesys/_fs.py:59-63 | a file exists iff it is stored; a directory iff some stored file lies below it |
| FileSys.ExistsIn | src/zpz/filesys/_fs.py:59-63 | `_exists(path)` on a file path is "the file is stored"; the directory case, "some stored file lies below it", is `ExistsMeaning` |
| FileSys.Entry | src/zpz/filesys/_fs.py:65-67 | a listed entry below a directory is non-empty unless it is the directory itself |
| FileSys.FS.Ls | src/zpz/filesys/_fs.py:82-83 | `ls(p, recursive)` is the listing of `fullpath(p)` |
| FileSys.FS.Rm | src/zpz/filesys/_fs.py:85-92 | a directory-form path is refused whatever `forced` is; an existing file is removed and nothing else; a missing file is an error unless `forced`, and then nothing changes; `pwd` is kept |
| BlobStore.Store.constructor | src/zpz/blobstore/_store.py:48-52 | `home` gets a trailing '/' and `pwd` starts at '/' |
| BlobStore.Store.AbsPath | src/zpz/blobstore/_store.py:73-84 | `abspath(p)` is `join_path(pwd, p)` and never starts with '//' |
| BlobStore.Store.RealPath | src/zpz/blobstore/_store.py:86-91 | `realpath(p)` is `home` followed by `abspath(p)` without its leading '/', so it always starts with `home` |
| BlobStore.RealPathShape | src/zpz/blobstore/_store.py:91 | `os.path.join(home, p[1:])` of a single-rooted path is plain concatenation below `home` |
| BlobStore.Store.Cd | src/zpz/blobstore/_store.py:93-101 | `cd(None)` sets `pwd` to '/'; otherwise `pwd` becomes `abspath(p)` with '/' ensured, and a resolution error changes nothing |
| BlobStore.Store.Exists | src/zpz/blobstore/_store.py:111-116 | a file-form path exists iff it is stored; a directory-form path iff some stored file lies below it |
| BlobStore.LsDirNonEmpty | src/zpz/blobstore/_store.py:118-139 | a directory exists iff its `_ls_dir` listing is non-empty |
| BlobStore.ListedNonEmpty | src/zpz/blobstore/_store.py:135-139 | an existing directory lists at least one entry joined onto the given path, and a missing one none |
| BlobStore.Store.Ls | src/zpz/blobstore/_store.py:127-141 | a file path lists as `[path]` iff it exists, else nothing; an existing directory lists its entries joined onto `path`; a missing directory lists nothing |
| BlobStore.Store.Rm | src/zpz/blobstore/_store.py:150-157 | a directory-form path always fails; an existing file is removed and nothing else; a missing file fails unless `forced`, which is then a no-op |
| BlobStore.Store.PutText | src/zpz/blobstore/_store.py:188-196 | a directory-form path fails; an existing file fails unless `forced`, content unchanged; otherwise the file holds the new text and nothing else changes |
| BlobStore.Store.GetText | src/zpz/blobstore/_store.py:205-210 | the stored text of an existing file; a missing file or directory-form path fails |
| BlobStore.PutThenGet | src/zpz/blobstore/_store.py:188-210 | `put_text` then `get_text` returns the text written; the write succeeds exactly for a resolvable file-form path that is new or `forced` |
| Ranges.RegulateIndex | src/zpz/biglist.py:13-18 | fails with `IndexError` iff idx ≥ n or idx < -n; otherwise an index in [0, n), equal to idx, or n+idx for negative idx |
| Ranges.SliceToRange | src/zpz/biglist.py:293-329 | fails iff the sequence is non-empty and the step is 0; a produced range never has step 0 |
| Ranges.RegulateRange | src/zpz/biglist.py:332-359 | the clipped range keeps the step or is the empty `range(0, 0, 1)` |
| Ranges.RegulatedInBounds | src/zpz/biglist.py:332-359 | a regulated range yields only indices in [0, n), and every empty result is `range(0, 0, 1)` |
| Ranges.SliceMatchesPython | src/zpz/biglist.py:293-359 | for n ≥ 1, `regulate_range(slice_to_range(s, n), n)` enumerates exactly the indices Python's `slice.indices` selects, and step 0 is refused by both |
| Ranges.PyIndicesInBounds | src/zpz/biglist.py:293-359 | every index a Python slice selects lies inside the sequence |
| Ranges.ElementsAt | src/zpz/biglist.py:362-393 | element k of a range is start + k·step, the index a `ListView` reads at position k |
| Views.MakeView | src/zpz/biglist.py:363-377 | a view without a range shows the whole list; with one, the range is regulated against the list's length, so it only shows positions of the list |
| Views.WholeView | src/zpz/biglist.py:368-370 | a view made without a range has the list's length and shows the list itself |
| Views.Materialize | src/zpz/biglist.py:379-419 | a view shows `len(range)` elements |
| Views.ViewGet | src/zpz/biglist.py:392-393 | `view[i]` is defined iff -len ≤ i < len (else `IndexError`) and is element i (from the end if negative) of the materialised view, that is `list[range[i]]` |
| Views.ViewSlice | src/zpz/biglist.py:394-413 | a sliced view again only shows positions of its list |
| Views.NonEmptySlice | src/zpz/biglist.py:399-413 | a non-empty sliced view shows the view's elements at the regulated slice positions |
| Views.SlicedPositions | src/zpz/biglist.py:399-413 | the composed range (start mapped, step multiplied, stop mapped or set one past the base start) has one value per slice position: the base range's value there |
| Views.ViewSliceMatches | src/zpz/biglist.py:385-413 | slicing a non-empty view gives exactly the elements Python's slice of the materialised view gives, and a zero step is refused by both |
| Views.PySlice | src/zpz/biglist.py:385-413 | Python's list slice fails iff `slice.indices` does |
| Views.ChainLen | src/zpz/biglist.py:429-433 | the chain's length is the sum of its parts' lengths, the length of their concatenation |
| Views.FlattenConcat | src/zpz/biglist.py:426-430 | concatenating chains concatenates their elements |
| Views.ChainGet | src/zpz/biglist.py:438-445 | `chain[i]` is defined iff -len ≤ i < len (else `IndexError`) and is element i of the concatenation of the parts |
| Views.ChainSliceForward | src/zpz/biglist.py:454-470 | the positive-step walk produces pieces whose concatenation is the concatenation's elements at the range's positions |
| Views.ChainSliceBackward | src/zpz/biglist.py:471-490 | the negative-step walk does the same from the last part backwards |
| Views.ChainSlice | src/zpz/biglist.py:446-494 | `chain[s]` fails with `ValueError` iff the slice has step 0 on a non-empty chain; its elements are exactly Python's slice of the concatenation, and its length equals the regulated range's (the assertion on line 493) |
| Views.PickSplit | src/zpz/biglist.py:454-470 | picking along a progression that crosses a part boundary is picking up to it and then along the rest |
| Views.PartWindow | src/zpz/biglist.py:459-464 | positions inside one part pick the same elements from that part, counted from its own start |
| BigLists.Biglist.constructor | src/zpz/biglist.py:40-59 | a new list over an empty directory is empty, with `_file_lengths == []`, `_cum_file_lengths == [0]`, empty buffers, `_len == 0`, and keeps the bookkeeping invariant |
| BigLists.Biglist.Len | src/zpz/biglist.py:116-117 | `len` counts every element, flushed or buffered (`_len == sum(_file_lengths) + len(_append_buffer)`) |
| BigLists.Biglist.Clear | src/zpz/biglist.py:122-135 | `clear` empties the list and resets every field as a new list has them |
| BigLists.Biglist.Flush | src/zpz/biglist.py:249-273 | an empty buffer is a no-op; otherwise the buffer becomes a new file, its length and running total are appended, and the buffer restarts empty; the elements are unchanged |
| BigLists.Biglist.Append | src/zpz/biglist.py:169-186 | the element becomes the last one and `_len` grows by 1; the buffer is flushed exactly when it reaches the batch size, so it stays shorter than a batch |
| BigLists.Biglist.Extend | src/zpz/biglist.py:188-190 | the elements are appended in order |
| BigLists.Biglist.FileIdxForItem | src/zpz/biglist.py:197-215 | the file k with cum[k] ≤ idx < cum[k+1], or `len(_file_lengths)` for a buffered element, whichever file is cached |
| BigLists.Biglist.Get | src/zpz/biglist.py:217-236 | `biglist[i]` is defined iff -len ≤ i < len (else `IndexError`) and is element i of the flushed files followed by the buffer; only the read cache changes |
| BigLists.Biglist.Iterate | src/zpz/biglist.py:238-243 | iteration yields every element in order |
| BigLists.Biglist.View | src/zpz/biglist.py:246-247 | the view shows the whole list |
| BigLists.PrefixSums | src/zpz/biglist.py:54-98 | the cumulative lengths start with 0 and have one more entry than the file lengths |
| BigLists.PrefixSumsSnoc | src/zpz/biglist.py:269-270 | recording a new file appends one running total |
| BigLists.PrefixSumsAreOffsets | src/zpz/biglist.py:96-98 | the cumulative lengths are the offsets of the files in the concatenation |
| BigLists.ElementInFile | src/zpz/biglist.py:226-236 | the element at idx lies in file k at idx - cum[k] when cum[k] ≤ idx < cum[k+1] |
| CachedLists.CachedList.constructor | src/zpz/cachedlist.py:13-26 | without a path (`None` or '') the batch size is -1; otherwise it is the given one; the new list is empty with `_cum_file_lengths == [0]` |
| CachedLists.CachedList.Len | src/zpz/cachedlist.py:63-64 | `len` counts the flushed files and the append buffer |
| CachedLists.CachedList.Clear | src/zpz/cachedlist.py:69-78 | without a path the list is reset to empty (file lengths [], cumulative lengths [0], both buffers empty, length 0); with a path the store is deleted (no files remain), then the call fails at `os.makedires` with `AttributeError` and no other field changes, so the list stays consistent only if nothing had been written |
| CachedLists.CachedList.Append | src/zpz/cachedlist.py:89-97 | the element becomes the last one and the length grows by 1; with a positive batch size a buffer that reaches it is flushed, otherwise (no path) every element stays in the buffer |
| CachedLists.CachedList.Extend | src/zpz/cachedlist.py:99-101 | the elements are appended in order |
| CachedLists.CachedList.LoadFile | src/zpz/cachedlist.py:103-106 | a written file becomes the read cache; any other index fails and leaves the cache, with `FileNotFoundError` under a directory and `AttributeError` without one (`_store_dir` is never set) |
| CachedLists.CachedList.FileIdxForItem | src/zpz/cachedlist.py:108-124 | the file k with cum[k] ≤ idx < cum[k+1], or `len(_cum_file_lengths)` (not `len(_file_lengths)`) for a buffered element, whichever file is cached |
| CachedLists.CachedList.GetOne | src/zpz/cachedlist.py:126-135 | defined iff 0 ≤ idx < len (no negative indexing), else `IndexError`; the value is element idx of the files followed by the buffer |
| CachedLists.CachedList.GetSlice | src/zpz/cachedlist.py:137-185 | `ValueError` when `(stop-start)//step` exceeds the batch size; `IndexError` when the first or last index is outside [0, len); with step 1 the contiguous run of elements when every index is flushed, and, when the slice reaches the buffer, `FileNotFoundError` under a directory or `AttributeError` without one |
| CachedLists.CachedList.SliceWithin | src/zpz/cachedlist.py:153-160 | the single-file branch: with step 1, the run of elements from that file; a file index past the written files fails with `FileNotFoundError` under a directory or `AttributeError` without one |
| CachedLists.CachedList.SliceAcross | src/zpz/cachedlist.py:165-185 | the multi-file walk: with step 1, the run of elements across the files it visits; reaching an unwritten file fails with `FileNotFoundError` under a directory or `AttributeError` without one |
| CachedLists.CachedList.TakeFrom | src/zpz/cachedlist.py:167-181 | one turn of the walk: the part of the slice that file (or the buffer) holds, loading the file when needed; a file that cannot be loaded fails with `FileNotFoundError` under a directory or `AttributeError` without one |
| CachedLists.CachedList.Batches | src/zpz/cachedlist.py:210-241 | without a path the assertion fails; a requested size above the batch size is a `ZpzError`; None or ≤ 0 defaults to the batch size; on a fully flushed list the batches are the consecutive chunks of that size whose concatenation is the list; when elements are still buffered the batches up to the first that reaches the buffer, and then `FileNotFoundError` |
| CachedLists.CachedList.BatchLoop | src/zpz/cachedlist.py:237-241 | the `n_done` loop yields chunks of the list until the elements run out or a batch reaches the buffer |
| CachedLists.CachedList.ReadBatch | src/zpz/cachedlist.py:239-240 | one batch is the run of n elements from `n_done` when they are all flushed, otherwise `FileNotFoundError` |
| CachedLists.CachedList.Flush | src/zpz/cachedlist.py:243-254 | a no-op with an empty buffer or no path; otherwise one file length equal to the buffer size and one running total are appended and the buffer is emptied; the elements never change |
| CachedLists.FloorDiv | src/zpz/cachedlist.py:141 | Python's `//` rounds toward negative infinity |
| CachedLists.Bounds | src/zpz/cachedlist.py:138-146 | `or` defaults for the slice bounds, and with step 1 the count is stop - start and the last index stop - 1 |
| CachedLists.OffsetsSorted | src/zpz/cachedlist.py:55-57 | the cumulative lengths never decrease |
| CachedLists.WithinFile | src/zpz/cachedlist.py:159-160 | elements between two offsets of one file are a slice of that file |
| Batching.ChunksFlatten | src/zpz/iterate.py:6-10 | the chunks concatenate back to the input |
| Batching.ChunksSizes | src/zpz/iterate.py:6-10 | every chunk but the last has exactly `batch_size` elements, and the last between one and `batch_size` |
| Batching.ChunksCount | src/zpz/iterate.py:6-10 | there are `ceil(n / batch_size)` chunks |
| Batching.ChunksSnoc | src/zpz/iterate.py:6-10 | a piece appended after whole chunks is one more chunk |
| Batching.ChunksExtend | src/zpz/iterate.py:6-10 | the chunks of a prefix of whole chunks, extended by the next run, are the chunks of the longer prefix |
| Batching.Present | src/zpz/iterate.py:10 | no group grows when its `None` values are dropped |
| Batching.BatchIterable | src/zpz/iterate.py:6-10 | `batch_size <= 1` raises `AssertionError`; otherwise batch `i` is chunk `i` of the input with the `None` values dropped, one batch per chunk |
| Batching.PresentAll | src/zpz/iterate.py:10 | a group without `None` passes through unchanged |
| Batching.PresentOnly | src/zpz/iterate.py:9-10 | every value of a batch is present in the input: neither a `None` nor padding reaches a batch |
| Batching.ChunksMap | src/zpz/iterate.py:6-10 | for all-present input the batches are the chunks of the values |
| Batching.BatchIterableNoNone | src/zpz/iterate.py:6-10 | without `None` values the batches are whole chunks but the last and concatenate back to the values |
| AvroInt.WriteInt | src/zpz/avro.py:37-45 | values outside the open interval (-2^31, 2^31-1) are refused, both endpoints included; otherwise the bytes are the base-128 varint of the zig-zag code |
| AvroInt.ZigZagRoundTrip | src/zpz/avro.py:41 | zig-zag maps n ≥ 0 to the even code 2n and n < 0 to the odd code -2n-1, and decoding undoes it |
| AvroInt.ZigZagBound | src/zpz/avro.py:40-41 | every admissible value's code fits in 32 bits |
| AvroInt.VarintShape | src/zpz/avro.py:42-45 | every emitted value is a byte; all but the last have bit 0x80 set and the last is below 0x80 |
| AvroInt.VarintLength | src/zpz/avro.py:42-45 | a value below 128^k takes at most k bytes |
| AvroInt.WriteIntLength | src/zpz/avro.py:40-45 | an admissible int takes from one to five bytes |
| AvroInt.VarintRoundTrip | src/zpz/avro.py:42-45 | reading the 7-bit groups little-endian up to the first byte without the high bit gives back the number |
| AvroInt.WriteIntRoundTrip | src/zpz/avro.py:41-45 | decoding what `write_int` emits and un-zig-zagging returns the original value |
| AvroSchema.SchemaOf | src/zpz/avro.py:207-239 | every schema returned carries the given name under 'name', followed by 'type' |
| AvroSchema.PrimitiveSchemas | src/zpz/avro.py:207-212 | int, float and str give the two-key schemas of type int, double and string, exactly the schemas with fewer than three keys; any other type raises |
| AvroSchema.RecordFields | src/zpz/avro.py:213-221 | a dict becomes a record, all of whose keys are str, with one field per key in iteration order: a two-key child inlined, a larger one wrapped as {name: key, type: child} |
| AvroSchema.RecordFailure | src/zpz/avro.py:213-221 | a dict fails exactly when some key is not a str (the name assertion of the recursive call) or some value's schema fails, with the first failure in iteration order |
| AvroSchema.EntrySchema | src/zpz/avro.py:169-170 | the schema of one dict entry: a key that is not a str fails `assert isinstance(name, str)`, and a schema that exists is named after the key |
| AvroSchema.NonStringKey | src/zpz/avro.py:213-216 | a non-str key reached after entries whose schemas exist makes the whole dict raise AssertionError, e.g. {1: 2} |
| AvroSchema.ArrayItems | src/zpz/avro.py:222-237 | an empty list is refused; a list is accepted exactly when it is non-empty and all its elements have the first one's existing schema (named name + '_item', or name in the variant), and the result is the array schema whose `items` is the bare type for primitive elements and the full schema otherwise |
| AvroSchema.ArrayMixed | src/zpz/avro.py:226-232 | a list whose element schemas exist but differ fails the assertion |
| AvroSchema.MakeSchema | utilities/avro.py:10-40 | the recursive function with its field and element loops equals the reference `SchemaOf`, for both variants |
| AvroSchema.MakeRecord | utilities/avro.py:19-27 | the field loop builds the reference record |
| AvroSchema.MakeArray | utilities/avro.py:28-38 | the element check loop gives the reference array schema or the first failure |
| AvroSchema.Collect | utilities/avro.py:20-26 | the first failing child result is passed on, otherwise all values, in order |
| AvroSchema.SameAs | utilities/avro.py:31-33 | the element check succeeds iff every later element's schema equals the first's |
| OtherArgs.ParseArgs | src/coyote/otherargs.py:41-76 | the loop over the tokens, with `next_arg` and the dict updated in place, equals the reference `ParseOtherArgs`: an empty list gives {}, a trailing option becomes `True` |
| OtherArgs.RunStaysFailed | src/coyote/otherargs.py:45-57 | the first failed assertion ends the parse: later tokens do not change the outcome |
| OtherArgs.RunKeysAreNames | src/coyote/otherargs.py:48-57 | every key stored and the pending option satisfy `is_arg_name` |
| OtherArgs.KeysAreArgNames | src/coyote/otherargs.py:8-15 | every key of the result is a valid arg name: non-empty, starting with an ASCII letter, made of letters, digits and '_' |
| OtherArgs.IsArgName | src/coyote/otherargs.py:8-15 | an arg name is non-empty, does not start with a digit, and holds no '-', '=' or space, so it can never be read as an option or a value; `KeysAreArgNames` states that every key of the result is one |
| OtherArgs.FirstTokenIsOption | src/coyote/otherargs.py:46-49 | a first token that does not start with '-' or does not give a valid name fails the assertion |
| OtherArgs.OptionValue | src/coyote/otherargs.py:51-75 | after complete options, '-name value' sets the name to its int, float, boolean or string value, replacing an earlier one; '-name' before another option or at the end sets it to `True` |
| SqlUtil.Cleanse | utilities/sql/util.py:31 | a cleansed text neither starts with ';' or '\n' nor ends with ' ', ';' or '\n' |
| SqlUtil.CleanseIdempotent | utilities/sql/util.py:31 | cleansing is idempotent |
| SqlUtil.CleanseKeepsStart | utilities/sql/util.py:25-31 | a text not starting with ';' or '\n' is only cleansed at its end, so leading spaces are kept |
| SqlUtil.SplitSql | utilities/sql/util.py:27-32 | no statement starts with ';' or '\n' or ends with ' ', ';' or '\n' |
| SqlUtil.SegmentsJoin | utilities/sql/util.py:32 | the segments joined by ';\n' give back the cleansed input, and no segment contains ';\n' |
| SqlUtil.StatementsOfSegments | utilities/sql/util.py:32 | the statements are the non-empty segments, cleansed, in order; a non-empty segment that cleanses to '' stays as '' |
| SqlUtil.NonEmpty | utilities/sql/util.py:32 | the filter keeps at most as many segments as there are |
| SqlUtil.Statements | utilities/sql/util.py:32 | every statement of the comprehension is cleansed |
| SqlUtil.MakeColumn | utilities/sql/util.py:85-95 | the type is upper-cased, `define` is name + ' ' + TYPE, and `select` is 'expr AS name' for a non-empty expression, else the name |
| SqlUtil.ColumnRepr | utilities/sql/util.py:97-113 | `__repr__` raises `IndexError` exactly when the selection has no word |
| SqlUtil.ReprRoundTrip | utilities/sql/util.py:97-113 | for a single-word name and selection expression the representation repeats the constructor's arguments, the type upper-cased |
| SqlUtil.ToMappers | utilities/sql/util.py:135-148 | each argument becomes a column mapper, either itself or built from its arguments, in order |
| SqlUtil.RowMapper.constructor | utilities/sql/util.py:121-141 | the mapper holds one column per argument, in order |
| SqlUtil.RowMapper.AddCols | utilities/sql/util.py:143-149 | the new columns follow the old ones in order, and the mapper itself is returned |
| SqlUtil.ToMappersAppend | utilities/sql/util.py:135-149 | a mapper built in one go and one extended with `add_cols` hold the same columns |
| SqlUtil.AddedColumns | utilities/sql/util.py:143-161 | after `add_cols` the names and definitions of the added columns are those their arguments define, after the old ones |
| SqlUtil.RowMapper.Selects | utilities/sql/util.py:151-153 | `selects` lists every column's selection, in order |
| SqlUtil.RowMapper.Defines | utilities/sql/util.py:155-157 | `defines` lists every column's definition, in order |
| SqlUtil.RowMapper.Names | utilities/sql/util.py:159-161 | `names` lists every column's name, in order |
| CoyoteSql.CleanseSql | src/coyote/sql/util.py:10-11 | the output has no leading or trailing whitespace |
| CoyoteSql.SplitSql | src/coyote/sql/util.py:36-38 | no statement is empty, and none has surrounding whitespace |
| CoyoteSql.Kept | src/coyote/sql/util.py:37-38 | the comprehensions keep at most one statement per segment, each non-empty and trimmed |
| CoyoteSql.KeptOfSegments | src/coyote/sql/util.py:37-38 | the statements are the cleansed ';\n'-segments in input order, with those that cleanse to nothing left out |
| CoyoteSql.CleanseAll | src/coyote/sql/util.py:37 | each segment is cleansed, an empty one stays empty |
| CoyoteSql.Drop | src/coyote/sql/util.py:38 | exactly the non-empty statements are kept |
| CoyoteSql.NoSeparatorOneStatement | src/coyote/sql/util.py:36-38 | input without ';\n' yields at most one statement, whatever the discarded `replace` on line 36 would have done |
| CoyoteSql.BlankInput | src/coyote/sql/util.py:36-38 | empty or whitespace-only input yields [] |
| CoyoteSql.CleanseSemicolonPair | src/coyote/sql/util.py:11 | `cleanse_sql` takes one `;` and the space under it off each end: `"; " + y + " ;"` cleanses to `y` when `y` has no white space at its ends |
| CoyoteSql.SemicolonsLeaveStatement | src/coyote/sql/util.py:37-38 | input made of `;` and spaces is not blank: `"; ; " + y + " ; ;"` splits into the single statement `y`, since each of the two cleansings removes only one `;` per end |
| CoyoteSql.OnlySemicolonsExample | src/coyote/sql/util.py:37-38 | `split_sql("; ; ; ; ;")` is `[";"]` |
| CoyoteSql.PassesNoSub | src/coyote/sql/util.py:11 | stripping cannot make a ';\n' appear |
| HiveTable.MakeTable | src/zpz/sql/hive_table.py:12-50 | refused iff the upper-cased `stored_as` is not ORC, PARQUET or TEXTFILE; otherwise column and partition types are upper-cased (partitions default to []) and the location attributes are those of `Locate` |
| HiveTable.UpperTypes | src/zpz/sql/hive_table.py:23-28 | names are kept and types upper-cased, pair by pair |
| HiveTable.UpperTypesFixed | src/zpz/sql/hive_table.py:23-28 | upper-cased types stay upper case, and upper-case types are left alone |
| HiveTable.UpperNoLower | src/zpz/sql/hive_table.py:23 | upper-cased text has no lower-case letter, and text without one is its own upper case |
| HiveTable.Locate | src/zpz/sql/hive_table.py:36-50 | no location (None or '') leaves the table internal; a location is normalised and makes the table external; an s3:// or s3n:// one also sets `s3external` and splits into bucket key (up to the first '/') and bucket path (the rest) |
| HiveTable.NormalLocation | src/zpz/sql/hive_table.py:39 | a normalised location ends in exactly one '/' |
| HiveTable.NormalLocationFixed | src/zpz/sql/hive_table.py:39 | normalising is the identity on a normal location, hence idempotent |
| HiveTable.S3Rest | src/zpz/sql/hive_table.py:41-45 | the text after the scheme is found exactly for s3:// and s3n:// locations |
| HiveTable.S3RestHasSlash | src/zpz/sql/hive_table.py:46 | the assertion `'/' in z` always holds for a normalised S3 location |
| HiveTable.BucketSplit | src/zpz/sql/hive_table.py:47-48 | the bucket key and path are found again from the text after the scheme |
| HiveTable.Relocate | src/zpz/sql/hive_table.py:36-50 | locating again from well-formed location attributes gives the same attributes |
| HiveTable.Rebuild | src/zpz/sql/hive_table.py:12-50 | rebuilding a table from its own attributes gives the same table |
| HiveTable.FullName | src/zpz/sql/hive_table.py:52-54 | `full_name` is db + '.' + tb, and splits back at the first '.' when db has none |
| HiveTable.PartitionPath | src/zpz/sql/hive_table.py:107-109 | refused unless 1..len(partitions) values are given; otherwise the 'k=v' pieces joined by '/' |
| HiveTable.Assignments | src/zpz/sql/hive_table.py:109 | each value is paired with the partition column in its position, in order |
| HiveTable.PartitionPathSplits | src/zpz/sql/hive_table.py:107-109 | the path splits back into the 'k=v' pieces in column order when no name or value holds '/' |
| HiveTable.AssignmentSplits | src/zpz/sql/hive_table.py:109 | each piece gives back its column name and value when the name has no '=' |
| HiveTable.PartitionCondition | src/zpz/sql/hive_table.py:111-123 | the loop is refused unless 1..len(partitions) values are given; otherwise one element per value, joined by ', ' |
| HiveTable.Conditions | src/zpz/sql/hive_table.py:117-122 | one element per value, with the partition column in its position |
| HiveTable.ConditionQuoted | src/zpz/sql/hive_table.py:119-122 | an element is 'name=' followed by the value, quoted exactly when the type is string, char or varchar in any case |
| HiveTable.PartitionLocation | src/zpz/sql/hive_table.py:223-225 | a table that is not S3-external raises `NotImplementedError` |
| HiveTable.PartitionLocationShape | src/zpz/sql/hive_table.py:223-230 | on an S3-external table: the location for no values, location + partition path + '/' for 1..len(partitions) values, always starting with the location and ending in '/' |
| HiveTable.MakeHive | src/zpz/sql/hive_table.py:241-244 | a `HiveTable` location must use s3n:// |
| HiveTable.MakeAthena | src/zpz/sql/athena.py:77-79 | an `AthenaTable` location must use s3:// |
| HiveTable.ToAthena | src/zpz/sql/hive_table.py:263-276 | a table that is not S3-external is refused |
| HiveTable.FromAthena | src/zpz/sql/hive_table.py:283-295 | a table that is not S3-external is refused |
| HiveTable.Rescheme | src/zpz/sql/hive_table.py:264-295 | swapping the location's scheme keeps every other attribute, the bucket included |
| HiveTable.AthenaRoundTrip | src/zpz/sql/hive_table.py:264-295 | Hive → Athena rewrites s3n:// to s3:// with the same bucket, and back under the original names gives the same Hive table |
| HiveUdf.MakeUdf | src/zpz/sql/hive_udf.py:89-104 | refused (`AssertionError`) iff the argument is neither a module nor a string; a code string is used verbatim, a module by its source text |
| HiveUdf.CommandParts | src/zpz/sql/hive_udf.py:97-104 | the command is 'python -c "' + fixed script + '" ' + payload, then ' ' and the args joined by single spaces when there are args; the payload decodes to the UTF-8 bytes of the code and those to the code |
| HiveUdf.Payload | src/zpz/sql/hive_udf.py:95-99 | the payload uses only the RFC 4648 section 5 alphabet and '=' padding, has length 4·⌈n/3⌉ for n UTF-8 bytes, and decodes to those bytes |
| HiveUdf.EncodeShape | src/zpz/sql/hive_udf.py:95 | URL-safe Base64 output is four characters per three bytes or part of three, all of the alphabet but for one or two final '=' (RFC 4648 sections 4 and 5) |
| HiveUdf.EncodeRoundTrip | src/zpz/sql/hive_udf.py:95-97 | decoding the payload by RFC 4648 section 5 gives back the bytes, a round trip |
| HiveUdf.GroupRoundTrip | src/zpz/sql/hive_udf.py:95 | the first group of four symbols decodes to the first three bytes |
| HiveUdf.DecodeGroup | src/zpz/sql/hive_udf.py:97 | a group of four alphabet symbols decodes to three bytes ahead of the rest |
| HiveUdf.QuadSymbols | src/zpz/sql/hive_udf.py:95 | the symbols of a group are of the alphabet and stand for the six-bit values they were made from |
| HiveUdf.SymbolRoundTrip | src/zpz/sql/hive_udf.py:95 | every six-bit value has a symbol of the alphabet that reads back as it |
| HiveUdf.TripleOfQuad | src/zpz/sql/hive_udf.py:95-97 | the six-bit pieces of three bytes put back together give the bytes |
| HiveUdf.Utf8 | src/zpz/sql/hive_udf.py:95 | a text's UTF-8 encoding has at least one byte per character |
| HiveUdf.Utf8Char | src/zpz/sql/hive_udf.py:95 | one character takes one to four bytes |
| HiveUdf.Utf8CharRoundTrip | src/zpz/sql/hive_udf.py:95-97 | one character's bytes decode back to it |
| HiveUdf.Utf8RoundTrip | src/zpz/sql/hive_udf.py:95-97 | decoding the UTF-8 bytes of a text gives the text, as the loader script's `code.decode()` does |
| HiveUdf.BytesText | src/zpz/sql/hive_udf.py:99 | `str(encoded)[2:-1]` is the payload text itself, since it holds no quote or backslash |
| HiveUdf.NoSingleQuote | src/zpz/sql/hive_udf.py:54-104 | the command holds no single quote unless an argument does, so it can sit inside '…' in HiveQL |
| HiveUdf.ScriptNoQuote | src/zpz/sql/hive_udf.py:97-99 | the fixed loader holds no single quote |
| HiveUdf.PayloadNoQuote | src/zpz/sql/hive_udf.py:95-99 | nor does a payload |
| HiveUdf.JoinWithout | src/zpz/sql/hive_udf.py:101-102 | arguments joined by spaces contain a character only where an argument does |
| Notify.Stamp | src/coyote/notify.py:35 | the stamp line holds no new line, and its first two words are the formatted date and the formatted time |
| Notify.OneLine | src/coyote/notify.py:36 | the info keeps its length and holds no new line |
| Notify.RecordLines | src/coyote/notify.py:34-37 | a record `log_notify` writes splits on new lines into exactly the status, the stamp and the one-line info |
| Notify.Record | src/coyote/notify.py:34-37 | the record starts with the status and holds every character of the info (new lines become spaces), plus the stamp and two new lines; `RecordLines` states that it reads back as exactly three lines |
| Notify.TimeDecision | src/coyote/notify.py:59-72 | an unparsable stamp raises; a lapse under `silent_seconds` is silent; after it a non-OK status alerts, and OK alerts only once the lapse exceeds `ok_silent_hours` hours |
| Notify.ReadText | src/coyote/notify.py:48 | `open(ff).read()` in text mode turns `\r\n` and a lone `\r` into `\n`, so the text read is never longer than the file |
| Notify.ReadTextMeaning | src/coyote/notify.py:48 | after the read no carriage return survives; text without one reads back unchanged, and text with one reads with a line break |
| Notify.ReadTextPrefix | src/coyote/notify.py:48 | text without a carriage return reads back as it is, whatever follows it |
| Notify.ShouldSendAlert | src/coyote/notify.py:40-72 | a missing file, a record that does not read back as three lines with a two-word stamp, or a changed status or info alerts; otherwise the time decision applies |
| Notify.RecordReadsBack | src/coyote/notify.py:37-48 | a record with no carriage return in its status or info reads back exactly as written |
| Notify.RepeatByTime | src/coyote/notify.py:34-72 | against a record `log_notify` wrote, the same status and info, neither holding a carriage return, are decided by the lapse since its stamp alone |
| Notify.ReturnSplitsMore | src/coyote/notify.py:36-48 | info holding a carriage return, which `log_notify` leaves in place, reads back as more than three lines |
| Notify.ReturnInInfoAlerts | src/coyote/notify.py:36-51 | against a record whose info holds a carriage return, every call alerts, however short the lapse, because the three-way unpacking fails |
| Notify.ChangeAlerts | src/coyote/notify.py:34-57 | against a record `log_notify` wrote with a status free of line breaks and carriage returns, another status or another one-line info always alerts |
| Notify.AlertStaysDue | src/coyote/notify.py:59-72 | once an alert is due it stays due for every longer lapse |
| Notify.ClassesAsWritten | src/coyote/notify.py:160-168 | as written, any non-empty list or tuple of classes reaches `issubclass` and raises `TypeError` |
| Notify.ListOfClassesRefused | src/coyote/notify.py:160-168 | the documented `[ValueError, KeyError]` argument is refused with `TypeError` |
| Notify.Classes | src/coyote/notify.py:160-168 | corrected: nothing means `(Exception,)`; one class or a list or tuple is kept exactly when each is an exception class, else `AssertionError` |
| Notify.Silences | src/coyote/notify.py:170-177 | the defaults: one second of silence, and one minute (debug) or 23.9 hours (otherwise) between OK alerts; given values are kept |
| Notify.Handle | src/coyote/notify.py:208-224 | a captured exception records `ERROR`, any other `OK`; the alert decision is used, the record is written and the same exception is raised again |
| Notify.Decorated | src/coyote/notify.py:191-224 | success records `OK` and returns the value; an exception is re-raised with `ERROR` or `OK` by whether it is captured; the file then holds the record for that status at that moment |
| Notify.WrittenRecord | src/coyote/notify.py:191-224 | a status file the decorator writes holds a record of `OK` or `ERROR` with the call's message |
| Notify.SecondCallByTime | src/coyote/notify.py:191-224 | a second call with the same status and a message free of carriage returns, against the file the first wrote, alerts exactly when the time decision for the lapse since the first call's stamp says so |
| Versioned.AllVersionChars | src/coyote/dropbox/_versioned_uploadable.py:27 | true exactly when every character is a letter, a digit, `.`, `_` or `-` |
| Versioned.IsVersion | src/coyote/dropbox/_versioned_uploadable.py:24-27 | false on ''; otherwise true exactly when the first character is a letter or digit and all are version characters |
| Versioned.MakeVersionIsVersion | src/coyote/dropbox/_versioned_uploadable.py:17-27 | every `%Y%m%d-%H%M%S` version is a version |
| Versioned.MakeVersion | src/coyote/dropbox/_versioned_uploadable.py:17-18 | `make_version()` is at least 15 characters, starts with a digit, and holds only digits and '-'; `MakeVersionIsVersion` states that it passes `is_version` |
| Versioned.DashedVersion | src/coyote/dropbox/_versioned_uploadable.py:24-38 | a version, `-` and a version make a version |
| Versioned.CleanTag | src/coyote/dropbox/_versioned_uploadable.py:35 | the stripped tag neither starts nor ends with `_` |
| Versioned.NewVersion | src/coyote/dropbox/_versioned_uploadable.py:32-39 | the generated version is always a version: the moment's, followed by `-` and the cleaned tag when that is non-empty; a cleaned tag that is not a version raises `AssertionError`, and only then |
| Versioned.Uploadable.constructor | src/coyote/dropbox/_versioned_uploadable.py:30 | a new object has no version |
| Versioned.Uploadable.Init | src/coyote/dropbox/_versioned_uploadable.py:31-40 | as written: with no version, the generated one is stored (the plain moment when the tag is refused); with a version, a tag raises `AssertionError` and the version is not stored |
| Versioned.Uploadable.InitStoring | src/coyote/dropbox/_versioned_uploadable.py:31-40 | corrected: as `Init`, except that an accepted given version is stored |
| Versioned.Uploadable.RemoteDir | src/coyote/dropbox/_versioned_uploadable.py:65-75 | `/Class/versions/version`; an unassigned version raises `AttributeError` |
| Versioned.Uploadable.Repr | src/coyote/dropbox/_versioned_uploadable.py:157-158 | `Class(version="v")`, from which the class name and the version read back; `AttributeError` without a version |
| Versioned.PassedVersionLost | src/coyote/dropbox/_versioned_uploadable.py:31-75 | an object made from a given version, as written, has no remote directory (`AttributeError`) |
| Versioned.PassedVersionKept | src/coyote/dropbox/_versioned_uploadable.py:31-75 | with the corrected `__init__`, an object made from a version has that version's remote directory |
| Versioned.GeneratedVersion | src/coyote/dropbox/_versioned_uploadable.py:31-75 | an object made without a version always has a remote directory, built from the generated version |
| Spark.LivyHost | src/coyote/spark.py:29-38 | the host always starts with `http://`; without `://` the whole URL follows it, otherwise what follows the first `://` |
| Spark.LivyHostIdempotent | src/coyote/spark.py:29-38 | applying `_get_livy_host` to its own result changes nothing |
| Spark.Unquote | src/coyote/spark.py:41-42 | the result is the string without its first and last characters (empty for strings of fewer than two) |
| Spark.UnquoteQuoted | src/coyote/spark.py:41-42 | a value between two quote characters comes back unchanged |
| Spark.Intervals | src/coyote/spark.py:48-51 | the first `k` intervals: the items of `start`, then `rest` |
| Spark.PollingIntervals | src/coyote/spark.py:45-58 | the intervals come in `_intervals()` order; without `max_duration` as many as asked; with it every running sum stays within it, and iteration stops at the first interval that would exceed it |
| Spark.EndlessIntervals | src/coyote/spark.py:48-51 | the items of `start` come first and `rest` repeats after them |
| Calendar.DaysBeforeYear | src/coyote/datetime.py:109-110 | the days before a year are at least 365 for each earlier year |
| Calendar.DaysBeforeYearClosed | src/coyote/datetime.py:109-110 | the days before year `y` in closed form: 365 per year plus the leap days of the Gregorian rule |
| Calendar.MonthsMakeYear | src/coyote/datetime.py:109-110 | the twelve months make up the year |
| Calendar.MonthsOrdered | src/coyote/datetime.py:109-110 | a later month starts after the earlier one ends |
| Calendar.YearsOrdered | src/coyote/datetime.py:109-110 | a later year starts after the earlier one ends |
| Calendar.Ordinal | src/coyote/datetime.py:109-110 | day numbers run from 1 for 0001-01-01 to 3652059 for 9999-12-31 |
| Calendar.OrdinalOrder | src/coyote/datetime.py:109-110 | day numbers order dates as the calendar does and tell them apart |
| Calendar.Next | src/coyote/datetime.py:109-110 | the day after a date is a valid date with the next day number |
| Calendar.Prev | src/coyote/datetime.py:109-110 | the day before a date is a valid date with the previous day number |
| Calendar.Ends | src/coyote/datetime.py:109-110 | 0001-01-01 and 9999-12-31 are exactly the dates with the first and the last day number |
| Calendar.AddDays | src/coyote/datetime.py:110 | a shift by `n` days succeeds exactly when the day number stays within years 1..9999, and lands on the date whose day number is `n` more; otherwise `OverflowError` |
| Calendar.AddDaysTo | src/coyote/datetime.py:110 | the date whose day number is `n` more is the shift by `n` days |
| Calendar.AddDaysTwice | src/coyote/datetime.py:110 | two shifts make one shift by their sum |
| Calendar.Format | src/coyote/datetime.py:110 | a date's `YYYY-MM-DD` text has ten characters |
| Calendar.Parse | src/coyote/datetime.py:109 | text not of the shape `YYYY-MM-DD` raises `ParserError`, numbers that are not a date `ValueError`; what parses is a valid date |
| Calendar.ParseText | src/coyote/datetime.py:109-110 | what parses is the text of the date it reads |
| Calendar.ParseFormat | src/coyote/datetime.py:109-110 | parsing reads back every date's text |
| Calendar.FormatLess | src/coyote/datetime.py:158-170 | `YYYY-MM-DD` texts compare as their dates, and are equal only for equal dates |
| DateTime.ShiftDay | src/coyote/datetime.py:98-110 | a shift of 0 returns the text unchanged and unparsed; otherwise a text that is not a date raises what parsing raises, and a date is shifted |
| DateTime.ShiftDate | src/coyote/datetime.py:109-110 | the shift succeeds exactly when the day number stays within years 1..9999, else `OverflowError` |
| DateTime.ShiftDateLands | src/coyote/datetime.py:109-110 | a successful shift is the text of the date whose day number is `n` more, and it parses back to that date |
| DateTime.ShiftDayFormat | src/coyote/datetime.py:98-110 | shifting a date's text shifts the date |
| DateTime.ShiftDayBack | src/coyote/datetime.py:98-110 | shifting by `n` and then by `-n` gives the date's text back |
| DateTime.BackAcrossMonth | tests/test_datetime.py:11 | 2018-09-03 less five days is 2018-08-29 |
| DateTime.ForthAcrossMonth | tests/test_datetime.py:12 | 2018-09-28 and six days is 2018-10-04 |
| DateTime.ParseDayHour | src/coyote/datetime.py:122 | the joined text parses only when the day has the shape `YYYY-MM-DD` and the hour `HH`, else `ParserError`; what parses is a valid date and an hour below 24 |
| DateTime.DayHourText | src/coyote/datetime.py:122 | the text of every date and hour parses back to them |
| DateTime.HourNumberUnique | src/coyote/datetime.py:122-123 | the hour count from 0001-01-01 tells the day and the hour apart |
| DateTime.Pad | src/coyote/datetime.py:120-121 | a one-character hour gets a leading `0`; any other is kept |
| DateTime.ShiftHour | src/coyote/datetime.py:113-124 | a shift of 0 returns the pair unchanged and unparsed; otherwise the padded hour is parsed and shifted |
| DateTime.ShiftAt | src/coyote/datetime.py:122-124 | the shift succeeds exactly when the hour count stays within years 1..9999, else `OverflowError` |
| DateTime.ShiftAtLands | src/coyote/datetime.py:122-124 | a successful shift is the text of the day and hour whose hour count is `n` more, and it parses back to them |
| DateTime.ShiftHourText | src/coyote/datetime.py:113-124 | shifting the text of a day and hour shifts the day and hour |
| DateTime.ShiftHourPads | src/coyote/datetime.py:118-121 | a one-character hour is read as the same hour with a leading `0` |
| DateTime.FormatSplits | src/coyote/datetime.py:124 | `format('YYYY-MM-DD HH').split()` is the day's text and the hour's |
| DateTime.ShiftHourByDays | src/coyote/datetime.py:113-124 | a shift by whole days keeps the hour and shifts the day, or raises `OverflowError` with the day shift |
| DateTime.ShiftHourBack | src/coyote/datetime.py:113-124 | shifting by `n` hours and then by `-n` gives the day and hour back |
| DateTime.TwelveHoursOn | tests/test_datetime.py:16 | 08 o'clock and twelve hours is 20 o'clock on the same day |
| DateTime.DayBefore | tests/test_datetime.py:17 | 2018-09-20 less one day is 2018-09-19 |
| DateTime.DayOfHoursBack | tests/test_datetime.py:17 | 08 o'clock on 2018-09-20 less 24 hours is 08 o'clock on 2018-09-19 |
| DateTime.CommonDates | src/coyote/datetime.py:142-148 | today's text and the texts of the days one before and one after it; `OverflowError` on the first and the last date of the calendar |
| DateTime.Settle | src/coyote/datetime.py:150-165 | names are resolved and given bounds kept; two bounds need no `n_days` and must be in text order; one bound and `n_days > 0` give the other by a shift of `n_days - 1`; no bound, a missing `n_days` or `n_days <= 0` raise `AssertionError` or `TypeError` |
| DateTime.Bounds | src/coyote/datetime.py:142-165 | an overflow finding the common dates raises; otherwise the bounds settle with those dates |
| DateTime.StepCloser | src/coyote/datetime.py:170-172 | each step of a day brings the text closer to the last date, so the loop ends |
| DateTime.Walk | src/coyote/datetime.py:169-172 | the listed days start at the first, each is the day after the one before while that one is before the end, and the last is not before the end |
| DateTime.WalkStep | src/coyote/datetime.py:170-172 | one loop step moves a day from the walk to the days listed |
| DateTime.WalkDays | src/coyote/datetime.py:169-172 | between the texts of two dates in order the walk lists one day per day number and ends on the last date |
| DateTime.ResolveFormat | src/coyote/datetime.py:150-153 | the text of a date is none of the names `today`, `yesterday` or `tomorrow` |
| DateTime.Resolve | src/coyote/datetime.py:150-153 | `common_dates.get(x, x)` gives `x` itself or one of today, yesterday and tomorrow, and gives `x` itself unless it is one of those three names; `ResolveFormat` states that a date's text resolves to itself |
| DateTime.RangeFromStart | src/coyote/datetime.py:155-172 | a first date and `n_days = n` give `n` days, from that date to the date `n - 1` days on |
| DateTime.RangeToEnd | src/coyote/datetime.py:155-172 | a last date and `n_days = n` give `n` days, ending on that date |
| DateTime.RangeBetween | src/coyote/datetime.py:155-172 | two dates in order are kept as bounds and give a day for every day number between them |
| DateTime.RangeReversed | src/coyote/datetime.py:158 | two dates out of order raise `AssertionError` |
| DateTime.EarlyFebruary | tests/test_datetime.py:21-23 | 2018-02-03 to 2018-02-05 gives the three days 03, 04 and 05 |
| DateTime.MidJanuary | tests/test_datetime.py:25-26 | three days from 2018-01-15 are the 15th, 16th and 17th |
| DateTime.LateFebruary | tests/test_datetime.py:28-29 | three days to 2018-02-22 are the 20th, 21st and 22nd |
| DateTime.DateRange.constructor | src/coyote/datetime.py:127 | a new range has no bounds and no days |
| DateTime.DateRange.Init | src/coyote/datetime.py:127-172 | an error raised finding the bounds or walking the days is raised; otherwise the bounds are stored and `days` is the walk from the first to the last |
| DateTime.DateRange.SetBounds | src/coyote/datetime.py:167-172 | given bounds are stored and the days listed by the walk |
| DateTime.DateRange.ListDays | src/coyote/datetime.py:169-172 | the loop fills `days` with exactly the walk, and raises what the walk raises |
| DateTime.DateRange.First | src/coyote/datetime.py:182-184 | the first day, or `IndexError` when there are none |
| DateTime.DateRange.Last | src/coyote/datetime.py:186-188 | the last day, or `IndexError` when there are none |
| Seqs.Flatten | utilities/list.py:8-13 | no element of the result is a list |
| Seqs.FlattenFlat | utilities/list.py:8-13 | a list without nested lists is its own flattening |
| Seqs.FlattenAppend | utilities/list.py:8-13 | flattening distributes over concatenation |
| Seqs.FlattenIdempotent | utilities/list.py:8-13 | flattening twice is flattening once |
| Seqs.Dedupe | utilities/list.py:16-18 | the result is no longer than the input |
| Seqs.DedupeSameValues | utilities/list.py:16-18 | the result holds exactly the values of the input, each once |
| Seqs.DedupeFirstOccurrences | utilities/list.py:16-18 | the result is the input read at the positions of first occurrences, in increasing order |
| Seqs.FirstPositions | utilities/list.py:16-18 | the positions of first occurrences are positions of the input, in strictly increasing order |
| Seqs.DedupeDistinct | utilities/list.py:16-18 | a list without duplicates is left as it is |
| Seqs.DedupeIdempotent | utilities/list.py:16-18 | deduplicating twice is deduplicating once |
| Seqs.AllDistinct | src/zpz/iter.py:4-10 | the set walk returns true exactly when no value occurs twice |
| Seqs.DistinctSnoc | src/zpz/iter.py:4-10 | one more value keeps a list free of duplicates exactly when it is new |
| Seqs.DistinctIffDedupeFixed | src/zpz/iter.py:4-10 | `all_distinct(x)` holds exactly when `ordered_dedupe(x) == x` |
| Streamer.Stream | src/coyote/streamer.py:44-50 | the stream yields every element of the data, in order |
| Streamer.Batcher | src/coyote/streamer.py:76-102 | a batch size outside `1..10000` raises `AssertionError`; otherwise the batches are exactly the chunks of the input |
| Streamer.LastBatch | src/coyote/streamer.py:101-102 | a partial batch left when the input ends closes the last chunk, and none is yielded when it is empty |
| Streamer.FullBatch | src/coyote/streamer.py:94-100 | a batch that reaches the batch size closes one more chunk |
| Streamer.Unbatcher | src/coyote/streamer.py:105-115 | the elements of every batch, batch after batch |
| Streamer.UnbatchBatch | src/coyote/streamer.py:76-115 | unbatching the batches of a stream gives the stream back, and only an empty stream has no batch |

## Left out

- The INI config readers (utilities/config.py, src/zpz/config.py): they are a single call into `configparser`, whose rules belong to the library.
- Concurrency: `Buffer`, `Transformer` and `Sink` of src/coyote/streamer.py, the Livy session and its network polling, and every asynchronous or multi-process module. What `Stream`, `Batcher` and `Unbatcher` yield is a finite sequence.
- I/O and storage: pickled files are in-memory sequences, and the storage hooks of `FS` and `Store` act on in-memory maps. Directory loading of an existing `Biglist` or `CachedAppendOnlyList`, `Biglist.move`, the temporary directory and `os.makedirs` are left out; `rmtree` of a store is modelled as emptying its sequence of files.
- The order of `FS.ls` and `Store.ls` listings: it is backend-defined, so listings are sets.
- Store.open: it is not valid Python as written. `raie NotImplementedError` at src/zpz/blobstore/_store.py:178 is a syntax error, so the whole module cannot be imported and no `Store` member can run as written. The other `Store` members are modelled as if that line read `raise`.
- The clock, the time zone and the environment: `utcnow`, `now(timezone)`, "today" and `make_version`'s moment are parameters, and `NOTIFYDIR` and the local version directory are not modelled.
- The two `DateRange` cases of tests/test_datetime.py:31-44: their expectation is computed from the current clock.
- Floating point: `float(x)` in `parse_other_args` is an opaque parameter; the intervals of `polling_intervals`, the lapses of `should_send_alert` and the silences of `notify` are exact reals.
- numpy: the numpy branches of `_make_schema` and the `numpy.int32` case of `write_int`, and the Avro decoder and file reader (zlib, snappy).
- `max_batch_size` and the pympler sizing of `Biglist`, and the `asizeof` sizing of `CachedAppendOnlyList`: they measure Python objects in memory.
- BigLists.Biglist.constructor: requires a positive batch size; a batch size of `None`, which the source hands to pympler, is not modelled.
- CachedLists.CachedList.constructor: the absolute-path assertion of src/zpz/cachedlist.py:28 is a precondition rather than an error value, since a constructor returns no `Result`.
- CachedLists.CachedList.Clear: with a directory the files are deleted and the call fails. The lengths, buffers and length are left describing the deleted files, so no later operation is promised anything on that state unless nothing had been written. The `FileNotFoundError` that a later `_flush` into the deleted directory would raise is not modelled.
- CachedLists.CachedList.GetSlice: its contents are stated for step 1 only. For other steps the counts and error conditions are modelled, but the strided walk over files (which strides file indices by the element step) is not characterised.
- `inspect.getsource` in `make_udf`: a module argument is given by its source text. The Hive UDF and UDAF example scripts, which read stdin and parse JSON, are left out.
- `str.upper()` and `str.lower()`: modelled on ASCII letters only.
- `None` and `''` for a `DateRange` bound: both are the empty text, since the source tests both with `if start_date:`.
- arrow's lenient parsing: `arrow.get(s, 'YYYY-MM-DD')` is modelled as the strict shape. The model rejects an hour of 24 or more with `ValueError`; this is its own choice, since newer releases of arrow read hour 24 as 00:00 of the next day.
- Years below 1000: they are formatted with four digits.
- DateTime.DateRange.NDays: it is `len(days)` and has no contract of its own.
- DateTime.RangeFromStart, DateTime.RangeToEnd, DateTime.RangeBetween, DateTime.RangeReversed: stated for any triple of common dates. The dates given are not the names `today`, `yesterday` or `tomorrow`, so they resolve to themselves (`DateTime.ResolveFormat`).
- OtherArgs.IntOf: `int(x)` is modelled for ASCII digits, with single underscores between them. Python's `int` also accepts the other Unicode decimal digits, such as '٣'. The model passes such a token on to `floatOf`, so it becomes a float rather than an int.
- OtherArgs.ParseOtherArgs: the result dict is a map, so the insertion order of its keys, which Python's dict keeps, is not modelled.
- Views.MakeView, BigLists.Biglist.View: a view holds a copy of the list's elements taken when it is made. The source keeps a reference to the list (src/zpz/biglist.py:375, src/zpz/biglist.py:393), so a later `clear`, append or item assignment on the list shows through an existing view; that aliasing is not modelled.
- OtherArgs.ParseArgs: the documented example of src/coyote/otherargs.py (`--age 38 --title engineer --print-details`, src/coyote/otherargs.py:35-39) is not stated as a concrete lemma; the general lemmas cover each of its tokens.
- Near-identical copies are covered by one canonical file:
  - `HiveTableMixin` in zpz/sql/hive.py and src/zpz/sql/hive.py, by src/zpz/sql/hive_table.py;
  - zpz/sql/util.py, by src/coyote/sql/util.py;
  - `ColumnMapper` and `RowMapper` in src/zpz/sql/util.py, by utilities/sql/util.py;
  - archive/otherargs.py, by src/coyote/otherargs.py;
  - src/zpz/notify.py and the older utilities/notify.py, by src/coyote/notify.py;
  - zpz/list.py, by utilities/list.py;
  - archive/iter.py and the `all_distinct` of utilities/misc.py, by src/zpz/iter.py;
  - the `is_version` copies in the blobstore utilities, by src/coyote/dropbox/_versioned_uploadable.py;
  - the helpers of src/zpz/spark.py, by src/coyote/spark.py.

## Findings

| source | as written | input that shows it | evidently intended | confidence | as-written member | corrected member |
|---|---|---|---|---|---|---|
| src/coyote/notify.py:162 | `issubclass(exception_classes, Exception)` is evaluated before the list and tuple case, and `issubclass` raises `TypeError` when its first argument is not a class | `notify(exception_classes=[ValueError, KeyError])` | a tuple or list of exception classes is accepted, as the docstring of `notify` says | not executed | Notify.ListOfClassesRefused | Notify.Classes |
| src/coyote/dropbox/_versioned_uploadable.py:40 | with a version given, `__init__` only asserts that no tag is given and never assigns `self.version` | `__init__(version='v1')`, then `remote_dir` raises `AttributeError` | the given version is stored as `self.version` | not executed | Versioned.PassedVersionLost | Versioned.Uploadable.InitStoring |
