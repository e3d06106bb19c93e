/** POSIX-style resolution of a relative path against an absolute
    directory, as `join_path` in src/zpz/filesys/path.py does it.

    `Join` is the reference definition: the leading part of the relative path
    (an absolute '/', one './', or a run of '../') picks the directory to start
    from, and the rest must be a '/'-separated list of named segments, with an
    optional trailing '/'.  `JoinPath` is the source's loop-based procedure,
    proved to compute `Join`.
 */
module Paths {
  import opened Wrappers
  import opened Strs

  /** The directory with a trailing '/' enforced. */
  function WithSlash(s: string): (r: string)
    ensures EndsWith(r, "/")
    ensures StartsWith(s, "/") ==> StartsWith(r, "/")
  {
    if EndsWith(s, "/") then s else s + "/"
  }

  predicate AllDots(name: string) {
    forall i :: 0 <= i < |name| ==> name[i] == '.'
  }

  /** A segment that may appear in a path: non-empty and not made of dots only. */
  predicate Named(name: string) {
    |name| > 0 && !AllDots(name)
  }

  /** Segments split off a path tail are acceptable: all named, except that
      the last may be empty (the tail ended with '/'). */
  predicate SegmentsOk(segs: seq<string>)
    requires |segs| >= 1
  {
    if |segs| == 1 then segs[0] == "" || Named(segs[0])
    else Named(segs[0]) && SegmentsOk(segs[1..])
  }

  /** The tail of a relative path is well formed. */
  predicate ValidTail(r: string) {
    SegmentsOk(SplitChar(r, '/'))
  }

  /** Number of leading "../" groups. */
  function LeadingUps(r: string): nat
    decreases |r|
  {
    if StartsWith(r, "../") then 1 + LeadingUps(r[3..]) else 0
  }

  /** What is left after the leading "../" groups. */
  function AfterUps(r: string): (t: string)
    ensures !StartsWith(t, "../")
    decreases |r|
  {
    if StartsWith(r, "../") then AfterUps(r[3..]) else r
  }

  /** The parent of directory `b` (which ends with '/'): its last segment
      dropped.  The root has no parent.  A directory ending in "//" trips the
      source's `assert not base_dir.endswith('/')`. */
  function Parent(b: string): (r: Result<string>)
    requires StartsWith(b, "/") && EndsWith(b, "/")
    ensures r.Ok? ==> StartsWith(r.value, "/") && EndsWith(r.value, "/") && |r.value| < |b|
  {
    if b == "/" then Err(ZpzError)
    else
      var c := b[..|b| - 1];
      if EndsWith(c, "/") then Err(AssertionError)
      else
        assert c[0] == '/';
        var i := RFindChar(c, '/');
        Ok(c[..i + 1])
  }

  /** `k` steps up from directory `b`. */
  function Ascend(b: string, k: nat): (r: Result<string>)
    requires StartsWith(b, "/") && EndsWith(b, "/")
    ensures r.Ok? ==> StartsWith(r.value, "/") && EndsWith(r.value, "/")
    decreases k
  {
    if k == 0 then Ok(b)
    else match Parent(b)
      case Err(e) => Err(e)
      case Ok(p) => Ascend(p, k - 1)
  }

  /** The part of a relative path left after its leading '/', './' or run
      of '../'. */
  function StartTail(r0: string): string {
    if StartsWith(r0, "/") then r0[1..]
    else if StartsWith(r0, "./") then r0[2..]
    else AfterUps(r0)
  }

  /** Where resolution starts: the directory and the tail still to append. */
  function Origin(base: string, rel: string): (r: Result<(string, string)>)
    requires StartsWith(base, "/")
    ensures r.Ok? ==> StartsWith(r.value.0, "/") && EndsWith(r.value.0, "/")
    ensures r.Ok? ==> r.value.1 == StartTail(if rel == ".." then "../" else rel)
  {
    var b0 := WithSlash(base);
    var r0 := if rel == ".." then "../" else rel;
    if StartsWith(r0, "/") then Ok(("/", r0[1..]))
    else if StartsWith(r0, "./") then Ok((b0, r0[2..]))
    else match Ascend(b0, LeadingUps(r0))
      case Err(e) => Err(e)
      case Ok(b1) => Ok((b1, AfterUps(r0)))
  }

  /** The reference definition of `join_path(base, rel)`: a relative base
      fails the opening assertion, and every path it resolves is absolute. */
  function Join(base: string, rel: string): (r: Result<string>)
    ensures !StartsWith(base, "/") ==> r == Err(AssertionError)
    ensures r.Ok? ==> StartsWith(r.value, "/")
  {
    if !StartsWith(base, "/") then Err(AssertionError)
    else if rel == "" || rel == "." || rel == "./" then Ok(base)
    else match Origin(base, rel)
      case Err(e) => Err(e)
      case Ok((b1, r1)) =>
        if ValidTail(r1) then
          assert (b1 + r1)[..1] == b1[..1];
          Ok(b1 + r1)
        else Err(ZpzError)
  }

  // ---------------------------------------------------------------------
  // The source's procedure.

  /** `join_path`: first settle where resolution starts, then append the
      remaining segments one at a time. */
  method JoinPath(baseDir: string, relPath: string) returns (r: Result<string>)
    ensures r == Join(baseDir, relPath)
    // a relative base fails the opening assertion, whatever the path
    ensures !StartsWith(baseDir, "/") ==> r == Err(AssertionError)
    // the trivial relative paths return the base verbatim, unnormalised
    ensures StartsWith(baseDir, "/") && (relPath == "" || relPath == "." || relPath == "./") ==>
      r == Ok(baseDir)
    // an absolute relative path ignores the base directory entirely
    ensures StartsWith(baseDir, "/") && StartsWith(relPath, "/") ==> r == Join("/", relPath)
  {
    if !StartsWith(baseDir, "/") {
      return Err(AssertionError);
    }
    if relPath == "" || relPath == "." || relPath == "./" {
      assert relPath == "" || relPath[..1] == ".";
      return Ok(baseDir);
    }
    if StartsWith(relPath, "/") {
      assert relPath[..1] == "/";
      assert Origin(baseDir, relPath) == Origin("/", relPath);
    }
    var o := ResolveOrigin(baseDir, relPath);
    match o {
      case Err(e) =>
        r := Err(e);
      case Ok((b, rel)) =>
        r := AppendSegments(b, rel);
    }
  }

  /** The prefix handling of `join_path`: trailing '/' on the base, ".." as
      "../", an absolute or "./" prefix, and the loop that climbs one
      directory per leading "../". */
  method ResolveOrigin(baseDir: string, relPath: string) returns (o: Result<(string, string)>)
    requires StartsWith(baseDir, "/")
    ensures o == Origin(baseDir, relPath)
  {
    var b := baseDir;
    var rel := relPath;
    if !EndsWith(b, "/") {
      b := b + "/";
    }
    if rel == ".." {
      rel := "../";
    }
    ghost var b0, r0 := b, rel;
    assert b0 == WithSlash(baseDir);
    if StartsWith(rel, "/") {
      return Ok(("/", rel[1..]));
    } else if StartsWith(rel, "./") {
      return Ok((b, rel[2..]));
    }
    while StartsWith(rel, "../")
      invariant StartsWith(b, "/") && EndsWith(b, "/")
      invariant Ascend(b, LeadingUps(rel)) == Ascend(b0, LeadingUps(r0))
      invariant AfterUps(rel) == AfterUps(r0)
      decreases |rel|
    {
      ghost var bPrev, relPrev := b, rel;
      assert LeadingUps(rel) == 1 + LeadingUps(rel[3..]);
      if b == "/" {
        return Err(ZpzError);
      }
      b := b[..|b| - 1];
      if EndsWith(b, "/") {
        return Err(AssertionError);
      }
      var i := RFindChar(b, '/');
      assert i >= 0 by { assert b[0] == '/'; }
      b := b[..i + 1];
      rel := rel[3..];
      assert Parent(bPrev) == Ok(b);
    }
    assert LeadingUps(rel) == 0 && AfterUps(rel) == rel;
    return Ok((b, rel));
  }

  /** The name loop of `join_path`: each segment up to the next '/' is
      appended with its '/', the last one without; an empty or all-dot
      segment is an error. */
  method AppendSegments(dir: string, tail: string) returns (r: Result<string>)
    ensures r == if ValidTail(tail) then Ok(dir + tail) else Err(ZpzError)
  {
    var b, rel := dir, tail;
    while |rel| > 0
      invariant b + rel == dir + tail
      invariant ValidTail(tail) <==> ValidTail(rel)
      decreases |rel|
    {
      var i := FindChar(rel, '/');
      TailStep(rel);
      if i == 0 {
        return Err(ZpzError);
      }
      var name;
      if i < 0 {
        name := rel;
        rel := "";
        b := b + name;
      } else {
        name := rel[..i];
        assert rel == name + "/" + rel[i + 1..];
        rel := rel[i + 1..];
        b := b + name + "/";
      }
      if AllDots(name) {
        return Err(ZpzError);
      }
    }
    assert b == dir + tail;
    EmptyTailValid();
    return Ok(b);
  }

  // ---------------------------------------------------------------------
  // Segment lemmas.

  /** One step of the name loop, on the reference predicate. */
  lemma {:induction false} TailStep(r: string)
    requires |r| > 0
    ensures var i := FindChar(r, '/');
      (i == 0 ==> !ValidTail(r)) &&
      (i < 0 ==> (ValidTail(r) <==> Named(r))) &&
      (i > 0 ==> (ValidTail(r) <==> Named(r[..i]) && ValidTail(r[i + 1..])))
  {
    var i := FindChar(r, '/');
    if i >= 0 {
      var segs := SplitChar(r, '/');
      var rest := SplitChar(r[i + 1..], '/');
      assert segs == [r[..i]] + rest;
      assert segs[1..] == rest;
    }
  }

  lemma {:induction false} EmptyTailValid()
    ensures ValidTail("")
  {
    assert SplitChar("", '/') == [""];
  }

  // ---------------------------------------------------------------------
  // Properties of join_path.

  /** The parent of a directory drops exactly its last segment. */
  lemma {:induction false} ParentDropsLastSegment(p: string, name: string)
    requires StartsWith(p, "/") && EndsWith(p, "/")
    requires |name| > 0 && '/' !in name
    ensures Parent(p + name + "/") == Ok(p)
  {
    var b := p + name + "/";
    var c := b[..|b| - 1];
    assert c == p + name;
    assert c[|c| - 1] == name[|name| - 1];
    var i := RFindChar(c, '/');
    assert c[|p| - 1] == '/';
    forall k | |p| <= k < |c| ensures c[k] != '/' {
      assert c[k] == name[k - |p|];
    }
    assert c[..i + 1] == p;
  }

  /** `Join` once the origin is known. */
  lemma {:induction false} JoinFromOrigin(base: string, rel: string)
    requires StartsWith(base, "/")
    requires rel != "" && rel != "." && rel != "./"
    requires Origin(base, rel).Ok?
    ensures var (b1, r1) := Origin(base, rel).value;
      Join(base, rel) == if ValidTail(r1) then Ok(b1 + r1) else Err(ZpzError)
  {
  }

  /** A leading '../' steps up exactly one directory and then resolves the
      rest from there, as if it were written after './'. */
  lemma {:induction false} UpOneLevel(base: string, tail: string)
    requires StartsWith(base, "/")
    requires !StartsWith(tail, "../")
    ensures Join(base, "../" + tail) ==
      match Parent(WithSlash(base))
      case Err(e) => Err(e)
      case Ok(p) => Join(p, "./" + tail)
  {
    var rel := "../" + tail;
    assert StartsWith(rel, "../");
    assert rel[3..] == tail;
    assert LeadingUps(tail) == 0 && AfterUps(tail) == tail;
    assert LeadingUps(rel) == 1 + LeadingUps(tail);
    assert AfterUps(rel) == AfterUps(tail);
    assert rel[..1] == "." && rel[..2] == "..";
    var q := "./" + tail;
    assert q[..2] == "./" && q[..1] == "." && q[2..] == tail;
    assert |rel| >= 3;
    match Parent(WithSlash(base))
    case Err(e) =>
      assert Ascend(WithSlash(base), 1) == Err(e);
    case Ok(p) =>
      assert Ascend(WithSlash(base), 1) == Ascend(p, 0) == Ok(p);
      assert WithSlash(p) == p;
      assert Origin(base, rel) == Ok((p, tail));
      JoinFromOrigin(base, rel);
      if tail == "" {
        EmptyTailValid();
        assert p + tail == p;
      } else {
        assert |q| >= 3;
        assert Origin(p, q) == Ok((p, tail));
        JoinFromOrigin(p, q);
      }
  }

  /** A tail containing "//" has an empty segment and is rejected. */
  lemma {:induction false} DoubleSlashTailInvalid(r: string, j: nat)
    requires OccursAt(r, "//", j)
    ensures !ValidTail(r)
    decreases |r|
  {
    var i := FindChar(r, '/');
    TailStep(r);
    assert r[j] == '/' by { assert r[j..j + 2][0] == r[j]; }
    assert r[j + 1] == '/' by { assert r[j..j + 2][1] == r[j + 1]; }
    if i > 0 {
      if j == i {
        var t := r[i + 1..];
        TailStep(t);
        assert t[0] == '/';
        assert FindChar(t, '/') == 0;
      } else {
        var t := r[i + 1..];
        assert t[j - i - 1..j - i + 1] == r[j..j + 2];
        DoubleSlashTailInvalid(t, j - i - 1);
      }
    }
  }

  /** A "//" at or after the start of a tail that follows a '/'-terminated,
      "//"-free prefix makes the tail invalid. */
  lemma {:induction false} SuffixDoubleSlash(rel: string, m: nat, j: nat)
    requires m <= |rel|
    requires OccursAt(rel, "//", j)
    requires 0 < m ==> rel[m - 1] == '/'
    requires forall i :: 0 <= i && i + 1 < m ==> !OccursAt(rel, "//", i)
    ensures !ValidTail(rel[m..])
  {
    var r1 := rel[m..];
    if j + 1 == m {
      // the tail starts with '/': its first segment is empty
      assert rel[j..j + 2][1] == rel[j + 1] == r1[0];
      TailStep(r1);
    } else if j >= m {
      assert r1[j - m..j - m + 2] == rel[j..j + 2];
      DoubleSlashTailInvalid(r1, j - m);
    }
  }

  /** Any "//" in the relative path is an error. */
  lemma {:induction false} DoubleSlashRejected(base: string, rel: string, j: nat)
    requires StartsWith(base, "/")
    requires OccursAt(rel, "//", j)
    ensures Join(base, rel).Err?
  {
    assert rel[j..j + 2][0] == rel[j] == '/';
    assert |rel| >= 2 && rel != "..";
    StartTailDoubleSlash(rel, j);
    JoinRejectsInvalidTail(base, rel);
  }

  lemma {:induction false} StartTailDoubleSlash(rel: string, j: nat)
    requires OccursAt(rel, "//", j)
    ensures !ValidTail(StartTail(rel))
  {
    StartTailShape(rel);
    var r1 := StartTail(rel);
    SuffixDoubleSlash(rel, |rel| - |r1|, j);
  }

  lemma {:induction false} JoinRejectsInvalidTail(base: string, rel: string)
    requires StartsWith(base, "/")
    requires rel != "" && rel != "." && rel != "./" && rel != ".."
    requires !ValidTail(StartTail(rel))
    ensures Join(base, rel).Err?
  {
  }

  /** The tail is a suffix of `rel`; the part before it has no "//", and if
      the parts before it are non-empty they end in '/'. */
  lemma {:induction false} StartTailShape(rel: string)
    ensures var r1 := StartTail(rel);
      |r1| <= |rel| && r1 == rel[|rel| - |r1|..] &&
      (|r1| < |rel| ==> rel[|rel| - |r1| - 1] == '/') &&
      (forall j :: 0 <= j && j + 1 < |rel| - |r1| ==> !OccursAt(rel, "//", j))
  {
    if StartsWith(rel, "/") {
      assert rel[..1] == "/";
    } else if StartsWith(rel, "./") {
      assert rel[..2] == "./";
      assert rel[0..2][0] == '.';
    } else {
      AfterUpsShape(rel);
    }
  }

  lemma {:induction false} AfterUpsShape(r: string)
    ensures var t := AfterUps(r);
      |t| <= |r| && t == r[|r| - |t|..] &&
      (|t| < |r| ==> r[|r| - |t| - 1] == '/') &&
      (forall j :: 0 <= j && j + 1 < |r| - |t| ==> !OccursAt(r, "//", j))
    decreases |r|
  {
    if StartsWith(r, "../") {
      var x := r[3..];
      AfterUpsShape(x);
      var t := AfterUps(r);
      assert t == AfterUps(x);
      assert r[..3] == "../";
      assert r[0] == r[..3][0] && r[1] == r[..3][1] && r[2] == r[..3][2];
      forall j | 0 <= j && j + 1 < |r| - |t| ensures !OccursAt(r, "//", j) {
        if j >= 3 {
          SliceOfSlice(r, 3, |r|, j - 3, j - 1);
          assert !OccursAt(x, "//", j - 3);
        } else if j < 2 {
          assert r[j..j + 2][0] == r[j];
        } else {
          assert StartsWith(x, "../");
          assert x[..3][0] == x[0] == r[3];
          assert r[j..j + 2][1] == r[3];
        }
        assert !OccursAt(r, "//", j);
      }
      if |t| < |x| {
        assert x[|x| - |t| - 1] == r[|r| - |t| - 1];
      }
    }
  }

  /** The part of the tail after `rel`'s prefix ends with '/' (or is empty)
      exactly when `rel` ends with '/' or is "..". */
  lemma {:induction false} OriginTrailingSlash(base: string, rel: string)
    requires StartsWith(base, "/")
    requires rel != "" && rel != "." && rel != "./"
    requires Origin(base, rel).Ok?
    ensures var r1 := Origin(base, rel).value.1;
      (r1 == "" || EndsWith(r1, "/")) <==> (EndsWith(rel, "/") || rel == "..")
  {
    var r1 := Origin(base, rel).value.1;
    if rel == ".." {
      assert "../"[3..] == "";
      assert StartTail("../") == AfterUps("");
    } else {
      StartTailShape(rel);
      EndsWithChar(rel, '/');
      if r1 != "" {
        EndsWithChar(r1, '/');
        assert r1[|r1| - 1] == rel[|rel| - 1];
      }
    }
  }

  /** A relative path ends with '/' exactly when its result does, except that
      ".." also resolves to a directory. */
  lemma {:induction false} JoinTrailingSlash(base: string, rel: string)
    requires StartsWith(base, "/")
    requires rel != "" && rel != "." && rel != "./"
    requires Join(base, rel).Ok?
    ensures EndsWith(Join(base, rel).value, "/") <==> EndsWith(rel, "/") || rel == ".."
  {
    JoinFromOrigin(base, rel);
    OriginTrailingSlash(base, rel);
    var (b1, r1) := Origin(base, rel).value;
    EndsWithChar(b1, '/');
    EndsWithChar(b1 + r1, '/');
    if r1 != "" {
      EndsWithChar(r1, '/');
    }
  }

  /** A relative path whose first segment is named resolves from the base
      directory itself, tail and all. */
  lemma {:induction false} NamedStart(base: string, rel: string, first: string)
    requires StartsWith(base, "/")
    requires Named(first) && '/' !in first && StartsWith(rel, first)
    requires |rel| == |first| || rel[|first|] == '/'
    ensures rel != "" && rel != "." && rel != "./" && rel != ".."
    ensures Origin(base, rel) == Ok((WithSlash(base), rel))
  {
    assert forall i :: 0 <= i < |first| ==> rel[i] == first[i] by {
      forall i | 0 <= i < |first| ensures rel[i] == first[i] {
        assert rel[..|first|][i] == rel[i];
      }
    }
    assert first[0] in first;
    StartsWithChars(rel, "/");
    StartsWithChars(rel, "./");
    StartsWithChars(rel, "../");
    if |first| >= 2 {
      assert first[1] in first;
    }
    if |first| >= 3 {
      assert first[2] in first;
    }
  }

  /** After a named first segment, the tail is valid exactly when the rest is. */
  lemma {:induction false} NamedHead(first: string, rest: string)
    requires Named(first) && '/' !in first
    ensures ValidTail(first + "/" + rest) <==> ValidTail(rest)
  {
    var r := first + "/" + rest;
    TailStep(r);
    assert r[|first|] == '/';
    assert forall k :: 0 <= k < |first| ==> r[k] == first[k];
    assert FindChar(r, '/') == |first|;
    assert r[..|first|] == first;
    assert r[|first| + 1..] == rest;
  }

  /** A tail that begins with an all-dot segment is invalid. */
  lemma {:induction false} DotsHead(dots: string, tail: string)
    requires |dots| > 0 && AllDots(dots)
    requires tail == "" || StartsWith(tail, "/")
    ensures !ValidTail(dots + tail)
  {
    var t := dots + tail;
    TailStep(t);
    assert forall k :: 0 <= k < |dots| ==> t[k] == dots[k] == '.';
    if tail == "" {
      assert t == dots;
      assert FindChar(t, '/') == -1;
    } else {
      assert tail[..1] == "/";
      assert t[|dots|] == tail[0] == '/';
      assert FindChar(t, '/') == |dots|;
      assert t[..|dots|] == dots;
    }
  }

  /** A plain name resolves to that name inside the base directory. */
  lemma {:induction false} JoinPlainName(base: string, name: string)
    requires StartsWith(base, "/")
    requires Named(name) && '/' !in name
    ensures Join(base, name) == Ok(WithSlash(base) + name)
  {
    NamedStart(base, name, name);
    JoinFromOrigin(base, name);
    assert forall k :: 0 <= k < |name| ==> name[k] != '/';
    TailStep(name);
  }

  /** A segment made only of dots is rejected when it follows a named one. */
  lemma {:induction false} DotSegmentRejected(base: string, first: string, dots: string, tail: string)
    requires StartsWith(base, "/")
    requires Named(first) && '/' !in first
    requires |dots| > 0 && AllDots(dots)
    requires tail == "" || StartsWith(tail, "/")
    ensures Join(base, first + "/" + dots + tail).Err?
  {
    var rel := first + "/" + dots + tail;
    assert rel == first + "/" + (dots + tail);
    assert rel[..|first|] == first;
    assert rel[|first|] == '/';
    NamedStart(base, rel, first);
    JoinFromOrigin(base, rel);
    NamedHead(first, dots + tail);
    DotsHead(dots, tail);
  }

  /** An absolute path whose root is a single '/', not "//". */
  predicate SingleRoot(p: string) {
    |p| > 0 && p[0] == '/' && (|p| == 1 || p[1] != '/')
  }

  lemma {:induction false} SingleRootIsAbsolute(p: string)
    requires SingleRoot(p)
    ensures StartsWith(p, "/")
  {
    assert p[..1] == "/";
  }

  /** The first segment of a valid tail is never empty. */
  lemma {:induction false} ValidTailHead(r: string)
    requires ValidTail(r) && |r| > 0
    ensures r[0] != '/'
  {
    TailStep(r);
  }

  lemma {:induction false} AscendSingleRoot(b: string, k: nat)
    requires SingleRoot(b) && EndsWith(b, "/")
    requires StartsWith(b, "/")
    ensures Ascend(b, k).Ok? ==> SingleRoot(Ascend(b, k).value)
    decreases k
  {
    if k > 0 && Parent(b).Ok? {
      var p := Parent(b).value;
      ParentSingleRoot(b);
      SingleRootIsAbsolute(p);
      AscendSingleRoot(p, k - 1);
    }
  }

  /** The parent of a directory with a single leading `/` has one too. */
  lemma ParentSingleRoot(b: string)
    requires SingleRoot(b) && EndsWith(b, "/") && StartsWith(b, "/")
    requires Parent(b).Ok?
    ensures SingleRoot(Parent(b).value)
  {
    var p := Parent(b).value;
    var c := b[..|b| - 1];
    assert p == c[..RFindChar(c, '/') + 1];
    if |p| >= 2 {
      assert p[1] == b[1];
    }
  }

  lemma {:induction false} OriginSingleRoot(base: string, rel: string)
    requires SingleRoot(base) && StartsWith(base, "/")
    ensures Origin(base, rel).Ok? ==> SingleRoot(Origin(base, rel).value.0)
  {
    var b0 := WithSlash(base);
    assert SingleRoot(b0) by {
      if b0 != base {
        assert b0[0] == base[0];
        if |base| >= 2 {
          assert b0[1] == base[1];
        }
      }
    }
    var r0 := if rel == ".." then "../" else rel;
    if !StartsWith(r0, "/") && !StartsWith(r0, "./") {
      AscendSingleRoot(b0, LeadingUps(r0));
    }
  }

  lemma {:induction false} ConcatSingleRoot(b: string, r: string)
    requires SingleRoot(b)
    requires r == "" || r[0] != '/'
    ensures SingleRoot(b + r)
  {
    assert (b + r)[0] == b[0];
    if |b| >= 2 {
      assert (b + r)[1] == b[1];
    } else if |r| > 0 {
      assert (b + r)[1] == r[0];
    }
  }

  /** Resolution never produces a path beginning with "//" unless the base
      directory does; so `os.path.join(home, p[1:])` stays below `home`. */
  lemma {:induction false} JoinSingleRoot(base: string, rel: string)
    requires SingleRoot(base)
    ensures StartsWith(base, "/")
    ensures Join(base, rel).Ok? ==> SingleRoot(Join(base, rel).value)
  {
    SingleRootIsAbsolute(base);
    if !(rel == "" || rel == "." || rel == "./") && Origin(base, rel).Ok? {
      var (b1, r1) := Origin(base, rel).value;
      JoinFromOrigin(base, rel);
      OriginSingleRoot(base, rel);
      if ValidTail(r1) {
        if |r1| > 0 {
          ValidTailHead(r1);
        }
        ConcatSingleRoot(b1, r1);
      }
    }
  }
}
