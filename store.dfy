/** The blob store of src/zpz/blobstore/_store.py: a box rooted at `home`
    in the real file system, navigated with store-absolute paths that
    `join_path` resolves against a present working directory.

    The abstract storage hooks (`_exists_file`, `_exists_dir`, `_ls_dir`,
    `_rm`, `_put_text`, `_get_text`) act on an in-memory map from
    store-absolute file path to text; a directory exists when some stored
    file lies below it.
 */
module BlobStore {
  import opened Wrappers
  import opened Strs
  import opened Paths
  import opened FileSys

  /** `_exists_dir`: some stored file lies below directory `dir`. */
  predicate DirExists(files: map<string, string>, dir: string) {
    exists p :: p in files && StartsWith(p, dir)
  }

  /** `_ls_dir(dir, recursive)`: the entries below `dir`, relative to it. */
  function LsDir(files: map<string, string>, dir: string, recursive: bool): set<string> {
    set p | p in files && StartsWith(p, dir) :: Entry(dir, p, recursive)
  }

  /** A directory that exists has a non-empty listing, and one that does not
      has none. */
  lemma {:induction false} LsDirNonEmpty(files: map<string, string>, dir: string, recursive: bool)
    ensures DirExists(files, dir) <==> |LsDir(files, dir, recursive)| > 0
  {
    var l := LsDir(files, dir, recursive);
    if p :| p in files && StartsWith(p, dir) {
      assert Entry(dir, p, recursive) in l;
    }
    if |l| > 0 {
      var e :| e in l;
    }
  }

  /** The listing of an existing directory: its entries joined onto the
      path the caller gave. */
  function Listed(files: map<string, string>, dir: string, path: string, recursive: bool): set<string> {
    set v | v in LsDir(files, dir, recursive) :: OsJoin(path, v)
  }

  /** An existing directory lists at least one entry, and every listed item is
      an entry of `_ls_dir` joined onto the given path. */
  lemma {:induction false} ListedNonEmpty(files: map<string, string>, dir: string, path: string, recursive: bool)
    ensures DirExists(files, dir) <==> |Listed(files, dir, path, recursive)| > 0
  {
    LsDirNonEmpty(files, dir, recursive);
    var l := Listed(files, dir, path, recursive);
    if v :| v in LsDir(files, dir, recursive) {
      assert OsJoin(path, v) in l;
    }
    if |l| > 0 {
      var x :| x in l;
    }
  }

  /** `os.path.join(home, p[1:])` for a single-rooted `p` is a plain
      concatenation below `home`. */
  lemma {:induction false} RealPathShape(home: string, p: string)
    requires EndsWith(home, "/") && SingleRoot(p)
    ensures OsJoin(home, p[1..]) == home + p[1..]
    ensures StartsWith(home + p[1..], home)
  {
    var rest := p[1..];
    assert !StartsWith(rest, "/") by {
      if |rest| > 0 {
        assert rest[0] == p[1];
      }
    }
    assert (home + rest)[..|home|] == home;
  }

  class Store {
    /** `_home`: read-only after construction. */
    const home: string
    /** `_pwd`, store-absolute. */
    var pwd: string
    /** The stored files, by store-absolute path. */
    var files: map<string, string>

    ghost predicate Valid()
      reads this`pwd
    {
      EndsWith(home, "/") && StartsWith(pwd, "/") && SingleRoot(pwd) && EndsWith(pwd, "/")
    }

    /** `Store(home)`: a trailing '/' is enforced on `home`; `pwd` starts at
        the store's root. */
    constructor(home0: string)
      ensures Valid()
      ensures home == WithSlash(home0) && pwd == "/" && files == map[]
    {
      home := WithSlash(home0);
      pwd := "/";
      files := map[];
    }

    /** `abspath(path)`: `join_path(pwd, path)`, a store-absolute path. */
    method AbsPath(path: string) returns (r: Result<string>)
      requires Valid()
      ensures r == Paths.Join(pwd, path)
      ensures r.Ok? ==> SingleRoot(r.value)
    {
      r := JoinPath(pwd, path);
      JoinSingleRoot(pwd, path);
    }

    /** `realpath(path)`: `os.path.join(home, abspath(path)[1:])`, which is
        `home` followed by the store-absolute path without its leading '/';
        it never escapes `home`. */
    method RealPath(path: string) returns (r: Result<string>)
      requires Valid()
      ensures Paths.Join(pwd, path).Err? ==> r == Err(Paths.Join(pwd, path).error)
      ensures Paths.Join(pwd, path).Ok? ==> r == Ok(home + Paths.Join(pwd, path).value[1..])
      ensures r.Ok? ==> StartsWith(r.value, home)
    {
      var a := AbsPath(path);
      if a.Err? {
        return Err(a.error);
      }
      RealPathShape(home, a.value);
      r := Ok(OsJoin(home, a.value[1..]));
    }

    /** `cd(path)`: `None` goes to the store's root; otherwise `pwd` becomes
        `abspath(path)` with a trailing '/'.  A resolution error leaves the
        state unchanged. */
    method Cd(path: Option<string>) returns (r: Result<()>)
      requires Valid()
      modifies this
      ensures Valid()
      ensures files == old(files)
      ensures path.None? ==> r == Ok(()) && pwd == "/"
      ensures path.Some? ==>
        match Paths.Join(old(pwd), path.value)
        case Err(e) => r == Err(e) && pwd == old(pwd)
        case Ok(z) => r == Ok(()) && pwd == WithSlash(z)
    {
      if path.None? {
        SetPwd("/");
        return Ok(());
      }
      var a := AbsPath(path.value);
      if a.Err? {
        return Err(a.error);
      }
      SetPwd(a.value);
      return Ok(());
    }

    /** The tail of `cd`: store a directory with its trailing '/'. */
    method SetPwd(z: string)
      requires Valid()
      requires SingleRoot(z)
      modifies this
      ensures Valid()
      ensures pwd == WithSlash(z) && files == old(files)
    {
      SingleRootIsAbsolute(z);
      var y := z;
      if !EndsWith(y, "/") {
        if |y| >= 2 {
          assert (y + "/")[1] == y[1];
        }
        y := y + "/";
      }
      pwd := y;
    }

    /** `exists(path)`: a file-form path asks `_exists_file`, a directory-form
        path `_exists_dir`. */
    method Exists(path: string) returns (r: Result<bool>)
      requires Valid()
      ensures Paths.Join(pwd, path).Err? ==> r == Err(Paths.Join(pwd, path).error)
      ensures Paths.Join(pwd, path).Ok? ==>
        var full := Paths.Join(pwd, path).value;
        r == Ok(if IsFilePath(full) then full in files else DirExists(files, full))
    {
      var a := AbsPath(path);
      if a.Err? {
        return Err(a.error);
      }
      var full := a.value;
      if IsFilePath(full) {
        return Ok(full in files);
      }
      return Ok(DirExists(files, full));
    }

    /** `ls(path, recursive)`: a file lists as the given `path` itself when it
        exists; an existing directory lists its entries joined onto the given
        `path`; anything else lists nothing. */
    method Ls(path: string, recursive: bool) returns (r: Result<set<string>>)
      requires Valid()
      ensures match Paths.Join(pwd, path)
        case Err(e) => r == Err(e)
        case Ok(full) =>
          if IsFilePath(full) then r == Ok(if full in files then {path} else {})
          else if DirExists(files, full) then r == Ok(Listed(files, full, path, recursive))
          else r == Ok({})
    {
      var a := AbsPath(path);
      if a.Err? {
        return Err(a.error);
      }
      var full := a.value;
      if IsFilePath(full) {
        if full in files {
          return Ok({path});
        }
        return Ok({});
      }
      if DirExists(files, full) {
        return Ok(Listed(files, full, path, recursive));
      }
      return Ok({});
    }

    /** `rm(path, forced)`: only a file-form path may be removed; an existing
        file is removed, a missing one is an error unless `forced`. */
    method Rm(path: string, forced: bool) returns (r: Result<()>)
      requires Valid()
      modifies this
      ensures Valid() && pwd == old(pwd)
      ensures match Paths.Join(old(pwd), path)
        case Err(e) => r == Err(e) && files == old(files)
        case Ok(full) =>
          if !IsFilePath(full) then r == Err(ZpzError) && files == old(files)
          else if full in old(files) then r == Ok(()) && files == old(files) - {full}
          else if forced then r == Ok(()) && files == old(files)
          else r == Err(ZpzError) && files == old(files)
    {
      var a := AbsPath(path);
      if a.Err? {
        return Err(a.error);
      }
      r := RemoveAt(a.value, forced);
    }

    /** The tail of `rm`, once the full path is known. */
    method RemoveAt(full: string, forced: bool) returns (r: Result<()>)
      requires Valid()
      modifies this
      ensures Valid() && pwd == old(pwd)
      ensures
          if !IsFilePath(full) then r == Err(ZpzError) && files == old(files)
          else if full in old(files) then r == Ok(()) && files == old(files) - {full}
          else if forced then r == Ok(()) && files == old(files)
          else r == Err(ZpzError) && files == old(files)
    {
      if !IsFilePath(full) {
        return Err(ZpzError);
      }
      if full in files {
        files := files - {full};
      } else if !forced {
        return Err(ZpzError);
      }
      return Ok(());
    }

    /** `put_text(text, path, forced)`: writes a file-form path; an existing
        file is an error unless `forced`, in which case it is replaced. */
    method PutText(text: string, path: string, forced: bool) returns (r: Result<()>)
      requires Valid()
      modifies this
      ensures Valid() && pwd == old(pwd)
      ensures match Paths.Join(old(pwd), path)
        case Err(e) => r == Err(e) && files == old(files)
        case Ok(full) =>
          if !IsFilePath(full) then r == Err(ZpzError) && files == old(files)
          else if full in old(files) && !forced then r == Err(ZpzError) && files == old(files)
          else r == Ok(()) && files == old(files)[full := text]
    {
      var a := AbsPath(path);
      if a.Err? {
        return Err(a.error);
      }
      r := WriteAt(text, a.value, forced);
    }

    /** The tail of `put_text`, once the full path is known. */
    method WriteAt(text: string, full: string, forced: bool) returns (r: Result<()>)
      requires Valid()
      modifies this
      ensures Valid() && pwd == old(pwd)
      ensures
          if !IsFilePath(full) then r == Err(ZpzError) && files == old(files)
          else if full in old(files) && !forced then r == Err(ZpzError) && files == old(files)
          else r == Ok(()) && files == old(files)[full := text]
    {
      if !IsFilePath(full) {
        return Err(ZpzError);
      }
      if full in files && !forced {
        return Err(ZpzError);
      }
      // with `forced`, `_rm` followed by `_put_text` is a single overwrite
      files := files[full := text];
      return Ok(());
    }

    /** `get_text(path)`: the text of an existing file; a directory-form or
        missing path is an error. */
    method GetText(path: string) returns (r: Result<string>)
      requires Valid()
      ensures match Paths.Join(pwd, path)
        case Err(e) => r == Err(e)
        case Ok(full) =>
          if IsFilePath(full) && full in files then r == Ok(files[full])
          else r == Err(ZpzError)
    {
      var a := AbsPath(path);
      if a.Err? {
        return Err(a.error);
      }
      var full := a.value;
      if !IsFilePath(full) {
        return Err(ZpzError);
      }
      if full !in files {
        return Err(ZpzError);
      }
      return Ok(files[full]);
    }
  }

  /** Text written with `put_text` reads back unchanged with `get_text`; the
      write succeeds exactly for a resolvable file-form path that is new or
      is overwritten with `forced`. */
  method PutThenGet(s: Store, text: string, path: string, forced: bool)
    returns (put: Result<()>, got: Result<string>)
    requires s.Valid()
    modifies s
    ensures s.Valid()
    ensures put.Ok? <==>
      Paths.Join(old(s.pwd), path).Ok? &&
      IsFilePath(Paths.Join(old(s.pwd), path).value) &&
      (forced || Paths.Join(old(s.pwd), path).value !in old(s.files))
    ensures put.Ok? ==> got == Ok(text)
  {
    put := s.PutText(text, path, forced);
    got := s.GetText(path);
  }
}
