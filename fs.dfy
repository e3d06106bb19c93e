/** The virtual file system of src/zpz/filesys/_fs.py: a present working
    directory on top of `join_path`, files and directories told apart by a
    trailing '/', and removal with a `forced` flag.

    The abstract storage hooks `_ls` and `_rm` are given a concrete
    in-memory meaning: the stored files are the keys of a map from full path
    to content, and a directory is listed through the files below it.
 */
module FileSys {
  import opened Wrappers
  import opened Strs
  import opened Paths

  /** `FS.HOME`. */
  const Home: string := "/"

  /** `_isfile`: a path names a file iff it has no trailing '/'. */
  predicate IsFilePath(p: string): (r: bool)
    ensures r <==> |p| == 0 || p[|p| - 1] != '/'
  {
    assert |p| > 0 ==> p[|p| - 1..] == [p[|p| - 1]];
    !EndsWith(p, "/")
  }

  /** `_isdir`: a path names a directory iff it has a trailing '/'. */
  predicate IsDirPath(p: string): (r: bool)
    ensures r <==> !IsFilePath(p)
  {
    EndsWith(p, "/")
  }

  /** The entry, relative to directory `dir`, that stored file `p` below it
      contributes to a listing of `dir`: the whole remainder when recursive,
      otherwise the immediate child of `dir` on the way to `p` (a
      subdirectory keeps its trailing '/'). */
  function Entry(dir: string, p: string, recursive: bool): (e: string)
    requires StartsWith(p, dir)
    ensures |e| > 0 || |p| == |dir|
  {
    var rest := p[|dir|..];
    if recursive then rest
    else
      var i := FindChar(rest, '/');
      if i < 0 then rest else rest[..i + 1]
  }

  /** `_ls(full_path, recursive)` over the stored files. */
  function Listing(files: map<string, string>, full: string, recursive: bool): set<string> {
    if IsFilePath(full) then
      (if full in files then {full} else {})
    else
      set p | p in files && StartsWith(p, full) :: full + Entry(full, p, recursive)
  }

  /** `_exists`: the listing is non-empty. */
  predicate ExistsIn(files: map<string, string>, full: string): (r: bool)
    ensures IsFilePath(full) ==> (r <==> full in files)
  {
    |Listing(files, full, false)| > 0
  }

  /** What `_exists` means: a file exists iff it is stored, a directory iff
      some stored file lies below it. */
  lemma {:induction false} ExistsMeaning(files: map<string, string>, full: string)
    ensures ExistsIn(files, full) <==>
      if IsFilePath(full) then full in files
      else exists p :: p in files && StartsWith(p, full)
  {
    if IsDirPath(full) {
      var l := Listing(files, full, false);
      if p :| p in files && StartsWith(p, full) {
        assert full + Entry(full, p, false) in l;
      }
      if |l| > 0 {
        var c :| c in l;
      }
    }
  }

  class FS {
    /** `_pwd`: absent until the first `cd`. */
    var pwdAttr: Option<string>
    /** The stored files, by full path. */
    var files: map<string, string>

    ghost predicate Valid()
      reads this`pwdAttr
    {
      pwdAttr.Some? ==> StartsWith(pwdAttr.value, "/")
    }

    constructor(initial: map<string, string>)
      ensures Valid()
      ensures pwdAttr == None && files == initial
    {
      pwdAttr := None;
      files := initial;
    }

    /** `pwd`: `_pwd` if set, else `HOME`, with a trailing '/' enforced. */
    function Pwd(): (r: string)
      reads this`pwdAttr
      requires Valid()
      ensures StartsWith(r, "/") && EndsWith(r, "/")
      ensures pwdAttr == None ==> r == Home
    {
      var z := if pwdAttr.Some? then pwdAttr.value else Home;
      WithSlash(z)
    }

    /** `cd(path)`: `None` goes home; otherwise the new directory is
        `join_path(pwd, path)` with a trailing '/'.  A resolution error leaves
        the state unchanged. */
    method Cd(path: Option<string>) returns (r: Result<()>)
      requires Valid()
      modifies this
      ensures Valid()
      ensures files == old(files)
      ensures path.None? ==> r == Ok(()) && Pwd() == Home
      ensures path.Some? ==>
        match Paths.Join(old(Pwd()), path.value)
        case Err(e) => r == Err(e) && pwdAttr == old(pwdAttr)
        case Ok(z) => r == Ok(()) && Pwd() == WithSlash(z)
    {
      var z;
      if path.None? {
        z := Home;
      } else {
        var j := JoinPath(Pwd(), path.value);
        if j.Err? {
          return Err(j.error);
        }
        z := j.value;
      }
      if !EndsWith(z, "/") {
        z := z + "/";
      }
      pwdAttr := Some(z);
      return Ok(());
    }

    /** `fullpath(path)`: `join_path(pwd, path)`, changing nothing. */
    method FullPath(path: string) returns (r: Result<string>)
      requires Valid()
      ensures r == Paths.Join(Pwd(), path)
      ensures r.Ok? ==> StartsWith(r.value, "/")
    {
      r := JoinPath(Pwd(), path);
    }

    /** `isfile(path)`. */
    method IsFile(path: string) returns (r: Result<bool>)
      requires Valid()
      ensures r.Ok? <==> Paths.Join(Pwd(), path).Ok?
      ensures r.Ok? ==> (r.value <==> !EndsWith(Paths.Join(Pwd(), path).value, "/"))
    {
      var full := FullPath(path);
      if full.Err? {
        return Err(full.error);
      }
      return Ok(IsFilePath(full.value));
    }

    /** `isdir(path)`: the exact complement of `isfile` on every path. */
    method IsDir(path: string) returns (r: Result<bool>)
      requires Valid()
      ensures r.Ok? <==> Paths.Join(Pwd(), path).Ok?
      ensures r.Ok? ==> (r.value <==> EndsWith(Paths.Join(Pwd(), path).value, "/"))
    {
      var full := FullPath(path);
      if full.Err? {
        return Err(full.error);
      }
      return Ok(IsDirPath(full.value));
    }

    /** `exists(path)`: `_ls` of the full path is non-empty. */
    method Exists(path: string) returns (r: Result<bool>)
      requires Valid()
      ensures r.Ok? <==> Paths.Join(Pwd(), path).Ok?
      ensures r.Ok? ==> (r.value <==> |Listing(files, Paths.Join(Pwd(), path).value, false)| > 0)
    {
      var full := FullPath(path);
      if full.Err? {
        return Err(full.error);
      }
      return Ok(ExistsIn(files, full.value));
    }

    /** `ls(path, recursive)`: `_ls` of the full path. */
    method Ls(path: string, recursive: bool) returns (r: Result<set<string>>)
      requires Valid()
      ensures r.Ok? <==> Paths.Join(Pwd(), path).Ok?
      ensures r.Ok? ==> r.value == Listing(files, Paths.Join(Pwd(), path).value, recursive)
    {
      var full := FullPath(path);
      if full.Err? {
        return Err(full.error);
      }
      return Ok(Listing(files, full.value, recursive));
    }

    /** `rm(path, forced)`: only a file-form path may be removed; an existing
        file is removed, a missing one is an error unless `forced`. */
    method Rm(path: string, forced: bool) returns (r: Result<()>)
      requires Valid()
      modifies this
      ensures Valid() && pwdAttr == old(pwdAttr)
      ensures match Paths.Join(old(Pwd()), path)
        case Err(e) => r == Err(e) && files == old(files)
        case Ok(full) =>
          if !IsFilePath(full) then r == Err(ZpzError) && files == old(files)
          else if full in old(files) then r == Ok(()) && files == old(files) - {full}
          else if forced then r == Ok(()) && files == old(files)
          else r == Err(ZpzError) && files == old(files)
    {
      var f := FullPath(path);
      if f.Err? {
        return Err(f.error);
      }
      var full := f.value;
      if !IsFilePath(full) {
        return Err(ZpzError);
      }
      ExistsMeaning(files, full);
      if ExistsIn(files, full) {
        files := files - {full};
      } else if !forced {
        return Err(ZpzError);
      }
      return Ok(());
    }
  }
}
