/** The version strings of src/coyote/dropbox/_versioned_uploadable.py:
    `make_version`, `is_version`, and the state a `VersionedUploadableMixin`
    object gets from `__init__`, with the remote directory and the `repr`
    read from it.

    The clock `datetime.utcnow()` is a parameter.  The local directory,
    which comes from environment variables, and the loading, uploading and
    removal of versions, which go to the file system or to Dropbox, are not
    part of this model.
 */
module Versioned {
  import opened Wrappers
  import opened Strs

  // ---------------------------------------------------------------------
  // make_version, is_version

  /** A UTC moment to the second. */
  datatype Clock = Clock(year: nat, month: nat, day: nat, hour: nat, minute: nat, second: nat)

  /** `make_version()`: the moment as `%Y%m%d-%H%M%S`. */
  function MakeVersion(now: Clock): (r: string)
    ensures |r| >= 15 && IsDigit(r[0])
    ensures forall i :: 0 <= i < |r| ==> IsDigit(r[i]) || r[i] == '-'
  {
    Padded(now.year, 4) + Padded(now.month, 2) + Padded(now.day, 2) + "-" +
    Padded(now.hour, 2) + Padded(now.minute, 2) + Padded(now.second, 2)
  }

  /** `ALNUM`: ASCII letters and digits. */
  predicate IsAlnum(c: char) {
    IsAsciiLetter(c) || IsDigit(c)
  }

  /** The characters a version may hold after its first. */
  predicate IsVersionChar(c: char) {
    IsAlnum(c) || c == '.' || c == '_' || c == '-'
  }

  /** `all(v in ALNUM + '._-' for v in version)`, character by character. */
  function AllVersionChars(v: string): (r: bool)
    ensures r <==> forall i :: 0 <= i < |v| ==> IsVersionChar(v[i])
  {
    |v| == 0 || (IsVersionChar(v[0]) && AllVersionChars(v[1..]))
  }

  /** `is_version(version)`: false on the empty string; otherwise the first
      character is a letter or a digit and every character is a letter, a
      digit, `.`, `_` or `-`. */
  function IsVersion(v: string): (r: bool)
    ensures v == "" ==> !r
    ensures r <==> |v| > 0 && IsAlnum(v[0]) && forall i :: 0 <= i < |v| ==> IsVersionChar(v[i])
  {
    if v == "" then false else IsAlnum(v[0]) && AllVersionChars(v)
  }

  /** Every `make_version` string is a version. */
  lemma MakeVersionIsVersion(now: Clock)
    ensures IsVersion(MakeVersion(now))
  {
    var v := MakeVersion(now);
    assert forall i :: 0 <= i < |v| ==> IsDigit(v[i]) || v[i] == '-';
    assert IsDigit(v[0]);
  }

  /** A version, `-` and a version make a version. */
  lemma DashedVersion(v: string, t: string)
    requires IsVersion(v) && IsVersion(t)
    ensures IsVersion(v + "-" + t)
  {
    var s := v + "-" + t;
    assert forall i :: 0 <= i < |s| ==> s[i] == if i < |v| then v[i] else if i == |v| then '-' else t[i - |v| - 1];
  }

  // ---------------------------------------------------------------------
  // __init__

  /** A tag stripped of spaces, then of dashes, then of underscores: it
      neither starts nor ends with `_`. */
  function CleanTag(tag: string): (r: string)
    ensures |r| == 0 || (r[0] != '_' && r[|r| - 1] != '_')
  {
    var s2 := Strip(Strip(tag, {' '}), {'-'});
    var r := Strip(s2, {'_'});
    StripEnds(s2, {'_'});
    assert |r| == 0 || (r[0] !in {'_'} && r[|r| - 1] !in {'_'});
    r
  }

  /** The version `__init__` generates when none is given: the moment's
      version, with `-` and the cleaned tag when a tag is given and does not
      clean away; a cleaned tag that is not a version is refused. */
  function NewVersion(tag: Option<string>, now: Clock): (r: Result<string>)
    ensures r.Ok? ==> IsVersion(r.value)
    ensures r.Err? <==> tag.Some? && CleanTag(tag.value) != "" && !IsVersion(CleanTag(tag.value))
    ensures r.Err? ==> r.error == AssertionError
    ensures r.Ok? && (tag.None? || CleanTag(tag.value) == "") ==> r.value == MakeVersion(now)
    ensures r.Ok? && tag.Some? && CleanTag(tag.value) != "" ==> r.value == MakeVersion(now) + "-" + CleanTag(tag.value)
  {
    MakeVersionIsVersion(now);
    if tag.None? || tag.value == "" then Ok(MakeVersion(now))
    else
      var t := CleanTag(tag.value);
      if t == "" then Ok(MakeVersion(now))
      else if !IsVersion(t) then Err(AssertionError)
      else
        DashedVersion(MakeVersion(now), t);
        Ok(MakeVersion(now) + "-" + t)
  }

  /** An object of a class using `VersionedUploadableMixin`; `version` is
      `None` until it is assigned. */
  class Uploadable {
    const className: string
    var version: Option<string>

    constructor(className: string)
      ensures this.className == className && version == None
    {
      this.className := className;
      version := None;
    }

    /** `__init__(version, version_tag)` as written: with no version given,
        the generated one is assigned before the tag is checked; with a
        version given, a tag is refused and the version is not stored. */
    method Init(version: Option<string>, tag: Option<string>, now: Clock) returns (r: Result<()>)
      modifies this
      ensures version.None? ==>
                (r.Ok? <==> NewVersion(tag, now).Ok?) &&
                this.version == Some(if r.Ok? then NewVersion(tag, now).value else MakeVersion(now))
      ensures version.Some? ==> r == (if tag.Some? then Err(AssertionError) else Ok(())) && this.version == old(this.version)
      ensures r.Err? ==> r.error == AssertionError
    {
      if version.None? {
        this.version := Some(MakeVersion(now));
        if tag.Some? && tag.value != "" {
          var t := CleanTag(tag.value);
          if t != "" {
            if !IsVersion(t) {
              return Err(AssertionError);
            }
            this.version := Some(this.version.value + "-" + t);
          }
        }
        return Ok(());
      }
      if tag.Some? {
        return Err(AssertionError);
      }
      return Ok(());
    }

    /** `__init__` as evidently intended: a given version is stored. */
    method InitStoring(version: Option<string>, tag: Option<string>, now: Clock) returns (r: Result<()>)
      modifies this
      ensures version.None? ==>
                (r.Ok? <==> NewVersion(tag, now).Ok?) &&
                this.version == Some(if r.Ok? then NewVersion(tag, now).value else MakeVersion(now))
      ensures version.Some? ==>
                r == (if tag.Some? then Err(AssertionError) else Ok(())) &&
                (r.Ok? ==> this.version == version)
      ensures r.Err? ==> r.error == AssertionError
    {
      if version.None? {
        r := Init(version, tag, now);
        return;
      }
      if tag.Some? {
        return Err(AssertionError);
      }
      this.version := version;
      return Ok(());
    }

    /** `remote_cls_dir`: `/ClassName/`. */
    function RemoteClassDir(): string {
      "/" + className + "/"
    }

    /** `remote_dir`: the class directory joined with `versions` and the
        version; reading an unassigned version raises `AttributeError`. */
    function RemoteDir(): (r: Result<string>)
      reads this
      ensures version.None? <==> r == Err(AttributeError)
      ensures version.Some? && IsVersion(version.value) ==>
                r == Ok("/" + className + "/" + "versions" + "/" + version.value)
    {
      match version
      case None => Err(AttributeError)
      case Some(v) =>
        var d := OsJoin(RemoteClassDir(), "versions");
        assert d == "/" + className + "/" + "versions" by {
          EndsWithChar(RemoteClassDir(), '/');
          assert "versions"[..1] != "/" by {
            assert "versions"[..1][0] == 'v';
          }
        }
        assert !EndsWith(d, "/") by {
          EndsWithChar(d, '/');
          assert d[|d| - 1] == 's';
        }
        assert IsVersion(v) ==> !StartsWith(v, "/") by {
          assert IsVersion(v) && |v| >= 1 ==> v[..1][0] == v[0];
        }
        Ok(OsJoin(d, v))
    }

    /** `__repr__()`: `ClassName(version="v")`, from which the class name
        and the version read back. */
    function Repr(): (r: Result<string>)
      reads this
      ensures version.None? <==> r == Err(AttributeError)
      ensures r.Ok? ==>
                |r.value| == |className| + 12 + |version.value| &&
                r.value[..|className|] == className &&
                r.value[|className| + 10..|r.value| - 2] == version.value
    {
      match version
      case None => Err(AttributeError)
      case Some(v) =>
        var s := className + "(version=\"" + v + "\")";
        assert s[..|className|] == className;
        assert s[|className| + 10..|s| - 2] == v;
        Ok(s)
    }
  }

  /** A version passed to `__init__` is lost: the object has no version,
      and its remote directory cannot be read. */
  method PassedVersionLost(className: string, v: string, now: Clock) returns (d: Result<string>)
    ensures d == Err(AttributeError)
  {
    var u := new Uploadable(className);
    var r := u.Init(Some(v), None, now);
    d := u.RemoteDir();
  }

  /** With the version stored, an object made from a version has that
      version's remote directory. */
  method PassedVersionKept(className: string, v: string, now: Clock) returns (d: Result<string>)
    ensures IsVersion(v) ==> d == Ok("/" + className + "/" + "versions" + "/" + v)
    ensures d.Ok?
  {
    var u := new Uploadable(className);
    var r := u.InitStoring(Some(v), None, now);
    d := u.RemoteDir();
  }

  /** A generated version always satisfies `is_version`, and its remote
      directory is the class directory, `versions` and the version. */
  method GeneratedVersion(className: string, tag: Option<string>, now: Clock) returns (d: Result<string>)
    ensures d.Ok?
    ensures NewVersion(tag, now).Ok? ==> d == Ok("/" + className + "/" + "versions" + "/" + NewVersion(tag, now).value)
    ensures NewVersion(tag, now).Err? ==> d == Ok("/" + className + "/" + "versions" + "/" + MakeVersion(now))
  {
    var u := new Uploadable(className);
    var r := u.Init(None, tag, now);
    MakeVersionIsVersion(now);
    d := u.RemoteDir();
  }
}
