/** The table definitions of src/zpz/sql/hive_table.py: how
    `HiveTableMixin.__init__` normalises its arguments, the names, paths,
    conditions and locations derived from them, and the location rewriting
    between Hive and Athena tables.

    A table is a value: the constructor builds it once and no method of the
    modelled part changes it.  `partitions=None` is given as `[]`, which the
    source treats the same way; `location=None` is `None`.
 */
module HiveTable {
  import opened Wrappers
  import opened Strs

  /** A `(name, type)` pair of `columns` or `partitions`. */
  datatype Column = Column(name: string, type_: string)

  /** `_s3_bucket_key` and `_s3_bucket_path`. */
  datatype Bucket = Bucket(key: string, path: string)

  /** The attributes `__init__` sets.  `location` and `bucket` are `None`
      where the source leaves the attribute unset. */
  datatype Table = Table(
    db: string, tb: string,
    columns: seq<Column>, partitions: seq<Column>,
    storedAs: string, fieldDelimiter: string, compression: string,
    location: Option<string>, external: bool, s3external: bool,
    bucket: Option<Bucket>)

  // ---------------------------------------------------------------------
  // __init__

  /** The storage formats `__init__` accepts. */
  predicate IsFormat(s: string) {
    s == "ORC" || s == "PARQUET" || s == "TEXTFILE"
  }

  /** No lower-case ASCII letter. */
  predicate NoLower(s: string) {
    forall i :: 0 <= i < |s| ==> !('a' <= s[i] <= 'z')
  }

  /** The pairs with their types upper-cased. */
  function UpperTypes(cols: seq<Column>): (r: seq<Column>)
    ensures |r| == |cols|
    ensures forall i :: 0 <= i < |cols| ==> r[i].name == cols[i].name && r[i].type_ == Upper(cols[i].type_)
  {
    if cols == [] then [] else [Column(cols[0].name, Upper(cols[0].type_))] + UpperTypes(cols[1..])
  }

  /** Every type is upper case. */
  predicate TypesUpper(cols: seq<Column>) {
    forall i :: 0 <= i < |cols| ==> NoLower(cols[i].type_)
  }

  /** Upper-cased text has no lower-case letter, and text without one is
      its own upper case. */
  lemma {:induction false} UpperNoLower(s: string)
    ensures NoLower(Upper(s))
    ensures NoLower(s) ==> Upper(s) == s
  {
  }

  /** Upper-casing the types leaves them upper case, and upper-case types
      are left alone. */
  lemma {:induction false} UpperTypesFixed(cols: seq<Column>)
    ensures TypesUpper(UpperTypes(cols))
    ensures TypesUpper(cols) ==> UpperTypes(cols) == cols
  {
    forall i | 0 <= i < |cols| ensures NoLower(UpperTypes(cols)[i].type_) && (NoLower(cols[i].type_) ==> UpperTypes(cols)[i] == cols[i]) {
      UpperNoLower(cols[i].type_);
    }
  }

  /** A location in normal form: it ends in exactly one `/` (or is `/`). */
  predicate Normal(loc: string) {
    |loc| >= 1 && loc[|loc| - 1] == '/' && (|loc| == 1 || loc[|loc| - 2] != '/')
  }

  /** `location.rstrip('/') + '/'`. */
  function NormalLocation(loc: string): (r: string)
    ensures Normal(r)
  {
    RStrip(loc, {'/'}) + "/"
  }

  /** Normalising is the identity on normal locations, hence idempotent. */
  lemma {:induction false} NormalLocationFixed(loc: string)
    ensures Normal(loc) ==> NormalLocation(loc) == loc
    ensures NormalLocation(NormalLocation(loc)) == NormalLocation(loc)
  {
    if Normal(loc) {
      var init := loc[..|loc| - 1];
      assert RStrip(loc, {'/'}) == RStrip(init, {'/'});
      assert RStrip(init, {'/'}) == init;
      assert init + "/" == loc;
    }
  }

  /** Whether a location is normal does not depend on its scheme. */
  lemma {:induction false} NormalSwap(p: string, q: string, z: string)
    requires |p| >= 2 && p[|p| - 1] == '/' && p[|p| - 2] == '/'
    requires |q| >= 2 && q[|q| - 1] == '/' && q[|q| - 2] == '/'
    ensures Normal(p + z) <==> Normal(q + z)
  {
    if |z| >= 2 {
      assert (p + z)[|p + z| - 2] == z[|z| - 2] == (q + z)[|q + z| - 2];
    } else if |z| == 1 {
      assert (p + z)[|p + z| - 2] == p[|p| - 1];
      assert (q + z)[|q + z| - 2] == q[|q| - 1];
    } else {
      assert p + z == p && q + z == q;
    }
  }

  /** The text after `s3://` or `s3n://`, for an S3 location. */
  function S3Rest(loc: string): (r: Option<string>)
    ensures r.Some? <==> StartsWith(loc, "s3://") || StartsWith(loc, "s3n://")
    ensures r.Some? ==> loc == "s3://" + r.value || loc == "s3n://" + r.value
  {
    if StartsWith(loc, "s3://") then
      assert loc == loc[..5] + loc[5..];
      Some(loc[5..])
    else if StartsWith(loc, "s3n://") then
      assert loc == loc[..6] + loc[6..];
      Some(loc[6..])
    else None
  }

  /** The text after either scheme is found again. */
  lemma {:induction false} S3RestOf(p: string, z: string)
    requires p == "s3://" || p == "s3n://"
    ensures S3Rest(p + z) == Some(z)
  {
    var loc := p + z;
    if p == "s3://" {
      assert loc[..5] == p;
      assert loc[5..] == z;
    } else {
      assert loc[2] == 'n';
      assert !StartsWith(loc, "s3://");
      assert loc[..6] == p;
      assert loc[6..] == z;
    }
  }

  /** The `assert '/' in z` of `__init__` always holds: a normal location
      that starts with a scheme ends in `/` after it. */
  lemma {:induction false} S3RestHasSlash(loc: string)
    requires Normal(loc) && S3Rest(loc).Some?
    ensures FindChar(S3Rest(loc).value, '/') >= 0
  {
    var z := S3Rest(loc).value;
    assert |z| >= 1 && z[|z| - 1] == '/' by {
      if StartsWith(loc, "s3://") {
        assert loc[4] == '/';
        assert |loc| > 5;
      } else {
        assert loc[5] == '/';
        assert |loc| > 6;
      }
    }
  }

  /** The location attributes: `location`, `external`, `s3external` and
      the bucket. */
  datatype Place = Place(location: Option<string>, external: bool, s3external: bool, bucket: Option<Bucket>)

  /** `location` split at its scheme, bucket key and bucket path. */
  predicate BucketOf(loc: string, b: Bucket) {
    '/' !in b.key && S3Rest(loc) == Some(b.key + "/" + b.path)
  }

  /** What holds of the location attributes `__init__` sets. */
  predicate PlaceWf(p: Place) {
    (p.external <==> p.location.Some?) &&
    (p.location.Some? ==> Normal(p.location.value)) &&
    (p.s3external <==> p.bucket.Some?) &&
    (p.location.Some? ==> (p.s3external <==> S3Rest(p.location.value).Some?)) &&
    (p.s3external ==> p.location.Some? && BucketOf(p.location.value, p.bucket.value))
  }

  /** The location part of `__init__`.  An empty `location`, like `None`,
      is no location; a location is normalised and makes the table
      external, and an S3 location also gives the bucket key (up to the
      first `/` after the scheme) and path (the rest). */
  function Locate(location: Option<string>): (r: Result<Place>)
    ensures r.Ok? && PlaceWf(r.value)
    ensures r.value.location == if location.None? || location.value == "" then None else Some(NormalLocation(location.value))
  {
    if location.None? || location.value == "" then Ok(Place(None, false, false, None))
    else
      var loc := NormalLocation(location.value);
      match S3Rest(loc)
      case None => Ok(Place(Some(loc), true, false, None))
      case Some(z) =>
        S3RestHasSlash(loc);
        var i := FindChar(z, '/');
        if i < 0 then Err(AssertionError)
        else
          assert z == z[..i] + "/" + z[i + 1..];
          Ok(Place(Some(loc), true, true, Some(Bucket(z[..i], z[i + 1..]))))
  }

  /** The location attributes of a table. */
  function PlaceOf(t: Table): Place {
    Place(t.location, t.external, t.s3external, t.bucket)
  }

  /** `HiveTableMixin.__init__`: the types upper-cased, the storage format
      upper-cased and checked, and the location attributes. */
  function MakeTable(db: string, tb: string, columns: seq<Column>, partitions: seq<Column>,
                     storedAs: string, fieldDelimiter: string, compression: string,
                     location: Option<string>): (r: Result<Table>)
    ensures r.Err? <==> !IsFormat(Upper(storedAs))
    ensures r.Err? ==> r.error == AssertionError
    ensures r.Ok? ==> Wf(r.value)
    ensures r.Ok? ==> (r.value.db == db && r.value.tb == tb && r.value.storedAs == Upper(storedAs) &&
      r.value.fieldDelimiter == fieldDelimiter && r.value.compression == compression &&
      r.value.columns == UpperTypes(columns) && r.value.partitions == UpperTypes(partitions))
    ensures r.Ok? ==> Ok(PlaceOf(r.value)) == Locate(location)
  {
    var st := Upper(storedAs);
    UpperNoLower(storedAs);
    UpperTypesFixed(columns);
    UpperTypesFixed(partitions);
    if !IsFormat(st) then Err(AssertionError)
    else
      match Locate(location)
      case Err(e) => Err(e)
      case Ok(p) =>
        Ok(Table(db, tb, UpperTypes(columns), UpperTypes(partitions), st, fieldDelimiter, compression,
                 p.location, p.external, p.s3external, p.bucket))
  }

  /** What holds of every table `__init__` builds. */
  predicate Wf(t: Table) {
    TypesUpper(t.columns) && TypesUpper(t.partitions) && IsFormat(t.storedAs) && PlaceWf(PlaceOf(t))
  }

  /** Locating again from a well-formed location gives the same
      attributes. */
  lemma {:induction false} Relocate(p: Place)
    requires PlaceWf(p)
    ensures Locate(p.location) == Ok(p)
  {
    if p.location.Some? {
      var loc := p.location.value;
      NormalLocationFixed(loc);
      if p.s3external {
        BucketSplit(p.bucket.value);
      }
    }
  }

  /** Rebuilding a table from its own attributes gives the same table. */
  lemma {:induction false} Rebuild(t: Table)
    requires Wf(t)
    ensures MakeTable(t.db, t.tb, t.columns, t.partitions, t.storedAs, t.fieldDelimiter, t.compression, t.location) == Ok(t)
  {
    assert Upper(t.storedAs) == t.storedAs by {
      UpperNoLower(t.storedAs);
    }
    assert UpperTypes(t.columns) == t.columns && UpperTypes(t.partitions) == t.partitions by {
      UpperTypesFixed(t.columns);
      UpperTypesFixed(t.partitions);
    }
    Relocate(PlaceOf(t));
  }

  /** The bucket key and path are found again from the text after the
      scheme. */
  lemma {:induction false} BucketSplit(b: Bucket)
    requires '/' !in b.key
    ensures var z := b.key + "/" + b.path;
      FindChar(z, '/') == |b.key| && z[..|b.key|] == b.key && z[|b.key| + 1..] == b.path
  {
    var z := b.key + "/" + b.path;
    assert z[|b.key|] == '/';
    assert forall k :: 0 <= k < |b.key| ==> z[k] == b.key[k];
  }

  // ---------------------------------------------------------------------
  // Names, paths, conditions and locations

  /** `full_name`: the database and the table joined by a dot. */
  function FullName(t: Table): (r: string)
    ensures '.' !in t.db ==> FindChar(r, '.') == |t.db| && r[..|t.db|] == t.db && r[|t.db| + 1..] == t.tb
  {
    var r := t.db + "." + t.tb;
    assert r[|t.db|] == '.';
    assert forall k :: 0 <= k < |t.db| ==> r[k] == t.db[k];
    r
  }

  /** The `k=v` pieces, each value with the partition column in its
      position. */
  function Assignments(partitions: seq<Column>, values: seq<string>): (r: seq<string>)
    requires |values| <= |partitions|
    ensures |r| == |values|
    ensures forall i :: 0 <= i < |values| ==> r[i] == partitions[i].name + "=" + values[i]
  {
    if values == [] then []
    else [partitions[0].name + "=" + values[0]] + Assignments(partitions[1..], values[1..])
  }

  /** `_partition_values_to_path(*values)`: from one to as many values as
      there are partition columns. */
  function PartitionPath(t: Table, values: seq<string>): (r: Result<string>)
    ensures r.Err? <==> !(0 < |values| <= |t.partitions|)
    ensures r.Err? ==> r.error == AssertionError
    ensures r.Ok? ==> r.value == Join("/", Assignments(t.partitions, values))
  {
    if !(0 < |values| <= |t.partitions|) then Err(AssertionError)
    else Ok(Join("/", Assignments(t.partitions, values)))
  }

  /** The path splits back into the `k=v` pieces, in the order of the
      partition columns, when no name or value holds a `/`. */
  lemma {:induction false} PartitionPathSplits(t: Table, values: seq<string>)
    requires 0 < |values| <= |t.partitions|
    requires forall i :: 0 <= i < |values| ==> '/' !in t.partitions[i].name && '/' !in values[i]
    ensures SplitChar(PartitionPath(t, values).value, '/') == Assignments(t.partitions, values)
  {
    var a := Assignments(t.partitions, values);
    forall i | 0 <= i < |a| ensures '/' !in a[i] {
      assert a[i] == t.partitions[i].name + "=" + values[i];
    }
    SplitCharJoin(a, '/');
  }

  /** Each piece gives back its column name and value when the name holds
      no `=`. */
  lemma {:induction false} AssignmentSplits(name: string, v: string)
    requires '=' !in name
    ensures var a := name + "=" + v;
      FindChar(a, '=') == |name| && a[..|name|] == name && a[|name| + 1..] == v
  {
    var a := name + "=" + v;
    assert a[|name|] == '=';
    assert forall k :: 0 <= k < |name| ==> a[k] == name[k];
  }

  /** The partition types whose values are quoted. */
  predicate IsStringType(type_: string) {
    var l := Lower(type_);
    l == "string" || l == "char" || l == "varchar"
  }

  /** One element of a partition condition. */
  function Condition(c: Column, v: string): string {
    if IsStringType(c.type_) then c.name + "='" + v + "'" else c.name + "=" + v
  }

  /** The elements for the values given. */
  function Conditions(partitions: seq<Column>, values: seq<string>): (r: seq<string>)
    requires |values| <= |partitions|
    ensures |r| == |values|
    ensures forall i :: 0 <= i < |values| ==> r[i] == Condition(partitions[i], values[i])
  {
    if values == [] then []
    else [Condition(partitions[0], values[0])] + Conditions(partitions[1..], values[1..])
  }

  /** A condition element is `name=`, and the value is quoted exactly when
      the type is a string type (whatever its case), provided the value does
      not itself start with a quote. */
  lemma {:induction false} ConditionQuoted(c: Column, v: string)
    requires |v| > 0 && v[0] != '\''
    ensures var e := Condition(c, v);
      |e| > |c.name| + 1 && e[..|c.name| + 1] == c.name + "=" &&
      (e[|c.name| + 1] == '\'' <==> IsStringType(c.type_))
  {
  }

  /** `_partition_values_to_condition(*values)`: the loop that collects one
      element per value and joins them with `, `. */
  method PartitionCondition(t: Table, values: seq<string>) returns (r: Result<string>)
    ensures r.Err? <==> !(0 < |values| <= |t.partitions|)
    ensures r.Err? ==> r.error == AssertionError
    ensures r.Ok? ==> r.value == Join(", ", Conditions(t.partitions, values))
  {
    if !(0 < |values| <= |t.partitions|) {
      return Err(AssertionError);
    }
    var elements: seq<string> := [];
    var i := 0;
    while i < |values|
      invariant 0 <= i <= |values|
      invariant elements == Conditions(t.partitions, values[..i])
    {
      var k := t.partitions[i].name;
      var ty := t.partitions[i].type_;
      var l := Lower(ty);
      if l == "string" || l == "char" || l == "varchar" {
        elements := elements + [k + "='" + values[i] + "'"];
      } else {
        elements := elements + [k + "=" + values[i]];
      }
      assert elements == Conditions(t.partitions, values[..i + 1]) by {
        ConditionsSnoc(t.partitions, values, i);
      }
      i := i + 1;
    }
    assert values[..i] == values;
    return Ok(Join(", ", elements));
  }

  /** One more value adds one more element. */
  lemma {:induction false} ConditionsSnoc(partitions: seq<Column>, values: seq<string>, i: int)
    requires 0 <= i < |values| <= |partitions|
    ensures Conditions(partitions, values[..i + 1]) == Conditions(partitions, values[..i]) + [Condition(partitions[i], values[i])]
  {
    var a := Conditions(partitions, values[..i + 1]);
    var b := Conditions(partitions, values[..i]) + [Condition(partitions[i], values[i])];
    assert |a| == |b|;
    assert forall k :: 0 <= k < |a| ==> a[k] == b[k];
  }

  /** `partition_location(*values)`: the table's location, or the location
      of the partition that the values name, for an S3-external table. */
  function PartitionLocation(t: Table, values: seq<string>): (r: Result<string>)
    ensures !t.s3external ==> r == Err(NotImplementedError)
  {
    if !t.s3external then Err(NotImplementedError)
    else if t.location.None? then Err(AttributeError)
    else if values == [] then Ok(t.location.value)
    else
      match PartitionPath(t, values)
      case Err(e) => Err(e)
      case Ok(p) => Ok(t.location.value + p + "/")
  }

  /** On a table `__init__` built, a partition location is found for one to
      as many values as there are partition columns (or none), starts with
      the table's location and ends with `/`. */
  lemma {:induction false} PartitionLocationShape(t: Table, values: seq<string>)
    requires Wf(t) && t.s3external
    ensures PartitionLocation(t, values).Ok? <==> |values| <= |t.partitions|
    ensures var r := PartitionLocation(t, values);
      r.Ok? ==> StartsWith(r.value, t.location.value) && EndsWith(r.value, "/")
    ensures values == [] ==> PartitionLocation(t, values) == Ok(t.location.value)
    ensures values != [] && |values| <= |t.partitions| ==>
      PartitionLocation(t, values) == Ok(t.location.value + PartitionPath(t, values).value + "/")
  {
    var loc := t.location.value;
    EndsWithChar(loc, '/');
    if 0 < |values| <= |t.partitions| {
      var s := loc + PartitionPath(t, values).value + "/";
      assert s[..|loc|] == loc;
      EndsWithChar(s, '/');
    }
  }

  // ---------------------------------------------------------------------
  // HiveTable and AthenaTable

  /** `HiveTable(location=..., ...)`: a location must use `s3n://`. */
  function MakeHive(db: string, tb: string, columns: seq<Column>, partitions: seq<Column>,
                    storedAs: string, fieldDelimiter: string, compression: string,
                    location: Option<string>): (r: Result<Table>)
    ensures location.Some? && location.value != "" && !StartsWith(location.value, "s3n://") ==> r == Err(AssertionError)
    ensures r.Ok? ==> r == MakeTable(db, tb, columns, partitions, storedAs, fieldDelimiter, compression, location)
  {
    if location.Some? && location.value != "" && !StartsWith(location.value, "s3n://") then Err(AssertionError)
    else MakeTable(db, tb, columns, partitions, storedAs, fieldDelimiter, compression, location)
  }

  /** `AthenaTable(location=..., ...)` of src/zpz/sql/athena.py: the
      location must use `s3://`. */
  function MakeAthena(db: string, tb: string, columns: seq<Column>, partitions: seq<Column>,
                      storedAs: string, fieldDelimiter: string, compression: string,
                      location: string): (r: Result<Table>)
    ensures !StartsWith(location, "s3://") ==> r == Err(AssertionError)
    ensures r.Ok? ==> r == MakeTable(db, tb, columns, partitions, storedAs, fieldDelimiter, compression, Some(location))
  {
    if !StartsWith(location, "s3://") then Err(AssertionError)
    else MakeTable(db, tb, columns, partitions, storedAs, fieldDelimiter, compression, Some(location))
  }

  /** `tb_name or default`: a missing or empty name falls back. */
  function NameOr(name: Option<string>, default: string): string {
    if name.None? || name.value == "" then default else name.value
  }

  /** `HiveTable.to_athena_table(db_name, tb_name)`. */
  function ToAthena(h: Table, db: string, tb: Option<string>): (r: Result<Table>)
    ensures !h.s3external ==> r == Err(AssertionError)
  {
    if !h.s3external then Err(AssertionError)
    else if h.location.None? then Err(AttributeError)
    else
      var loc := h.location.value;
      var loc' := if StartsWith(loc, "s3n://") then "s3://" + loc[6..] else loc;
      MakeAthena(db, NameOr(tb, h.tb), h.columns, h.partitions, h.storedAs, h.fieldDelimiter, h.compression, loc')
  }

  /** `HiveTable.from_athena_table(table, db_name, tb_name)`. */
  function FromAthena(a: Table, db: string, tb: Option<string>): (r: Result<Table>)
    ensures !a.s3external ==> r == Err(AssertionError)
  {
    if !a.s3external then Err(AssertionError)
    else if a.location.None? then Err(AttributeError)
    else
      var loc := a.location.value;
      var loc' := if StartsWith(loc, "s3://") then "s3n://" + loc[5..] else loc;
      MakeHive(db, NameOr(tb, a.tb), a.columns, a.partitions, a.storedAs, a.fieldDelimiter, a.compression, Some(loc'))
  }

  /** Building a table from the attributes of another with its location's
      scheme replaced keeps everything else, bucket included. */
  lemma {:induction false} Rescheme(t: Table, db: string, tb: string, p: string, z: string)
    requires Wf(t) && t.s3external && S3Rest(t.location.value) == Some(z)
    requires p == "s3://" || p == "s3n://"
    ensures MakeTable(db, tb, t.columns, t.partitions, t.storedAs, t.fieldDelimiter, t.compression, Some(p + z)) ==
      Ok(t.(db := db, tb := tb, location := Some(p + z)))
  {
    var t' := t.(db := db, tb := tb, location := Some(p + z));
    var loc := t.location.value;
    S3RestOf(p, z);
    if loc == "s3://" + z {
      NormalSwap("s3://", p, z);
    } else {
      NormalSwap("s3n://", p, z);
    }
    assert Wf(t');
    Rebuild(t');
  }

  /** An S3-external Hive table taken to Athena and back, under its own
      database and (non-empty) table names, is the same table; on the way
      its location uses `s3://`, and its bucket is the same. */
  lemma {:induction false} AthenaRoundTrip(h: Table, db: string, tb: Option<string>)
    requires Wf(h) && h.s3external && StartsWith(h.location.value, "s3n://") && h.tb != ""
    ensures ToAthena(h, db, tb).Ok?
    ensures var a := ToAthena(h, db, tb).value;
      a.location == Some("s3://" + h.location.value[6..]) && a.bucket == h.bucket &&
      FromAthena(a, h.db, Some(h.tb)) == Ok(h)
  {
    var loc := h.location.value;
    var z := loc[6..];
    assert loc == "s3n://" + z by {
      assert loc == loc[..6] + z;
    }
    S3RestOf("s3n://", z);
    var a := h.(db := db, tb := NameOr(tb, h.tb), location := Some("s3://" + z));
    Rescheme(h, db, NameOr(tb, h.tb), "s3://", z);
    assert ("s3://" + z)[..5] == "s3://";
    assert ToAthena(h, db, tb) == Ok(a);
    assert ("s3://" + z)[5..] == z;
    S3RestOf("s3://", z);
    Rescheme(a, h.db, h.tb, "s3n://", z);
    assert ("s3n://" + z)[..6] == "s3n://";
    assert h.(location := Some("s3n://" + z)) == h;
  }
}
