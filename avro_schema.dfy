/** `_make_schema` of src/zpz/avro.py (non-numpy branches) and its variant
    in utilities/avro.py: an Avro schema inferred from a sample value.

    The two differ only in the name given to a list's element schema,
    `name + '_item'` in src/zpz/avro.py and `name` itself in
    utilities/avro.py, which `Variant` selects.  The Python dicts the
    functions build are JSON objects with their keys in insertion order;
    every schema has `name` and `type` first and at most one more key, in
    the same order for the same shape, so comparing them as ordered member
    lists agrees with Python's dict equality.
 */
module AvroSchema {
  import opened Wrappers

  /** The sample values: Python `int` (a `bool` is one too), `float` (its
      value plays no part), `str`, a `dict` with its key-value pairs in
      iteration order, a `list`, or a value of any other type.  A key may
      be any value; only `str` keys pass the name assertion, and the
      unhashable `dict` and `list` never occur as keys in Python. */
  datatype PyValue =
    | PyInt(i: int)
    | PyFloat
    | PyStr(s: string)
    | PyDict(entries: seq<(PyValue, PyValue)>)
    | PyList(elems: seq<PyValue>)
    | PyOther(typeName: string)

  /** A JSON value: string, array or object, the object's members in
      insertion order. */
  datatype Json = JStr(s: string) | JArr(elems: seq<Json>) | JObj(members: seq<(string, Json)>)

  datatype Variant = ZpzAvro | UtilitiesAvro

  /** The name of a list's element schema. */
  function ItemName(v: Variant, name: string): string {
    match v
    case ZpzAvro => name + "_item"
    case UtilitiesAvro => name
  }

  /** A schema of two keys, `name` and `type`. */
  function Primitive(name: string, t: string): Json {
    JObj([("name", JStr(name)), ("type", JStr(t))])
  }

  /** `len(z)` of a schema dict. */
  function Size(z: Json): nat {
    if z.JObj? then |z.members| else 0
  }

  /** `z['type']` of a schema built here, whose second key is `type`. */
  function TypeOf(z: Json): Json
    requires z.JObj? && |z.members| >= 2
  {
    z.members[1].1
  }

  /** The text of a `str` key; other keys have no field name. */
  function KeyName(key: PyValue): string {
    if key.PyStr? then key.s else ""
  }

  /** `_make_schema(val, key)` for one entry of a `dict`: its first
      statement asserts that the key is a `str`. */
  function EntrySchema(v: Variant, entry: (PyValue, PyValue)): (r: Result<Json>)
    ensures !entry.0.PyStr? ==> r == Err(AssertionError)
    ensures r.Ok? ==> entry.0.PyStr? && Named(r.value, entry.0.s)
    decreases entry, 0
  {
    if entry.0.PyStr? then SchemaOf(v, entry.1, entry.0.s) else Err(AssertionError)
  }

  /** A record field for key `key`: a two-key child schema as it is, a
      larger one wrapped as `{'name': key, 'type': child}`. */
  function Field(key: string, z: Json): Json {
    if Size(z) < 3 then z else JObj([("name", JStr(key)), ("type", z)])
  }

  /** `items` of an array schema: the bare type of a two-key element
      schema, the whole schema otherwise. */
  function Items(z0: Json): Json
    requires z0.JObj? && |z0.members| >= 2
  {
    if Size(z0) < 3 then TypeOf(z0) else z0
  }

  /** A schema as `_make_schema` builds it: a dict whose first two keys are
      `name`, holding the given name, and `type`. */
  predicate Named(z: Json, name: string) {
    z.JObj? && |z.members| >= 2 && z.members[0] == ("name", JStr(name)) && z.members[1].0 == "type"
  }

  /** The first failing result, else all the values. */
  function Collect(zs: seq<Result<Json>>): (r: Result<seq<Json>>)
    ensures r.Ok? ==> |r.value| == |zs| && forall k :: 0 <= k < |zs| ==> zs[k] == Ok(r.value[k])
    ensures r.Err? ==> exists k :: 0 <= k < |zs| && zs[k] == Err(r.error) && forall j :: 0 <= j < k ==> zs[j].Ok?
    ensures (forall k :: 0 <= k < |zs| ==> zs[k].Ok?) <==> r.Ok?
  {
    if |zs| == 0 then Ok([])
    else if zs[0].Err? then Err(zs[0].error)
    else
      match Collect(zs[1..])
      case Err(e) =>
        var k :| 0 <= k < |zs[1..]| && zs[1..][k] == Err(e) && forall j :: 0 <= j < k ==> zs[1..][j].Ok?;
        assert zs[k + 1] == Err(e);
        Err(e)
      case Ok(vs) => Ok([zs[0].value] + vs)
  }

  /** The comparison of a list's elements after the first: each schema is
      computed in turn, the first failure is passed on, and the first one
      unequal to `z0` fails the assertion. */
  function SameAs(zs: seq<Result<Json>>, z0: Json): (r: Result<()>)
    ensures r.Ok? <==> forall k :: 0 <= k < |zs| ==> zs[k] == Ok(z0)
  {
    if |zs| == 0 then Ok(())
    else if zs[0].Err? then Err(zs[0].error)
    else if zs[0].value != z0 then Err(AssertionError)
    else SameAs(zs[1..], z0)
  }

  /** `_make_schema` of a value under a name. */
  function SchemaOf(v: Variant, x: PyValue, name: string): (r: Result<Json>)
    ensures r.Ok? ==> Named(r.value, name)
    decreases x
  {
    match x
    case PyInt(_) => Ok(Primitive(name, "int"))
    case PyFloat => Ok(Primitive(name, "double"))
    case PyStr(_) => Ok(Primitive(name, "string"))
    case PyDict(entries) =>
      var zs := seq(|entries|, k requires 0 <= k < |entries| => EntrySchema(v, entries[k]));
      var c := Collect(zs);
      if c.Err? then Err(c.error)
      else
        var fields := seq(|c.value|, k requires 0 <= k < |c.value| => Field(KeyName(entries[k].0), c.value[k]));
        Ok(JObj([("name", JStr(name)), ("type", JStr("record")), ("fields", JArr(fields))]))
    case PyList(elems) =>
      if |elems| == 0 then Err(AssertionError)
      else
        var zs := seq(|elems|, k requires 0 <= k < |elems| => SchemaOf(v, elems[k], ItemName(v, name)));
        if zs[0].Err? then zs[0]
        else
          var same := SameAs(zs[1..], zs[0].value);
          if same.Err? then Err(same.error)
          else Ok(JObj([("name", JStr(name)), ("type", JStr("array")), ("items", Items(zs[0].value))]))
    case PyOther(_) => Err(PlainException)
  }

  /** `int`, `float` and `str` give the two-key schemas of type `int`,
      `double` and `string`; these are exactly the values whose schema has
      fewer than three keys, and any other type is refused. */
  lemma {:induction false} PrimitiveSchemas(v: Variant, x: PyValue, name: string)
    ensures x.PyInt? ==> SchemaOf(v, x, name) == Ok(Primitive(name, "int"))
    ensures x.PyFloat? ==> SchemaOf(v, x, name) == Ok(Primitive(name, "double"))
    ensures x.PyStr? ==> SchemaOf(v, x, name) == Ok(Primitive(name, "string"))
    ensures x.PyOther? ==> SchemaOf(v, x, name) == Err(PlainException)
    ensures SchemaOf(v, x, name).Ok? ==>
      (Size(SchemaOf(v, x, name).value) < 3 <==> x.PyInt? || x.PyFloat? || x.PyStr?)
  {
  }

  /** The schemas of a record's values, in iteration order. */
  function ChildSchemas(v: Variant, entries: seq<(PyValue, PyValue)>): (zs: seq<Result<Json>>)
    ensures |zs| == |entries|
    ensures forall k :: 0 <= k < |entries| ==>
      zs[k] == if entries[k].0.PyStr? then SchemaOf(v, entries[k].1, entries[k].0.s) else Err(AssertionError)
  {
    seq(|entries|, k requires 0 <= k < |entries| => EntrySchema(v, entries[k]))
  }

  /** The schemas of a list's elements under the element name. */
  function ElementSchemas(v: Variant, elems: seq<PyValue>, name: string): (zs: seq<Result<Json>>)
    ensures |zs| == |elems|
    ensures forall k :: 0 <= k < |elems| ==> zs[k] == SchemaOf(v, elems[k], ItemName(v, name))
  {
    seq(|elems|, k requires 0 <= k < |elems| => SchemaOf(v, elems[k], ItemName(v, name)))
  }

  /** A `dict` fails exactly when a key is not a `str` or a value's schema
      fails, with the first such failure in iteration order. */
  lemma {:induction false} RecordFailure(v: Variant, entries: seq<(PyValue, PyValue)>, name: string)
    ensures var r := SchemaOf(v, PyDict(entries), name); var zs := ChildSchemas(v, entries);
      (r.Ok? <==> forall k :: 0 <= k < |entries| ==> zs[k].Ok?) &&
      (r.Err? ==> exists k :: (0 <= k < |entries| && zs[k] == Err(r.error) &&
        forall j :: 0 <= j < k ==> zs[j].Ok?))
  {
    var zs := ChildSchemas(v, entries);
    assert zs == seq(|entries|, k requires 0 <= k < |entries| => EntrySchema(v, entries[k]));
    var c := Collect(zs);
  }

  /** A key that is not a `str`, after entries whose schemas all exist,
      fails the name assertion of the recursive call. */
  lemma {:induction false} NonStringKey(v: Variant, entries: seq<(PyValue, PyValue)>, name: string, i: int)
    requires 0 <= i < |entries| && !entries[i].0.PyStr?
    requires forall k :: 0 <= k < i ==> ChildSchemas(v, entries)[k].Ok?
    ensures SchemaOf(v, PyDict(entries), name) == Err(AssertionError)
  {
    var zs := ChildSchemas(v, entries);
    assert zs == seq(|entries|, k requires 0 <= k < |entries| => EntrySchema(v, entries[k]));
    CollectFirstErr(zs, i);
  }

  /** A `dict` becomes a record with one field per key, in iteration
      order, named after its key: the child schema itself when it has two
      keys, `{'name': key, 'type': child}` otherwise. */
  lemma {:induction false} RecordFields(v: Variant, entries: seq<(PyValue, PyValue)>, name: string)
    ensures var r := SchemaOf(v, PyDict(entries), name); var zs := ChildSchemas(v, entries);
      r.Ok? ==> (|r.value.members| == 3 && r.value.members[1] == ("type", JStr("record")) &&
        r.value.members[2].0 == "fields" && r.value.members[2].1.JArr? &&
        |r.value.members[2].1.elems| == |entries| &&
        forall k :: 0 <= k < |entries| ==>
          (entries[k].0.PyStr? && zs[k].Ok? &&
           r.value.members[2].1.elems[k] == Field(entries[k].0.s, zs[k].value) &&
           Named(r.value.members[2].1.elems[k], entries[k].0.s)))
  {
    var zs := ChildSchemas(v, entries);
    assert zs == seq(|entries|, k requires 0 <= k < |entries| => EntrySchema(v, entries[k]));
    var c := Collect(zs);
    if c.Ok? {
      forall k | 0 <= k < |entries|
        ensures entries[k].0.PyStr? && Named(Field(KeyName(entries[k].0), c.value[k]), entries[k].0.s)
      {
        assert zs[k] == Ok(c.value[k]);
      }
    }
  }

  /** A `list` must be non-empty and all its elements must have the first
      one's schema, named `name + '_item'` (or `name`); `items` is then the
      bare type of a two-key element schema and the whole schema
      otherwise. */
  lemma {:induction false} ArrayItems(v: Variant, elems: seq<PyValue>, name: string)
    ensures |elems| == 0 ==> SchemaOf(v, PyList(elems), name) == Err(AssertionError)
    ensures var r := SchemaOf(v, PyList(elems), name); var zs := ElementSchemas(v, elems, name);
      r.Ok? ==> (|elems| > 0 && zs[0].Ok? &&
        (forall k :: 0 <= k < |elems| ==> zs[k] == zs[0]) &&
        r.value.members == [("name", JStr(name)), ("type", JStr("array")), ("items", Items(zs[0].value))])
    ensures var zs := ElementSchemas(v, elems, name);
      |elems| > 0 && zs[0].Ok? && (forall k :: 0 <= k < |elems| ==> zs[k] == zs[0]) ==>
        SchemaOf(v, PyList(elems), name) ==
          Ok(JObj([("name", JStr(name)), ("type", JStr("array")), ("items", Items(zs[0].value))]))
  {
    if |elems| > 0 {
      var zs := ElementSchemas(v, elems, name);
      assert zs == seq(|elems|, k requires 0 <= k < |elems| => SchemaOf(v, elems[k], ItemName(v, name)));
      assert forall k :: 0 <= k < |zs[1..]| ==> zs[1..][k] == zs[k + 1];
      if zs[0].Ok? && SameAs(zs[1..], zs[0].value).Ok? {
        forall k | 0 <= k < |elems|
          ensures zs[k] == zs[0]
        {
          if k > 0 {
            assert zs[1..][k - 1] == zs[k];
          }
        }
      }
    }
  }

  /** Elements whose schemas all exist but are not all equal fail the
      assertion. */
  lemma {:induction false} ArrayMixed(v: Variant, elems: seq<PyValue>, name: string, i: int)
    requires 0 < i < |elems|
    requires forall k :: 0 <= k < |elems| ==> ElementSchemas(v, elems, name)[k].Ok?
    requires ElementSchemas(v, elems, name)[i] != ElementSchemas(v, elems, name)[0]
    ensures SchemaOf(v, PyList(elems), name) == Err(AssertionError)
  {
    var zs := ElementSchemas(v, elems, name);
    assert zs == seq(|elems|, k requires 0 <= k < |elems| => SchemaOf(v, elems[k], ItemName(v, name)));
    var j := FirstUnlike(zs, i);
    SameAsFirstBad(zs[1..], zs[0].value, j - 1);
  }

  function FirstUnlike(zs: seq<Result<Json>>, i: int): (j: int)
    requires 0 < i < |zs| && zs[i] != zs[0]
    ensures 0 < j <= i && zs[j] != zs[0]
    ensures forall k :: 0 < k < j ==> zs[k] == zs[0]
    decreases i
  {
    if exists k :: 0 < k < i && zs[k] != zs[0] then
      var k :| 0 < k < i && zs[k] != zs[0];
      FirstUnlike(zs, k)
    else i
  }

  /** The first failure among results that all succeed before it. */
  lemma {:induction false} CollectFirstErr(zs: seq<Result<Json>>, i: int)
    requires 0 <= i < |zs| && zs[i].Err?
    requires forall k :: 0 <= k < i ==> zs[k].Ok?
    ensures Collect(zs) == Err(zs[i].error)
    decreases i
  {
    if i > 0 {
      CollectFirstErr(zs[1..], i - 1);
    }
  }

  /** The first failure or mismatch among the elements after the first. */
  lemma {:induction false} SameAsFirstBad(zs: seq<Result<Json>>, z0: Json, i: int)
    requires 0 <= i < |zs| && zs[i] != Ok(z0)
    requires forall k :: 0 <= k < i ==> zs[k] == Ok(z0)
    ensures SameAs(zs, z0) == if zs[i].Err? then Err(zs[i].error) else Err(AssertionError)
    decreases i
  {
    if i > 0 {
      SameAsFirstBad(zs[1..], z0, i - 1);
    }
  }

  /** `_make_schema(x, name)`: recursive, with the loop that appends the
      fields of a record and the loop that checks a list's elements. */
  method MakeSchema(v: Variant, x: PyValue, name: string) returns (r: Result<Json>)
    ensures r == SchemaOf(v, x, name)
    decreases x, 1
  {
    match x {
      case PyInt(_) =>
        return Ok(Primitive(name, "int"));
      case PyFloat =>
        return Ok(Primitive(name, "double"));
      case PyStr(_) =>
        return Ok(Primitive(name, "string"));
      case PyDict(entries) =>
        r := MakeRecord(v, x, name);
      case PyList(elems) =>
        r := MakeArray(v, x, name);
      case PyOther(_) =>
        return Err(PlainException);
    }
  }

  /** The `dict` branch: one field per key, in iteration order. */
  method MakeRecord(v: Variant, x: PyValue, name: string) returns (r: Result<Json>)
    requires x.PyDict?
    ensures r == SchemaOf(v, x, name)
    decreases x, 0
  {
    var entries := x.entries;
    ghost var zs := seq(|entries|, k requires 0 <= k < |entries| => EntrySchema(v, entries[k]));
    var fields: seq<Json> := [];
    var i := 0;
    while i < |entries|
      invariant 0 <= i <= |entries| && |fields| == i
      invariant forall k :: 0 <= k < i ==> zs[k].Ok? && fields[k] == Field(KeyName(entries[k].0), zs[k].value)
    {
      if !entries[i].0.PyStr? {
        CollectFirstErr(zs, i);
        return Err(AssertionError);
      }
      var key := entries[i].0.s;
      assert entries[i] in entries;
      var z := MakeSchema(v, entries[i].1, key);
      if z.Err? {
        CollectFirstErr(zs, i);
        return Err(z.error);
      }
      if Size(z.value) < 3 {
        fields := fields + [z.value];
      } else {
        fields := fields + [JObj([("name", JStr(key)), ("type", z.value)])];
      }
      i := i + 1;
    }
    ghost var cs := Collect(zs).value;
    assert fields == seq(|cs|, k requires 0 <= k < |cs| => Field(KeyName(entries[k].0), cs[k]));
    return Ok(JObj([("name", JStr(name)), ("type", JStr("record")), ("fields", JArr(fields))]));
  }

  /** The `list` branch: a non-empty list whose elements all have the first
      one's schema. */
  method MakeArray(v: Variant, x: PyValue, name: string) returns (r: Result<Json>)
    requires x.PyList?
    ensures r == SchemaOf(v, x, name)
    decreases x, 0
  {
    var elems := x.elems;
    if |elems| == 0 {
      return Err(AssertionError);
    }
    var itemName := ItemName(v, name);
    ghost var zs := seq(|elems|, k requires 0 <= k < |elems| => SchemaOf(v, elems[k], itemName));
    assert elems[0] in elems;
    var z0 := MakeSchema(v, elems[0], itemName);
    if z0.Err? {
      return z0;
    }
    var i := 1;
    while i < |elems|
      invariant 1 <= i <= |elems|
      invariant forall k :: 1 <= k < i ==> zs[k] == z0
    {
      assert elems[i] in elems;
      var z1 := MakeSchema(v, elems[i], itemName);
      if z1 != z0 {
        SameAsFirstBad(zs[1..], z0.value, i - 1);
        return if z1.Err? then Err(z1.error) else Err(AssertionError);
      }
      i := i + 1;
    }
    var items := if Size(z0.value) < 3 then z0.value.members[1].1 else z0.value;
    return Ok(JObj([("name", JStr(name)), ("type", JStr("array")), ("items", items)]));
  }
}
