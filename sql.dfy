/** `split_sql`, `ColumnMapper` and `RowMapper` of utilities/sql/util.py. */
module SqlUtil {
  import opened Wrappers
  import opened Strs

  // ---------------------------------------------------------------------
  // split_sql

  /** The characters the statement cleanser removes at the end ... */
  const Trailing: set<char> := {' ', ';', '\n'}
  /** ... and at the start: leading spaces are kept, for alignment. */
  const Leading: set<char> := {';', '\n'}

  /** The separator between statements. */
  const Separator := ";\n"

  /** A cleansed text: it neither starts with `;` or a line break nor ends
      with a space, `;` or a line break. */
  predicate Clean(r: string) {
    |r| == 0 || (r[0] !in Leading && r[|r| - 1] !in Trailing)
  }

  /** `cleanse(x)`: `x.rstrip(' ;\n').lstrip(';\n')`. */
  function Cleanse(x: string): (r: string)
    ensures Clean(r)
  {
    var t := RStrip(x, Trailing);
    var r := LStrip(t, Leading);
    assert |r| > 0 ==> r[|r| - 1] == t[|t| - 1];
    r
  }

  /** The non-empty strings of `parts`, in order. */
  function NonEmpty(parts: seq<string>): (r: seq<string>)
    ensures |r| <= |parts|
  {
    if parts == [] then []
    else if parts[0] == "" then NonEmpty(parts[1..])
    else [parts[0]] + NonEmpty(parts[1..])
  }

  /** The list comprehension: each non-empty segment, cleansed. */
  function Statements(parts: seq<string>): (r: seq<string>)
    ensures forall i :: 0 <= i < |r| ==> Clean(r[i])
  {
    if parts == [] then []
    else (if parts[0] == "" then [] else [Cleanse(parts[0])]) + Statements(parts[1..])
  }

  /** The `;\n`-separated segments of the cleansed input. */
  function Segments(sql: string): seq<string> {
    SplitOn(Cleanse(sql), Separator)
  }

  /** `split_sql(sql)`: every statement is cleansed. */
  function SplitSql(sql: string): (r: seq<string>)
    ensures forall i :: 0 <= i < |r| ==> Clean(r[i])
  {
    Statements(Segments(sql))
  }

  /** Cleansing a cleansed text changes nothing. */
  lemma {:induction false} CleanseIdempotent(x: string)
    ensures Cleanse(Cleanse(x)) == Cleanse(x)
  {
    var c := Cleanse(x);
    assert RStrip(c, Trailing) == c;
    assert LStrip(c, Leading) == c;
  }

  /** A text that does not start with `;` or a line break keeps its start,
      leading spaces included: only its end is cleansed. */
  lemma {:induction false} CleanseKeepsStart(x: string)
    requires |x| > 0 && x[0] !in Leading
    ensures Cleanse(x) == RStrip(x, Trailing)
    ensures x[0] == ' ' && |Cleanse(x)| > 0 ==> Cleanse(x)[0] == ' '
  {
    var t := RStrip(x, Trailing);
    assert |t| > 0 ==> t[0] == x[0];
  }

  /** The statements are the non-empty segments, cleansed, in order; a
      segment that cleanses to nothing stays as an empty statement. */
  lemma {:induction false} StatementsOfSegments(parts: seq<string>)
    ensures |Statements(parts)| == |NonEmpty(parts)|
    ensures forall k :: 0 <= k < |NonEmpty(parts)| ==> Statements(parts)[k] == Cleanse(NonEmpty(parts)[k])
  {
    if parts != [] {
      var tl := parts[1..];
      StatementsOfSegments(tl);
      var st, ne := Statements(tl), NonEmpty(tl);
      if parts[0] == "" {
        assert Statements(parts) == st;
        assert NonEmpty(parts) == ne;
      } else {
        assert Statements(parts) == [Cleanse(parts[0])] + st;
        assert NonEmpty(parts) == [parts[0]] + ne;
        forall k | 0 <= k < |ne| + 1
          ensures ([Cleanse(parts[0])] + st)[k] == Cleanse(([parts[0]] + ne)[k])
        {
          if k > 0 {
            assert ([Cleanse(parts[0])] + st)[k] == st[k - 1];
            assert ([parts[0]] + ne)[k] == ne[k - 1];
          }
        }
      }
    }
  }

  /** The segments joined by `;\n` give back the cleansed input, and no
      segment contains the separator. */
  lemma {:induction false} SegmentsJoin(sql: string)
    ensures Join(Separator, Segments(sql)) == Cleanse(sql)
    ensures forall k :: 0 <= k < |Segments(sql)| ==> FindSub(Segments(sql)[k], Separator) < 0
  {
    SplitOnJoin(Cleanse(sql), Separator);
    SplitOnParts(Cleanse(sql), Separator);
  }

  // ---------------------------------------------------------------------
  // ColumnMapper

  /** A column of the target table: its name, its upper-cased type, its
      definition and its selection. */
  datatype ColumnMapper = ColumnMapper(name: string, type_: string, define: string, select: string)

  /** `ColumnMapper(name, type, select)`; an empty `select` counts as
      none. */
  function MakeColumn(name: string, type_: string, select: Option<string>): (c: ColumnMapper)
    ensures c.name == name && c.type_ == Upper(type_)
    ensures c.define == name + " " + Upper(type_)
    ensures select.Some? && select.value != "" ==> c.select == select.value + " AS " + name
    ensures !(select.Some? && select.value != "") ==> c.select == name
  {
    var t := Upper(type_);
    ColumnMapper(name, t, name + " " + t,
      if select.Some? && select.value != "" then select.value + " AS " + name else name)
  }

  /** `repr` quotes a string in single quotes. */
  function Quoted(s: string): string {
    "'" + s + "'"
  }

  /** The text of a constructor call with these arguments. */
  function CallText(name: string, type_: string, select: Option<string>): string {
    "ColumnMapper(" + Quoted(name) + ", " + Quoted(type_) +
    (if select.Some? then ", " + Quoted(select.value) else "") + ")"
  }

  /** `ColumnMapper.__repr__`: the first word of the selection is shown as
      a third argument unless it is the name; a selection without any word
      has no first word, and `split()[0]` raises `IndexError`. */
  function ColumnRepr(c: ColumnMapper): (r: Result<string>)
    ensures r.Err? <==> Words(c.select) == []
  {
    var ws := Words(c.select);
    if ws == [] then Err(IndexError)
    else Ok(CallText(c.name, c.type_, if ws[0] == c.name then None else Some(ws[0])))
  }

  /** A single word: non-empty, without white space. */
  predicate OneWord(s: string) {
    IsWord(s)
  }

  /** The representation repeats the constructor's arguments, the type
      upper-cased, when the name and the selection expression are single
      words. */
  lemma {:induction false} ReprRoundTrip(name: string, type_: string, select: Option<string>)
    requires OneWord(name)
    requires select.Some? ==> OneWord(select.value) && select.value != name
    ensures ColumnRepr(MakeColumn(name, type_, select)) == Ok(CallText(name, Upper(type_), select))
  {
    var c := MakeColumn(name, type_, select);
    if select.Some? {
      var e := select.value;
      assert c.select == e + (" AS " + name);
      WordsOfPhrase(e, " AS " + name);
    } else {
      assert c.select == name + "";
      WordsOfPhrase(name, "");
    }
  }

  /** A word followed by nothing or by white space and more is the first
      word. */
  lemma {:induction false} WordsOfPhrase(w: string, tail: string)
    requires IsWord(w) && (tail == "" || tail[0] in Whitespace)
    ensures |Words(w + tail)| > 0 && Words(w + tail)[0] == w
  {
    var s := w + tail;
    SpanOfPhrase(w, tail);
    FirstWord(s);
    assert s[..|w|] == w;
  }

  /** The first word of such a phrase ends where `w` ends. */
  lemma {:induction false} SpanOfPhrase(w: string, tail: string)
    requires IsWord(w) && (tail == "" || tail[0] in Whitespace)
    ensures (w + tail)[0] !in Whitespace
    ensures SpanNot(w + tail, Whitespace) == |w|
  {
    var s := w + tail;
    assert s[0] == w[0];
    assert forall j :: 0 <= j < |w| ==> s[j] == w[j] && s[j] !in Whitespace;
    assert |s| > |w| ==> s[|w|] == tail[0] && s[|w|] in Whitespace;
  }

  // ---------------------------------------------------------------------
  // RowMapper

  /** An argument of `RowMapper` and `add_cols`: a `ColumnMapper`, or the
      arguments of one. */
  datatype ColumnArg = Mapper(c: ColumnMapper) | Args(name: string, type_: string, select: Option<string>)

  function ToMapper(a: ColumnArg): ColumnMapper {
    match a
    case Mapper(c) => c
    case Args(n, t, s) => MakeColumn(n, t, s)
  }

  /** The comprehension of `__init__` and `add_cols`. */
  function ToMappers(args: seq<ColumnArg>): (r: seq<ColumnMapper>)
    ensures |r| == |args|
    ensures forall i :: 0 <= i < |args| ==> r[i] == ToMapper(args[i])
  {
    if args == [] then [] else [ToMapper(args[0])] + ToMappers(args[1..])
  }

  /** A list of column mappers that grows in place. */
  class RowMapper {
    var cols: seq<ColumnMapper>

    /** `RowMapper(*column_mappers)`. */
    constructor (args: seq<ColumnArg>)
      ensures cols == ToMappers(args)
    {
      cols := ToMappers(args);
    }

    /** `add_cols(*column_mappers)`: the new columns follow the old ones, in
        order; the mapper itself is returned. */
    method AddCols(args: seq<ColumnArg>) returns (self: RowMapper)
      modifies this
      ensures cols == old(cols) + ToMappers(args)
      ensures self == this
    {
      cols := cols + ToMappers(args);
      self := this;
    }

    /** `selects`: the selection of every column, in order. */
    function Selects(): (r: seq<string>)
      reads this
      ensures |r| == |cols| && forall i :: 0 <= i < |cols| ==> r[i] == cols[i].select
    {
      SelectsOf(cols)
    }

    /** `defines`: the definition of every column, in order. */
    function Defines(): (r: seq<string>)
      reads this
      ensures |r| == |cols| && forall i :: 0 <= i < |cols| ==> r[i] == cols[i].define
    {
      DefinesOf(cols)
    }

    /** `names`: the name of every column, in order. */
    function Names(): (r: seq<string>)
      reads this
      ensures |r| == |cols| && forall i :: 0 <= i < |cols| ==> r[i] == cols[i].name
    {
      NamesOf(cols)
    }
  }

  function SelectsOf(cs: seq<ColumnMapper>): (r: seq<string>)
    ensures |r| == |cs| && forall i :: 0 <= i < |cs| ==> r[i] == cs[i].select
  {
    if cs == [] then [] else [cs[0].select] + SelectsOf(cs[1..])
  }

  function DefinesOf(cs: seq<ColumnMapper>): (r: seq<string>)
    ensures |r| == |cs| && forall i :: 0 <= i < |cs| ==> r[i] == cs[i].define
  {
    if cs == [] then [] else [cs[0].define] + DefinesOf(cs[1..])
  }

  function NamesOf(cs: seq<ColumnMapper>): (r: seq<string>)
    ensures |r| == |cs| && forall i :: 0 <= i < |cs| ==> r[i] == cs[i].name
  {
    if cs == [] then [] else [cs[0].name] + NamesOf(cs[1..])
  }

  /** A mapper made in one go and one extended afterwards hold the same
      columns: `add_cols` appends, in order. */
  lemma {:induction false} ToMappersAppend(a: seq<ColumnArg>, b: seq<ColumnArg>)
    ensures ToMappers(a) + ToMappers(b) == ToMappers(a + b)
  {
    var l := ToMappers(a) + ToMappers(b);
    var m := ToMappers(a + b);
    forall i | 0 <= i < |l|
      ensures l[i] == m[i]
    {
      if i < |a| {
        assert (a + b)[i] == a[i];
      } else {
        assert (a + b)[i] == b[i - |a|];
      }
    }
  }

  /** After `add_cols`, the names and definitions listed for the added
      columns are those their arguments define, after the old ones. */
  lemma {:induction false} AddedColumns(old_: seq<ColumnMapper>, b: seq<ColumnArg>, i: int)
    requires 0 <= i < |b| && b[i].Args?
    ensures NamesOf(old_ + ToMappers(b))[|old_| + i] == b[i].name
    ensures DefinesOf(old_ + ToMappers(b))[|old_| + i] == b[i].name + " " + Upper(b[i].type_)
    ensures NamesOf(old_ + ToMappers(b))[..|old_|] == NamesOf(old_)
  {
    var l := old_ + ToMappers(b);
    assert l[|old_| + i] == ToMapper(b[i]);
    assert NamesOf(l)[..|old_|] == NamesOf(old_);
  }
}

/** `cleanse_sql` and `split_sql` of src/coyote/sql/util.py. */
module CoyoteSql {
  import opened Strs

  /** No white space at either end. */
  predicate Trimmed(r: string) {
    |r| == 0 || (r[0] !in Whitespace && r[|r| - 1] !in Whitespace)
  }

  /** The characters of the five strips of `cleanse_sql`: white space,
      line breaks, white space, `;`, white space. */
  const CleansePasses: seq<set<char>> := [Whitespace, {'\n'}, Whitespace, {';'}, Whitespace]

  /** Strips by each set of `passes` in turn. */
  function Passes(x: string, passes: seq<set<char>>): string
    decreases |passes|
  {
    if passes == [] then x else Strip(Passes(x, passes[..|passes| - 1]), passes[|passes| - 1])
  }

  /** `cleanse_sql(x)`: `x.strip().strip('\n').strip().strip(';').strip()`. */
  function CleanseSql(x: string): (r: string)
    ensures Trimmed(r)
  {
    assert CleansePasses[..4][..|CleansePasses[..4]|] == CleansePasses[..4];
    StripEnds(Passes(x, CleansePasses[..4]), Whitespace);
    Passes(x, CleansePasses)
  }

  /** The comprehensions: each non-empty segment is cleansed, and the
      statements that cleanse to nothing are dropped. */
  function Kept(parts: seq<string>): (r: seq<string>)
    ensures forall i :: 0 <= i < |r| ==> r[i] != "" && Trimmed(r[i])
    ensures |r| <= |parts|
  {
    if parts == [] then []
    else
      var c := if parts[0] == "" then "" else CleanseSql(parts[0]);
      (if c == "" then [] else [c]) + Kept(parts[1..])
  }

  /** The `;\n`-separated segments of the cleansed input. */
  function Segments(sql: string): seq<string> {
    SplitOn(CleanseSql(sql), ";\n")
  }

  /** `split_sql(sql)`.  The `sql.replace('\n\n', '\n')` on its first line
      discards its result, so it has no part in the model. */
  function SplitSql(sql: string): (r: seq<string>)
    ensures forall i :: 0 <= i < |r| ==> r[i] != "" && Trimmed(r[i])
  {
    Kept(Segments(sql))
  }

  /** Stripping cannot make a separator appear. */
  lemma {:induction false} PassesNoSub(x: string, passes: seq<set<char>>, sub: string)
    requires |sub| > 0 && FindSub(x, sub) < 0
    ensures FindSub(Passes(x, passes), sub) < 0
    decreases |passes|
  {
    if passes != [] {
      var init := passes[..|passes| - 1];
      PassesNoSub(x, init, sub);
      StripNoSub(Passes(x, init), passes[|passes| - 1], sub);
    }
  }

  /** Input without a `;\n` gives at most one statement. */
  lemma {:induction false} NoSeparatorOneStatement(sql: string)
    requires FindSub(sql, ";\n") < 0
    ensures |SplitSql(sql)| <= 1
  {
    PassesNoSub(sql, CleansePasses, ";\n");
    SplitOnUnfold(CleanseSql(sql), ";\n");
  }

  /** Empty or blank input gives no statement. */
  lemma {:induction false} BlankInput(sql: string)
    requires forall i :: 0 <= i < |sql| ==> sql[i] in Whitespace
    ensures SplitSql(sql) == []
  {
    StripAll(sql, Whitespace);
    PassStep(sql, CleansePasses, 1);
    assert CleansePasses[..0] == [];
    PassesEmpty(sql, CleansePasses, 5);
    assert CleansePasses[..5] == CleansePasses;
    SplitOnUnfold("", ";\n");
  }

  /** A strip whose characters are at neither end changes nothing. */
  lemma {:induction false} StripUntouched(x: string, cs: set<char>)
    requires |x| > 0 && x[0] !in cs && x[|x| - 1] !in cs
    ensures Strip(x, cs) == x
  {
  }

  /** A single character in `cs` at each end is all a strip removes. */
  lemma {:induction false} StripOneEach(s: string, cs: set<char>)
    requires |s| >= 3 && s[0] in cs && s[|s| - 1] in cs
    requires s[1] !in cs && s[|s| - 2] !in cs
    ensures Strip(s, cs) == s[1..|s| - 1]
  {
    assert LStrip(s[1..], cs) == s[1..];
    assert s[1..][..|s| - 2] == s[1..|s| - 1];
  }

  /** Strips whose characters are at neither end of `x` leave it alone. */
  lemma {:induction false} PassesUntouched(x: string, passes: seq<set<char>>, k: int)
    requires 0 <= k <= |passes| && |x| > 0
    requires forall j :: 0 <= j < k ==> x[0] !in passes[j] && x[|x| - 1] !in passes[j]
    ensures Passes(x, passes[..k]) == x
  {
    if k == 0 {
      assert passes[..0] == [];
    } else {
      PassesUntouched(x, passes, k - 1);
      PassStep(x, passes, k);
      StripUntouched(x, passes[k - 1]);
    }
  }

  /** One more strip, from a known result of the earlier ones. */
  lemma {:induction false} PassThen(x: string, passes: seq<set<char>>, k: int, v: string, w: string)
    requires 0 < k <= |passes| && Passes(x, passes[..k - 1]) == v && Strip(v, passes[k - 1]) == w
    ensures Passes(x, passes[..k]) == w
  {
    PassStep(x, passes, k);
  }

  /** The five strips of `cleanse_sql`, over any sets of the same kind: the
      first three touch neither `;` nor anything past it, the fourth takes one
      `;` off each end and the fifth the space under it. */
  lemma {:induction false} SemicolonPairPasses(x: string, passes: seq<set<char>>)
    requires |passes| == 5 && |x| >= 5
    requires x[0] == x[|x| - 1] == ';' && x[1] == x[|x| - 2] == ' '
    requires forall j :: 0 <= j < 3 ==> ';' !in passes[j]
    requires ';' in passes[3] && ' ' !in passes[3]
    requires ' ' in passes[4] && x[2] !in passes[4] && x[|x| - 3] !in passes[4]
    ensures Passes(x, passes) == x[2..|x| - 2]
  {
    var inner := x[1..|x| - 1];
    assert inner[0] == inner[|inner| - 1] == ' ';
    assert inner[1] == x[2] && inner[|inner| - 2] == x[|x| - 3];
    assert inner[1..|inner| - 1] == x[2..|x| - 2] by {
      var mid := inner[1..|inner| - 1];
      assert |mid| == |x| - 4;
      assert forall i :: 0 <= i < |mid| ==> mid[i] == x[i + 2];
    }
    assert passes[..5] == passes;
    PassesUntouched(x, passes, 3);
    PassStripsOne(x, passes, 4, x);
    PassStripsOne(x, passes, 5, inner);
  }

  /** A strip that finds one of its characters at each end, and none under
      them, takes off exactly those two. */
  lemma {:induction false} PassStripsOne(x: string, passes: seq<set<char>>, k: int, s: string)
    requires 0 < k <= |passes| && Passes(x, passes[..k - 1]) == s
    requires |s| >= 3 && s[0] in passes[k - 1] && s[|s| - 1] in passes[k - 1]
    requires s[1] !in passes[k - 1] && s[|s| - 2] !in passes[k - 1]
    ensures Passes(x, passes[..k]) == s[1..|s| - 1]
  {
    StripOneEach(s, passes[k - 1]);
    PassThen(x, passes, k, s, s[1..|s| - 1]);
  }

  /** `;` and spaces are not blank: the strips of `cleanse_sql` remove only
      one `;` from each end, so `"; " + y + " ;"` cleanses to `y`. */
  lemma {:induction false} CleanseSemicolonPair(y: string)
    requires |y| > 0 && y[0] !in Whitespace && y[|y| - 1] !in Whitespace
    ensures CleanseSql("; " + y + " ;") == y
  {
    var x := "; " + y + " ;";
    assert ';' !in Whitespace && ' ' in Whitespace && ';' != '\n';
    assert x[2..|x| - 2] == y;
    SemicolonPairPasses(x, CleansePasses);
  }

  /** Without a line break there is no `;\n` separator. */
  lemma {:induction false} NoLineBreakNoSeparator(s: string)
    requires forall i :: 0 <= i < |s| ==> s[i] != '\n'
    ensures FindSub(s, ";\n") < 0
  {
    forall j | 0 <= j
      ensures !OccursAt(s, ";\n", j)
    {
      SeparatorBreaks(s, j);
    }
  }

  /** A `;\n` at `j` puts a line break at `j + 1`. */
  lemma {:induction false} SeparatorBreaks(s: string, j: int)
    ensures OccursAt(s, ";\n", j) ==> s[j + 1] == '\n'
  {
    if OccursAt(s, ";\n", j) {
      assert s[j..j + 2][1] == s[j + 1];
    }
  }

  /** Input of `;` and spaces alone can still leave a statement: the
      segment is cleansed twice, once as the whole input and once in the
      comprehension, and each time loses one `;` from each end.  With
      `y == ";"`, `split_sql("; ; ; ; ;")` is `[";"]`. */
  lemma {:induction false} SemicolonsLeaveStatement(y: string)
    requires |y| > 0 && y[0] !in Whitespace && y[|y| - 1] !in Whitespace
    requires forall i :: 0 <= i < |y| ==> y[i] != '\n'
    ensures SplitSql("; ; " + y + " ; ;") == [y]
  {
    var c := "; " + y + " ;";
    assert "; " + c + " ;" == "; ; " + y + " ; ;";
    assert c[0] == ';' && c[|c| - 1] == ';' && ';' !in Whitespace;
    CleanseSemicolonPair(c);
    CleanseSemicolonPair(y);
    WrapNoLineBreak(y);
    NoLineBreakNoSeparator(c);
    SplitOnUnfold(c, ";\n");
    assert Kept([c]) == [y] by {
      assert [c][1..] == [];
    }
  }

  /** Wrapping in `"; "` and `" ;"` adds no line break. */
  lemma {:induction false} WrapNoLineBreak(y: string)
    requires forall i :: 0 <= i < |y| ==> y[i] != '\n'
    ensures forall i :: 0 <= i < |"; " + y + " ;"| ==> ("; " + y + " ;")[i] != '\n'
  {
    var c := "; " + y + " ;";
    forall i | 0 <= i < |c|
      ensures c[i] != '\n'
    {
      if 2 <= i < |c| - 2 {
        assert c[i] == y[i - 2];
      }
    }
  }

  /** The instance: `split_sql("; ; ; ; ;")` keeps the statement `";"`. */
  lemma OnlySemicolonsExample()
    ensures SplitSql("; ; ; ; ;") == [";"]
  {
    assert ';' !in Whitespace;
    SemicolonsLeaveStatement(";");
    assert "; ; " + ";" + " ; ;" == "; ; ; ; ;";
  }

  /** The strips up to the `k`-th, one at a time. */
  lemma {:induction false} PassStep(x: string, passes: seq<set<char>>, k: int)
    requires 0 < k <= |passes|
    ensures Passes(x, passes[..k]) == Strip(Passes(x, passes[..k - 1]), passes[k - 1])
  {
    assert passes[..k][..k - 1] == passes[..k - 1];
  }

  /** Once a strip leaves nothing, nothing is left. */
  lemma {:induction false} PassesEmpty(x: string, passes: seq<set<char>>, k: int)
    requires 1 <= k <= |passes| && Passes(x, passes[..1]) == ""
    ensures Passes(x, passes[..k]) == ""
  {
    if k > 1 {
      PassesEmpty(x, passes, k - 1);
      PassStep(x, passes, k);
      StripEmpty(passes[k - 1]);
    }
  }

  /** Every statement is a non-empty cleansed segment, in order: the kept
      statements are the segments' cleansed forms with the empty ones
      left out. */
  lemma {:induction false} KeptOfSegments(parts: seq<string>)
    ensures Kept(parts) == Drop(CleanseAll(parts))
  {
    if parts != [] {
      KeptOfSegments(parts[1..]);
      assert CleanseAll(parts) == [if parts[0] == "" then "" else CleanseSql(parts[0])] + CleanseAll(parts[1..]);
      assert CleanseAll(parts)[1..] == CleanseAll(parts[1..]);
    }
  }

  /** Each segment cleansed; an empty one stays empty. */
  function CleanseAll(parts: seq<string>): (r: seq<string>)
    ensures |r| == |parts|
    ensures forall i :: 0 <= i < |parts| ==> r[i] == if parts[i] == "" then "" else CleanseSql(parts[i])
  {
    if parts == [] then [] else [if parts[0] == "" then "" else CleanseSql(parts[0])] + CleanseAll(parts[1..])
  }

  /** The non-empty strings, in order. */
  function Drop(xs: seq<string>): (r: seq<string>)
    ensures forall i :: 0 <= i < |r| ==> r[i] != "" && r[i] in xs
    ensures forall i :: 0 <= i < |xs| && xs[i] != "" ==> xs[i] in r
  {
    if xs == [] then []
    else
      var rest := Drop(xs[1..]);
      assert forall i :: 1 <= i < |xs| ==> xs[i] == xs[1..][i - 1];
      if xs[0] == "" then rest else [xs[0]] + rest
  }
}
