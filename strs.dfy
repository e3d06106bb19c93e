/** The handful of Python `str` operations the modelled code relies on,
    each stated with the meaning Python gives it.  Characters are Unicode
    scalar values, as in Python strings without lone surrogates.
 */
module Strs {

  predicate StartsWith(s: string, p: string) {
    |p| <= |s| && s[..|p|] == p
  }

  predicate EndsWith(s: string, p: string) {
    |p| <= |s| && s[|s| - |p|..] == p
  }

  /** A prefix test, character by character. */
  lemma StartsWithChars(s: string, p: string)
    ensures StartsWith(s, p) <==> |p| <= |s| && forall i :: 0 <= i < |p| ==> s[i] == p[i]
  {
    if |p| <= |s| && forall i :: 0 <= i < |p| ==> s[i] == p[i] {
      assert s[..|p|] == p;
    }
  }

  /** A one-character suffix test. */
  lemma EndsWithChar(s: string, c: char)
    ensures EndsWith(s, [c]) <==> |s| > 0 && s[|s| - 1] == c
  {
    if |s| > 0 {
      assert s[|s| - 1..] == [s[|s| - 1]];
    }
  }

  /** Python `s.find(c)` for a single character. */
  function FindChar(s: string, c: char): (i: int)
    ensures -1 <= i < |s|
    ensures i == -1 <==> c !in s
    ensures i >= 0 ==> s[i] == c && c !in s[..i]
    ensures forall k :: 0 <= k < |s| && (i < 0 || k < i) ==> s[k] != c
  {
    FindCharFrom(s, c, 0)
  }

  function FindCharFrom(s: string, c: char, k: nat): (i: int)
    requires k <= |s|
    requires c !in s[..k]
    ensures -1 <= i < |s|
    ensures i == -1 <==> c !in s
    ensures i >= 0 ==> k <= i && s[i] == c && c !in s[..i]
    ensures forall j :: 0 <= j < |s| && (i < 0 || j < i) ==> s[j] != c
    decreases |s| - k
  {
    if k == |s| then
      assert s[..k] == s;
      -1
    else if s[k] == c then k
    else
      assert s[..k + 1] == s[..k] + [s[k]];
      FindCharFrom(s, c, k + 1)
  }

  /** Python `s.rfind(c)` for a single character. */
  function RFindChar(s: string, c: char): (i: int)
    ensures -1 <= i < |s|
    ensures i == -1 <==> c !in s
    ensures i >= 0 ==> s[i] == c && c !in s[i + 1..]
    ensures forall k :: i < k < |s| ==> s[k] != c
  {
    if |s| == 0 then -1
    else if s[|s| - 1] == c then |s| - 1
    else
      var j := RFindChar(s[..|s| - 1], c);
      assert s == s[..|s| - 1] + [s[|s| - 1]];
      if j >= 0 then
        assert s[j + 1..] == s[..|s| - 1][j + 1..] + [s[|s| - 1]];
        j
      else j
  }

  /** `sub` occurs in `s` at position `i`. */
  predicate OccursAt(s: string, sub: string, i: int) {
    0 <= i && i + |sub| <= |s| && s[i..i + |sub|] == sub
  }

  /** Python `s.find(sub)` for a non-empty `sub`. */
  function FindSub(s: string, sub: string): (i: int)
    requires |sub| > 0
    ensures -1 <= i <= |s|
    ensures i >= 0 ==> OccursAt(s, sub, i)
    ensures forall j :: 0 <= j && (i == -1 || j < i) ==> !OccursAt(s, sub, j)
  {
    FindSubFrom(s, sub, 0)
  }

  function FindSubFrom(s: string, sub: string, k: nat): (i: int)
    requires |sub| > 0
    requires forall j :: 0 <= j < k ==> !OccursAt(s, sub, j)
    ensures -1 <= i <= |s|
    ensures i >= 0 ==> OccursAt(s, sub, i)
    ensures forall j :: 0 <= j && (i == -1 || j < i) ==> !OccursAt(s, sub, j)
    decreases |s| - k
  {
    if k + |sub| > |s| then -1
    else if s[k..k + |sub|] == sub then k
    else FindSubFrom(s, sub, k + 1)
  }

  /** Python `s.split(sep)` for a non-empty separator. */
  function SplitOn(s: string, sep: string): (parts: seq<string>)
    requires |sep| > 0
    ensures |parts| >= 1
    decreases |s|
  {
    var i := FindSub(s, sep);
    if i < 0 then [s] else [s[..i]] + SplitOn(s[i + |sep|..], sep)
  }

  /** Python `s.split(c)` for a one-character separator. */
  function SplitChar(s: string, c: char): (parts: seq<string>)
    ensures |parts| >= 1
    decreases |s|
  {
    var i := FindChar(s, c);
    if i < 0 then [s] else [s[..i]] + SplitChar(s[i + 1..], c)
  }

  /** Python `sep.join(parts)`. */
  function Join(sep: string, parts: seq<string>): string {
    if |parts| == 0 then ""
    else if |parts| == 1 then parts[0]
    else parts[0] + sep + Join(sep, parts[1..])
  }

  /** Python `s.replace(a, b)` for one-character `a` and `b`. */
  function ReplaceChar(s: string, a: char, b: char): (r: string)
    ensures |r| == |s|
    ensures forall i :: 0 <= i < |s| ==> r[i] == if s[i] == a then b else s[i]
  {
    if |s| == 0 then "" else [if s[0] == a then b else s[0]] + ReplaceChar(s[1..], a, b)
  }

  /** Python `s.lstrip(chars)`, the characters given as a set. */
  function LStrip(s: string, cs: set<char>): (r: string)
    ensures |r| <= |s| && r == s[|s| - |r|..]
    ensures |r| == 0 || r[0] !in cs
    ensures forall i :: 0 <= i < |s| - |r| ==> s[i] in cs
  {
    if |s| == 0 || s[0] !in cs then s else LStrip(s[1..], cs)
  }

  /** Python `s.rstrip(chars)`, the characters given as a set. */
  function RStrip(s: string, cs: set<char>): (r: string)
    ensures |r| <= |s| && r == s[..|r|]
    ensures |r| == 0 || r[|r| - 1] !in cs
    ensures forall i :: |r| <= i < |s| ==> s[i] in cs
  {
    if |s| == 0 || s[|s| - 1] !in cs then s else RStrip(s[..|s| - 1], cs)
  }

  /** Python `s.strip(chars)`. */
  function Strip(s: string, cs: set<char>): (r: string) {
    RStrip(LStrip(s, cs), cs)
  }

  /** The characters for which Python's `str.isspace()` holds; `str.strip()`
      without an argument removes exactly these. */
  const Whitespace: set<char> := {
    '\t', '\n', '\U{B}', '\U{C}', '\r', '\U{1C}', '\U{1D}', '\U{1E}', '\U{1F}', ' ',
    '\U{85}', '\U{A0}', '\U{1680}', '\U{2000}', '\U{2001}', '\U{2002}', '\U{2003}',
    '\U{2004}', '\U{2005}', '\U{2006}', '\U{2007}', '\U{2008}', '\U{2009}', '\U{200A}',
    '\U{2028}', '\U{2029}', '\U{202F}', '\U{205F}', '\U{3000}'
  }

  predicate IsAsciiLetter(c: char) {
    ('a' <= c <= 'z') || ('A' <= c <= 'Z')
  }

  predicate IsDigit(c: char) {
    '0' <= c <= '9'
  }

  /** `str.upper()` restricted to ASCII letters. */
  function Upper(s: string): (r: string)
    ensures |r| == |s|
    ensures forall i :: 0 <= i < |s| ==> r[i] == if 'a' <= s[i] <= 'z' then s[i] - 'a' + 'A' else s[i]
  {
    if |s| == 0 then ""
    else [if 'a' <= s[0] <= 'z' then s[0] - 'a' + 'A' else s[0]] + Upper(s[1..])
  }

  /** `str.lower()` restricted to ASCII letters. */
  function Lower(s: string): (r: string)
    ensures |r| == |s|
    ensures forall i :: 0 <= i < |s| ==> r[i] == if 'A' <= s[i] <= 'Z' then s[i] - 'A' + 'a' else s[i]
  {
    if |s| == 0 then ""
    else [if 'A' <= s[0] <= 'Z' then s[0] - 'A' + 'a' else s[0]] + Lower(s[1..])
  }

  /** Python's `<` on strings: lexicographic by code point. */
  predicate Less(a: string, b: string) {
    if |a| == 0 then |b| > 0
    else if |b| == 0 then false
    else if a[0] != b[0] then a[0] < b[0]
    else Less(a[1..], b[1..])
  }

  /** The digit character of `d`. */
  function DigitChar(d: nat): char
    requires d < 10
  {
    '0' + (d as char)
  }

  /** `str(n)` for a natural number. */
  function NatToString(n: nat): (r: string)
    ensures |r| >= 1
    ensures forall i :: 0 <= i < |r| ==> IsDigit(r[i])
  {
    if n < 10 then [DigitChar(n)] else NatToString(n / 10) + [DigitChar(n % 10)]
  }

  /** `n` written in decimal with leading zeros up to `width` digits. */
  function Padded(n: nat, width: nat): (r: string)
    ensures |r| >= width
    ensures forall i :: 0 <= i < |r| ==> IsDigit(r[i])
  {
    var d := NatToString(n);
    if |d| >= width then d else seq(width - |d|, _ => '0') + d
  }

  /** `os.path.join(a, b)` on POSIX. */
  function OsJoin(a: string, b: string): (r: string)
    ensures StartsWith(b, "/") ==> r == b
  {
    if StartsWith(b, "/") then b
    else if a == "" || EndsWith(a, "/") then a + b
    else a + "/" + b
  }

  // ---------------------------------------------------------------------
  // Facts about the operations above

  /** The length of the longest prefix of `t` without a character of `cs`. */
  function SpanNot(t: string, cs: set<char>): (k: nat)
    ensures k <= |t|
    ensures forall j :: 0 <= j < k ==> t[j] !in cs
    ensures k == |t| || t[k] in cs
  {
    if |t| == 0 || t[0] in cs then 0 else 1 + SpanNot(t[1..], cs)
  }

  /** Python `s.split()` without arguments: the runs of characters that are
      not white space, in order. */
  function Words(s: string): (ws: seq<string>)
    ensures forall i :: 0 <= i < |ws| ==> IsWord(ws[i])
    decreases |s|
  {
    var t := LStrip(s, Whitespace);
    if t == "" then []
    else
      var k := SpanNot(t, Whitespace);
      var w := t[..k];
      assert IsWord(w);
      var rest := Words(t[k..]);
      assert forall i :: 0 <= i < |rest| ==> IsWord(rest[i]);
      var r := [w] + rest;
      assert forall i :: 0 <= i < |r| ==> r[i] == if i == 0 then w else rest[i - 1];
      r
  }

  /** A non-empty run of characters that are not white space. */
  predicate IsWord(w: string) {
    |w| > 0 && forall j :: 0 <= j < |w| ==> w[j] !in Whitespace
  }

  /** A text whose first character is not white space begins with its
      first word, the characters up to the first white space. */
  lemma {:induction false} FirstWord(s: string)
    requires |s| > 0 && s[0] !in Whitespace
    ensures |Words(s)| > 0 && Words(s)[0] == s[..SpanNot(s, Whitespace)]
  {
    assert LStrip(s, Whitespace) == s;
  }

  /** Visible ASCII: the characters from `!` to `~`. */
  predicate Printable(s: string) {
    forall i :: 0 <= i < |s| ==> '!' <= s[i] <= '~'
  }

  /** Visible ASCII characters are not white space. */
  lemma {:induction false} PrintableWord(w: string)
    requires |w| > 0 && Printable(w)
    ensures IsWord(w)
  {
    forall j | 0 <= j < |w|
      ensures w[j] !in Whitespace
    {
      var c := w[j];
      assert '!' <= c <= '~';
    }
  }

  /** A word, a space and a tail split into that word and the words of
      the tail. */
  lemma {:induction false} WordsCons(w: string, rest: string)
    requires IsWord(w)
    ensures Words(w + " " + rest) == [w] + Words(rest)
  {
    var s := w + " " + rest;
    assert s[0] == w[0];
    assert LStrip(s, Whitespace) == s;
    var k := SpanNot(s, Whitespace);
    assert forall j :: 0 <= j < |w| ==> s[j] == w[j];
    assert s[|w|] == ' ';
    assert k == |w|;
    assert s[..k] == w;
    assert s[k..] == " " + rest;
    assert LStrip(" " + rest, Whitespace) == LStrip(rest, Whitespace) by {
      assert (" " + rest)[1..] == rest;
    }
  }

  /** A word on its own is its only word. */
  lemma {:induction false} WordsOne(w: string)
    requires IsWord(w)
    ensures Words(w) == [w]
  {
    assert LStrip(w, Whitespace) == w;
    assert SpanNot(w, Whitespace) == |w|;
    assert w[|w|..] == "";
    assert w[..|w|] == w;
  }

  /** Two words with a space between split into those two words. */
  lemma {:induction false} WordsPair(a: string, b: string)
    requires IsWord(a) && IsWord(b)
    ensures Words(a + " " + b) == [a, b]
  {
    WordsCons(a, b);
    WordsOne(b);
  }

  /** Two words, each followed by a space, are the first two words. */
  lemma {:induction false} WordsTwo(d: string, t: string, u: string)
    requires IsWord(d) && IsWord(t)
    ensures var ws := Words(d + " " + (t + " " + u)); |ws| >= 2 && ws[0] == d && ws[1] == t
  {
    WordsCons(d, t + " " + u);
    WordsCons(t, u);
    var rest := Words(t + " " + u);
    assert rest == [t] + Words(u);
    assert Words(d + " " + (t + " " + u)) == [d] + rest;
  }

  /** Upper-casing twice is upper-casing once. */
  lemma {:induction false} UpperIdempotent(s: string)
    ensures Upper(Upper(s)) == Upper(s)
  {
    var u := Upper(s);
    assert forall i :: 0 <= i < |u| ==> Upper(u)[i] == u[i];
  }

  /** A string without `c` is one part. */
  lemma {:induction false} SplitCharNone(s: string, c: char)
    requires c !in s
    ensures SplitChar(s, c) == [s]
  {
  }

  /** Text up to the first `c` is the first part. */
  lemma {:induction false} SplitCharCons(a: string, b: string, c: char)
    requires c !in a
    ensures SplitChar(a + ([c] + b), c) == [a] + SplitChar(b, c)
  {
    var s := a + ([c] + b);
    assert FindChar(s, c) == |a| by {
      assert s[|a|] == c;
      assert forall k :: 0 <= k < |a| ==> s[k] == a[k];
    }
    assert s[..|a|] == a;
    assert s[|a| + 1..] == b;
  }

  /** Parts joined by `c` split back into the same parts, when no part
      contains `c`. */
  lemma {:induction false} SplitCharJoin(parts: seq<string>, c: char)
    requires |parts| >= 1
    requires forall i :: 0 <= i < |parts| ==> c !in parts[i]
    ensures SplitChar(Join([c], parts), c) == parts
    decreases |parts|
  {
    if |parts| == 1 {
      SplitCharNone(parts[0], c);
    } else {
      var rest := Join([c], parts[1..]);
      var s := parts[0] + [c] + rest;
      assert Join([c], parts) == s;
      assert FindChar(s, c) == |parts[0]| by {
        assert s[|parts[0]|] == c;
        assert forall k :: 0 <= k < |parts[0]| ==> s[k] == parts[0][k];
      }
      assert s[..|parts[0]|] == parts[0];
      assert s[|parts[0]| + 1..] == rest;
      SplitCharJoin(parts[1..], c);
    }
  }

  /** `sep.join(s.split(sep))` is `s`. */
  lemma {:induction false} SplitOnJoin(s: string, sep: string)
    requires |sep| > 0
    ensures Join(sep, SplitOn(s, sep)) == s
    decreases |s|
  {
    SplitOnUnfold(s, sep);
    var i := FindSub(s, sep);
    if i >= 0 {
      var rest := s[i + |sep|..];
      SplitOnJoin(rest, sep);
      JoinCons(sep, s[..i], SplitOn(rest, sep));
      assert s == s[..i] + s[i..i + |sep|] + rest;
    }
  }

  /** One step of `SplitOn`. */
  lemma {:induction false} SplitOnUnfold(s: string, sep: string)
    requires |sep| > 0
    ensures var i := FindSub(s, sep);
      SplitOn(s, sep) == if i < 0 then [s] else [s[..i]] + SplitOn(s[i + |sep|..], sep)
  {
  }

  /** Joining a first part onto more parts. */
  lemma {:induction false} JoinCons(sep: string, a: string, ps: seq<string>)
    requires |ps| >= 1
    ensures Join(sep, [a] + ps) == a + sep + Join(sep, ps)
  {
    assert ([a] + ps)[1..] == ps;
  }

  /** No part of `s.split(sep)` contains `sep`. */
  lemma {:induction false} SplitOnParts(s: string, sep: string)
    requires |sep| > 0
    ensures forall k :: 0 <= k < |SplitOn(s, sep)| ==> FindSub(SplitOn(s, sep)[k], sep) < 0
    decreases |s|
  {
    var i := FindSub(s, sep);
    if i < 0 {
      assert SplitOn(s, sep) == [s];
    } else {
      SplitOnParts(s[i + |sep|..], sep);
      NoSubInSlice(s, sep, 0, i, i);
    }
  }

  /** A slice of `s` ending before `s`'s first occurrence of `sub` (at
      `limit`, or anywhere when there is none) holds no occurrence. */
  lemma {:induction false} NoSubInSlice(s: string, sub: string, a: int, b: int, limit: int)
    requires |sub| > 0 && 0 <= a <= b <= |s|
    requires limit == FindSub(s, sub) && (limit < 0 || b <= limit)
    ensures FindSub(s[a..b], sub) < 0
  {
    var t := s[a..b];
    var i := FindSub(t, sub);
    if i >= 0 {
      assert s[a + i..a + i + |sub|] == t[i..i + |sub|];
      assert OccursAt(s, sub, a + i);
    }
  }

  /** `s.strip(cs)` is the slice `s[a..b]`. */
  lemma {:induction false} StripSlice(s: string, cs: set<char>) returns (a: nat, b: nat)
    ensures a <= b <= |s| && Strip(s, cs) == s[a..b]
  {
    var l := LStrip(s, cs);
    var r := RStrip(l, cs);
    a := |s| - |l|;
    b := a + |r|;
    assert r == s[a..b];
  }

  /** `s.strip(cs)` starts and ends with a character outside `cs`. */
  lemma {:induction false} StripEnds(s: string, cs: set<char>)
    ensures var r := Strip(s, cs);
      |r| == 0 || (r[0] !in cs && r[|r| - 1] !in cs)
  {
    var l := LStrip(s, cs);
    var r := RStrip(l, cs);
    if |r| > 0 {
      assert r[0] == l[0];
    }
  }

  /** A string made only of characters of `cs` strips to nothing. */
  lemma {:induction false} StripAll(s: string, cs: set<char>)
    requires forall i :: 0 <= i < |s| ==> s[i] in cs
    ensures Strip(s, cs) == ""
  {
    assert LStrip(s, cs) == "";
  }

  /** Stripping does nothing to a string that starts and ends outside
      `cs`. */
  lemma {:induction false} StripFixed(s: string, cs: set<char>)
    requires |s| == 0 || (s[0] !in cs && s[|s| - 1] !in cs)
    ensures Strip(s, cs) == s
  {
    assert LStrip(s, cs) == s;
  }

  /** A slice of a slice is a slice. */
  lemma {:induction false} SliceOfSlice(x: string, a: int, b: int, c: int, d: int)
    requires 0 <= a <= b <= |x| && 0 <= c <= d <= b - a
    ensures x[a..b][c..d] == x[a + c..a + d]
  {
    var y := x[a..b][c..d];
    assert |y| == d - c;
    forall i | 0 <= i < d - c
      ensures y[i] == x[a + c + i]
    {
      assert y[i] == x[a..b][c + i];
    }
  }

  /** Stripping cannot make an absent `sub` appear. */
  lemma {:induction false} StripNoSub(s: string, cs: set<char>, sub: string)
    requires |sub| > 0 && FindSub(s, sub) < 0
    ensures FindSub(Strip(s, cs), sub) < 0
  {
    var a, b := StripSlice(s, cs);
    NoSubInSlice(s, sub, a, b, FindSub(s, sub));
  }

  lemma {:induction false} StripEmpty(cs: set<char>)
    ensures Strip("", cs) == ""
  {
    assert LStrip("", cs) == "";
  }
}
