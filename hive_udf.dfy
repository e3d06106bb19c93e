/** `make_udf` of src/zpz/sql/hive_udf.py: the code of a Hive `TRANSFORM`
    script is sent as the argument of a fixed `python -c` loader, encoded
    as UTF-8 and then in the URL- and filename-safe Base64 alphabet of
    section 5 of RFC 4648, padded with `=` as in section 4.

    `inspect.getsource(module)` is a parameter: a module argument carries
    its source text.
 */
module HiveUdf {
  import opened Wrappers
  import opened Strs

  type Byte = x: int | 0 <= x < 256
  type Sextet = x: int | 0 <= x < 64

  // ---------------------------------------------------------------------
  // UTF-8 (str.encode('utf-8'))

  /** The bytes of one character: one to four, by the size of its code
      point. */
  function Utf8Char(c: char): (r: seq<Byte>)
    ensures 1 <= |r| <= 4
  {
    var n := c as int;
    if n < 0x80 then [n]
    else if n < 0x800 then [0xC0 + n / 64, 0x80 + n % 64]
    else if n < 0x1_0000 then [0xE0 + n / 4096, 0x80 + n / 64 % 64, 0x80 + n % 64]
    else [0xF0 + n / 262144, 0x80 + n / 4096 % 64, 0x80 + n / 64 % 64, 0x80 + n % 64]
  }

  /** `s.encode('utf-8')`. */
  function Utf8(s: string): (r: seq<Byte>)
    ensures |r| >= |s|
  {
    if s == "" then [] else Utf8Char(s[0]) + Utf8(s[1..])
  }

  /** A continuation byte's six bits. */
  predicate IsCont(b: Byte) {
    0x80 <= b < 0xC0
  }

  /** The number of bytes a sequence starting with `b` takes, or `0` for a
      byte that cannot start one. */
  function SeqLength(b: Byte): nat {
    if b < 0x80 then 1
    else if 0xC0 <= b < 0xE0 then 2
    else if 0xE0 <= b < 0xF0 then 3
    else if 0xF0 <= b < 0xF8 then 4
    else 0
  }

  /** The scalar value `n` as a character, when it is at least `least`
      (no overlong form) and neither a surrogate nor too large. */
  function Scalar(n: int, least: int): Option<char> {
    if 0 <= least <= n < 0x11_0000 && !(0xD800 <= n < 0xE000) then Some(n as char) else None
  }

  /** The character of one sequence of bytes, if it is well formed. */
  function DecodeChar(bs: seq<Byte>): Option<char>
    requires 1 <= |bs| <= 4
  {
    var b0 := bs[0] as int;
    if |bs| == 1 then Scalar(b0, 0)
    else if !IsCont(bs[1]) then None
    else if |bs| == 2 then Scalar((b0 - 0xC0) * 64 + (bs[1] as int - 0x80), 0x80)
    else if !IsCont(bs[2]) then None
    else if |bs| == 3 then Scalar((b0 - 0xE0) * 4096 + (bs[1] as int - 0x80) * 64 + (bs[2] as int - 0x80), 0x800)
    else if !IsCont(bs[3]) then None
    else Scalar((b0 - 0xF0) * 262144 + (bs[1] as int - 0x80) * 4096 + (bs[2] as int - 0x80) * 64 + (bs[3] as int - 0x80), 0x1_0000)
  }

  /** `bytes.decode('utf-8')`, the last step of the loader script on
      Python 3: `None` where Python raises `UnicodeDecodeError`. */
  function Utf8Decode(bs: seq<Byte>): Option<string>
    decreases |bs|
  {
    if bs == [] then Some("")
    else
      var k := SeqLength(bs[0]);
      if k == 0 || k > |bs| then None
      else
        match DecodeChar(bs[..k])
        case None => None
        case Some(c) =>
          match Utf8Decode(bs[k..])
          case None => None
          case Some(rest) => Some([c] + rest)
  }

  /** One character's bytes decode back to it. */
  lemma {:induction false} Utf8CharRoundTrip(c: char)
    ensures SeqLength(Utf8Char(c)[0]) == |Utf8Char(c)|
    ensures DecodeChar(Utf8Char(c)) == Some(c)
  {
    var n := c as int;
    assert !(0xD800 <= n < 0xE000) && n < 0x11_0000;
    if n < 0x80 {
    } else if n < 0x800 {
      Split2(n);
    } else if n < 0x1_0000 {
      Split3(n);
    } else {
      Split4(n);
    }
  }

  lemma {:induction false} Split2(n: int)
    requires 0x80 <= n < 0x800
    ensures 0xC0 <= 0xC0 + n / 64 < 0xE0 && (n / 64) * 64 + n % 64 == n
  {
  }

  lemma {:induction false} Split3(n: int)
    requires 0x800 <= n < 0x1_0000
    ensures 0xE0 <= 0xE0 + n / 4096 < 0xF0 && (n / 4096) * 4096 + (n / 64 % 64) * 64 + n % 64 == n
  {
  }

  lemma {:induction false} Split4(n: int)
    requires 0x1_0000 <= n < 0x11_0000
    ensures 0xF0 <= 0xF0 + n / 262144 < 0xF8
    ensures (n / 262144) * 262144 + (n / 4096 % 64) * 4096 + (n / 64 % 64) * 64 + n % 64 == n
  {
  }

  /** Decoding the UTF-8 bytes of a text gives the text. */
  lemma {:induction false} Utf8RoundTrip(s: string)
    ensures Utf8Decode(Utf8(s)) == Some(s)
    decreases |s|
  {
    if s != "" {
      var h := Utf8Char(s[0]);
      var bs := Utf8(s);
      Utf8CharRoundTrip(s[0]);
      assert bs == h + Utf8(s[1..]);
      assert bs[0] == h[0];
      assert bs[..|h|] == h;
      assert bs[|h|..] == Utf8(s[1..]);
      Utf8RoundTrip(s[1..]);
      assert [s[0]] + s[1..] == s;
    }
  }

  // ---------------------------------------------------------------------
  // Base64 with the URL- and filename-safe alphabet

  /** The symbol of a six-bit value, by the table of section 5 of
      RFC 4648. */
  function Symbol(v: Sextet): char {
    if v < 26 then 'A' + (v as char)
    else if v < 52 then 'a' + ((v - 26) as char)
    else if v < 62 then '0' + ((v - 52) as char)
    else if v == 62 then '-'
    else '_'
  }

  /** The value of a symbol, or `None` for a character outside the
      alphabet. */
  function SymbolValue(c: char): Option<Sextet> {
    if 'A' <= c <= 'Z' then Some((c - 'A') as int)
    else if 'a' <= c <= 'z' then Some((c - 'a') as int + 26)
    else if '0' <= c <= '9' then Some((c - '0') as int + 52)
    else if c == '-' then Some(62)
    else if c == '_' then Some(63)
    else None
  }

  /** A character of the alphabet. */
  predicate InAlphabet(c: char) {
    ('A' <= c <= 'Z') || ('a' <= c <= 'z') || ('0' <= c <= '9') || c == '-' || c == '_'
  }

  /** Every value has a symbol of the alphabet, which reads back as it. */
  lemma {:induction false} SymbolRoundTrip(v: Sextet)
    ensures InAlphabet(Symbol(v))
    ensures SymbolValue(Symbol(v)) == Some(v)
  {
  }

  /** Three bytes as four symbols: their 24 bits, six at a time. */
  function Quad(a: Byte, b: Byte, c: Byte): string {
    [Symbol(a / 4), Symbol(a % 4 * 16 + b / 16), Symbol(b % 16 * 4 + c / 64), Symbol(c % 64)]
  }

  /** `base64.urlsafe_b64encode(bs)`: three bytes at a time, a final one or
      two bytes padded to four characters with `=`. */
  function Encode(bs: seq<Byte>): (r: string)
    decreases |bs|
  {
    if |bs| == 0 then ""
    else if |bs| == 1 then [Symbol(bs[0] / 4), Symbol(bs[0] % 4 * 16), '=', '=']
    else if |bs| == 2 then [Symbol(bs[0] / 4), Symbol(bs[0] % 4 * 16 + bs[1] / 16), Symbol(bs[1] % 16 * 4), '=']
    else Quad(bs[0], bs[1], bs[2]) + Encode(bs[3..])
  }

  /** The bytes of four symbol values. */
  function Triple(v0: Sextet, v1: Sextet, v2: Sextet, v3: Sextet): seq<Byte> {
    [v0 * 4 + v1 / 16, v1 % 16 * 16 + v2 / 4, v2 % 4 * 64 + v3]
  }

  /** A decoder of section 5 of RFC 4648: groups of four characters, `=`
      only as padding of the last group; `None` for anything else. */
  function Decode(s: string): Option<seq<Byte>>
    decreases |s|
  {
    if s == "" then Some([])
    else if |s| < 4 then None
    else
      var v0 := SymbolValue(s[0]);
      var v1 := SymbolValue(s[1]);
      if v0.None? || v1.None? then None
      else if |s| == 4 && s[2] == '=' && s[3] == '=' then
        Some([Triple(v0.value, v1.value, 0, 0)[0]])
      else
        var v2 := SymbolValue(s[2]);
        if v2.None? then None
        else if |s| == 4 && s[3] == '=' then
          Some(Triple(v0.value, v1.value, v2.value, 0)[..2])
        else
          var v3 := SymbolValue(s[3]);
          if v3.None? then None
          else
            match Decode(s[4..])
            case None => None
            case Some(rest) => Some(Triple(v0.value, v1.value, v2.value, v3.value) + rest)
  }

  /** The six-bit pieces of three bytes put back together give the bytes. */
  lemma {:induction false} TripleOfQuad(a: Byte, b: Byte, c: Byte)
    ensures Triple(a / 4, a % 4 * 16 + b / 16, b % 16 * 4 + c / 64, c % 64) == [a, b, c]
  {
  }

  /** The same for a final two bytes. */
  lemma {:induction false} TripleOfPair(a: Byte, b: Byte)
    ensures Triple(a / 4, a % 4 * 16 + b / 16, b % 16 * 4, 0)[..2] == [a, b]
  {
  }

  /** The same for a final byte. */
  lemma {:induction false} TripleOfOne(a: Byte)
    ensures Triple(a / 4, a % 4 * 16, 0, 0)[0] == a
  {
  }

  /** A group of four symbols of the alphabet decodes to three bytes,
      ahead of what the rest decodes to. */
  lemma {:induction false} DecodeGroup(q: string, rest: string)
    requires |q| == 4 && forall i :: 0 <= i < 4 ==> InAlphabet(q[i])
    ensures SymbolValue(q[0]).Some? && SymbolValue(q[1]).Some? && SymbolValue(q[2]).Some? && SymbolValue(q[3]).Some?
    ensures Decode(q + rest) == match Decode(rest)
        case None => None
        case Some(r) => Some(Triple(SymbolValue(q[0]).value, SymbolValue(q[1]).value, SymbolValue(q[2]).value, SymbolValue(q[3]).value) + r)
  {
    var s := q + rest;
    assert s[4..] == rest;
    assert s[0] == q[0] && s[1] == q[1] && s[2] == q[2] && s[3] == q[3];
  }

  /** The symbols of a group: of the alphabet, and standing for the values
      they were made from. */
  lemma {:induction false} QuadSymbols(a: Byte, b: Byte, c: Byte)
    ensures var q := Quad(a, b, c);
      |q| == 4 && (forall i :: 0 <= i < 4 ==> InAlphabet(q[i])) &&
      SymbolValue(q[0]) == Some(a / 4) && SymbolValue(q[1]) == Some(a % 4 * 16 + b / 16) &&
      SymbolValue(q[2]) == Some(b % 16 * 4 + c / 64) && SymbolValue(q[3]) == Some(c % 64)
  {
    SymbolRoundTrip(a / 4);
    SymbolRoundTrip(a % 4 * 16 + b / 16);
    SymbolRoundTrip(b % 16 * 4 + c / 64);
    SymbolRoundTrip(c % 64);
  }

  /** Characters of the alphabet, but for one or two final `=`. */
  predicate IsPayload(r: string) {
    (forall i :: 0 <= i < |r| ==> InAlphabet(r[i]) || r[i] == '=') &&
    (forall i :: 0 <= i < |r| - 2 ==> InAlphabet(r[i]))
  }

  /** A group of the alphabet ahead of a payload is a payload. */
  lemma {:induction false} PayloadCons(q: string, t: string)
    requires |q| == 4 && (forall i :: 0 <= i < 4 ==> InAlphabet(q[i])) && IsPayload(t)
    ensures IsPayload(q + t)
  {
    assert forall i :: 4 <= i < |q + t| ==> (q + t)[i] == t[i - 4];
  }

  /** The payload is four characters for every three bytes or part of
      three, all of the alphabet except for one or two final `=`. */
  lemma {:induction false} EncodeShape(bs: seq<Byte>)
    ensures |Encode(bs)| == 4 * ((|bs| + 2) / 3)
    ensures IsPayload(Encode(bs))
    decreases |bs|
  {
    if |bs| >= 3 {
      EncodeShape(bs[3..]);
      assert (|bs| + 2) / 3 == (|bs| - 1) / 3 + 1;
      QuadSymbols(bs[0], bs[1], bs[2]);
      PayloadCons(Quad(bs[0], bs[1], bs[2]), Encode(bs[3..]));
    } else if |bs| == 2 {
      SymbolRoundTrip(bs[0] / 4);
      SymbolRoundTrip(bs[0] % 4 * 16 + bs[1] / 16);
      SymbolRoundTrip(bs[1] % 16 * 4);
    } else if |bs| == 1 {
      SymbolRoundTrip(bs[0] / 4);
      SymbolRoundTrip(bs[0] % 4 * 16);
    }
  }

  /** Decoding the payload gives back the bytes. */
  lemma {:induction false} EncodeRoundTrip(bs: seq<Byte>)
    ensures Decode(Encode(bs)) == Some(bs)
    decreases |bs|
  {
    if |bs| >= 3 {
      EncodeRoundTrip(bs[3..]);
      GroupRoundTrip(bs);
    } else if |bs| == 2 {
      SymbolRoundTrip(bs[0] / 4);
      SymbolRoundTrip(bs[0] % 4 * 16 + bs[1] / 16);
      SymbolRoundTrip(bs[1] % 16 * 4);
      TripleOfPair(bs[0], bs[1]);
      assert bs == [bs[0], bs[1]];
    } else if |bs| == 1 {
      SymbolRoundTrip(bs[0] / 4);
      SymbolRoundTrip(bs[0] % 4 * 16);
      TripleOfOne(bs[0]);
      assert bs == [bs[0]];
    }
  }

  /** The first group decodes to the first three bytes. */
  lemma {:induction false} GroupRoundTrip(bs: seq<Byte>)
    requires |bs| >= 3 && Decode(Encode(bs[3..])) == Some(bs[3..])
    ensures Decode(Encode(bs)) == Some(bs)
  {
    var a, b, c := bs[0], bs[1], bs[2];
    var q := Quad(a, b, c);
    QuadSymbols(a, b, c);
    DecodeGroup(q, Encode(bs[3..]));
    TripleOfQuad(a, b, c);
    assert bs == [a, b, c] + bs[3..];
  }

  // ---------------------------------------------------------------------
  // make_udf

  /** The first argument of `make_udf`: a module (given by its source
      text), a code string, or a value of any other type. */
  datatype CodeArg = Module(source: string) | Code(text: string) | Other

  /** The loader, `python -c "..."`: it takes the payload from `sys.argv[1]`
      and `exec`s what it decodes to. */
  const Script := LoadStep + DecodeStep + RunStep

  /** The command up to the payload. */
  const Loader := "python -c \"" + Script + "\" "

  /** The loader's statements: fetch the payload, decode it, run it. */
  const LoadStep := "import sys, base64; code = sys.argv[1]; "
  const DecodeStep := "code = base64.urlsafe_b64decode(code); "
  const RunStep := VersionStep + "exec(code);"
  const VersionStep := "code = code if sys.version_info[0] == 2 else code.decode(); "

  /** `str(encoded)[2:-1]`: the text of a `bytes` value whose characters
      are printable ASCII other than a quote or a backslash, written by
      `str` as `b'...'`, without the `b'` and the `'`. */
  function BytesText(t: string): (r: string)
    requires forall i :: 0 <= i < |t| ==> t[i] != '\'' && t[i] != '\\'
    ensures r == t
  {
    var repr := "b'" + t + "'";
    repr[2..|repr| - 1]
  }

  /** The payload for a code text. */
  function Payload(s: string): (r: string)
    ensures |r| == 4 * ((|Utf8(s)| + 2) / 3)
    ensures IsPayload(r)
    ensures Decode(r) == Some(Utf8(s))
  {
    var e := Encode(Utf8(s));
    EncodeShape(Utf8(s));
    EncodeRoundTrip(Utf8(s));
    BytesText(e)
  }

  /** `make_udf(module_or_code, *args)`, with each `str(v)` of `args`
      given. */
  function MakeUdf(code: CodeArg, args: seq<string>): (r: Result<string>)
    ensures r.Err? <==> code.Other?
    ensures r.Err? ==> r.error == AssertionError
    ensures code.Code? ==> r == Ok(Command(code.text, args))
    ensures code.Module? ==> r == Ok(Command(code.source, args))
  {
    match code
    case Other => Err(AssertionError)
    case Module(s) => Ok(Command(s, args))
    case Code(s) => Ok(Command(s, args))
  }

  /** The command for a code text. */
  function Command(s: string, args: seq<string>): string {
    var c := Loader + Payload(s);
    if args == [] then c else c + " " + Join(" ", args)
  }

  /** The arguments after the payload: none, or a space and the arguments
      separated by single spaces. */
  function ArgsText(args: seq<string>): string {
    if args == [] then "" else " " + Join(" ", args)
  }

  /** The command is the loader, then the payload, then the arguments; the
      payload decodes to the code's UTF-8 bytes, and those to the code. */
  lemma {:induction false} CommandParts(s: string, args: seq<string>)
    ensures var p := Payload(s);
      Command(s, args) == Loader + p + ArgsText(args) &&
      Decode(p) == Some(Utf8(s)) && Utf8Decode(Decode(p).value) == Some(s)
  {
    Utf8RoundTrip(s);
  }

  /** The command holds no single quote unless an argument does, so it can
      be quoted with `'...'` in HiveQL. */
  lemma {:induction false} NoSingleQuote(s: string, args: seq<string>)
    requires forall i :: 0 <= i < |args| ==> '\'' !in args[i]
    ensures '\'' !in Command(s, args)
  {
    ScriptNoQuote();
    PayloadNoQuote(s);
    JoinWithout(args, '\'');
    assert '\'' !in Loader by {
      assert '\'' !in "python -c \"";
    }
  }

  /** The loader holds no single quote. */
  lemma {:induction false} ScriptNoQuote()
    ensures '\'' !in Script
  {
    LoadNoQuote();
    DecodeNoQuote();
    RunNoQuote();
  }

  lemma {:induction false} LoadNoQuote()
    ensures '\'' !in LoadStep
  {
    assert '\'' !in "import sys, base64; ";
  }

  lemma {:induction false} DecodeNoQuote()
    ensures '\'' !in DecodeStep
  {
    assert '\'' !in "code = base64.";
  }

  lemma {:induction false} RunNoQuote()
    ensures '\'' !in RunStep
  {
    VersionNoQuote();
    assert '\'' !in "exec(code);";
  }

  lemma {:induction false} VersionNoQuote()
    ensures '\'' !in VersionStep
  {
    assert '\'' !in "code = code if ";
  }

  /** Nor does a payload. */
  lemma {:induction false} PayloadNoQuote(s: string)
    ensures '\'' !in Payload(s)
  {
    var p := Payload(s);
    assert forall i :: 0 <= i < |p| ==> p[i] != '\'';
  }

  /** Parts joined by spaces contain `c` only where a part does. */
  lemma {:induction false} JoinWithout(parts: seq<string>, c: char)
    requires c != ' '
    requires forall i :: 0 <= i < |parts| ==> c !in parts[i]
    ensures c !in Join(" ", parts)
    decreases |parts|
  {
    if |parts| > 1 {
      JoinWithout(parts[1..], c);
    }
  }
}
