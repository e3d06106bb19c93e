/** `is_arg_name` and `parse_other_args` of src/coyote/otherargs.py: the
    command-line tail that `argparse` did not recognise, read as options
    `--name [value]`.

    Python's `float(x)` is a parameter `floatOf` of the model, giving the
    value or `None` where `float` raises `ValueError`; `int(x)` is modelled
    for ASCII digits.  The result dict is a map, so the order of its keys
    is not modelled.
 */
module OtherArgs {
  import opened Wrappers
  import opened Strs

  /** `is_arg_name(name)`: a non-empty name made of ASCII letters, digits
      and `_`, starting with a letter. */
  predicate IsArgName(name: string): (r: bool)
    ensures r ==> forall i :: 0 <= i < |name| ==> name[i] != '-' && name[i] != '=' && name[i] != ' '
    ensures r ==> |name| > 0 && !IsDigit(name[0])
  {
    |name| > 0 && IsAsciiLetter(name[0]) &&
    forall i :: 0 <= i < |name| ==> IsAsciiLetter(name[i]) || IsDigit(name[i]) || name[i] == '_'
  }

  /** The values an option can take. */
  datatype ArgValue = IntArg(i: int) | FloatArg(f: real) | StrArg(s: string) | BoolArg(b: bool)

  // ---------------------------------------------------------------------
  // int(x)

  /** Digits in the form `int` accepts: ASCII digits, single underscores
      between them. */
  predicate DigitRun(s: string) {
    |s| > 0 && IsDigit(s[0]) && IsDigit(s[|s| - 1]) &&
    (forall i :: 0 <= i < |s| ==> IsDigit(s[i]) || s[i] == '_') &&
    (forall i :: 0 <= i < |s| - 1 ==> s[i] == '_' ==> s[i + 1] != '_')
  }

  /** The number a run of digits and underscores spells. */
  function DigitsValue(s: string): nat
    requires forall i :: 0 <= i < |s| ==> IsDigit(s[i]) || s[i] == '_'
  {
    if |s| == 0 then 0
    else
      var init := s[..|s| - 1];
      var c := s[|s| - 1];
      if c == '_' then DigitsValue(init)
      else
        assert IsDigit(c);
        10 * DigitsValue(init) + (c as int - '0' as int)
  }

  /** Python's `int(x)`: surrounding white space, an optional sign, then
      digits. */
  function IntOf(x: string): (r: Option<int>)
  {
    var t := Strip(x, Whitespace);
    if |t| > 0 && (t[0] == '-' || t[0] == '+') then
      var d := t[1..];
      if DigitRun(d) then Some(if t[0] == '-' then -(DigitsValue(d) as int) else DigitsValue(d)) else None
    else if DigitRun(t) then Some(DigitsValue(t) as int)
    else None
  }

  // ---------------------------------------------------------------------
  // parse_other_args

  /** The key of an option token: leading dashes removed, the other dashes
      turned into underscores. */
  function KeyOf(x: string): string {
    ReplaceChar(LStrip(x, {'-'}), '-', '_')
  }

  /** The value of a value token: an `int` if it parses as one, else a
      `float`, else the string, with `true`/`yes` and `false`/`no` in any
      case turned into booleans. */
  function ValueOf(x: string, floatOf: string -> Option<real>): ArgValue {
    match IntOf(x)
    case Some(n) => IntArg(n)
    case None =>
      match floatOf(x)
      case Some(f) => FloatArg(f)
      case None =>
        var l := Lower(x);
        if l == "true" || l == "yes" then BoolArg(true)
        else if l == "false" || l == "no" then BoolArg(false)
        else StrArg(x)
  }

  /** The loop's state: the dict built so far and the option waiting for a
      value (`next_arg`). */
  datatype ParseState = ParseState(result: map<string, ArgValue>, next: Option<string>)

  /** A token that starts an option: it must begin with `-` and give a
      valid name. */
  function Open(result: map<string, ArgValue>, x: string): Result<ParseState> {
    if !StartsWith(x, "-") then Err(AssertionError)
    else if !IsArgName(KeyOf(x)) then Err(AssertionError)
    else Ok(ParseState(result, Some(KeyOf(x))))
  }

  /** One turn of the loop over the tokens. */
  function Step(st: ParseState, x: string, floatOf: string -> Option<real>): Result<ParseState> {
    match st.next
    case None => Open(st.result, x)
    case Some(k) =>
      if StartsWith(x, "-") then Open(st.result[k := BoolArg(true)], x)
      else Ok(ParseState(st.result[k := ValueOf(x, floatOf)], None))
  }

  /** The state after the tokens, or the first failure. */
  function Run(args: seq<string>, floatOf: string -> Option<real>): Result<ParseState>
    decreases |args|
  {
    if |args| == 0 then Ok(ParseState(map[], None))
    else
      match Run(args[..|args| - 1], floatOf)
      case Err(e) => Err(e)
      case Ok(st) => Step(st, args[|args| - 1], floatOf)
  }

  /** `parse_other_args(args)`: an option left without a value at the end is
      a flag. */
  function ParseOtherArgs(args: seq<string>, floatOf: string -> Option<real>): Result<map<string, ArgValue>> {
    if |args| == 0 then Ok(map[])
    else
      match Run(args, floatOf)
      case Err(e) => Err(e)
      case Ok(st) => Ok(if st.next.Some? && st.next.value != "" then st.result[st.next.value := BoolArg(true)] else st.result)
  }

  /** `parse_other_args(args)` as the source runs it: one loop, with
      `next_arg` and the result dict updated token by token. */
  method ParseArgs(args: seq<string>, floatOf: string -> Option<real>) returns (r: Result<map<string, ArgValue>>)
    ensures r == ParseOtherArgs(args, floatOf)
  {
    if |args| == 0 {
      return Ok(map[]);
    }
    var result: map<string, ArgValue> := map[];
    var next: Option<string> := None;
    var i := 0;
    while i < |args|
      invariant 0 <= i <= |args|
      invariant Run(args[..i], floatOf) == Ok(ParseState(result, next))
    {
      var x := args[i];
      assert args[..i + 1][..i] == args[..i];
      if next.None? {
        if !StartsWith(x, "-") {
          RunStaysFailed(args, i + 1, floatOf);
          return Err(AssertionError);
        }
        next := Some(KeyOf(x));
        if !IsArgName(next.value) {
          RunStaysFailed(args, i + 1, floatOf);
          return Err(AssertionError);
        }
      } else {
        if StartsWith(x, "-") {
          // the last option has no value: it is a flag
          result := result[next.value := BoolArg(true)];
          next := Some(KeyOf(x));
          if !IsArgName(next.value) {
            RunStaysFailed(args, i + 1, floatOf);
            return Err(AssertionError);
          }
        } else {
          result := result[next.value := ValueOf(x, floatOf)];
          next := None;
        }
      }
      i := i + 1;
    }
    assert args[..i] == args;
    if next.Some? && next.value != "" {
      result := result[next.value := BoolArg(true)];
    }
    return Ok(result);
  }

  /** A failure among the first `i` tokens is the failure of all of them. */
  lemma {:induction false} RunStaysFailed(args: seq<string>, i: int, floatOf: string -> Option<real>)
    requires 0 <= i <= |args| && Run(args[..i], floatOf).Err?
    ensures Run(args, floatOf) == Run(args[..i], floatOf)
    decreases |args| - i
  {
    if i < |args| {
      assert args[..i + 1][..i] == args[..i];
      RunStaysFailed(args, i + 1, floatOf);
    } else {
      assert args[..i] == args;
    }
  }

  /** Every key of the state and the pending option are valid names. */
  lemma {:induction false} RunKeysAreNames(args: seq<string>, floatOf: string -> Option<real>)
    requires Run(args, floatOf).Ok?
    ensures var st := Run(args, floatOf).value;
      (forall k :: k in st.result ==> IsArgName(k)) && (st.next.Some? ==> IsArgName(st.next.value))
    decreases |args|
  {
    if |args| > 0 {
      RunKeysAreNames(args[..|args| - 1], floatOf);
    }
  }

  /** Every key of the result is a valid name, made from an option token
      of the input. */
  lemma {:induction false} KeysAreArgNames(args: seq<string>, floatOf: string -> Option<real>)
    requires ParseOtherArgs(args, floatOf).Ok?
    ensures forall k :: k in ParseOtherArgs(args, floatOf).value ==> IsArgName(k)
  {
    if |args| > 0 {
      RunKeysAreNames(args, floatOf);
    }
  }

  /** The first token must start an option. */
  lemma {:induction false} FirstTokenIsOption(args: seq<string>, floatOf: string -> Option<real>)
    requires |args| > 0 && !(StartsWith(args[0], "-") && IsArgName(KeyOf(args[0])))
    ensures ParseOtherArgs(args, floatOf) == Err(AssertionError)
  {
    assert Run(args[..1], floatOf) == Err(AssertionError) by {
      assert args[..1][..0] == [];
    }
    RunStaysFailed(args, 1, floatOf);
  }

  /** After complete options, `-name value` sets the name to the value,
      replacing an earlier one; `-name` before another option, or at the
      end, sets it to `True`. */
  lemma {:induction false} OptionValue(pre: seq<string>, x: string, y: string, floatOf: string -> Option<real>)
    requires Run(pre, floatOf).Ok? && Run(pre, floatOf).value.next.None?
    requires StartsWith(x, "-") && IsArgName(KeyOf(x))
    ensures !StartsWith(y, "-") ==>
      Run(pre + [x, y], floatOf) == Ok(ParseState(Run(pre, floatOf).value.result[KeyOf(x) := ValueOf(y, floatOf)], None))
    ensures StartsWith(y, "-") && IsArgName(KeyOf(y)) ==>
      Run(pre + [x, y], floatOf) == Ok(ParseState(Run(pre, floatOf).value.result[KeyOf(x) := BoolArg(true)], Some(KeyOf(y))))
    ensures ParseOtherArgs(pre + [x], floatOf) == Ok(Run(pre, floatOf).value.result[KeyOf(x) := BoolArg(true)])
  {
    assert (pre + [x, y])[..|pre| + 1] == pre + [x];
    assert (pre + [x])[..|pre|] == pre;
  }
}
