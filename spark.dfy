/** The helpers of src/coyote/spark.py that do not talk to a Livy server:
    `_get_livy_host`, `unquote` and `polling_intervals`.

    Intervals and durations are exact reals.  `polling_intervals` is an
    endless generator when no `max_duration` is given; the model takes the
    number of intervals the consumer draws from it.
 */
module Spark {
  import opened Wrappers
  import opened Strs

  // ---------------------------------------------------------------------
  // _get_livy_host

  /** `_get_livy_host(livy_server_url)`: everything up to and including the
      first `://` dropped, then `http://` put in front. */
  function LivyHost(url: string): (r: string)
    ensures StartsWith(r, "http://")
    ensures FindSub(url, "://") < 0 ==> r == "http://" + url
    ensures FindSub(url, "://") >= 0 ==> r == "http://" + url[FindSub(url, "://") + 3..]
  {
    var idx := FindSub(url, "://");
    var rest := if idx >= 0 then url[idx + 3..] else url;
    assert ("http://" + rest)[..7] == "http://";
    "http://" + rest
  }

  /** The first `://` of a host made by `LivyHost` is the one it put
      there. */
  lemma FindProtocol(rest: string)
    ensures FindSub("http://" + rest, "://") == 4
  {
    var h := "http://" + rest;
    assert OccursAt(h, "://", 4) by {
      assert h[4..7] == "://";
    }
    forall j | 0 <= j < 4
      ensures !OccursAt(h, "://", j)
    {
      assert h[j] != ':';
      assert |h| >= j + 3 ==> h[j..j + 3][0] == h[j];
    }
  }

  /** `_get_livy_host` is idempotent. */
  lemma LivyHostIdempotent(url: string)
    ensures LivyHost(LivyHost(url)) == LivyHost(url)
  {
    var h := LivyHost(url);
    var rest := h[7..];
    assert h == "http://" + rest;
    FindProtocol(rest);
    assert h[4 + 3..] == rest;
  }

  // ---------------------------------------------------------------------
  // unquote

  /** `unquote(s)`: `s[1:][:-1]`, the string without its first and last
      characters. */
  function Unquote(s: string): (r: string)
    ensures |r| == if |s| >= 2 then |s| - 2 else 0
    ensures forall i :: 0 <= i < |r| ==> r[i] == s[i + 1]
  {
    var t := if |s| == 0 then "" else s[1..];
    if |t| == 0 then "" else t[..|t| - 1]
  }

  /** `unquote` removes the quotes around a value. */
  lemma UnquoteQuoted(q: char, x: string)
    ensures Unquote([q] + x + [q]) == x
  {
    var s := [q] + x + [q];
    assert s[1..] == x + [q];
    assert (x + [q])[..|x|] == x;
  }

  // ---------------------------------------------------------------------
  // polling_intervals

  /** The `k`-th interval of `_intervals()`: the items of `start`, then
      `rest` for ever. */
  function Interval(start: seq<real>, rest: real, k: nat): real {
    if k < |start| then start[k] else rest
  }

  /** The first `k` intervals. */
  function Intervals(start: seq<real>, rest: real, k: nat): (r: seq<real>)
    ensures |r| == k
    ensures forall i :: 0 <= i < k ==> r[i] == Interval(start, rest, i)
  {
    if k == 0 then [] else Intervals(start, rest, k - 1) + [Interval(start, rest, k - 1)]
  }

  /** The sum of some intervals, added in order. */
  function Sum(s: seq<real>): real {
    if |s| == 0 then 0.0 else Sum(s[..|s| - 1]) + s[|s| - 1]
  }

  /** The first `n` intervals `polling_intervals(start, rest, max_duration)`
      yields to a consumer that asks for `n`: the intervals in order, as long
      as the running sum stays within `max_duration`; the first interval
      that would take it beyond ends the iteration. */
  method PollingIntervals(start: seq<real>, rest: real, maxDuration: Option<real>, n: nat) returns (out: seq<real>)
    ensures |out| <= n && out == Intervals(start, rest, |out|)
    ensures maxDuration.None? ==> |out| == n
    ensures maxDuration.Some? ==>
              forall j :: 1 <= j <= |out| ==> Sum(Intervals(start, rest, j)) <= maxDuration.value
    ensures maxDuration.Some? && |out| < n ==>
              Sum(Intervals(start, rest, |out| + 1)) > maxDuration.value
  {
    var cumulative := 0.0;
    out := [];
    var i := 0;
    while i < n
      invariant 0 <= i <= n && |out| == i
      invariant out == Intervals(start, rest, i)
      invariant cumulative == Sum(out)
      invariant maxDuration.Some? ==>
                  forall j :: 1 <= j <= i ==> Sum(Intervals(start, rest, j)) <= maxDuration.value
    {
      var interval := Interval(start, rest, i);
      cumulative := cumulative + interval;
      assert Intervals(start, rest, i + 1) == out + [interval];
      assert Sum(out + [interval]) == Sum(out) + interval by {
        assert (out + [interval])[..i] == out;
      }
      if maxDuration.Some? && cumulative > maxDuration.value {
        return;
      }
      out := out + [interval];
      i := i + 1;
    }
  }

  /** Without `max_duration` the items of `start` come first, in order, and
      then `rest` over and over. */
  lemma EndlessIntervals(start: seq<real>, rest: real, n: nat)
    requires n >= |start|
    ensures Intervals(start, rest, n)[..|start|] == start
    ensures forall i :: |start| <= i < n ==> Intervals(start, rest, n)[i] == rest
  {
  }
}
