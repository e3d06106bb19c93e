/** `BinaryEncoder.write_int` of src/zpz/avro.py: a Python `int` written as
    a 32-bit Avro `int`, zig-zag coded and then cut into 7-bit groups,
    least significant first, each but the last with its high bit set.

    Bytes are integers in `0..255`; the `type(datum)` check on `int` and
    `numpy.int32` is not modelled (the parameter is an integer).
 */
module AvroInt {
  import opened Wrappers

  /** The bounds `write_int` tests with `<`: both are refused. */
  const IntLow := -2147483648
  const IntHigh := 2147483647

  predicate IsByte(b: int) {
    0 <= b < 256
  }

  /** `(datum << 1) ^ (datum >> 31)` for `-2^31 <= datum < 2^31`: the
      arithmetic shift gives `0` or `-1`, so the result is `2 * datum`, or
      its bitwise complement `-2 * datum - 1` for a negative `datum`. */
  function ZigZag(n: int): nat {
    if n >= 0 then 2 * n else -2 * n - 1
  }

  /** The inverse mapping of a decoder, `(z >> 1) ^ -(z & 1)`. */
  function UnZigZag(z: nat): int {
    if z % 2 == 0 then z / 2 else -(z + 1) / 2
  }

  /** The bytes `write_int`'s loop emits for a non-negative number. */
  function Varint(z: nat): seq<int>
    decreases z
  {
    if z < 128 then [z] else [z % 128 + 128] + Varint(z / 128)
  }

  /** A decoder's reading of bytes: 7-bit groups, least significant first,
      up to the first byte without its high bit; `None` when the bytes end
      first. */
  function ReadVarint(bs: seq<int>): Option<nat>
    requires forall i :: 0 <= i < |bs| ==> IsByte(bs[i])
  {
    if |bs| == 0 then None
    else if bs[0] < 128 then assert IsByte(bs[0]); Some(bs[0] as nat)
    else
      match ReadVarint(bs[1..])
      case None => None
      case Some(rest) => Some(bs[0] - 128 + 128 * rest)
  }

  /** `write_int(datum)`: refused unless `-2^31 < datum < 2^31 - 1`;
      otherwise the zig-zag value is emitted 7 bits at a time, testing
      `datum & ~0x7F` (non-zero exactly when it is at least 128) before
      each byte with the continuation bit. */
  method WriteInt(datum: int) returns (r: Result<seq<int>>)
    ensures r.Err? <==> !(IntLow < datum < IntHigh)
    ensures r.Err? ==> r.error == AssertionError
    ensures r.Ok? ==> r.value == Varint(ZigZag(datum))
  {
    if !(IntLow < datum < IntHigh) {
      return Err(AssertionError);
    }
    var d := ZigZag(datum);
    var out: seq<int> := [];
    while d >= 128
      invariant out + Varint(d) == Varint(ZigZag(datum))
      decreases d
    {
      // (d & 0x7F) | 0x80, then d >>= 7
      out := out + [d % 128 + 128];
      d := d / 128;
    }
    out := out + [d];
    return Ok(out);
  }

  /** Zig-zag coding is a bijection onto the naturals: non-negative numbers
      take the even codes, negative ones the odd codes, and decoding undoes
      it. */
  lemma {:induction false} ZigZagRoundTrip(n: int)
    ensures UnZigZag(ZigZag(n)) == n
    ensures n >= 0 <==> ZigZag(n) % 2 == 0
  {
  }

  /** Every code of an admissible value fits in 32 bits. */
  lemma {:induction false} ZigZagBound(n: int)
    requires IntLow < n < IntHigh
    ensures ZigZag(n) < 0x1_0000_0000
  {
  }

  /** Every byte is a byte; all but the last have the continuation bit
      `0x80` set and the last has it clear. */
  lemma {:induction false} VarintShape(z: nat)
    ensures var bs := Varint(z);
      |bs| >= 1 &&
      (forall i :: 0 <= i < |bs| ==> IsByte(bs[i])) &&
      (forall i :: 0 <= i < |bs| - 1 ==> bs[i] >= 128) &&
      bs[|bs| - 1] < 128
    decreases z
  {
    if z >= 128 {
      VarintShape(z / 128);
      var rest := Varint(z / 128);
      assert Varint(z) == [z % 128 + 128] + rest;
    }
  }

  /** A value below `128^k` takes at most `k` bytes. */
  lemma {:induction false} VarintLength(z: nat, k: nat, bound: nat)
    requires k >= 1 && bound == Pow128(k) && z < bound
    ensures |Varint(z)| <= k
    decreases k
  {
    if z >= 128 {
      assert k >= 2;
      VarintLength(z / 128, k - 1, Pow128(k - 1));
    }
  }

  function Pow128(k: nat): nat {
    if k == 0 then 1 else 128 * Pow128(k - 1)
  }

  /** An admissible `int` takes from one to five bytes. */
  lemma {:induction false} WriteIntLength(n: int)
    requires IntLow < n < IntHigh
    ensures 1 <= |Varint(ZigZag(n))| <= 5
  {
    ZigZagBound(n);
    assert Pow128(5) == 34359738368;
    VarintLength(ZigZag(n), 5, Pow128(5));
    VarintShape(ZigZag(n));
  }

  /** Reading the bytes back gives the number written. */
  lemma {:induction false} VarintRoundTrip(z: nat)
    ensures forall i :: 0 <= i < |Varint(z)| ==> IsByte(Varint(z)[i])
    ensures ReadVarint(Varint(z)) == Some(z)
    decreases z
  {
    VarintShape(z);
    if z >= 128 {
      VarintRoundTrip(z / 128);
      var bs := Varint(z);
      assert bs[1..] == Varint(z / 128);
    }
  }

  /** Decoding what `write_int` emits gives back `datum`. */
  lemma {:induction false} WriteIntRoundTrip(n: int)
    requires IntLow < n < IntHigh
    ensures forall i :: 0 <= i < |Varint(ZigZag(n))| ==> IsByte(Varint(ZigZag(n))[i])
    ensures ReadVarint(Varint(ZigZag(n))).Some?
    ensures UnZigZag(ReadVarint(Varint(ZigZag(n))).value) == n
  {
    VarintRoundTrip(ZigZag(n));
    ZigZagRoundTrip(n);
  }
}
