/** The constant-time byte-slice equality the handler uses for its AppId gate
    (Go's `crypto/subtle.ConstantTimeCompare` and `ConstantTimeByteEq`).

    The comparison first rejects slices of different length (lengths are not secret);
    for equal lengths it ORs together the XOR of every pair of bytes, with no early
    exit, and only then turns the accumulated byte into 0 or 1 without a branch. */
module ConstantTime {

  /** Go's `byte` (`uint8`). */
  type Byte = bv8

  /** Go's `[]byte`; also the byte content of a Go `string`. */
  type Bytes = seq<Byte>

  /** `ConstantTimeByteEq(x, y)`: `int((uint32(x ^ y) - 1) >> 31)`. The subtraction wraps
      around in 32 bits, so the top bit is set exactly when `x ^ y` is zero. */
  function ConstantTimeByteEq(x: Byte, y: Byte): (r: int)
    ensures x == y ==> r == 1
    ensures x != y ==> r == 0
  {
    ((((x ^ y) as bv32) - 1) >> 31) as int
  }

  /** The byte accumulated by the comparison loop over the first |x| positions:
      the OR of `x[j] ^ y[j]` for every position `j`. */
  function XorAccumulate(x: Bytes, y: Bytes): Byte
    requires |x| == |y|
  {
    if |x| == 0 then 0
    else XorAccumulate(x[..|x| - 1], y[..|y| - 1]) | (x[|x| - 1] ^ y[|y| - 1])
  }

  /** The accumulated byte is zero exactly when every position agrees. */
  lemma {:induction false} XorAccumulateZeroIffEqual(x: Bytes, y: Bytes)
    requires |x| == |y|
    ensures XorAccumulate(x, y) == 0 <==> x == y
  {
    if |x| > 0 {
      var n := |x| - 1;
      XorAccumulateZeroIffEqual(x[..n], y[..n]);
      assert x == x[..n] + [x[n]];
      assert y == y[..n] + [y[n]];
      if x[..n] == y[..n] && x[n] == y[n] {
        assert x == y;
      }
    }
  }

  /** `ConstantTimeCompare(x, y)`: 1 when the slices are equal, 0 otherwise. */
  function ConstantTimeCompare(x: Bytes, y: Bytes): (r: int)
    ensures r == 0 || r == 1
    ensures r == 1 <==> x == y
  {
    if |x| != |y| then 0
    else
      XorAccumulateZeroIffEqual(x, y);
      ConstantTimeByteEq(XorAccumulate(x, y), 0)
  }

  /** The comparison as the loop it is: every position is visited, in order, with no
      early exit, and the only branch on content is the final byte-to-int step.
      `examined` records the positions the loop visited. */
  method ConstantTimeCompareLoop(x: Bytes, y: Bytes) returns (r: int, ghost examined: seq<nat>)
    ensures r == 1 <==> x == y
    ensures r == 0 || r == 1
    ensures r == ConstantTimeCompare(x, y)
    ensures |x| == |y| ==> |examined| == |x| && forall j :: 0 <= j < |examined| ==> examined[j] == j
    ensures |x| != |y| ==> examined == []
  {
    examined := [];
    if |x| != |y| {
      return 0, examined;
    }
    var v: Byte := 0;
    var i := 0;
    while i < |x|
      invariant 0 <= i <= |x|
      invariant v == XorAccumulate(x[..i], y[..i])
      invariant |examined| == i
      invariant forall j :: 0 <= j < i ==> examined[j] == j
    {
      assert x[..i + 1][..i] == x[..i];
      assert y[..i + 1][..i] == y[..i];
      v := v | (x[i] ^ y[i]);
      examined := examined + [i];
      i := i + 1;
    }
    assert x[..i] == x && y[..i] == y;
    XorAccumulateZeroIffEqual(x, y);
    r := ConstantTimeByteEq(v, 0);
  }
}
