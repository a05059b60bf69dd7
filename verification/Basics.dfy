/** Small definitions that several modules share. */
module Basics {

  datatype Option<+T> = None | Some(value: T)

  type Byte = bv8

  function Abs(a: real): real { if a < 0.0 then -a else a }
}

/** Machine words and messages as strings of bits. */
module BitStrings {

  type Bits = seq<bool>

  function Clear(n: nat): (r: Bits)
    ensures |r| == n
  {
    seq(n, i => false)
  }

  function Xor(a: Bits, b: Bits): (r: Bits)
    requires |a| == |b|
    ensures |r| == |a|
  {
    seq(|a|, i requires 0 <= i < |a| => a[i] != b[i])
  }
}
