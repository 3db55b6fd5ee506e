/** Integer ranges and sequence functions that several components use. */
module Basics {

  type uint64 = x: int | 0 <= x < 0x1_0000_0000_0000_0000

  const INT32_MAX := 0x7fff_ffff

  function Reversed<T>(s: seq<T>): (r: seq<T>)
    ensures |r| == |s| && forall i :: 0 <= i < |s| ==> r[i] == s[|s| - 1 - i]
  {
    seq(|s|, i requires 0 <= i < |s| => s[|s| - 1 - i])
  }
}
