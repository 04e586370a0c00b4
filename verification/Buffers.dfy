/** Several byte buffers at once. */
module Buffers {
  import opened Blake3Tree

  /** What the buffers hold. */
  function Bytes(mats: seq<array<byte>>): (data: seq<seq<byte>>)
    reads mats
    ensures |data| == |mats| && forall i :: 0 <= i < |mats| ==> data[i] == mats[i][..]
  {
    seq(|mats|, i requires 0 <= i < |mats| reads mats => mats[i][..])
  }

  predicate Distinct(mats: seq<array<byte>>) {
    forall i, j :: 0 <= i < j < |mats| ==> mats[i] != mats[j]
  }
}
