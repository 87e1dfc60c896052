/** The caller-owned feature buffer: a flat array of floats into which each
    RDOVAE step writes its block of frames. */
module FeatureBuffer {

  /** Writing `block` into `buf` starting at `off` (the C code passes
      `features + offset` as the destination): the block is readable at `off`
      afterwards and every other entry is unchanged. */
  function Splice<T>(buf: seq<T>, off: int, block: seq<T>): (r: seq<T>)
    requires 0 <= off && off + |block| <= |buf|
    ensures |r| == |buf|
    ensures r[off..off + |block|] == block
    ensures forall j :: 0 <= j < |buf| && !(off <= j < off + |block|) ==> r[j] == buf[j]
  {
    buf[..off] + block + buf[off + |block|..]
  }
}
