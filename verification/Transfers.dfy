/** What the transfer protocols share: buffers and bytewise transfers. */
module Transfers {
  import opened Buckets

  type bit = b: int | 0 <= b < 2

  /** The byte positions of a transfer of `size` bytes. */
  function Positions(size: nat): (p: set<nat>)
    ensures |p| == size && forall i: nat :: i in p <==> i < size
  {
    if size == 0 then {} else Positions(size - 1) + {size - 1}
  }

  /** The bytes of a bucket lie at the start of the buffer. */
  ghost predicate Holds(buf: seq<byte>, data: seq<byte>) {
    data <= buf
  }

  /** Every byte of the bucket that is not in `missing` has arrived. */
  ghost predicate HoldsExcept(buf: seq<byte>, data: seq<byte>, missing: set<nat>) {
    |data| <= |buf| && forall i: nat :: i < |data| && i !in missing ==> buf[i] == data[i]
  }

  lemma ArrivalStep(buf: seq<byte>, data: seq<byte>, missing: set<nat>, src: seq<byte>, i: nat)
    requires HoldsExcept(buf, data, missing) && i < |buf| && i < |src| && Holds(src, data)
    ensures HoldsExcept(buf[i := src[i]], data, missing - {i})
  {}

  lemma Arrived(buf: seq<byte>, data: seq<byte>)
    requires HoldsExcept(buf, data, {})
    ensures Holds(buf, data)
  {}

  lemma NothingArrived(buf: seq<byte>, data: seq<byte>)
    requires |data| <= |buf|
    ensures HoldsExcept(buf, data, Positions(|buf|))
  {}
}
