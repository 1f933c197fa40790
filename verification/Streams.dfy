/** The stream of buckets that the transfer protocols move: what a receiver has yielded after some of
    them, and how much work they are. */
module Streams {
  import opened Buckets
  import opened Transfers
  import Packing

  ghost predicate ValidStream(bs: seq<Bucket>, size: nat) {
    bs != [] && forall b <- bs :: b.Valid(size)
  }

  /** What a receiver yields for bucket k. */
  function UnpackedBucket(bs: seq<Bucket>, size: nat, k: nat): (ws: seq<Weight>)
    requires ValidStream(bs, size) && k < |bs|
    ensures |ws| == |bs[k].metas|
  {
    assert bs[k] in bs;
    Unpacked(bs[k])
  }

  /** What a receiver has yielded after the first k buckets. */
  function Outs(bs: seq<Bucket>, size: nat, k: nat): seq<Weight>
    requires ValidStream(bs, size) && k <= |bs|
  {
    if k == 0 then [] else Outs(bs, size, k - 1) + UnpackedBucket(bs, size, k - 1)
  }

  lemma {:induction false} OutsIsDecode(bs: seq<Bucket>, size: nat, k: nat)
    requires ValidStream(bs, size) && k <= |bs|
    ensures Packing.Decodable(bs[..k]) && Outs(bs, size, k) == Packing.Decode(bs[..k])
  {
    forall b | b in bs[..k] ensures b.Valid(|b.data|) { assert b in bs; }
    if k > 0 {
      OutsIsDecode(bs, size, k - 1);
      assert bs[..k] == bs[..k - 1] + [bs[k - 1]];
      Packing.DecodeSnoc(bs[..k - 1], bs[k - 1]);
    }
  }

  /** After all buckets, a receiver has yielded what decoding them gives. */
  lemma AllOuts(bs: seq<Bucket>, size: nat)
    requires ValidStream(bs, size)
    ensures Packing.Decodable(bs) && Outs(bs, size, |bs|) == Packing.Decode(bs)
  {
    OutsIsDecode(bs, size, |bs|);
    assert bs[..|bs|] == bs;
  }

  lemma {:induction false} OutsGrow(bs: seq<Bucket>, size: nat, j: nat, k: nat)
    requires ValidStream(bs, size) && j <= k <= |bs|
    ensures Outs(bs, size, j) <= Outs(bs, size, k)
  {
    if j < k { OutsGrow(bs, size, j, k - 1); }
  }

  /** Where view j of bucket k stands in what is yielded altogether. */
  lemma OutsAt(bs: seq<Bucket>, size: nat, k: nat, j: nat)
    requires ValidStream(bs, size) && k < |bs| && j < |bs[k].metas|
    ensures var n, all := |Outs(bs, size, k)|, Outs(bs, size, |bs|);
      n + j < |all| && all[n + j] == UnpackedBucket(bs, size, k)[j]
  {
    OutsGrow(bs, size, k + 1, |bs|);
    OutsNext(bs, size, k);
    hide *;
    InPrefix(Outs(bs, size, k), UnpackedBucket(bs, size, k), Outs(bs, size, |bs|), j);
  }

  lemma OutsNext(bs: seq<Bucket>, size: nat, k: nat)
    requires ValidStream(bs, size) && k < |bs|
    ensures Outs(bs, size, k + 1) == Outs(bs, size, k) + UnpackedBucket(bs, size, k)
  {}

  lemma InPrefix<T>(a: seq<T>, b: seq<T>, all: seq<T>, j: nat)
    requires a + b <= all && j < |b|
    ensures all[|a| + j] == b[j]
  {
    assert (a + b)[|a| + j] == b[j];
  }

  lemma YieldedPrefix(bs: seq<Bucket>, size: nat, k: nat, j: nat)
    requires ValidStream(bs, size) && k < |bs| && j <= |bs[k].metas|
    ensures Outs(bs, size, k) + UnpackedBucket(bs, size, k)[..j] <= Outs(bs, size, k + 1)
  {}

  /** A view into a buffer that holds bucket k is the weight that unpacking the bucket gives. */
  lemma BucketView(bs: seq<Bucket>, size: nat, k: nat, j: nat, buf: seq<byte>)
    requires ValidStream(bs, size) && k < |bs| && Holds(buf, bs[k].data)
    ensures var ms, ws := bs[k].metas, UnpackedBucket(bs, size, k);
      if j < |ms| then
        && ms[j].offset + ms[j].size <= |buf|
        && ws[..j + 1] == ws[..j] + [View(ms[j], buf)]
      else j == |ms| ==> ws[..j] == ws
  {
    var b := bs[k];
    assert b in bs;
    if j < |b.metas| {
      assert b.metas[j] in b.metas;
      ViewsPrefix(b.metas, b.data, buf);
      assert Views(b.metas, buf)[j] == View(b.metas[j], buf);
    }
  }

  lemma NothingYielded(bs: seq<Bucket>, size: nat, k: nat)
    requires ValidStream(bs, size) && k < |bs|
    ensures Outs(bs, size, k) + UnpackedBucket(bs, size, k)[..0] == Outs(bs, size, k)
  {}

  /** A bound on the steps that the buckets from k on still cost a rank. */
  function Rest(bs: seq<Bucket>, size: nat, k: nat): nat
    decreases |bs| - k
  {
    if k >= |bs| then 0 else |bs[k].data| + |bs[k].metas| + size + 12 + Rest(bs, size, k + 1)
  }

  lemma RestUnfolds(bs: seq<Bucket>, size: nat, k: nat)
    requires k < |bs|
    ensures Rest(bs, size, k) == |bs[k].data| + |bs[k].metas| + size + 12 + Rest(bs, size, k + 1)
  {}

  function Minus(n: nat, m: nat): nat {
    if m <= n then n - m else 0
  }
}
