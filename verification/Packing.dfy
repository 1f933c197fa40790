/** Greedy bucket packing: the filling loop that the NIXL, NCCL and HCCL senders share. */
module Packing {
  import opened Buckets

  /** The groups of weights that share a bucket, when `open` is the bucket being filled. */
  function PackFrom(open: seq<Weight>, rest: seq<Weight>, size: nat): seq<seq<Weight>>
    decreases |rest|
  {
    if rest == [] then [open]
    else if ByteCount(open) + |rest[0].bytes| > size then [open] + PackFrom([rest[0]], rest[1..], size)
    else PackFrom(open + [rest[0]], rest[1..], size)
  }

  function Pack(ws: seq<Weight>, size: nat): seq<seq<Weight>> {
    PackFrom([], ws, size)
  }

  ghost predicate AllFit(ws: seq<Weight>, size: nat) {
    forall w <- ws :: |w.bytes| <= size
  }

  /** Any way to cut the stream into consecutive groups that each fit a bucket. */
  ghost predicate IsPacking(p: seq<seq<Weight>>, ws: seq<Weight>, size: nat) {
    Flatten(p) == ws && forall g <- p :: ByteCount(g) <= size
  }

  // ---------- The sender's loop ----------

  /** A bucket as handed to the transport: its metadata, a snapshot of the whole buffer, the flag. */
  datatype Offer = Offer(metas: seq<Meta>, snapshot: seq<byte>, isLast: bool)

  /** The offer carries exactly the group: its layout, and its bytes from offset 0. */
  ghost predicate Carries(o: Offer, group: seq<Weight>, size: nat, isLast: bool) {
    && o.metas == Layout(group)
    && |o.snapshot| == size
    && Payload(group) <= o.snapshot
    && o.isLast == isLast
  }

  ghost predicate CarryAll(os: seq<Offer>, groups: seq<seq<Weight>>, size: nat, complete: bool) {
    && |os| == |groups|
    && forall i :: 0 <= i < |os| ==> Carries(os[i], groups[i], size, complete && i == |os| - 1)
  }

  /** The loop stopped at weight `i`: everything before it was offered in unfinished buckets. */
  ghost predicate StoppedAt(i: nat, ws: seq<Weight>, sent: seq<Offer>, size: nat) {
    && i < |ws|
    && AllFit(ws[..i], size)
    && |ws[i].bytes| > size
    && CarryAll(sent, Pack(ws[..i], size), size, false)
  }

  class Sender {
    const rank: int
    const bucketSize: nat
    const sendBuf: array<byte>
    const recvBuf: array<byte>
    var offered: seq<Offer>

    ghost predicate Valid()
      reads this
    {
      sendBuf != recvBuf && sendBuf.Length == recvBuf.Length == bucketSize
    }

    constructor (rank: int, bucketSize: nat)
      ensures Valid() && fresh(sendBuf) && fresh(recvBuf)
      ensures this.rank == rank && this.bucketSize == bucketSize && offered == []
    {
      this.rank := rank;
      this.bucketSize := bucketSize;
      sendBuf := new byte[bucketSize](_ => 0);
      recvBuf := new byte[bucketSize](_ => 0);
      offered := [];
    }

    /** Fills the two buffers alternately and offers each full one. `ok` is false when the
        "too large to fit" assertion stops the loop. */
    method SendWeights(ws: seq<Weight>) returns (ok: bool, ghost sent: seq<Offer>)
      requires Valid() && rank <= 0
      modifies this`offered, sendBuf, recvBuf
      ensures offered == old(offered) + sent
      ensures rank < 0 ==> ok && sent == []
      ensures rank == 0 ==> (ok <==> AllFit(ws, bucketSize))
      ensures rank == 0 && ok ==> CarryAll(sent, Pack(ws, bucketSize), bucketSize, true)
      ensures !ok ==> exists i :: StoppedAt(i, ws, sent, bucketSize)
    {
      hide CarryAll;
      hide AllFit;
      hide Holding;
      ok, sent := true, [];
      if rank < 0 {
        return;
      }
      EmptyStart(ws, bucketSize);
      var send, recv := sendBuf, recvBuf;
      HoldsNothing(send);
      var meta: seq<Meta> := [];
      var offset: nat := 0;
      ghost var open: seq<Weight>, done: seq<seq<Weight>> := [], [];
      for i := 0 to |ws|
        invariant send != recv && {send, recv} == {sendBuf, recvBuf}
        invariant Holding(send, meta, offset, open)
        invariant offered == old(offered) + sent
        invariant CarryAll(sent, done, bucketSize, false)
        invariant AllFit(ws[..i], bucketSize)
        invariant Pack(ws[..i], bucketSize) == done + [open]
      {
        var w := ws[i];
        PackNext(ws, i, bucketSize, done, open);
        AllFitNext(ws, i, bucketSize);
        HeldBytes(send, meta, offset, open);
        if offset + |w.bytes| > bucketSize {
          offered := offered + [Offer(meta, send[..], false)];
          CarrySnoc(sent, done, bucketSize, Offer(meta, send[..], false), open);
          sent, done, open := sent + [Offer(meta, send[..], false)], done + [open], [];
          send, recv := recv, send;
          meta, offset := [], 0;
          HoldsNothing(send);
          assert open + [w] == [w];
        }
        if offset + |w.bytes| > bucketSize {
          ok := false;
          assert StoppedAt(i, ws, sent, bucketSize);
          return;
        }
        meta, offset := Place(send, meta, offset, w, open);
        open := open + [w];
      }
      assert ws[..|ws|] == ws;
      HeldBytes(send, meta, offset, open);
      CarryLast(sent, done, bucketSize, Offer(meta, send[..], true), open);
      offered := offered + [Offer(meta, send[..], true)];
      sent := sent + [Offer(meta, send[..], true)];
    }
  }

  /** The open bucket: its metadata, its fill level and its bytes at the start of the buffer. */
  ghost predicate Holding(buf: array<byte>, meta: seq<Meta>, offset: nat, open: seq<Weight>)
    reads buf
  {
    && meta == Layout(open) && offset == ByteCount(open) <= buf.Length
    && buf[..offset] == Payload(open)
  }

  lemma HoldsNothing(buf: array<byte>)
    ensures Holding(buf, [], 0, [])
  {}

  lemma HeldBytes(buf: array<byte>, meta: seq<Meta>, offset: nat, open: seq<Weight>)
    requires Holding(buf, meta, offset, open)
    ensures offset == ByteCount(open)
    ensures forall last :: Carries(Offer(meta, buf[..], last), open, buf.Length, last)
  {
    assert buf[..offset] <= buf[..];
  }

  /** Records the weight in the metadata and copies its bytes into the bucket. */
  method Place(buf: array<byte>, meta: seq<Meta>, offset: nat, w: Weight, ghost open: seq<Weight>)
      returns (meta': seq<Meta>, offset': nat)
    requires Holding(buf, meta, offset, open) && offset + |w.bytes| <= buf.Length
    modifies buf
    ensures Holding(buf, meta', offset', open + [w])
  {
    meta' := Put(meta, Meta(w.name, offset, |w.bytes|));
    CopyBytes(buf, offset, w.bytes);
    offset' := offset + |w.bytes|;
    PayloadSnoc(open, w);
  }

  /** The slice copy of one weight into the bucket. */
  method CopyBytes(buf: array<byte>, offset: nat, bytes: seq<byte>)
    requires offset + |bytes| <= buf.Length
    modifies buf
    ensures buf[..offset + |bytes|] == old(buf[..offset]) + bytes
    ensures buf[offset + |bytes|..] == old(buf[offset + |bytes|..])
  {
    forall j | 0 <= j < |bytes| { buf[offset + j] := bytes[j]; }
  }

  lemma EmptyStart(ws: seq<Weight>, size: nat)
    ensures CarryAll([], [], size, false) && Layout([]) == []
    ensures AllFit(ws[..0], size) && Pack(ws[..0], size) == [] + [[]]
  {}

  lemma AllFitNext(ws: seq<Weight>, i: nat, size: nat)
    requires i < |ws|
    ensures AllFit(ws[..i + 1], size) <==> AllFit(ws[..i], size) && |ws[i].bytes| <= size
    ensures |ws[i].bytes| > size ==> !AllFit(ws, size)
  {
    assert ws[..i + 1] == ws[..i] + [ws[i]];
    assert ws[i] in ws;
  }

  lemma CarryLast(sent: seq<Offer>, done: seq<seq<Weight>>, size: nat, o: Offer, open: seq<Weight>)
    requires CarryAll(sent, done, size, false) && Carries(o, open, size, true)
    ensures CarryAll(sent + [o], done + [open], size, true)
  {}

  lemma CarrySnoc(sent: seq<Offer>, done: seq<seq<Weight>>, size: nat, o: Offer, open: seq<Weight>)
    requires CarryAll(sent, done, size, false) && Carries(o, open, size, false)
    ensures CarryAll(sent + [o], done + [open], size, false)
  {}

  lemma PackNext(ws: seq<Weight>, i: nat, size: nat, done: seq<seq<Weight>>, open: seq<Weight>)
    requires i < |ws| && Pack(ws[..i], size) == done + [open]
    ensures Pack(ws[..i + 1], size) ==
      if ByteCount(open) + |ws[i].bytes| > size then done + [open] + [[ws[i]]] else done + [open + [ws[i]]]
  {
    PackSnoc([], ws[..i], ws[i], size);
    assert ws[..i] + [ws[i]] == ws[..i + 1];
  }

  lemma PayloadSnoc(open: seq<Weight>, w: Weight)
    ensures Payload(open + [w]) == Payload(open) + w.bytes
    ensures ByteCount(open + [w]) == ByteCount(open) + |w.bytes|
    ensures Layout(open + [w]) == Put(Layout(open), Meta(w.name, ByteCount(open), |w.bytes|))
  {
    assert (open + [w])[..|open|] == open;
  }

  /** Packing one more weight only touches the open bucket. */
  lemma {:induction false} PackSnoc(open: seq<Weight>, ws: seq<Weight>, w: Weight, size: nat)
    ensures var p := PackFrom(open, ws, size);
      && p != []
      && PackFrom(open, ws + [w], size) ==
         if ByteCount(p[|p| - 1]) + |w.bytes| > size then p + [[w]]
         else p[..|p| - 1] + [p[|p| - 1] + [w]]
    decreases |ws|
  {
    if ws == [] {
      assert ws + [w] == [w];
    } else {
      assert (ws + [w])[1..] == ws[1..] + [w];
      if ByteCount(open) + |ws[0].bytes| > size {
        PackSnoc([ws[0]], ws[1..], w, size);
      } else {
        PackSnoc(open + [ws[0]], ws[1..], w, size);
      }
    }
  }

  // ---------- What the packing means ----------

  lemma {:induction false} PackFromFlat(open: seq<Weight>, rest: seq<Weight>, size: nat)
    ensures Flatten(PackFrom(open, rest, size)) == open + rest
    decreases |rest|
  {
    if rest == [] {
      assert [open][1..] == [];
    } else if ByteCount(open) + |rest[0].bytes| > size {
      PackFromFlat([rest[0]], rest[1..], size);
      var q := PackFrom([rest[0]], rest[1..], size);
      assert ([open] + q)[1..] == q;
      assert [rest[0]] + rest[1..] == rest;
    } else {
      PackFromFlat(open + [rest[0]], rest[1..], size);
      assert open + [rest[0]] + rest[1..] == open + rest;
    }
  }

  /** No group could have taken the weight that opens the next one. */
  ghost predicate Tight(p: seq<seq<Weight>>, size: nat) {
    forall i :: 0 < i < |p| ==> p[i] != [] && ByteCount(p[i - 1]) + |p[i][0].bytes| > size
  }

  lemma TightCons(open: seq<Weight>, q: seq<seq<Weight>>, size: nat)
    requires q != [] && q[0] != [] && Tight(q, size) && ByteCount(open) + |q[0][0].bytes| > size
    ensures Tight([open] + q, size)
  {
    hide ByteCount;
    forall i | 0 < i < |[open] + q|
      ensures ([open] + q)[i] != [] && ByteCount(([open] + q)[i - 1]) + |([open] + q)[i][0].bytes| > size
    {
      assert ([open] + q)[i] == q[i - 1];
      if i > 1 { assert ([open] + q)[i - 1] == q[i - 2]; }
    }
  }

  lemma {:induction false} PackFromTight(open: seq<Weight>, rest: seq<Weight>, size: nat)
    ensures var p := PackFrom(open, rest, size);
      p != [] && open <= p[0] && Tight(p, size)
    decreases |rest|
  {
    hide ByteCount;
    if rest != [] {
      if ByteCount(open) + |rest[0].bytes| > size {
        PackFromTight([rest[0]], rest[1..], size);
        TightCons(open, PackFrom([rest[0]], rest[1..], size), size);
      } else {
        PackFromTight(open + [rest[0]], rest[1..], size);
      }
    }
  }

  lemma SingleBytes(w: Weight)
    ensures ByteCount([w]) == |w.bytes|
  {
    PayloadSnoc([], w);
    assert [] + [w] == [w];
  }

  ghost predicate FitAll(p: seq<seq<Weight>>, size: nat) {
    forall g <- p :: ByteCount(g) <= size
  }

  lemma {:induction false} PackFromFits(open: seq<Weight>, rest: seq<Weight>, size: nat)
    requires AllFit(rest, size) && ByteCount(open) <= size
    ensures FitAll(PackFrom(open, rest, size), size)
    decreases |rest|
  {
    hide ByteCount;
    if rest != [] {
      if ByteCount(open) + |rest[0].bytes| > size {
        SingleBytes(rest[0]);
        PackFromFits([rest[0]], rest[1..], size);
      } else {
        PayloadSnoc(open, rest[0]);
        PackFromFits(open + [rest[0]], rest[1..], size);
      }
    }
  }

  /** The groups cut the stream without loss or overlap, each fits, and none could have taken more. */
  lemma PackExact(ws: seq<Weight>, size: nat)
    requires AllFit(ws, size)
    ensures IsPacking(Pack(ws, size), ws, size)
    ensures Tight(Pack(ws, size), size)
  {
    PackFromFlat([], ws, size);
    PackFromTight([], ws, size);
    PackFromFits([], ws, size);
    assert [] + ws == ws;
  }

  /** The number of buckets, which depends on the open bucket only through its fill level. */
  function Count(off: nat, rest: seq<Weight>, size: nat): (n: nat)
    decreases |rest|
  {
    if rest == [] then 1
    else if off + |rest[0].bytes| > size then 1 + Count(|rest[0].bytes|, rest[1..], size)
    else Count(off + |rest[0].bytes|, rest[1..], size)
  }

  lemma {:induction false} CountIsPack(open: seq<Weight>, rest: seq<Weight>, size: nat)
    ensures |PackFrom(open, rest, size)| == Count(ByteCount(open), rest, size)
    decreases |rest|
  {
    if rest != [] {
      hide ByteCount;
      PayloadSnoc(open, rest[0]);
      SingleBytes(rest[0]);
      CountIsPack([rest[0]], rest[1..], size);
      CountIsPack(open + [rest[0]], rest[1..], size);
    }
  }

  /** A fuller open bucket never helps, and never costs more than one extra bucket. */
  lemma {:induction false} CountMonotone(x: nat, y: nat, rest: seq<Weight>, size: nat)
    requires AllFit(rest, size)
    ensures x <= y ==> Count(x, rest, size) <= Count(y, rest, size)
    ensures Count(x, rest, size) <= 1 + Count(y, rest, size)
    decreases |rest|
  {
    if rest != [] {
      var n := |rest[0].bytes|;
      CountMonotone(x + n, y + n, rest[1..], size);
      CountMonotone(x + n, n, rest[1..], size);
      CountMonotone(n, y + n, rest[1..], size);
    }
  }

  /** Greedy stays ahead: with at most as much in its open bucket as the rival has in its first,
      it needs no more buckets for the rest. `taken` is what the rival's first bucket already took. */
  lemma {:induction false} GreedyStaysAhead(off: nat, taken: nat, p: seq<seq<Weight>>, rest: seq<Weight>, size: nat)
    requires AllFit(rest, size)
    requires p != [] && Flatten(p) == rest && off <= taken
    requires taken + ByteCount(p[0]) <= size && forall g <- p[1..] :: ByteCount(g) <= size
    ensures Count(off, rest, size) <= |p|
    decreases |p| + |rest|
  {
    if rest == [] {
    } else if p[0] == [] {
      assert Flatten(p) == Flatten(p[1..]);
      CountMonotone(off, 0, rest, size);
      GreedyStaysAhead(0, 0, p[1..], rest, size);
    } else {
      var w := p[0][0];
      HeadBytes(p[0]);
      assert rest[0] == w;
      var q := [p[0][1..]] + p[1..];
      assert q[1..] == p[1..];
      assert Flatten(q) == rest[1..];
      GreedyStaysAhead(off + |w.bytes|, taken + |w.bytes|, q, rest[1..], size);
    }
  }

  lemma {:induction false} HeadBytes(g: seq<Weight>)
    requires g != []
    ensures ByteCount(g) == |g[0].bytes| + ByteCount(g[1..])
  {
    if |g| > 1 {
      HeadBytes(g[..|g| - 1]);
      assert g[1..][..|g| - 2] == g[..|g| - 1][1..];
    }
  }

  /** No order-preserving packing of a nonempty stream uses fewer buckets. */
  lemma PackOptimal(ws: seq<Weight>, size: nat, p: seq<seq<Weight>>)
    requires ws != [] && AllFit(ws, size) && IsPacking(p, ws, size)
    ensures |Pack(ws, size)| <= |p|
  {
    CountIsPack([], ws, size);
    GreedyStaysAhead(0, 0, p, ws, size);
  }

  // ---------- The stream a receiver restores ----------

  /** The buckets that the transports carry for a stream. */
  function Encode(ws: seq<Weight>, size: nat): seq<Bucket> {
    var p := Pack(ws, size);
    seq(|p|, i requires 0 <= i < |p| => BucketOf(p[i]))
  }

  ghost predicate Decodable(bs: seq<Bucket>) {
    forall b <- bs :: b.Valid(|b.data|)
  }

  /** Everything a receiver yields when each bucket reaches it intact. */
  function Decode(bs: seq<Bucket>): seq<Weight>
    requires Decodable(bs)
  {
    if bs == [] then [] else Unpacked(bs[0]) + Decode(bs[1..])
  }

  lemma {:induction false} DecodeSnoc(bs: seq<Bucket>, b: Bucket)
    requires Decodable(bs + [b])
    ensures Decodable(bs) && b.Valid(|b.data|)
    ensures Decode(bs + [b]) == Decode(bs) + Unpacked(b)
  {
    assert b in bs + [b];
    forall x | x in bs ensures x.Valid(|x.data|) { assert x in bs + [b]; }
    if bs == [] {
      assert (bs + [b])[1..] == [];
    } else {
      assert (bs + [b])[1..] == bs[1..] + [b];
      forall x | x in bs[1..] + [b] ensures x.Valid(|x.data|) { assert x in bs + [b]; }
      DecodeSnoc(bs[1..], b);
    }
  }

  lemma {:induction false} DecodeGroups(p: seq<seq<Weight>>)
    ensures var bs := seq(|p|, i requires 0 <= i < |p| => BucketOf(p[i]));
      && Decodable(bs)
      && |Decode(bs)| <= |Flatten(p)|
      && (Decode(bs) == Flatten(p) <==> forall g <- p :: DistinctNames(g))
      && (|Decode(bs)| == |Flatten(p)| <==> forall g <- p :: DistinctNames(g))
  {
    var bs := seq(|p|, i requires 0 <= i < |p| => BucketOf(p[i]));
    forall b | b in bs ensures b.Valid(|b.data|) {
      var i :| 0 <= i < |bs| && bs[i] == b;
      UnpackIffDistinct(p[i]);
    }
    if p != [] {
      UnpackIffDistinct(p[0]);
      DecodeGroups(p[1..]);
      assert bs[1..] == seq(|p[1..]|, i requires 0 <= i < |p[1..]| => BucketOf(p[1..][i]));
      assert p == [p[0]] + p[1..];
    }
  }

  /** Every bucket is valid, the stream is never empty of buckets, and unpacking the buckets in order
      gives the stream back exactly when no bucket repeats a name. */
  lemma EncodeDecode(ws: seq<Weight>, size: nat)
    requires AllFit(ws, size)
    ensures Encode(ws, size) != [] && forall b <- Encode(ws, size) :: b.Valid(size)
    ensures Decodable(Encode(ws, size))
    ensures Decode(Encode(ws, size)) == ws <==> forall g <- Pack(ws, size) :: DistinctNames(g)
    ensures DistinctNames(ws) ==> Decode(Encode(ws, size)) == ws
  {
    var p := Pack(ws, size);
    PackExact(ws, size);
    DecodeGroups(p);
    forall b | b in Encode(ws, size) ensures b.Valid(size) {
      var i :| 0 <= i < |p| && Encode(ws, size)[i] == b;
      BucketOfValid(p[i], size);
    }
    if DistinctNames(ws) {
      DistinctGroups(p);
    }
  }

  lemma {:induction false} DistinctGroups(p: seq<seq<Weight>>)
    requires DistinctNames(Flatten(p))
    ensures forall g <- p :: DistinctNames(g)
  {
    if p != [] {
      var f, t := Flatten(p), Flatten(p[1..]);
      forall i, j | 0 <= i < j < |p[0]| ensures p[0][i].name != p[0][j].name {
        assert f[i] == p[0][i] && f[j] == p[0][j];
      }
      forall i, j | 0 <= i < j < |t| ensures t[i].name != t[j].name {
        assert f[|p[0]| + i] == t[i] && f[|p[0]| + j] == t[j];
      }
      DistinctGroups(p[1..]);
      assert p == [p[0]] + p[1..];
    }
  }

  /** The offers of a successful send restore the stream: each snapshot unpacks to its bucket. */
  lemma OffersRestoreStream(os: seq<Offer>, ws: seq<Weight>, size: nat)
    requires AllFit(ws, size) && CarryAll(os, Pack(ws, size), size, true)
    ensures |os| == |Encode(ws, size)|
    ensures forall i :: 0 <= i < |os| ==>
      && os[i].isLast == (i == |os| - 1)
      && OfferRestores(os[i], Encode(ws, size)[i])
  {
    EncodeDecode(ws, size);
    forall i | 0 <= i < |os|
      ensures OfferRestores(os[i], Encode(ws, size)[i])
    {
      var g := Pack(ws, size)[i];
      assert Encode(ws, size)[i] == BucketOf(g) && BucketOf(g) in Encode(ws, size);
      assert Carries(os[i], g, size, i == |os| - 1);
      ViewsPrefix(Layout(g), Payload(g), os[i].snapshot);
    }
  }

  ghost predicate OfferRestores(o: Offer, b: Bucket) {
    && b.Valid(|b.data|)
    && (forall m <- o.metas :: m.offset + m.size <= |o.snapshot|)
    && Views(o.metas, o.snapshot) == Unpacked(b)
  }
}
