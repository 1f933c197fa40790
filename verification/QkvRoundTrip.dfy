/** Packing and splitting of query-key-value tensors undo each other, on one rank and across shards. */
module QkvRoundTrip {
  import opened Arithmetic
  import opened Buckets
  import opened Options
  import opened Splits
  import opened QkvLayout

  // ---------- Collecting blocks ----------

  lemma InterleavedSnoc<T>(qs: seq<seq<T>>, ks: seq<seq<T>>, vs: seq<seq<T>>)
    requires |qs| == |ks| == |vs| > 0
    ensures var n := |qs| - 1;
      Interleaved(qs, ks, vs) == Interleaved(qs[..n], ks[..n], vs[..n]) + [qs[n] + ks[n] + vs[n]]
  {}

  lemma {:induction false} CollectedBlocks<T>(qs: seq<seq<T>>, ks: seq<seq<T>>, vs: seq<seq<T>>, a: nat, b: nat)
    requires |qs| == |ks| == |vs|
    requires forall i :: 0 <= i < |qs| ==> |qs[i]| == a && |ks[i]| == b && |vs[i]| == b
    ensures Collected(Interleaved(qs, ks, vs), a, b) == Some(Parts(qs, ks, vs))
  {
    if qs == [] {
      CollectedNothing<T>(a, b);
      assert Interleaved(qs, ks, vs) == [];
    } else {
      var n := |qs| - 1;
      CollectedBlocks(qs[..n], ks[..n], vs[..n], a, b);
      hide *;
      InterleavedSnoc(qs, ks, vs);
      var c := qs[n] + ks[n] + vs[n];
      CollectedSnoc(Interleaved(qs[..n], ks[..n], vs[..n]), c, a, b);
      assert c[..a] == qs[n] && c[a..a + b] == ks[n] && c[a + b..] == vs[n];
      assert qs == qs[..n] + [qs[n]] && ks == ks[..n] + [ks[n]] && vs == vs[..n] + [vs[n]];
    }
  }

  /** The parts of chunks that all have the right size. */
  ghost predicate PartsOf<T>(chunks: seq<seq<T>>, p: Parts<T>, a: nat, b: nat) {
    && |p.qs| == |p.ks| == |p.vs| == |chunks| && Interleaved(p.qs, p.ks, p.vs) == chunks
    && forall i :: 0 <= i < |chunks| ==> |p.qs[i]| == a && |p.ks[i]| == b && |p.vs[i]| == b
  }

  lemma PartsOfSnoc<T>(chunks: seq<seq<T>>, p: Parts<T>, c: seq<T>, a: nat, b: nat)
    requires PartsOf(chunks, p, a, b) && |c| == a + b + b
    ensures PartsOf(chunks + [c], Parts(p.qs + [c[..a]], p.ks + [c[a..a + b]], p.vs + [c[a + b..]]), a, b)
  {
    hide Interleaved;
    var n := |chunks|;
    var r := Parts(p.qs + [c[..a]], p.ks + [c[a..a + b]], p.vs + [c[a + b..]]);
    InterleavedSnoc(r.qs, r.ks, r.vs);
    assert r.qs[..n] == p.qs && r.ks[..n] == p.ks && r.vs[..n] == p.vs;
    assert c[..a] + c[a..a + b] + c[a + b..] == c;
  }

  ghost predicate AllSized<T>(chunks: seq<seq<T>>, n: nat) {
    forall i :: 0 <= i < |chunks| ==> |chunks[i]| == n
  }

  lemma AllSizedSnoc<T>(chunks: seq<seq<T>>, c: seq<T>, n: nat)
    ensures AllSized(chunks + [c], n) <==> AllSized(chunks, n) && |c| == n
  {
    assert AllSized(chunks + [c], n) ==> |(chunks + [c])[|chunks|]| == n;
    assert forall i :: 0 <= i < |chunks| ==> (chunks + [c])[i] == chunks[i];
  }

  /** Collecting succeeds exactly on chunks of the right size, and taking them apart loses nothing. */
  lemma {:induction false} CollectedAll<T>(chunks: seq<seq<T>>, a: nat, b: nat)
    ensures Collected(chunks, a, b).Some? <==> AllSized(chunks, a + b + b)
    ensures Collected(chunks, a, b).Some? ==> PartsOf(chunks, Collected(chunks, a, b).value, a, b)
  {
    if chunks == [] {
      CollectedNothing<T>(a, b);
    } else {
      hide *;
      var init, c := chunks[..|chunks| - 1], chunks[|chunks| - 1];
      assert chunks == init + [c];
      CollectedAll(init, a, b);
      CollectedSnoc(init, c, a, b);
      AllSizedSnoc(init, c, a + b + b);
      if Collected(init, a, b).Some? && |c| == a + b + b {
        PartsOfSnoc(init, Collected(init, a, b).value, c, a, b);
      }
    }
  }

  // ---------- The chunks of all shards ----------

  lemma {:induction false} AllChunksFlat<T>(shards: seq<seq<T>>, s: nat, g: nat)
    requires g > 0 && forall i :: 0 <= i < |shards| ==> |shards[i]| == g * s
    ensures var cs := AllChunks(shards, g);
      && Flatten(cs) == Flatten(shards) && |cs| == |shards| * g
      && forall i :: 0 <= i < |cs| ==> |cs[i]| == s
  {
    hide *;
    AllChunksLast(shards, g);
    if shards != [] {
      var init, last := shards[..|shards| - 1], shards[|shards| - 1];
      assert shards == init + [last];
      AllChunksFlat(init, s, g);
      TimesNext(|shards|, g);
      ChunkIsBlocks(last, s, g);
      BlocksFlat(last, s, g);
      FlattenSnoc(init, last);
      FlattenAppend(AllChunks(init, g), Blocks(last, s, g));
    }
  }

  lemma AllChunksLast<T>(shards: seq<seq<T>>, g: nat)
    requires g > 0
    ensures shards == [] ==> AllChunks(shards, g) == [] && Flatten(shards) == Flatten(AllChunks(shards, g))
    ensures shards != [] ==>
      AllChunks(shards, g) == AllChunks(shards[..|shards| - 1], g) + ChunkRows(shards[|shards| - 1], g)
  {}

  /** Shards of g blocks each, chunked and collected, give the blocks of the whole. */
  lemma ShardedBlocks<T>(blocks: seq<seq<T>>, s: nat, g: nat, tp: nat)
    requires g > 0 && |blocks| == tp * g && forall i :: 0 <= i < |blocks| ==> |blocks[i]| == s
    ensures |Flatten(blocks)| == tp * Times(g, s)
    ensures AllChunks(Blocks(Flatten(blocks), Times(g, s), tp), g) == blocks
  {
    var whole := Flatten(blocks);
    FlatBlocks(blocks, s);
    assert tp * g * s == tp * (g * s);
    var shards := Blocks(whole, g * s, tp);
    BlocksFlat(whole, g * s, tp);
    AllChunksFlat(shards, s, g);
    FlatBlocks(AllChunks(shards, g), s);
  }

  // ---------- The sizes ----------

  /** The rows of one key-value head with its query heads. */
  function BlockRows(nq: nat, hd: nat): nat {
    (nq + 2) * hd
  }

  function Times(a: nat, b: nat): nat {
    a * b
  }

  lemma SizesOf(nq: nat, kv: nat, hd: nat, g: nat, tp: nat)
    requires g > 0 && tp > 0 && kv == tp * g
    ensures SplitSizes(Times(g, BlockRows(nq, hd)), nq * kv, kv, tp) == Some(Sizes(g, nq * hd, hd))
  {
    assert kv > 0 by { MulMono(1, tp, g); }
    DivTimes(nq, kv);
    assert kv == g * tp;
    DivTimes(g, tp);
    assert Times(g, BlockRows(nq, hd)) == (g * hd) * (nq + 2);
    DivTimes(g * hd, nq + 2);
    assert g * hd * nq == (nq * hd) * g;
    DivTimes(nq * hd, g);
    assert g * hd == hd * g;
    DivTimes(hd, g);
  }

  /** The tensors of a model with `kv` key-value heads, `nq` query heads for each of them. */
  predicate Shaped<T>(t: Qkv<T>, nq: nat, kv: nat, hd: nat) {
    |t.q| == kv * (nq * hd) && |t.k| == kv * hd && |t.v| == kv * hd
  }

  function Packed<T>(t: Qkv<T>, nq: nat, kv: nat, hd: nat): seq<seq<T>>
    requires Shaped(t, nq, kv, hd)
  {
    Interleaved(Blocks(t.q, nq * hd, kv), Blocks(t.k, hd, kv), Blocks(t.v, hd, kv))
  }

  lemma PackIs<T>(t: Qkv<T>, nq: nat, kv: nat, hd: nat)
    requires kv > 0
    ensures Pack(t, hd, nq * kv, kv) == if Shaped(t, nq, kv, hd) then Some(Flatten(Packed(t, nq, kv, hd))) else None
  {
    assert hd * (nq * kv) == (nq * hd) * kv;
    DivTimes(nq * hd, kv);
  }

  lemma JoinedBlocks<T>(t: Qkv<T>, nq: nat, kv: nat, hd: nat)
    requires Shaped(t, nq, kv, hd)
    ensures Joined(Collected(Packed(t, nq, kv, hd), nq * hd, hd)) == Some(t)
  {
    BlocksFlat(t.q, nq * hd, kv);
    BlocksFlat(t.k, hd, kv);
    BlocksFlat(t.v, hd, kv);
    CollectedBlocks(Blocks(t.q, nq * hd, kv), Blocks(t.k, hd, kv), Blocks(t.v, hd, kv), nq * hd, hd);
  }

  lemma PackedLengths<T>(t: Qkv<T>, nq: nat, kv: nat, hd: nat)
    requires Shaped(t, nq, kv, hd)
    ensures |Packed(t, nq, kv, hd)| == kv
    ensures forall i :: 0 <= i < kv ==> |Packed(t, nq, kv, hd)[i]| == BlockRows(nq, hd)
    ensures |Flatten(Packed(t, nq, kv, hd))| == kv * BlockRows(nq, hd)
  {
    assert nq * hd + hd + hd == BlockRows(nq, hd);
    FlatBlocks(Packed(t, nq, kv, hd), BlockRows(nq, hd));
  }

  lemma MergePacked<T>(t: Qkv<T>, nq: nat, kv: nat, hd: nat, g: nat, tp: nat, packed: seq<T>, rows: nat)
    requires Shaped(t, nq, kv, hd) && g > 0 && tp > 0 && kv == tp * g && kv > 0
    requires packed == Flatten(Packed(t, nq, kv, hd)) && rows == Times(g, BlockRows(nq, hd))
    ensures |packed| == tp * rows
    ensures Merge(Blocks(packed, rows, tp), nq * kv, kv, tp) == Some(t)
  {
    hide *;
    PackedLengths(t, nq, kv, hd);
    ShardedBlocks(Packed(t, nq, kv, hd), BlockRows(nq, hd), g, tp);
    SizesOf(nq, kv, hd, g, tp);
    JoinedBlocks(t, nq, kv, hd);
    MergeIs(Blocks(packed, rows, tp), nq * kv, kv, tp);
  }

  /** The packed tensor has, for each key-value head, the rows of its query heads, then its key, then its value. */
  lemma PackLayout<T>(t: Qkv<T>, nq: nat, kv: nat, hd: nat, i: nat)
    requires Shaped(t, nq, kv, hd) && i < kv
    ensures Pack(t, hd, nq * kv, kv).Some?
    ensures var packed := Pack(t, hd, nq * kv, kv).value;
      && |packed| == kv * BlockRows(nq, hd)
      && Blocks(packed, BlockRows(nq, hd), kv)[i] ==
           Blocks(t.q, nq * hd, kv)[i] + Blocks(t.k, hd, kv)[i] + Blocks(t.v, hd, kv)[i]
  {
    PackIs(t, nq, kv, hd);
    PackedLengths(t, nq, kv, hd);
    FlatBlocks(Packed(t, nq, kv, hd), BlockRows(nq, hd));
    hide Blocks;
    hide Pack;
  }

  /** Cut into any number of contiguous row shards that divides the key-value heads, one included, a packed
      tensor is merged into the q, k and v it was packed from. */
  lemma PackThenMerge<T>(t: Qkv<T>, nq: nat, kv: nat, hd: nat, g: nat, tp: nat, rows: nat)
    requires Shaped(t, nq, kv, hd) && g > 0 && tp > 0 && kv == tp * g && kv > 0
    requires rows == Times(g, BlockRows(nq, hd))
    ensures Pack(t, hd, nq * kv, kv).Some?
    ensures var packed := Pack(t, hd, nq * kv, kv).value;
      |packed| == tp * rows && Merge(Blocks(packed, rows, tp), nq * kv, kv, tp) == Some(t)
  {
    hide *;
    PackIs(t, nq, kv, hd);
    MergePacked(t, nq, kv, hd, g, tp, Flatten(Packed(t, nq, kv, hd)), rows);
  }

  /** Splitting what was packed gives the tensors back. */
  lemma PackThenSplit<T>(t: Qkv<T>, nq: nat, kv: nat, hd: nat)
    requires Shaped(t, nq, kv, hd) && kv > 0
    ensures Pack(t, hd, nq * kv, kv).Some?
    ensures Merge([Pack(t, hd, nq * kv, kv).value], nq * kv, kv, 1) == Some(t)
  {
    PackThenMerge(t, nq, kv, hd, kv, 1, Times(kv, BlockRows(nq, hd)));
    var packed := Pack(t, hd, nq * kv, kv).value;
    hide *;
    BlocksOfOne(packed);
  }

  lemma BlocksOfOne<T>(xs: seq<T>)
    ensures Blocks(xs, |xs|, 1) == [xs]
  {
    assert xs[..|xs|] == xs;
  }

  // ---------- Splitting an arbitrary tensor ----------

  lemma FirstPiece<T>(xs: seq<T>, g: nat)
    requires g > 0 && xs != []
    ensures ChunkRows(xs, g) != [] && |ChunkRows(xs, g)[0]| == CeilDiv(|xs|, g)
  {
    var c := CeilDiv(|xs|, g);
    ChunkSize(|xs|, g);
    MulMono(1, g, |xs|);
    assert |xs| * g == g * |xs|;
    if c > |xs| {
      MulMono(|xs|, c - 1, g);
    }
  }

  /** Sizes rounded down fill a chunk rounded up only if nothing was rounded. */
  lemma RoundedSizes(rows: nat, nq: nat, g: nat, c: nat)
    requires g > 0 && rows % (nq + 2) == 0 && c * g >= rows
    requires var kvSize := Quotient(rows, nq + 2); Quotient(kvSize * nq, g) + Quotient(kvSize, g) + Quotient(kvSize, g) == c
    ensures Quotient(rows, nq + 2) % g == 0
  {
    var kvSize := rows / (nq + 2);
    var a, b := kvSize * nq / g, kvSize / g;
    assert rows == kvSize * (nq + 2);
    assert a * g <= kvSize * nq;
    assert kvSize == b * g + kvSize % g;
    assert c * g == a * g + b * g + b * g;
  }

  lemma ChunksFillOnly<T>(shard: seq<T>, nq: nat, g: nat)
    requires g > 0 && |shard| % (nq + 2) == 0
    requires var kvSize := Quotient(|shard|, nq + 2);
      AllSized(ChunkRows(shard, g), Quotient(kvSize * nq, g) + Quotient(kvSize, g) + Quotient(kvSize, g))
    ensures Quotient(|shard|, nq + 2) % g == 0
  {
    if shard != [] {
      hide Quotient;
      hide ChunkRows;
      FirstPiece(shard, g);
      RoundedSizes(|shard|, nq, g, CeilDiv(|shard|, g));
    } else {
      assert Quotient(0, nq + 2) == 0;
    }
  }

  /** Rows that divide into key-value heads with their query heads. */
  lemma RowsFactor(rows: nat, nq: nat, g: nat)
    requires g > 0 && rows % (nq + 2) == 0 && Quotient(rows, nq + 2) % g == 0
    ensures rows == Times(g, BlockRows(nq, Quotient(Quotient(rows, nq + 2), g)))
  {
    var hd := rows / (nq + 2) / g;
    assert rows == rows / (nq + 2) * (nq + 2);
    assert rows / (nq + 2) == hd * g;
    assert hd * g * (nq + 2) == g * ((nq + 2) * hd);
  }

  lemma SizesSome(rows: nat, nq: nat, kv: nat, tp: nat)
    requires kv > 0 && tp > 0
    ensures var z, g, kvSize := SplitSizes(rows, nq * kv, kv, tp), Quotient(kv, tp), Quotient(rows, nq + 2);
      && (z.Some? <==> rows % (nq + 2) == 0 && g > 0)
      && (z.Some? ==> z.value == Sizes(g, Quotient(kvSize * nq, g), Quotient(kvSize, g)))
  {
    DivTimes(nq, kv);
    assert Quotient(nq * kv, kv) == nq;
    hide Quotient;
  }

  /** Taking whole chunks apart and packing the parts gives the tensor back. */
  lemma PartsPack<T>(tensor: seq<T>, nq: nat, kv: nat, hd: nat, p: Parts<T>)
    requires kv > 0 && |tensor| == kv * BlockRows(nq, hd)
    requires PartsOf(Blocks(tensor, BlockRows(nq, hd), kv), p, nq * hd, hd)
    ensures var t := Qkv(Flatten(p.qs), Flatten(p.ks), Flatten(p.vs));
      Shaped(t, nq, kv, hd) && Pack(t, hd, nq * kv, kv) == Some(tensor)
  {
    var t := Qkv(Flatten(p.qs), Flatten(p.ks), Flatten(p.vs));
    FlatBlocks(p.qs, nq * hd);
    FlatBlocks(p.ks, hd);
    FlatBlocks(p.vs, hd);
    BlocksFlat(tensor, BlockRows(nq, hd), kv);
    PackIs(t, nq, kv, hd);
    assert Packed(t, nq, kv, hd) == Blocks(tensor, BlockRows(nq, hd), kv);
  }

  lemma SplitFactored<T>(tensor: seq<T>, nq: nat, kv: nat, hd: nat)
    requires kv > 0 && |tensor| == Times(kv, BlockRows(nq, hd))
    ensures var r := Merge([tensor], nq * kv, kv, 1);
      r.Some? && Shaped(r.value, nq, kv, hd) && Pack(r.value, hd, nq * kv, kv) == Some(tensor)
  {
    var bs := Blocks(tensor, BlockRows(nq, hd), kv);
    assert nq * hd + hd + hd == BlockRows(nq, hd);
    assert |tensor| == kv * BlockRows(nq, hd);
    assert AllSized(bs, nq * hd + hd + hd);
    hide *;
    MergeIs([tensor], nq * kv, kv, 1);
    SizesOf(nq, kv, hd, kv, 1);
    OneShard(tensor, kv);
    ChunkIsBlocks(tensor, BlockRows(nq, hd), kv);
    CollectedAll(bs, nq * hd, hd);
    JoinedIs(Collected(bs, nq * hd, hd));
    PartsPack(tensor, nq, kv, hd, Collected(bs, nq * hd, hd).value);
  }

  /** A fused tensor splits exactly when its rows divide into the key-value heads, and packing what the
      split gives restores the tensor. */
  lemma SplitThenPack<T>(tensor: seq<T>, nq: nat, kv: nat)
    requires kv > 0
    ensures var r := Merge([tensor], nq * kv, kv, 1);
      && (r.Some? <==> |tensor| % (nq + 2) == 0 && Quotient(|tensor|, nq + 2) % kv == 0)
      && (r.Some? ==> Pack(r.value, Quotient(Quotient(|tensor|, nq + 2), kv), nq * kv, kv) == Some(tensor))
  {
    assert Quotient(kv, 1) == kv;
    hide *;
    var rows := |tensor|;
    SizesSome(rows, nq, kv, 1);
    MergeIs([tensor], nq * kv, kv, 1);
    if rows % (nq + 2) == 0 {
      if Quotient(rows, nq + 2) % kv == 0 {
        RowsFactor(rows, nq, kv);
        SplitFactored(tensor, nq, kv, Quotient(Quotient(rows, nq + 2), kv));
      } else {
        var kvSize := Quotient(rows, nq + 2);
        var a, b := Quotient(kvSize * nq, kv), Quotient(kvSize, kv);
        OneShard(tensor, kv);
        CollectedAll(ChunkRows(tensor, kv), a, b);
        JoinedIs(Collected(ChunkRows(tensor, kv), a, b));
        if AllSized(ChunkRows(tensor, kv), a + b + b) {
          ChunksFillOnly(tensor, nq, kv);
        }
      }
    }
  }

  // ---------- Tensor parallelism ----------

  /** A successful merge takes the first rows of q from the first rows of the first shard. */
  lemma MergedFirst<T>(shards: seq<seq<T>>, nq: nat, kv: nat, tp: nat, g: nat, hd: nat, j: nat)
    requires shards != [] && kv > 0 && tp > 0 && g > 0
    requires AllSized(AllChunks(shards, g), nq * hd + hd + hd) && |shards[0]| == Times(g, BlockRows(nq, hd))
    requires j < nq * hd
    ensures var r := Joined(Collected(AllChunks(shards, g), nq * hd, hd));
      r.Some? && j < |r.value.q| && j < |shards[0]| && r.value.q[j] == shards[0][j]
  {
    var a, s, all := nq * hd, BlockRows(nq, hd), AllChunks(shards, g);
    assert s == a + hd + hd;
    hide *;
    FirstChunk(shards, g, s);
    CollectedAll(all, a, hd);
    var p := Collected(all, a, hd).value;
    FirstPart(all, p, a, hd);
    JoinedIs(Some(p));
    FlattenFirst(p.qs, j);
  }

  lemma FirstChunk<T>(shards: seq<seq<T>>, g: nat, s: nat)
    requires shards != [] && g > 0 && |shards[0]| == Times(g, s)
    ensures AllChunks(shards, g) != [] && s <= |shards[0]| && AllChunks(shards, g)[0] == shards[0][..s]
  {
    var first, all := ChunkRows(shards[0], g), AllChunks(shards, g);
    AllChunksGrow(shards, 1, g);
    OneShard(shards[0], g);
    assert shards[..1] == [shards[0]];
    assert first <= all;
    assert |shards[0]| == g * s;
    ChunkIsBlocks(shards[0], s, g);
    BlockStarts(shards[0], s, g);
    hide *;
  }

  lemma FlattenFirst<T>(xss: seq<seq<T>>, j: nat)
    requires xss != [] && j < |xss[0]|
    ensures j < |Flatten(xss)| && Flatten(xss)[j] == xss[0][j]
  {}

  lemma FirstPart<T>(chunks: seq<seq<T>>, p: Parts<T>, a: nat, b: nat)
    requires PartsOf(chunks, p, a, b) && chunks != []
    ensures p.qs != [] && |p.qs[0]| == a && a <= |chunks[0]| && p.qs[0] == chunks[0][..a]
  {
    assert chunks[0] == p.qs[0] + p.ks[0] + p.vs[0];
  }

  /** Fewer chunks than key-value heads means more rows in each. */
  lemma WiderHeads(kv: nat, tp: nat, g: nat, nq: nat, hd: nat, wide: nat)
    requires tp * Times(g, BlockRows(nq, wide)) == kv * BlockRows(nq, hd) && tp * g < kv && hd > 0
    ensures wide > hd
  {
    var n, x, y := nq + 2, tp * g * wide, kv * hd;
    assert tp * (g * (n * wide)) == x * n && kv * (n * hd) == y * n;
    SameFactor(x, y, n);
    assert tp * g * wide == wide * (tp * g) && tp * g * hd == hd * (tp * g);
    MulMono(tp * g + 1, kv, hd);
    assert (tp * g + 1) * hd == tp * g * hd + hd;
    if wide <= hd {
      MulMono(wide, hd, tp * g);
    }
  }

  lemma SameFactor(x: int, y: int, n: nat)
    requires n > 0 && x * n == y * n
    ensures x == y
  {
    assert (x - y) * n == 0;
  }

  lemma GroupsBelow(kv: nat, tp: nat)
    requires tp > 0
    ensures var g := Quotient(kv, tp); tp * g <= kv && (tp * g == kv <==> kv % tp == 0)
  {
    var g := kv / tp;
    assert kv == g * tp + kv % tp;
    assert g * tp == tp * g;
  }

  lemma RowsCancel(tp: nat, rows: nat, kv: nat, g: nat, b: nat)
    requires tp > 0 && kv == tp * g && tp * rows == kv * b
    ensures rows == Times(g, b)
  {
    assert kv * b == (g * b) * tp && tp * rows == rows * tp;
    if rows < g * b { MulMono(rows + 1, g * b, tp); }
    if rows > g * b { MulMono(g * b + 1, rows, tp); }
  }

  lemma PackedAt<T>(t: Qkv<T>, nq: nat, kv: nat, hd: nat)
    requires Shaped(t, nq, kv, hd) && kv > 0 && hd > 0
    ensures |t.k| > 0 && |Flatten(Packed(t, nq, kv, hd))| > nq * hd
    ensures Flatten(Packed(t, nq, kv, hd))[nq * hd] == t.k[0]
  {
    TimesNext(kv, hd);
    TimesNext(kv, nq * hd);
    var bs := Packed(t, nq, kv, hd);
    assert Flatten(bs) == bs[0] + Flatten(bs[1..]);
    assert bs[0] == t.q[..nq * hd] + t.k[..hd] + Blocks(t.v, hd, kv)[0];
  }

  lemma BlockStarts<T>(xs: seq<T>, s: nat, n: nat)
    requires n > 0 && |xs| == n * s
    ensures s <= |xs| && Blocks(xs, s, n)[0] == xs[..s]
  {
    TimesNext(n, s);
  }

  lemma ShardsThatMissHeads<T>(t: Qkv<T>, nq: nat, kv: nat, hd: nat, tp: nat, packed: seq<T>, rows: nat)
    requires Shaped(t, nq, kv, hd) && kv > 0 && tp > 0 && hd > 0 && nq > 0
    requires packed == Flatten(Packed(t, nq, kv, hd)) && |packed| == tp * rows
    requires |t.k| > 0 && t.k[0] !in t.q
    requires kv % tp != 0
    ensures Merge(Blocks(packed, rows, tp), nq * kv, kv, tp) != Some(t)
  {
    hide *;
    var shards := Blocks(packed, rows, tp);
    var g, kvSize := Quotient(kv, tp), Quotient(rows, nq + 2);
    BlockStarts(packed, rows, tp);
    MergeIs(shards, nq * kv, kv, tp);
    SizesSome(rows, nq, kv, tp);
    if rows % (nq + 2) == 0 && g > 0 {
      var a, b := Quotient(kvSize * nq, g), Quotient(kvSize, g);
      var all := AllChunks(shards, g);
      CollectedAll(all, a, b);
      JoinedIs(Collected(all, a, b));
      if AllSized(all, a + b + b) {
        FirstShardSized(shards, g, a + b + b);
        ChunksFillOnly(shards[0], nq, g);
        RowsFactor(rows, nq, g);
        ExactQuotient(kvSize, nq, g);
        PackedLengths(t, nq, kv, hd);
        GroupsBelow(kv, tp);
        WiderHeads(kv, tp, g, nq, hd, b);
        LessRows(nq, hd, b);
        MergedFirst(shards, nq, kv, tp, g, b, nq * hd);
        PackedAt(t, nq, kv, hd);
        var r := Joined(Collected(all, a, b)).value;
        assert r.q[nq * hd] == t.k[0];
        assert r.q[nq * hd] in r.q;
      }
    }
  }

  lemma LessRows(nq: nat, hd: nat, wide: nat)
    requires nq > 0 && hd < wide
    ensures nq * hd < nq * wide
  {
    MulMono(hd + 1, wide, nq);
    assert (hd + 1) * nq == nq * hd + nq && wide * nq == nq * wide;
  }

  lemma ExactQuotient(kvSize: nat, nq: nat, g: nat)
    requires g > 0 && kvSize % g == 0
    ensures Quotient(kvSize * nq, g) == nq * Quotient(kvSize, g)
  {
    var b := kvSize / g;
    assert kvSize == b * g;
    assert kvSize * nq == (nq * b) * g;
    DivTimes(nq * b, g);
  }

  lemma FirstShardSized<T>(shards: seq<seq<T>>, g: nat, n: nat)
    requires g > 0 && shards != [] && AllSized(AllChunks(shards, g), n)
    ensures AllSized(ChunkRows(shards[0], g), n)
  {
    AllChunksGrow(shards, 1, g);
    OneShard(shards[0], g);
    assert shards[..1] == [shards[0]];
    var first, all := ChunkRows(shards[0], g), AllChunks(shards, g);
    assert forall i :: 0 <= i < |first| ==> first[i] == all[i];
  }

  /** The merge of equal contiguous shards gives the tensors that were packed exactly when the number of
      shards divides the number of key-value heads. */
  lemma MergeIffDivides<T>(t: Qkv<T>, nq: nat, kv: nat, hd: nat, tp: nat, rows: nat)
    requires Shaped(t, nq, kv, hd) && kv > 0 && tp > 0 && hd > 0 && nq > 0
    requires |t.k| > 0 && t.k[0] !in t.q
    requires Pack(t, hd, nq * kv, kv).Some? && |Pack(t, hd, nq * kv, kv).value| == tp * rows
    ensures Merge(Blocks(Pack(t, hd, nq * kv, kv).value, rows, tp), nq * kv, kv, tp) == Some(t) <==> kv % tp == 0
  {
    hide *;
    var packed := Pack(t, hd, nq * kv, kv).value;
    PackIs(t, nq, kv, hd);
    GroupsBelow(kv, tp);
    if kv % tp == 0 {
      var g := Quotient(kv, tp);
      PackedLengths(t, nq, kv, hd);
      RowsCancel(tp, rows, kv, g, BlockRows(nq, hd));
      PackThenMerge(t, nq, kv, hd, g, tp, rows);
    } else {
      ShardsThatMissHeads(t, nq, kv, hd, tp, packed, rows);
    }
  }

  /** Two key-value heads on three shards: the merge fails, although every shard has whole rows. */
  lemma TwoHeadsThreeShards(packed: seq<int>)
    requires |packed| == 18
    ensures Merge(Blocks(packed, 6, 3), 2, 2, 3) == None
  {
    assert Quotient(2, 3) == 0;
    assert SplitSizes(6, 2, 2, 3) == None;
    MergeIs(Blocks(packed, 6, 3), 2, 2, 3);
  }

  /** Three key-value heads of two rows on two shards: the merge succeeds, with the wrong rows. */
  lemma ThreeHeadsTwoShards(t: Qkv<int>)
    requires Shaped(t, 1, 3, 2) && t.k[0] !in t.q
    ensures var packed := Pack(t, 2, 3, 3);
      && packed.Some? && |packed.value| == 18
      && var merged := Merge(Blocks(packed.value, 9, 2), 3, 3, 2);
         merged.Some? && merged != Some(t)
  {
    PackIs(t, 1, 3, 2);
    PackedLengths(t, 1, 3, 2);
    assert BlockRows(1, 2) == 6;
    var packed := Pack(t, 2, 3, 3).value;
    var shards := Blocks(packed, 9, 2);
    assert SplitSizes(9, 3, 3, 2) == Some(Sizes(1, 3, 3)) by {
      assert Quotient(3, 3) == 1 && Quotient(3, 2) == 1 && Quotient(9, 3) == 3 && Quotient(3, 1) == 3;
    }
    assert |shards[0]| == 9;
    AllChunksFlat(shards, 9, 1);
    CollectedAll(AllChunks(shards, 1), 3, 3);
    MergeIs(shards, 3, 3, 2);
    JoinedIs(Collected(AllChunks(shards, 1), 3, 3));
    MergeIffDivides(t, 1, 3, 2, 2, 9);
  }
}
