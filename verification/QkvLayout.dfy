/** The fused query-key-value tensor: how a conversion packs it and how a merge splits it again. */
module QkvLayout {
  import opened Buckets
  import opened Options
  import opened Splits

  /** Tensors are sequences of rows. */
  datatype Qkv<T> = Qkv(q: seq<T>, k: seq<T>, v: seq<T>)

  // ---------- Packing ----------

  function Interleaved<T>(qs: seq<seq<T>>, ks: seq<seq<T>>, vs: seq<seq<T>>): (bs: seq<seq<T>>)
    requires |qs| == |ks| == |vs|
    ensures |bs| == |qs| && forall i :: 0 <= i < |bs| ==> bs[i] == qs[i] + ks[i] + vs[i]
  {
    seq(|qs|, i requires 0 <= i < |qs| => qs[i] + ks[i] + vs[i])
  }

  /** The conversion: views of q, k and v by key-value head, joined head by head; `None` is a view that
      does not fit the tensor. */
  function Pack<T>(t: Qkv<T>, headDim: nat, heads: nat, kv: nat): Option<seq<T>>
    requires kv > 0
  {
    var perGroup := headDim * heads / kv;
    if |t.q| != kv * perGroup || |t.k| != kv * headDim || |t.v| != kv * headDim then None
    else
      Some(Flatten(Interleaved(Blocks(t.q, perGroup, kv), Blocks(t.k, headDim, kv), Blocks(t.v, headDim, kv))))
  }

  // ---------- Splitting ----------

  /** The parts collected from the chunks so far; `None` is a chunk that the sizes do not fill. */
  datatype Parts<T> = Parts(qs: seq<seq<T>>, ks: seq<seq<T>>, vs: seq<seq<T>>)

  function Collected<T>(chunks: seq<seq<T>>, a: nat, b: nat): Option<Parts<T>> {
    if chunks == [] then Some(Parts([], [], []))
    else
      var c := chunks[|chunks| - 1];
      match Collected(chunks[..|chunks| - 1], a, b)
      case None => None
      case Some(p) =>
        if |c| != a + b + b then None
        else Some(Parts(p.qs + [c[..a]], p.ks + [c[a..a + b]], p.vs + [c[a + b..]]))
  }

  function AllChunks<T>(shards: seq<seq<T>>, groups: nat): seq<seq<T>>
    requires groups > 0
  {
    if shards == [] then []
    else AllChunks(shards[..|shards| - 1], groups) + ChunkRows(shards[|shards| - 1], groups)
  }

  function Joined<T>(p: Option<Parts<T>>): Option<Qkv<T>> {
    match p
    case None => None
    case Some(p) => Some(Qkv(Flatten(p.qs), Flatten(p.ks), Flatten(p.vs)))
  }

  /** How many chunks a shard is cut into, and the rows of q and of k or v in each. */
  datatype Sizes = Sizes(groups: nat, a: nat, b: nat)

  function Quotient(x: nat, y: nat): nat
    requires y > 0
  {
    x / y
  }

  /** The sizes for a shard of `rows` rows; `None` stands for the failed assertions, and for a chunk count
      of zero. */
  function SplitSizes(rows: nat, heads: nat, kv: nat, tp: nat): Option<Sizes>
    requires kv > 0 && tp > 0
    ensures SplitSizes(rows, heads, kv, tp).Some? ==> SplitSizes(rows, heads, kv, tp).value.groups > 0
  {
    var nq, groups := Quotient(heads, kv), Quotient(kv, tp);
    if heads % kv != 0 || rows % (nq + 2) != 0 || groups == 0 then None
    else
      var kvSize := Quotient(rows, nq + 2);
      Some(Sizes(groups, Quotient(kvSize * nq, groups), Quotient(kvSize, groups)))
  }

  /** The merge of tensor-parallel shards; one shard and `tp == 1` is the split of a whole tensor. */
  function Merge<T>(shards: seq<seq<T>>, heads: nat, kv: nat, tp: nat): Option<Qkv<T>>
    requires kv > 0 && tp > 0 && shards != []
  {
    match SplitSizes(|shards[0]|, heads, kv, tp)
    case None => None
    case Some(z) => Joined(Collected(AllChunks(shards, z.groups), z.a, z.b))
  }

  /** The inner loop: split every chunk of one shard. */
  method CollectChunks<T>(chunks: seq<seq<T>>, a: nat, b: nat, ghost before: seq<seq<T>>, parts: Parts<T>)
      returns (all: Option<Parts<T>>)
    requires Collected(before, a, b) == Some(parts)
    ensures all == Collected(before + chunks, a, b)
  {
    var qs, ks, vs := parts.qs, parts.ks, parts.vs;
    assert before + chunks[..0] == before;
    for i := 0 to |chunks|
      invariant Collected(before + chunks[..i], a, b) == Some(Parts(qs, ks, vs))
    {
      var c := chunks[i];
      assert before + chunks[..i + 1] == before + chunks[..i] + [c];
      CollectedSnoc(before + chunks[..i], c, a, b);
      if |c| != a + b + b {
        CollectedNone(before + chunks[..i + 1], chunks[i + 1..], a, b);
        assert before + chunks[..i + 1] + chunks[i + 1..] == before + chunks;
        return None;
      }
      qs, ks, vs := qs + [c[..a]], ks + [c[a..a + b]], vs + [c[a + b..]];
    }
    assert chunks[..|chunks|] == chunks;
    all := Some(Parts(qs, ks, vs));
  }

  lemma CollectedSnoc<T>(chunks: seq<seq<T>>, c: seq<T>, a: nat, b: nat)
    ensures Collected(chunks + [c], a, b) ==
      match Collected(chunks, a, b)
      case None => None
      case Some(p) =>
        if |c| != a + b + b then None
        else Some(Parts(p.qs + [c[..a]], p.ks + [c[a..a + b]], p.vs + [c[a + b..]]))
  {
    assert (chunks + [c])[..|chunks|] == chunks;
  }

  lemma {:induction false} CollectedNone<T>(chunks: seq<seq<T>>, more: seq<seq<T>>, a: nat, b: nat)
    requires Collected(chunks, a, b) == None
    ensures Collected(chunks + more, a, b) == None
  {
    if more == [] {
      assert chunks + more == chunks;
    } else {
      var init, c := more[..|more| - 1], more[|more| - 1];
      CollectedNone(chunks, init, a, b);
      CollectedSnoc(chunks + init, c, a, b);
      assert chunks + more == (chunks + init) + [c];
    }
  }

  /** The split of a whole tensor. */
  method SplitTensors<T>(tensor: seq<T>, heads: nat, kv: nat) returns (r: Option<Qkv<T>>)
    requires kv > 0
    ensures r == Merge([tensor], heads, kv, 1)
  {
    hide *;
    MergeIs([tensor], heads, kv, 1);
    var sizes := SplitSizes(|tensor|, heads, kv, 1);
    if sizes.None? {
      return None;
    }
    var Sizes(groups, a, b) := sizes.value;
    OneShard(tensor, groups);
    CollectedNothing<T>(a, b);
    assert [] + ChunkRows(tensor, groups) == ChunkRows(tensor, groups);
    var parts := CollectChunks(ChunkRows(tensor, groups), a, b, [], Parts([], [], []));
    JoinedIs(parts);
    r := if parts.None? then None
         else Some(Qkv(Flatten(parts.value.qs), Flatten(parts.value.ks), Flatten(parts.value.vs)));
  }

  lemma MergeIs<T>(shards: seq<seq<T>>, heads: nat, kv: nat, tp: nat)
    requires kv > 0 && tp > 0 && shards != []
    ensures Merge(shards, heads, kv, tp) ==
      match SplitSizes(|shards[0]|, heads, kv, tp)
      case None => None
      case Some(z) => Joined(Collected(AllChunks(shards, z.groups), z.a, z.b))
  {}

  lemma OneShard<T>(tensor: seq<T>, groups: nat)
    requires groups > 0
    ensures AllChunks([tensor], groups) == ChunkRows(tensor, groups)
  {
    assert [tensor][..0] == [];
    assert AllChunks<T>([], groups) == [];
  }

  lemma CollectedNothing<T>(a: nat, b: nat)
    ensures Collected<T>([], a, b) == Some(Parts([], [], []))
  {}

  lemma {:induction false} AllChunksGrow<T>(shards: seq<seq<T>>, n: nat, groups: nat)
    requires groups > 0 && n <= |shards|
    ensures AllChunks(shards[..n], groups) <= AllChunks(shards, groups)
  {
    if n < |shards| {
      AllChunksGrow(shards[..|shards| - 1], n, groups);
      assert shards[..|shards| - 1][..n] == shards[..n];
    } else {
      assert shards[..n] == shards;
    }
  }

  lemma AllChunksNext<T>(shards: seq<seq<T>>, n: nat, groups: nat)
    requires groups > 0 && n < |shards|
    ensures AllChunks(shards[..n + 1], groups) == AllChunks(shards[..n], groups) + ChunkRows(shards[n], groups)
  {
    assert shards[..n + 1][..n] == shards[..n];
  }

  /** The merge across tensor-parallel ranks. */
  method MergeAcrossTp<T>(shards: seq<seq<T>>, heads: nat, kv: nat, tp: nat) returns (r: Option<Qkv<T>>)
    requires kv > 0 && tp > 0 && shards != []
    ensures r == Merge(shards, heads, kv, tp)
  {
    hide *;
    MergeIs(shards, heads, kv, tp);
    var sizes := SplitSizes(|shards[0]|, heads, kv, tp);
    if sizes.None? {
      return None;
    }
    var Sizes(groups, a, b) := sizes.value;
    var parts: Parts<T> := Parts([], [], []);
    CollectedNothing<T>(a, b);
    NoShards(shards, groups);
    for i := 0 to |shards|
      invariant Collected(AllChunks(shards[..i], groups), a, b) == Some(parts)
    {
      AllChunksNext(shards, i, groups);
      var more := CollectChunks(ChunkRows(shards[i], groups), a, b, AllChunks(shards[..i], groups), parts);
      if more.None? {
        NoneStays(shards, i + 1, groups, a, b);
        return None;
      }
      parts := more.value;
    }
    assert shards[..|shards|] == shards;
    JoinedIs(Some(parts));
    r := Some(Qkv(Flatten(parts.qs), Flatten(parts.ks), Flatten(parts.vs)));
  }

  lemma NoShards<T>(shards: seq<seq<T>>, groups: nat)
    requires groups > 0
    ensures AllChunks(shards[..0], groups) == []
  {}

  lemma JoinedIs<T>(p: Option<Parts<T>>)
    ensures Joined(p) == if p.None? then None else Some(Qkv(Flatten(p.value.qs), Flatten(p.value.ks), Flatten(p.value.vs)))
  {}

  lemma NoneStays<T>(shards: seq<seq<T>>, n: nat, groups: nat, a: nat, b: nat)
    requires groups > 0 && n <= |shards| && Collected(AllChunks(shards[..n], groups), a, b) == None
    ensures Joined(Collected(AllChunks(shards, groups), a, b)) == None
  {
    AllChunksGrow(shards, n, groups);
    var all, some := AllChunks(shards, groups), AllChunks(shards[..n], groups);
    CollectedNone(some, all[|some|..], a, b);
    assert some + all[|some|..] == all;
  }
}
