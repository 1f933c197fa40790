/** Merging the state dicts of a rank's model chunks: local layer numbers become global ones. */
module LayerNumbering {
  import opened Arithmetic
  import opened Options
  import opened Sums
  import opened PipelineShards
  import opened Prefixes

  /** A parameter name: of a layer, of the model outside its layers, or one that the merger skips. */
  datatype Key = InLayer(layer: nat, param: string) | Outside(param: string) | Skipped(param: string)

  datatype Entry<T> = Entry(key: Key, value: T)

  /** A state dict in insertion order. */
  type Chunk<T> = seq<Entry<T>>

  function Max(a: nat, b: nat): nat {
    if a < b then b else a
  }

  function Renamed(k: Key, cum: nat): Key {
    match k
    case InLayer(l, p) => InLayer(l + cum, p)
    case Outside(_) => k
    case Skipped(_) => k
  }

  /** The largest local layer number among the first n entries. */
  function Handled<T>(chunk: Chunk<T>, n: nat): nat
    requires n <= |chunk|
  {
    if n == 0 then 0
    else
      var h := Handled(chunk, n - 1);
      if chunk[n - 1].key.InLayer? then Max(chunk[n - 1].key.layer, h) else h
  }

  /** The dict after the first n entries of a chunk. */
  function Into<T>(state: map<Key, T>, chunk: Chunk<T>, cum: nat, n: nat): map<Key, T>
    requires n <= |chunk|
  {
    if n == 0 then state
    else
      var before := Into(state, chunk, cum, n - 1);
      var e := chunk[n - 1];
      if e.key.Skipped? then before else before[Renamed(e.key, cum) := e.value]
  }

  /** The number added to the local layers of chunk c. */
  function Cum<T>(chunks: seq<Chunk<T>>, start: nat, c: nat): nat
    requires c <= |chunks|
  {
    if c == 0 then start else Cum(chunks, start, c - 1) + Handled(chunks[c - 1], |chunks[c - 1]|) + 1
  }

  function Merged<T>(chunks: seq<Chunk<T>>, start: nat, n: nat): map<Key, T>
    requires n <= |chunks|
  {
    if n == 0 then map[]
    else Into(Merged(chunks, start, n - 1), chunks[n - 1], Cum(chunks, start, n - 1), |chunks[n - 1]|)
  }

  /** One chunk of the merge loop. */
  method MergeChunk<T>(before: map<Key, T>, chunk: Chunk<T>, cum: nat) returns (state: map<Key, T>, layersCum: nat)
    ensures state == Into(before, chunk, cum, |chunk|)
    ensures layersCum == cum + Handled(chunk, |chunk|) + 1
  {
    state := before;
    var layersHandled := 0;
    for i := 0 to |chunk|
      invariant state == Into(before, chunk, cum, i) && layersHandled == Handled(chunk, i)
    {
      var e := chunk[i];
      if e.key.Skipped? {
        continue;
      }
      if e.key.InLayer? {
        layersHandled := Max(e.key.layer, layersHandled);
      }
      state := state[Renamed(e.key, cum) := e.value];
    }
    layersCum := cum + layersHandled + 1;
  }

  /** The merge of one rank, whose first layer is `shards[..rank]` in. */
  method MergeStateDicts<T>(chunks: seq<Chunk<T>>, shards: seq<int>, worldSize: nat, rank: nat)
      returns (state: map<Key, T>)
    requires worldSize > 1 ==> rank < |shards| && NonNegative(shards)
    ensures worldSize > 1 ==> Start(shards, rank) >= 0 && state == Merged(chunks, Start(shards, rank), |chunks|)
    ensures worldSize <= 1 ==> state == Merged(chunks, 0, |chunks|)
  {
    var layersCum: nat := 0;
    if worldSize > 1 && rank != 0 {
      StartMono(shards, 0, rank);
      StartAll(shards);
      layersCum := Start(shards, rank);
    }
    StartAll(shards);
    ghost var start := layersCum;
    state := map[];
    for c := 0 to |chunks|
      invariant state == Merged(chunks, start, c) && layersCum == Cum(chunks, start, c)
    {
      state, layersCum := MergeChunk(state, chunks[c], layersCum);
    }
  }

  /** The order in which the legacy merger visits the chunks `byRank[pp][vpp]`. */
  function Visited<T>(byRank: seq<seq<Chunk<T>>>, v: nat, p: nat): seq<Chunk<T>>
    requires p <= |byRank| && forall i :: 0 <= i < |byRank| ==> |byRank[i]| >= v + (if p == 0 then 0 else 1)
    decreases v, p
  {
    if p > 0 then Visited(byRank, v, p - 1) + [byRank[p - 1][v]]
    else if v > 0 then Visited(byRank, v - 1, |byRank|)
    else []
  }

  lemma {:induction false} MergedPrefix<T>(a: seq<Chunk<T>>, b: seq<Chunk<T>>, start: nat, n: nat)
    requires a <= b && n <= |a|
    ensures Merged(a, start, n) == Merged(b, start, n) && Cum(a, start, n) == Cum(b, start, n)
  {
    if n > 0 { MergedPrefix(a, b, start, n - 1); }
  }

  lemma MergedSnoc<T>(chunks: seq<Chunk<T>>, chunk: Chunk<T>, start: nat)
    ensures var n, more := |chunks|, chunks + [chunk];
      && Merged(more, start, n + 1) ==
           Into(Merged(chunks, start, n), chunk, Cum(chunks, start, n), |chunk|)
      && Cum(more, start, n + 1) == Cum(chunks, start, n) + Handled(chunk, |chunk|) + 1
  {
    MergedPrefix(chunks, chunks + [chunk], start, |chunks|);
  }

  /** The legacy merge: virtual stages outside, pipeline ranks inside. */
  method MergeLegacy<T>(byRank: seq<seq<Chunk<T>>>) returns (state: map<Key, T>)
    requires byRank != [] && forall i :: 0 <= i < |byRank| ==> |byRank[i]| >= |byRank[0]|
    ensures var order := Visited(byRank, |byRank[0]|, 0); state == Merged(order, 0, |order|)
  {
    hide Merged;
    hide Cum;
    state := map[];
    var layersCum := 0;
    ghost var order: seq<Chunk<T>> := [];
    assert Merged(order, 0, 0) == map[] && Cum(order, 0, 0) == 0 by { MergedNothing(order); }
    for v := 0 to |byRank[0]|
      invariant order == Visited(byRank, v, 0)
      invariant state == Merged(order, 0, |order|) && layersCum == Cum(order, 0, |order|)
    {
      for p := 0 to |byRank|
        invariant order == Visited(byRank, v, p)
        invariant state == Merged(order, 0, |order|) && layersCum == Cum(order, 0, |order|)
      {
        MergedSnoc(order, byRank[p][v], 0);
        state, layersCum := MergeChunk(state, byRank[p][v], layersCum);
        order := order + [byRank[p][v]];
      }
    }
  }

  lemma MergedNothing<T>(chunks: seq<Chunk<T>>)
    ensures Merged(chunks, 0, 0) == map[] && Cum(chunks, 0, 0) == 0
  {}

  // ---------- What the merged dict holds ----------

  ghost predicate DistinctKeys<T>(chunk: Chunk<T>) {
    forall i, j :: 0 <= i < j < |chunk| ==> chunk[i].key != chunk[j].key
  }

  /** Entry i of chunk c is the one stored under a global layer key. */
  ghost predicate StoredAs<T>(chunks: seq<Chunk<T>>, start: nat, c: nat, i: nat, key: Key) {
    c < |chunks| && i < |chunks[c]| && chunks[c][i].key.InLayer? &&
    Renamed(chunks[c][i].key, Cum(chunks, start, c)) == key
  }

  ghost predicate Puts<T>(chunk: Chunk<T>, cum: nat, i: nat, key: Key) {
    i < |chunk| && chunk[i].key.InLayer? && Renamed(chunk[i].key, cum) == key
  }

  lemma {:induction false} IntoExact<T>(state: map<Key, T>, chunk: Chunk<T>, cum: nat, n: nat, key: Key)
    requires n <= |chunk| && key.InLayer? && DistinctKeys(chunk)
    ensures var r := Into(state, chunk, cum, n);
      && (key in r <==> key in state || exists i: nat :: i < n && Puts(chunk, cum, i, key))
      && (forall i: nat :: i < n && Puts(chunk, cum, i, key) ==> r[key] == chunk[i].value)
      && ((forall i: nat :: i < n ==> !Puts(chunk, cum, i, key)) ==> (key in r ==> r[key] == state[key]))
  {
    if n > 0 {
      IntoExact(state, chunk, cum, n - 1, key);
      assert forall i: nat :: i < n - 1 && Puts(chunk, cum, i, key) ==> !Puts(chunk, cum, n - 1, key);
      assert Puts(chunk, cum, n - 1, key) <==>
        !chunk[n - 1].key.Skipped? && Renamed(chunk[n - 1].key, cum) == key;
    }
  }

  lemma {:induction false} HandledAbove<T>(chunk: Chunk<T>, n: nat, i: nat)
    requires i < n <= |chunk| && chunk[i].key.InLayer?
    ensures chunk[i].key.layer <= Handled(chunk, n)
  {
    if i < n - 1 { HandledAbove(chunk, n - 1, i); }
  }

  lemma {:induction false} CumRises<T>(chunks: seq<Chunk<T>>, start: nat, c: nat, d: nat)
    requires c < d <= |chunks|
    ensures Cum(chunks, start, d) >= Cum(chunks, start, c) + Handled(chunks[c], |chunks[c]|) + 1
  {
    if c + 1 < d { CumRises(chunks, start, c, d - 1); }
  }

  /** No two chunks write the same layer key. */
  lemma OneWriter<T>(chunks: seq<Chunk<T>>, start: nat, c: nat, i: nat, d: nat, j: nat, key: Key)
    requires StoredAs(chunks, start, c, i, key) && StoredAs(chunks, start, d, j, key)
    ensures c == d
  {
    HandledAbove(chunks[c], |chunks[c]|, i);
    HandledAbove(chunks[d], |chunks[d]|, j);
    if c < d { CumRises(chunks, start, c, d); }
    if d < c { CumRises(chunks, start, d, c); }
  }

  /** One of the first n chunks stores the key. */
  ghost predicate Stored<T>(chunks: seq<Chunk<T>>, start: nat, n: nat, key: Key) {
    exists c: nat, i: nat :: c < n && StoredAs(chunks, start, c, i, key)
  }

  lemma StoredNext<T>(chunks: seq<Chunk<T>>, start: nat, n: nat, key: Key, chunk: Chunk<T>, cum: nat)
    requires n < |chunks| && chunk == chunks[n] && cum == Cum(chunks, start, n)
    ensures
      && (forall i: nat :: Puts(chunk, cum, i, key) <==> StoredAs(chunks, start, n, i, key))
      && (Stored(chunks, start, n + 1, key) <==>
            Stored(chunks, start, n, key) || exists i: nat :: i < |chunk| && Puts(chunk, cum, i, key))
      && (Stored(chunks, start, n, key) ==> forall i: nat :: !Puts(chunk, cum, i, key))
  {
    forall i: nat ensures Puts(chunk, cum, i, key) <==> StoredAs(chunks, start, n, i, key) {}
    if Stored(chunks, start, n, key) {
      var c: nat, i: nat :| c < n && StoredAs(chunks, start, c, i, key);
      forall j: nat ensures !Puts(chunk, cum, j, key) {
        if StoredAs(chunks, start, n, j, key) { OneWriter(chunks, start, c, i, n, j, key); }
      }
    }
  }

  /** The merged dict holds exactly the layer entries of all chunks, each under its own key. */
  lemma {:induction false} MergedExact<T>(chunks: seq<Chunk<T>>, start: nat, n: nat, key: Key)
    requires n <= |chunks| && key.InLayer? && forall c <- chunks :: DistinctKeys(c)
    ensures var r := Merged(chunks, start, n);
      && (key in r <==> Stored(chunks, start, n, key))
      && (forall c: nat, i: nat :: c < n && StoredAs(chunks, start, c, i, key) ==> r[key] == chunks[c][i].value)
  {
    if n > 0 {
      MergedExact(chunks, start, n - 1, key);
      var cum, chunk := Cum(chunks, start, n - 1), chunks[n - 1];
      var before := Merged(chunks, start, n - 1);
      assert chunk in chunks;
      hide DistinctKeys;
      IntoExact(before, chunk, cum, |chunk|, key);
      StoredNext(chunks, start, n - 1, key, chunk, cum);
      var after := Into(before, chunk, cum, |chunk|);
      assert Merged(chunks, start, n) == after;
      hide StoredAs;
      hide Puts;
      hide Into;
      hide Merged;
      hide Cum;
      forall c: nat, i: nat | c < n && StoredAs(chunks, start, c, i, key)
        ensures c < |chunks| && i < |chunks[c]| && Merged(chunks, start, n)[key] == chunks[c][i].value
      {
        StoredBounds(chunks, start, c, i, key);
        if c < n - 1 {
          assert Stored(chunks, start, n - 1, key);
          assert key in before && before[key] == chunks[c][i].value;
        } else {
          assert Puts(chunk, cum, i, key);
        }
      }
    }
  }

  lemma StoredBounds<T>(chunks: seq<Chunk<T>>, start: nat, c: nat, i: nat, key: Key)
    requires StoredAs(chunks, start, c, i, key)
    ensures c < |chunks| && i < |chunks[c]|
  {}

  function Find<T>(state: map<Key, T>, key: Key): Option<T> {
    if key in state then Some(state[key]) else None
  }

  /** The last value that the first n entries of a chunk give a key. */
  function ValueIn<T>(chunk: Chunk<T>, n: nat, key: Key): Option<T>
    requires n <= |chunk|
  {
    if n == 0 then None
    else if chunk[n - 1].key == key then Some(chunk[n - 1].value)
    else ValueIn(chunk, n - 1, key)
  }

  /** The value from the last of the first n chunks that has the key. */
  function LastValue<T>(chunks: seq<Chunk<T>>, n: nat, key: Key): Option<T>
    requires n <= |chunks|
  {
    if n == 0 then None
    else
      var v := ValueIn(chunks[n - 1], |chunks[n - 1]|, key);
      if v.Some? then v else LastValue(chunks, n - 1, key)
  }

  lemma {:induction false} IntoOutside<T>(state: map<Key, T>, chunk: Chunk<T>, cum: nat, n: nat, key: Key)
    requires n <= |chunk| && key.Outside?
    ensures Find(Into(state, chunk, cum, n), key) ==
      if ValueIn(chunk, n, key).Some? then ValueIn(chunk, n, key) else Find(state, key)
  {
    if n > 0 { IntoOutside(state, chunk, cum, n - 1, key); }
  }

  /** A key outside the layers has the value of the last chunk that has it. */
  lemma {:induction false} MergedOutside<T>(chunks: seq<Chunk<T>>, start: nat, n: nat, key: Key)
    requires n <= |chunks| && key.Outside?
    ensures Find(Merged(chunks, start, n), key) == LastValue(chunks, n, key)
  {
    if n > 0 {
      MergedOutside(chunks, start, n - 1, key);
      IntoOutside(Merged(chunks, start, n - 1), chunks[n - 1], Cum(chunks, start, n - 1), |chunks[n - 1]|, key);
    }
  }

  lemma {:induction false} IntoSkips<T>(state: map<Key, T>, chunk: Chunk<T>, cum: nat, n: nat, key: Key)
    requires n <= |chunk| && key.Skipped?
    ensures key in Into(state, chunk, cum, n) <==> key in state
  {
    if n > 0 { IntoSkips(state, chunk, cum, n - 1, key); }
  }

  /** No skipped parameter gets into the merged dict. */
  lemma {:induction false} MergedSkips<T>(chunks: seq<Chunk<T>>, start: nat, n: nat, key: Key)
    requires n <= |chunks| && key.Skipped?
    ensures key !in Merged(chunks, start, n)
  {
    if n > 0 {
      MergedSkips(chunks, start, n - 1, key);
      IntoSkips(Merged(chunks, start, n - 1), chunks[n - 1], Cum(chunks, start, n - 1), |chunks[n - 1]|, key);
    }
  }

  // ---------- When the global numbers are the model's ----------

  /** The chunk holds keys of exactly the local layers 0 to n - 1. */
  ghost predicate HasLayers<T>(chunk: Chunk<T>, n: int) {
    && n >= 0
    && (forall i :: 0 <= i < |chunk| && chunk[i].key.InLayer? ==> chunk[i].key.layer < n)
    && (n > 0 ==> exists i :: 0 <= i < |chunk| && chunk[i].key.InLayer? && chunk[i].key.layer == n - 1)
  }

  lemma {:induction false} HandledBelow<T>(chunk: Chunk<T>, n: nat, bound: nat)
    requires n <= |chunk| && forall i :: 0 <= i < n && chunk[i].key.InLayer? ==> chunk[i].key.layer <= bound
    ensures Handled(chunk, n) <= bound
  {
    if n > 0 { HandledBelow(chunk, n - 1, bound); }
  }

  lemma HandledLayers<T>(chunk: Chunk<T>, n: int)
    requires HasLayers(chunk, n)
    ensures Handled(chunk, |chunk|) + 1 == if n == 0 then 1 else n
  {
    if n > 0 {
      var i :| 0 <= i < |chunk| && chunk[i].key.InLayer? && chunk[i].key.layer == n - 1;
      HandledAbove(chunk, |chunk|, i);
      HandledBelow(chunk, |chunk|, n - 1);
    } else {
      HandledBelow(chunk, |chunk|, 0);
    }
  }

  ghost predicate AllHaveLayers<T>(chunks: seq<Chunk<T>>, ns: seq<int>) {
    |chunks| == |ns| && forall c :: 0 <= c < |ns| ==> HasLayers(chunks[c], ns[c])
  }

  function Empty(ns: seq<int>, c: nat): nat
    requires c <= |ns|
  {
    if c == 0 then 0 else Empty(ns, c - 1) + if ns[c - 1] == 0 then 1 else 0
  }

  lemma {:induction false} CumIs<T>(chunks: seq<Chunk<T>>, ns: seq<int>, start: nat, c: nat)
    requires AllHaveLayers(chunks, ns) && c <= |ns|
    ensures Cum(chunks, start, c) == start + Start(ns, c) + Empty(ns, c)
  {
    if c > 0 {
      CumIs(chunks, ns, start, c - 1);
      StartNext(ns, c - 1);
      HandledLayers(chunks[c - 1], ns[c - 1]);
    } else {
      StartAll(ns);
    }
  }

  lemma {:induction false} EmptyIff(ns: seq<int>, c: nat)
    requires NonNegative(ns) && c <= |ns|
    ensures Empty(ns, c) == 0 <==> forall b :: 0 <= b < c ==> ns[b] > 0
  {
    if c > 0 { EmptyIff(ns, c - 1); }
  }

  ghost predicate NumberedRight<T>(chunks: seq<Chunk<T>>, ns: seq<int>, start: nat)
    requires |chunks| == |ns|
  {
    forall c: nat :: c < |ns| && ns[c] > 0 ==> Cum(chunks, start, c) == start + Start(ns, c)
  }

  /** Every layer gets its number in the model exactly when no chunk without layers precedes one with
      layers: such a chunk is counted as if it had one. */
  lemma NumberingIff<T>(chunks: seq<Chunk<T>>, ns: seq<int>, start: nat)
    requires AllHaveLayers(chunks, ns)
    ensures NumberedRight(chunks, ns, start) <==>
      forall c, d :: 0 <= c < d < |ns| && ns[d] > 0 ==> ns[c] > 0
  {
    forall d: nat | d < |ns|
      ensures Cum(chunks, start, d) == start + Start(ns, d) <==> forall c :: 0 <= c < d ==> ns[c] > 0
    {
      CumIs(chunks, ns, start, d);
      EmptyIff(ns, d);
    }
  }

  /** An embedding-only chunk shifts the layers behind it by one. */
  lemma EmptyChunkShifts(e: string, p: string)
    ensures var chunks: seq<Chunk<int>> := [[Entry(Outside(e), 0)], [Entry(InLayer(0, p), 1)]];
      AllHaveLayers(chunks, [0, 1]) && Merged(chunks, 0, 2) == map[Outside(e) := 0, InLayer(1, p) := 1]
  {
    var chunks: seq<Chunk<int>> := [[Entry(Outside(e), 0)], [Entry(InLayer(0, p), 1)]];
    assert chunks[1][0].key.layer == 0;
    assert Handled(chunks[0], 1) == Handled(chunks[0], 0);
    assert Cum(chunks, 0, 1) == Cum(chunks, 0, 0) + Handled(chunks[0], 1) + 1;
    var one := Merged(chunks, 0, 1);
    assert one == Into(Merged(chunks, 0, 0), chunks[0], 0, 1);
    assert Into(Merged(chunks, 0, 0), chunks[0], 0, 0) == map[];
    assert one == map[Outside(e) := 0];
    assert Into(one, chunks[1], 1, 0) == one;
    assert Into(one, chunks[1], 1, 1) == one[InLayer(1, p) := 1];
  }

  // ---------- The legacy order ----------

  /** Rank by rank, each with the chunks of at least n virtual stages. */
  ghost predicate HasStages<T>(byRank: seq<seq<Chunk<T>>>, n: nat) {
    forall r :: 0 <= r < |byRank| ==> |byRank[r]| >= n
  }

  lemma {:induction false} VisitedCount<T>(byRank: seq<seq<Chunk<T>>>, v: nat, p: nat)
    requires p <= |byRank| && HasStages(byRank, v + if p == 0 then 0 else 1)
    ensures |Visited(byRank, v, p)| == v * |byRank| + p
    decreases v, p
  {
    if p > 0 {
      VisitedCount(byRank, v, p - 1);
    } else if v > 0 {
      VisitedCount(byRank, v - 1, |byRank|);
      assert v * |byRank| == (v - 1) * |byRank| + |byRank|;
    }
  }

  /** The chunk visited at place `w * pp + r` is that of stage w on rank r: the ranks of a stage in order, before
      those of the next stage. */
  lemma {:induction false} VisitedAt<T>(byRank: seq<seq<Chunk<T>>>, v: nat, p: nat, w: nat, r: nat)
    requires p <= |byRank| && HasStages(byRank, v + if p == 0 then 0 else 1)
    requires r < |byRank| && (w < v || (w == v && r < p))
    ensures |Visited(byRank, v, p)| == v * |byRank| + p
    ensures 0 <= w * |byRank| + r < |Visited(byRank, v, p)|
    ensures w < |byRank[r]| && Visited(byRank, v, p)[w * |byRank| + r] == byRank[r][w]
    decreases v, p
  {
    VisitedCount(byRank, v, p);
    if p > 0 {
      VisitedCount(byRank, v, p - 1);
      if w != v || r != p - 1 { VisitedAt(byRank, v, p - 1, w, r); }
    } else {
      VisitedAt(byRank, v - 1, |byRank|, w, r);
    }
  }

  /** The layers that stage w is taken to have on the ranks below r: a chunk without layers counts as one. */
  function StageSum(ns: seq<seq<int>>, w: nat, r: nat): int
    requires r <= |ns| && forall q :: 0 <= q < r ==> w < |ns[q]|
  {
    Sum(seq(r, q requires 0 <= q < r => if ns[q][w] == 0 then 1 else ns[q][w]))
  }

  /** The layers before stage v of rank r: all of the stages before, and those of the ranks before in stage v. */
  function LayersBefore(ns: seq<seq<int>>, v: nat, r: nat): int
    requires r < |ns| && forall q :: 0 <= q < |ns| ==> v < |ns[q]|
  {
    Sum(seq(v, w requires 0 <= w < v => StageSum(ns, w, |ns|))) + StageSum(ns, v, r)
  }

  ghost predicate StagesHaveLayers<T>(byRank: seq<seq<Chunk<T>>>, ns: seq<seq<int>>, n: nat) {
    && |ns| == |byRank| && HasStages(byRank, n)
    && forall r :: 0 <= r < |ns| ==> |ns[r]| >= n && forall v :: 0 <= v < n ==> HasLayers(byRank[r][v], ns[r][v])
  }

  lemma SumSnoc(xs: seq<int>, x: int)
    ensures Sum(xs + [x]) == Sum(xs) + x
  {
    SumAppend(xs, [x]);
    assert [x][1..] == [];
    assert Sum([x]) == x;
  }

  lemma StageSumNext(ns: seq<seq<int>>, w: nat, r: nat)
    requires r < |ns| && forall q :: 0 <= q <= r ==> w < |ns[q]|
    ensures StageSum(ns, w, 0) == 0
    ensures StageSum(ns, w, r + 1) == StageSum(ns, w, r) + if ns[r][w] == 0 then 1 else ns[r][w]
  {
    var a := seq(r, q requires 0 <= q < r => if ns[q][w] == 0 then 1 else ns[q][w]);
    var b := seq(r + 1, q requires 0 <= q < r + 1 => if ns[q][w] == 0 then 1 else ns[q][w]);
    var x := if ns[r][w] == 0 then 1 else ns[r][w];
    assert b == a + [x];
    SumSnoc(a, x);
  }

  lemma LayersBeforeNext(ns: seq<seq<int>>, v: nat)
    requires ns != [] && forall q :: 0 <= q < |ns| ==> v + 1 < |ns[q]|
    ensures LayersBefore(ns, v + 1, 0) == LayersBefore(ns, v, 0) + StageSum(ns, v, |ns|)
  {
    var a := seq(v, w requires 0 <= w < v => StageSum(ns, w, |ns|));
    var b := seq(v + 1, w requires 0 <= w < v + 1 => StageSum(ns, w, |ns|));
    assert b == a + [StageSum(ns, v, |ns|)];
    SumSnoc(a, StageSum(ns, v, |ns|));
    StageSumNext(ns, v, 0);
    StageSumNext(ns, v + 1, 0);
  }

  /** Chunk k of the visited ones is that of stage v on rank r. */
  ghost predicate PlaceIs(pp: nat, v: nat, r: nat, k: nat) {
    r < pp && k == v * pp + r
  }

  lemma PlaceBefore(pp: nat, v: nat, r: nat, k: nat)
    requires PlaceIs(pp, v, r, k)
    ensures if r > 0 then k > 0 && PlaceIs(pp, v, r - 1, k - 1)
      else if v > 0 then k > 0 && PlaceIs(pp, v - 1, pp - 1, k - 1)
      else k == 0
  {
    if r == 0 && v > 0 { TimesNext(v, pp); }
  }

  lemma {:induction false} LegacyCum<T>(byRank: seq<seq<Chunk<T>>>, ns: seq<seq<int>>, n: nat, v: nat, r: nat, k: nat)
    requires StagesHaveLayers(byRank, ns, n) && v < n && PlaceIs(|byRank|, v, r, k)
    ensures HasStages(byRank, n) && k < |Visited(byRank, n, 0)|
    ensures r < |ns| == |byRank| && forall q :: 0 <= q < |ns| ==> n <= |ns[q]|
    ensures Cum(Visited(byRank, n, 0), 0, k) == LayersBefore(ns, v, r)
    decreases k
  {
    hide *;
    EnoughStages(byRank, ns, n);
    PlaceBefore(|byRank|, v, r, k);
    LegacyNext(byRank, ns, n, v, r, k);
    if r > 0 {
      LegacyCum(byRank, ns, n, v, r - 1, k - 1);
      LegacyNext(byRank, ns, n, v, r - 1, k - 1);
      NextRank(ns, v, r - 1);
    } else if v > 0 {
      LegacyCum(byRank, ns, n, v - 1, |byRank| - 1, k - 1);
      LegacyNext(byRank, ns, n, v - 1, |byRank| - 1, k - 1);
      NextStage(ns, v - 1);
    } else {
      NothingBefore(byRank, ns, n);
    }
  }

  lemma EnoughStages<T>(byRank: seq<seq<Chunk<T>>>, ns: seq<seq<int>>, n: nat)
    requires StagesHaveLayers(byRank, ns, n)
    ensures HasStages(byRank, n) && |ns| == |byRank| && forall q :: 0 <= q < |ns| ==> |ns[q]| >= n
    ensures forall q :: 0 <= q < |byRank| ==> |byRank[q]| >= n
  {}

  lemma NothingBefore<T>(byRank: seq<seq<Chunk<T>>>, ns: seq<seq<int>>, n: nat)
    requires StagesHaveLayers(byRank, ns, n) && n > 0 && byRank != []
    ensures Cum(Visited(byRank, n, 0), 0, 0) == 0 && LayersBefore(ns, 0, 0) == 0
  {
    StageSumNext(ns, 0, 0);
  }

  lemma NextRank(ns: seq<seq<int>>, v: nat, r: nat)
    requires r + 1 < |ns| && forall q :: 0 <= q < |ns| ==> v < |ns[q]|
    ensures LayersBefore(ns, v, r + 1) == LayersBefore(ns, v, r) + if ns[r][v] == 0 then 1 else ns[r][v]
  {
    StageSumNext(ns, v, r);
    hide StageSum;
  }

  lemma NextStage(ns: seq<seq<int>>, v: nat)
    requires ns != [] && forall q :: 0 <= q < |ns| ==> v + 1 < |ns[q]|
    ensures var r := |ns| - 1;
      LayersBefore(ns, v + 1, 0) == LayersBefore(ns, v, r) + if ns[r][v] == 0 then 1 else ns[r][v]
  {
    LayersBeforeNext(ns, v);
    StageSumNext(ns, v, |ns| - 1);
    StageSumNext(ns, v, 0);
    hide StageSum;
  }

  lemma LegacyNext<T>(byRank: seq<seq<Chunk<T>>>, ns: seq<seq<int>>, n: nat, v: nat, r: nat, k: nat)
    requires StagesHaveLayers(byRank, ns, n) && v < n && PlaceIs(|byRank|, v, r, k)
    ensures r < |ns| && v < |ns[r]| && k < |Visited(byRank, n, 0)|
    ensures Cum(Visited(byRank, n, 0), 0, k + 1) ==
      Cum(Visited(byRank, n, 0), 0, k) + if ns[r][v] == 0 then 1 else ns[r][v]
  {
    VisitedAt(byRank, n, 0, v, r);
    HandledLayers(byRank[r][v], ns[r][v]);
    hide Visited;
  }

  /** Where the legacy merge stores a layer: local layer l of stage v on rank r gets the number l plus the layers of
      all stages before v and of the ranks before r in stage v. */
  lemma LegacyLayer<T>(byRank: seq<seq<Chunk<T>>>, ns: seq<seq<int>>, v: nat, r: nat, i: nat)
    requires byRank != [] && StagesHaveLayers(byRank, ns, |byRank[0]|) && v < |byRank[0]| && r < |byRank|
    requires forall q, w :: 0 <= q < |byRank| && 0 <= w < |byRank[0]| ==> DistinctKeys(byRank[q][w])
    requires i < |byRank[r][v]| && byRank[r][v][i].key.InLayer?
    ensures LayersBefore(ns, v, r) >= 0
    ensures var order, e := Visited(byRank, |byRank[0]|, 0), byRank[r][v][i];
      var key, state := InLayer(e.key.layer + LayersBefore(ns, v, r), e.key.param), Merged(order, 0, |order|);
      key in state && state[key] == e.value
  {
    hide *;
    var n := |byRank[0]|;
    EnoughStages(byRank, ns, n);
    var c := LegacyPlace(byRank, n, v, r);
    DistinctVisited(byRank, n);
    LegacyCum(byRank, ns, n, v, r, c);
    MergedAt(Visited(byRank, n, 0), c, i);
  }

  lemma LegacyPlace<T>(byRank: seq<seq<Chunk<T>>>, n: nat, v: nat, r: nat) returns (c: nat)
    requires HasStages(byRank, n) && v < n && r < |byRank|
    ensures PlaceIs(|byRank|, v, r, c)
    ensures v < |byRank[r]| && c < |Visited(byRank, n, 0)| && Visited(byRank, n, 0)[c] == byRank[r][v]
  {
    VisitedAt(byRank, n, 0, v, r);
    c := v * |byRank| + r;
  }

  lemma DistinctVisited<T>(byRank: seq<seq<Chunk<T>>>, n: nat)
    requires HasStages(byRank, n)
    requires forall q, w :: 0 <= q < |byRank| && 0 <= w < n ==> DistinctKeys(byRank[q][w])
    ensures forall c <- Visited(byRank, n, 0) :: DistinctKeys(c)
  {
    VisitedFrom(byRank, n, 0);
    hide Visited;
    hide DistinctKeys;
  }

  lemma MergedAt<T>(chunks: seq<Chunk<T>>, c: nat, i: nat)
    requires c < |chunks| && i < |chunks[c]| && chunks[c][i].key.InLayer? && forall d <- chunks :: DistinctKeys(d)
    ensures var e, state := chunks[c][i], Merged(chunks, 0, |chunks|);
      var key := InLayer(e.key.layer + Cum(chunks, 0, c), e.key.param);
      key in state && state[key] == e.value
  {
    hide DistinctKeys;
    hide Merged;
    var key := InLayer(chunks[c][i].key.layer + Cum(chunks, 0, c), chunks[c][i].key.param);
    assert StoredAs(chunks, 0, c, i, key);
    MergedExact(chunks, 0, |chunks|, key);
    assert Stored(chunks, 0, |chunks|, key);
  }

  /** Only the ranks' chunks are visited. */
  lemma {:induction false} VisitedFrom<T>(byRank: seq<seq<Chunk<T>>>, v: nat, p: nat)
    requires p <= |byRank| && HasStages(byRank, v + if p == 0 then 0 else 1)
    ensures forall c <- Visited(byRank, v, p) ::
      exists r, w :: 0 <= r < |byRank| && 0 <= w < v + (if p == 0 then 0 else 1) && c == byRank[r][w]
    decreases v, p
  {
    if p > 0 {
      VisitedFrom(byRank, v, p - 1);
      assert byRank[p - 1][v] == byRank[p - 1][v];
    } else if v > 0 {
      VisitedFrom(byRank, v - 1, |byRank|);
    }
  }

  // ---------- All ranks together ----------

  /** Local layer l of chunk c of rank r is layer g of the model. */
  ghost predicate IsLayer(shards: seq<int>, counts: seq<seq<int>>, r: nat, c: nat, l: int, g: int) {
    r < |shards| && r < |counts| && Numbers(counts[r], c, l, g - Start(shards, r))
  }

  /** The ranks' chunks, numbered from the start of their shards, cover the model's layers one to one. */
  lemma AllRanksNumberAllLayers(layers: int, pp: int, counts: seq<seq<int>>, g: int)
    requires Search(layers, pp).Shards? && |counts| == pp
    requires forall r :: 0 <= r < pp ==> NonNegative(counts[r])
    requires |Search(layers, pp).shards| == pp
    requires forall r :: 0 <= r < pp ==> Sum(counts[r]) == Search(layers, pp).shards[r]
    ensures var shards := Search(layers, pp).shards;
      && (0 <= g < layers <==> exists r: nat, c: nat, l :: IsLayer(shards, counts, r, c, l, g))
      && forall r: nat, c: nat, l, r': nat, c': nat, l' ::
           IsLayer(shards, counts, r, c, l, g) && IsLayer(shards, counts, r', c', l', g) ==>
           r == r' && c == c' && l == l'
  {
    var shards := Search(layers, pp).shards;
    SearchPositive(layers, pp);
    hide Search;
    NumberingIsBijective(shards, g);
    forall r: nat, c: nat, l | IsLayer(shards, counts, r, c, l, g)
      ensures Numbers(shards, r, g - Start(shards, r), g)
    {
      NumberingIsBijective(counts[r], g - Start(shards, r));
    }
    if 0 <= g < layers {
      var r: nat, x :| Numbers(shards, r, x, g);
      NumberingIsBijective(counts[r], x);
      var c: nat, l :| Numbers(counts[r], c, l, x);
      assert IsLayer(shards, counts, r, c, l, g);
    }
    forall r: nat, c: nat, l, r': nat, c': nat, l' |
      IsLayer(shards, counts, r, c, l, g) && IsLayer(shards, counts, r', c', l', g)
      ensures r == r' && c == c' && l == l'
    {
      NumberingIsBijective(counts[r], g - Start(shards, r));
    }
  }
}
