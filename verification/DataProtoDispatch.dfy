/** Padding, dispatch to workers and collection of a batch. */
module DataProtoDispatch {
  import opened Arithmetic
  import opened Options
  import opened Buckets
  import opened Splits
  import opened DataProtos

  // ---------- Padding ----------

  function PadSize(n: nat, divisor: nat): nat
    requires divisor > 0
  {
    if n % divisor != 0 then divisor - n % divisor else 0
  }

  /** Row i of m rows is row i mod n. */
  function Wrapped(n: nat, m: nat): (idx: seq<nat>)
    requires n > 0 || m == 0
    ensures |idx| == m && forall i :: 0 <= i < m ==> idx[i] == i % n
    ensures InRange(idx, n)
  {
    seq(m, i requires 0 <= i < m => i % n)
  }

  /** The padded length is the least multiple of the divisor that holds all rows. */
  lemma LeastMultiple(n: nat, divisor: nat, k: nat)
    requires divisor > 0
    ensures (n + PadSize(n, divisor)) % divisor == 0
    ensures k * divisor >= n ==> k * divisor >= n + PadSize(n, divisor)
  {
    var q, r := n / divisor, n % divisor;
    assert n == q * divisor + r;
    if r != 0 {
      assert (q + 1) * divisor == n + PadSize(n, divisor);
      DivTimes(q + 1, divisor);
      if k <= q {
        MulMono(k, q, divisor);
      } else {
        MulMono(q + 1, k, divisor);
      }
    }
  }

  lemma WrapNext(n: nat, m: nat, t: nat)
    requires n > 0 && m % n == 0 && t <= n
    ensures Wrapped(n, m) + Span(0, t) == Wrapped(n, m + t)
    ensures t == n ==> (m + t) % n == 0
  {
    var q := m / n;
    assert m == q * n;
    forall i | m <= i < m + t ensures Wrapped(n, m + t)[i] == (Wrapped(n, m) + Span(0, t))[i] {
      DivUnique(i, n, q, i - m);
    }
    assert (q + 1) * n == m + n;
    DivTimes(q + 1, n);
  }

  lemma NoPadding(p: Proto, n: nat)
    requires Aligned(p, n)
    ensures Take(p, Wrapped(n, n)) == p
  {
    forall i | 0 <= i < n ensures i % n == i { DivUnique(i, n, 0, i); }
    assert Wrapped(n, n) == Span(0, n);
    TakeEverything(p, n);
  }

  /** `pad_dataproto_to_divisor` */
  method Pad(p: Proto, divisor: nat, ghost n: nat) returns (padded: Proto, padSize: nat)
    requires Aligned(p, n) && divisor > 0
    ensures padSize == PadSize(n, divisor) && (n == 0 ==> padSize == 0)
    ensures padded == Take(p, Wrapped(n, n + padSize))
  {
    hide Take;
    hide Wrapped;
    var len := Length(p, n);
    if len % divisor == 0 {
      NoPadding(p, n);
      return p, 0;
    }
    padSize := divisor - len % divisor;
    padded := PadBy(p, padSize, n);
  }

  /** The loop over the padding that remains, and the concatenation. */
  method PadBy(p: Proto, padSize: nat, ghost n: nat) returns (padded: Proto)
    requires Aligned(p, n) && n > 0
    ensures padded == Take(p, Wrapped(n, n + padSize))
  {
    hide *;
    var len := Length(p, n);
    var protos := [p];
    ghost var pieces := [Span(0, n)];
    var remaining: nat := padSize;
    OnePiece(p, n);
    while remaining > 0
      invariant remaining <= padSize && pieces != [] && protos == Takes(p, pieces)
      invariant Flatten(pieces) == Wrapped(n, n + padSize - remaining)
      invariant remaining > 0 ==> (n + padSize - remaining) % n == 0
    {
      var take := if remaining < len then remaining else len;
      var part := SliceProto(p, 0, take, n);
      BoundsInside(take, n);
      WrapNext(n, n + padSize - remaining, take);
      FlattenSnoc(pieces, Span(0, take));
      protos := protos + [part];
      pieces := pieces + [Span(0, take)];
      remaining := remaining - take;
    }
    assert Flatten(pieces) == Wrapped(n, n + padSize);
    ConcatOfTakes(p, pieces);
    var all := Concat(protos);
    padded := all.value;
  }

  lemma BoundsInside(k: nat, n: nat)
    requires k <= n
    ensures Bound(0, n) == 0 && Bound(k, n) == k
  {}

  lemma OnePiece(p: Proto, n: nat)
    requires Aligned(p, n) && n > 0
    ensures [p] == Takes(p, [Span(0, n)]) && Flatten([Span(0, n)]) == Wrapped(n, n) && n % n == 0
  {
    TakeEverything(p, n);
    NoPadding(p, n);
    forall i | 0 <= i < n ensures i % n == i { DivUnique(i, n, 0, i); }
    FlattenSnoc([], Span(0, n));
    assert [] + [Span(0, n)] == [Span(0, n)];
    DivTimes(1, n);
  }

  /** `unpad_dataproto` */
  method Unpad(p: Proto, padSize: nat, ghost n: nat) returns (r: Proto)
    requires Aligned(p, n)
    ensures padSize <= n ==> r == Take(p, Span(0, n - padSize))
    ensures padSize > n ==> r == Take(p, [])
  {
    if padSize == 0 {
      TakeEverything(p, n);
      return p;
    }
    r := SliceProto(p, 0, -(padSize as int), n);
    assert Span(0, 0) == [];
  }

  // ---------- Dispatch ----------

  /** f computes every row of its result from the same row of its argument. */
  ghost predicate RowWise(f: Proto -> Proto) {
    forall p, n, idx :: Aligned(p, n) && InRange(idx, n) ==> IsRowMap(f, p, n, idx)
  }

  ghost predicate IsRowMap(f: Proto -> Proto, p: Proto, n: nat, idx: seq<nat>) {
    Aligned(f(p), n) && f(Take(p, idx)) == Take(f(p), idx)
  }

  /** Without padding, a batch can be chunked exactly when the chunks divide its rows. */
  lemma ChunksIff(n: nat, chunks: nat, tensors: bool)
    requires chunks > 0
    ensures ChunkRanges(n, chunks, tensors, false).Some? <==> n % chunks == 0
    ensures n % chunks == 0 ==> Flatten(ChunkRanges(n, chunks, tensors, false).value) == Span(0, n)
  {
    if n % chunks == 0 {
      var s := n / chunks;
      assert n == chunks * s;
      if tensors {
        ChunkIsBlocks(Span(0, n), s, chunks);
        ChunkRowsFlat(Span(0, n), chunks);
      } else {
        ArraySplitExact(Span(0, n), chunks);
      }
    }
  }

  /** With padding on, tensors can be chunked exactly when the pieces of the rounded-up size do not run out
      of rows before the last chunk. */
  lemma PaddedChunksIff(n: nat, chunks: nat)
    requires chunks > 0
    ensures ChunkRanges(n, chunks, true, true).Some? <==> n == 0 || (chunks - 1) * CeilDiv(n, chunks) < n
    ensures ChunkRanges(n, chunks, false, true).Some?
  {
    PieceTotal(n, chunks);
  }

  lemma TakesOfRowMap(f: Proto -> Proto, p: Proto, n: nat, ranges: seq<seq<nat>>, outs: seq<Proto>)
    requires RowWise(f) && Aligned(p, n) && AllInRange(ranges, n) && |outs| == |ranges|
    requires forall i :: 0 <= i < |outs| ==> outs[i] == f(Take(p, ranges[i]))
    ensures outs == Takes(f(p), ranges)
  {
    forall i | 0 <= i < |outs| ensures outs[i] == Take(f(p), ranges[i]) {
      assert InRange(ranges[i], n);
      assert IsRowMap(f, p, n, ranges[i]);
    }
  }

  /** Chunk, let every worker map its chunk, and concatenate: that maps the batch. */
  lemma ChunkMapConcat(p: Proto, n: nat, workers: nat, f: Proto -> Proto, outs: seq<Proto>)
    requires Aligned(p, n) && workers > 0 && n % workers == 0 && RowWise(f)
    requires ChunkSpec(p, n, workers, false).Some? ==>
      var chunks := ChunkSpec(p, n, workers, false).value;
      |outs| == |chunks| && forall i :: 0 <= i < |outs| ==> outs[i] == f(chunks[i])
    ensures ChunkSpec(p, n, workers, false).Some?
    ensures ConcatSpec(outs) == Some(f(p))
  {
    ChunksIff(n, workers, p.batch.Some?);
    var ranges := ChunkRanges(n, workers, p.batch.Some?, false).value;
    assert ChunkSpec(p, n, workers, false) == Some(Takes(p, ranges));
    assert |ranges| == workers;
    hide *;
    FlatRange(ranges, n);
    TakesOfRowMap(f, p, n, ranges, outs);
    ConcatOfTakes(f(p), ranges);
    RowMapAligned(f, p, n);
    TakeEverything(f(p), n);
  }

  lemma RowMapAligned(f: Proto -> Proto, p: Proto, n: nat)
    requires RowWise(f) && Aligned(p, n)
    ensures Aligned(f(p), n)
    ensures forall idx :: InRange(idx, n) ==> f(Take(p, idx)) == Take(f(p), idx)
  {
    assert InRange([], n) && IsRowMap(f, p, n, []);
    forall idx | InRange(idx, n) ensures f(Take(p, idx)) == Take(f(p), idx) {
      assert IsRowMap(f, p, n, idx);
    }
  }

  /** What unpadding the mapped padded batch leaves. */
  lemma UnpadMapped(p: Proto, n: nat, m: nat, f: Proto -> Proto)
    requires Aligned(p, n) && 0 < n <= m && RowWise(f)
    ensures Aligned(f(Take(p, Wrapped(n, m))), m)
    ensures Take(f(Take(p, Wrapped(n, m))), Span(0, n)) == f(p)
  {
    hide *;
    var idx := Wrapped(n, m);
    RowMapAligned(f, p, n);
    TakeAligned(p, n, idx);
    RowMapAligned(f, Take(p, idx), m);
    WrappedFront(n, m);
    TakeTake(f(p), n, idx, Span(0, n));
    TakeEverything(f(p), n);
  }

  lemma WrappedFront(n: nat, m: nat)
    requires 0 < n <= m
    ensures InRange(Span(0, n), m) && Compose(Wrapped(n, m), Span(0, n)) == Span(0, n)
  {
    forall i | 0 <= i < n ensures Wrapped(n, m)[i] == i { DivUnique(i, n, 0, i); }
  }

  /** A padded dispatch to workers computes what one worker computes on the whole batch, for every nonempty
      batch and every function that works row by row. */
  method Dispatch(p: Proto, divisor: nat, workers: nat, f: Proto -> Proto, ghost n: nat) returns (r: Option<Proto>)
    requires Aligned(p, n) && n > 0 && divisor > 0 && workers > 0 && divisor % workers == 0
    requires RowWise(f)
    ensures r == Some(f(p))
  {
    hide *;
    var padded, padSize := Pad(p, divisor, n);
    ghost var m := n + padSize;
    TakeAligned(p, n, Wrapped(n, m));
    DivisorChain(n, divisor, workers);
    var chunks := Chunk(padded, workers, false, m);
    ghost var outs: seq<Proto> := if chunks.Some? then Mapped(chunks.value, f) else [];
    ChunkMapConcat(padded, m, workers, f, outs);
    var results := [];
    for i := 0 to |chunks.value|
      invariant results == outs[..i]
    {
      results := results + [f(chunks.value[i])];
    }
    assert outs[..|chunks.value|] == outs;
    var all := Concat(results);
    UnpadMapped(p, n, m, f);
    var out := Unpad(all.value, padSize, m);
    r := Some(out);
  }

  function Mapped(ps: seq<Proto>, f: Proto -> Proto): (r: seq<Proto>)
    ensures |r| == |ps| && forall i :: 0 <= i < |r| ==> r[i] == f(ps[i])
  {
    seq(|ps|, i requires 0 <= i < |ps| => f(ps[i]))
  }

  lemma DivisorChain(n: nat, divisor: nat, workers: nat)
    requires divisor > 0 && workers > 0 && divisor % workers == 0
    ensures (n + PadSize(n, divisor)) % workers == 0
  {
    LeastMultiple(n, divisor, 0);
    var m := n + PadSize(n, divisor);
    var a, b := m / divisor, divisor / workers;
    assert m == a * divisor && divisor == b * workers;
    assert m == (a * b) * workers;
    DivTimes(a * b, workers);
  }

  /** A function given column by column, each cell from one row, works row by row. */
  lemma ColumnwiseIsRowWise(cols: map<string, (Proto, nat) -> Cell>, f: Proto -> Proto)
    requires cols != map[]
    requires forall p, n :: Aligned(p, n) ==> f(p) == Proto(None, Computed(cols, p, n))
    requires forall k, p, n, idx, j: nat :: k in cols && Aligned(p, n) && InRange(idx, n) && j < |idx| ==>
      cols[k](Take(p, idx), j) == cols[k](p, idx[j])
    ensures RowWise(f)
  {
    forall p, n, idx | Aligned(p, n) && InRange(idx, n) ensures IsRowMap(f, p, n, idx) {
      TakeAligned(p, n, idx);
      ComputedAligned(cols, p, n);
      forall k, j: nat | k in cols && j < |idx| ensures cols[k](Take(p, idx), j) == cols[k](p, idx[j]) {}
      ComputedTake(cols, p, n, idx);
      hide Computed;
    }
  }

  lemma ComputedAligned(cols: map<string, (Proto, nat) -> Cell>, p: Proto, n: nat)
    requires cols != map[]
    ensures Aligned(Proto(None, Computed(cols, p, n)), n)
  {
    var k :| k in cols;
    assert k in Computed(cols, p, n);
  }

  lemma ComputedTake(cols: map<string, (Proto, nat) -> Cell>, p: Proto, n: nat, idx: seq<nat>)
    requires InRange(idx, n)
    requires forall k, j: nat :: k in cols && j < |idx| ==> cols[k](Take(p, idx), j) == cols[k](p, idx[j])
    ensures Proto(None, Computed(cols, Take(p, idx), |idx|)) == Take(Proto(None, Computed(cols, p, n)), idx)
  {
    var x, y := Computed(cols, Take(p, idx), |idx|), PickAll(Computed(cols, p, n), idx);
    assert x.Keys == y.Keys;
    forall k | k in cols ensures x[k] == y[k] {
      var c, d := x[k], y[k];
      assert |c| == |d| == |idx|;
      forall j | 0 <= j < |idx| ensures c[j] == d[j] {}
    }
  }

  function Computed(cols: map<string, (Proto, nat) -> Cell>, p: Proto, n: nat): Columns {
    map k | k in cols :: seq(n, i requires 0 <= i < n => cols[k](p, i))
  }
}
