/** Batches with two stores, one of tensors and one of arrays, and the operations that return new batches.
    The specification of every operation is one row map that both stores go through. */
module DataProtos {
  import opened Arithmetic
  import opened Sums
  import opened Options
  import opened Buckets
  import opened Splits

  /** A row of a column: a scalar, or a vector of cells. */
  datatype Cell = Leaf(value: int) | Vector(cells: seq<Cell>)

  type Column = seq<Cell>

  type Columns = map<string, Column>

  /** A TensorDict with one batch dimension. */
  datatype Tensors = Tensors(size: nat, cols: Columns)

  /** The two stores of a DataProto. */
  datatype Proto = Proto(batch: Option<Tensors>, nonTensor: Columns)

  ghost predicate Uniform(cols: Columns, n: nat) {
    forall k <- cols :: |cols[k]| == n
  }

  /** Both stores have n rows; a DataProto without any column has none. */
  ghost predicate Aligned(p: Proto, n: nat) {
    && (p.batch.Some? ==> p.batch.value.size == n && Uniform(p.batch.value.cols, n))
    && Uniform(p.nonTensor, n)
    && (p.batch.None? && p.nonTensor == map[] ==> n == 0)
  }

  /** `len` */
  method Length(p: Proto, ghost n: nat) returns (len: nat)
    requires Aligned(p, n)
    ensures len == n
  {
    if p.batch.Some? {
      return p.batch.value.size;
    }
    if p.nonTensor == map[] {
      return 0;
    }
    var k :| k in p.nonTensor;
    len := |p.nonTensor[k]|;
  }

  // ---------- Row maps ----------

  /** Row j of the result is row idx[j]; only used with indices of rows. */
  function Pick(col: Column, idx: seq<nat>): (r: Column)
    ensures |r| == |idx|
    ensures forall j :: 0 <= j < |idx| && idx[j] < |col| ==> r[j] == col[idx[j]]
  {
    seq(|idx|, j requires 0 <= j < |idx| => if idx[j] < |col| then col[idx[j]] else Leaf(0))
  }

  function PickAll(cols: Columns, idx: seq<nat>): Columns {
    map k | k in cols :: Pick(cols[k], idx)
  }

  function Take(p: Proto, idx: seq<nat>): Proto {
    Proto(if p.batch.Some? then Some(Tensors(|idx|, PickAll(p.batch.value.cols, idx))) else None,
          PickAll(p.nonTensor, idx))
  }

  lemma TakeIs(t: Tensors, nonTensor: Columns, idx: seq<nat>)
    ensures Take(Proto(Some(t), nonTensor), idx) ==
      Proto(Some(Tensors(|idx|, PickAll(t.cols, idx))), PickAll(nonTensor, idx))
  {}

  ghost predicate InRange(idx: seq<nat>, n: nat) {
    forall j :: 0 <= j < |idx| ==> idx[j] < n
  }

  /** The rows from `lo` to before `hi`. */
  function Span(lo: nat, hi: nat): (idx: seq<nat>)
    requires lo <= hi
    ensures |idx| == hi - lo && forall j :: 0 <= j < |idx| ==> idx[j] == lo + j
  {
    seq(hi - lo, j requires 0 <= j < hi - lo => lo + j)
  }

  function Compose(idx: seq<nat>, jdx: seq<nat>): (r: seq<nat>)
    requires InRange(jdx, |idx|)
    ensures |r| == |jdx| && forall j :: 0 <= j < |jdx| ==> r[j] == idx[jdx[j]]
  {
    seq(|jdx|, j requires 0 <= j < |jdx| => idx[jdx[j]])
  }

  lemma TakeAligned(p: Proto, n: nat, idx: seq<nat>)
    requires Aligned(p, n) && InRange(idx, n)
    ensures p.batch.Some? || p.nonTensor != map[] || idx == []
    ensures Aligned(Take(p, idx), |idx|)
  {
    if p.nonTensor != map[] {
      var k :| k in p.nonTensor;
      assert k in Take(p, idx).nonTensor;
    }
    assert idx != [] ==> idx[0] < n;
  }

  /** Row maps compose. */
  lemma TakeTake(p: Proto, n: nat, idx: seq<nat>, jdx: seq<nat>)
    requires Aligned(p, n) && InRange(idx, n) && InRange(jdx, |idx|)
    ensures Take(Take(p, idx), jdx) == Take(p, Compose(idx, jdx))
  {
    if p.batch.Some? {
      PickAllTwice(p.batch.value.cols, n, idx, jdx);
    }
    PickAllTwice(p.nonTensor, n, idx, jdx);
  }

  lemma PickAllTwice(cols: Columns, n: nat, idx: seq<nat>, jdx: seq<nat>)
    requires Uniform(cols, n) && InRange(idx, n) && InRange(jdx, |idx|)
    ensures PickAll(PickAll(cols, idx), jdx) == PickAll(cols, Compose(idx, jdx))
  {
    forall k | k in cols ensures Pick(Pick(cols[k], idx), jdx) == Pick(cols[k], Compose(idx, jdx)) {}
  }

  lemma TakeEverything(p: Proto, n: nat)
    requires Aligned(p, n)
    ensures Take(p, Span(0, n)) == p
  {
    if p.batch.Some? {
      PickEverything(p.batch.value.cols, n);
    }
    PickEverything(p.nonTensor, n);
  }

  lemma PickEverything(cols: Columns, n: nat)
    requires Uniform(cols, n)
    ensures PickAll(cols, Span(0, n)) == cols
  {
    forall k | k in cols ensures Pick(cols[k], Span(0, n)) == cols[k] {}
  }

  /** `{key: f(val) for key, val in cols.items()}` */
  method MapColumns(cols: Columns, f: Column -> Column) returns (r: Columns)
    ensures r.Keys == cols.Keys && forall k <- cols :: r[k] == f(cols[k])
  {
    r := map[];
    var todo := cols.Keys;
    while todo != {}
      invariant todo <= cols.Keys && r.Keys == cols.Keys - todo && forall k <- r :: r[k] == f(cols[k])
    {
      var k :| k in todo;
      r := r[k := f(cols[k])];
      todo := todo - {k};
    }
  }

  // ---------- Slicing ----------

  /** A Python slice with bounds that may be negative or beyond the end. */
  function Bound(i: int, len: nat): nat {
    if i < 0 then (if i + len < 0 then 0 else i + len) else if i > len then len else i
  }

  function Slice(col: Column, start: int, stop: int): Column {
    var lo, hi := Bound(start, |col|), Bound(stop, |col|);
    if lo <= hi then col[lo..hi] else []
  }

  method SliceProto(p: Proto, start: int, stop: int, ghost n: nat) returns (r: Proto)
    requires Aligned(p, n)
    ensures var lo, hi := Bound(start, n), Bound(stop, n); r == Take(p, if lo <= hi then Span(lo, hi) else [])
  {
    var nonTensor := MapColumns(p.nonTensor, c => Slice(c, start, stop));
    ghost var lo, hi := Bound(start, n), Bound(stop, n);
    ghost var idx := if lo <= hi then Span(lo, hi) else [];
    SliceIs(p.nonTensor, n, start, stop);
    assert nonTensor == PickAll(p.nonTensor, idx);
    if p.batch.None? {
      return Proto(None, nonTensor);
    }
    SliceIs(p.batch.value.cols, n, start, stop);
    var cols := MapColumns(p.batch.value.cols, c => Slice(c, start, stop));
    var first, last := Bound(start, p.batch.value.size), Bound(stop, p.batch.value.size);
    assert cols == PickAll(p.batch.value.cols, idx);
    r := Proto(Some(Tensors(if first <= last then last - first else 0, cols)), nonTensor);
  }

  lemma SliceIs(cols: Columns, n: nat, start: int, stop: int)
    requires Uniform(cols, n)
    ensures var lo, hi := Bound(start, n), Bound(stop, n);
      (map k | k in cols :: Slice(cols[k], start, stop)) == PickAll(cols, if lo <= hi then Span(lo, hi) else [])
  {
    var lo, hi := Bound(start, n), Bound(stop, n);
    forall k | k in cols ensures Slice(cols[k], start, stop) == Pick(cols[k], if lo <= hi then Span(lo, hi) else []) {}
  }

  // ---------- Chunking ----------

  /** The row ranges of the chunks. Tensors are cut by the rounded-up average, lone arrays as evenly as
      possible. `None`: rows that do not divide although padding is off, or fewer pieces than chunks. */
  function ChunkRanges(n: nat, chunks: nat, tensors: bool, padding: bool): (r: Option<seq<seq<nat>>>)
    requires chunks > 0
    ensures r.Some? ==> |r.value| == chunks
  {
    var pieces := if tensors then ChunkRows(Span(0, n), chunks) else ArraySplit(Span(0, n), chunks);
    if (!padding && n % chunks != 0) || |pieces| != chunks then None else Some(pieces)
  }

  function Takes(p: Proto, ranges: seq<seq<nat>>): (r: seq<Proto>)
    ensures |r| == |ranges| && forall i :: 0 <= i < |r| ==> r[i] == Take(p, ranges[i])
  {
    seq(|ranges|, i requires 0 <= i < |ranges| => Take(p, ranges[i]))
  }

  function ChunkSpec(p: Proto, n: nat, chunks: nat, padding: bool): Option<seq<Proto>>
    requires chunks > 0
  {
    match ChunkRanges(n, chunks, p.batch.Some?, padding)
    case None => None
    case Some(ranges) => Some(Takes(p, ranges))
  }

  /** q is rows lo to hi - 1 of p. */
  ghost predicate RowsOf(q: Proto, p: Proto, lo: int, hi: int) {
    0 <= lo <= hi && q == Take(p, Span(lo, hi))
  }

  /** Chunk i. Chunks that divide the rows are equal. Otherwise tensors are cut by the rounded-up average, and
      what remains is the last chunk; lone arrays are cut into sizes that differ by one, the larger ones first. */
  ghost predicate ChunkIs(q: Proto, p: Proto, n: nat, chunks: nat, i: nat)
    requires chunks > 0
  {
    var even, up, more := n / chunks, CeilDiv(n, chunks), n % chunks;
    && (n % chunks == 0 ==> RowsOf(q, p, i * even, (i + 1) * even))
    && (p.batch.Some? ==> RowsOf(q, p, Least(i * up, n), Least((i + 1) * up, n)))
    && (p.batch.None? ==> RowsOf(q, p, i * even + Least(i, more), (i + 1) * even + Least(i + 1, more)))
  }

  function Least(a: int, b: int): int {
    if a < b then a else b
  }

  /** When a batch can be chunked, and what the chunks are. */
  lemma ChunkExact(p: Proto, n: nat, chunks: nat, padding: bool)
    requires Aligned(p, n) && chunks > 0
    ensures ChunkSpec(p, n, chunks, padding).Some? <==>
      (padding || n % chunks == 0) && (p.batch.Some? && n > 0 ==> (chunks - 1) * CeilDiv(n, chunks) < n)
    ensures ChunkSpec(p, n, chunks, padding).Some? ==>
      var r := ChunkSpec(p, n, chunks, padding).value;
      |r| == chunks && forall i :: 0 <= i < chunks ==> ChunkIs(r[i], p, n, chunks, i)
  {
    hide *;
    var tensors := p.batch.Some?;
    ChunkSpecIs(p, n, chunks, padding);
    PieceTotal(n, chunks);
    if n % chunks == 0 { EvenPieces(n, chunks); }
    if ChunkRanges(n, chunks, tensors, padding).Some? {
      var ranges := ChunkRanges(n, chunks, tensors, padding).value;
      forall i | 0 <= i < chunks ensures ChunkIs(Take(p, ranges[i]), p, n, chunks, i) {
        if tensors { TensorRange(n, chunks, i); } else { ArrayRange(n, chunks, i); }
        ChunkIsRange(p, n, chunks, i, ranges[i]);
      }
    }
  }

  lemma ChunkSpecIs(p: Proto, n: nat, chunks: nat, padding: bool)
    requires chunks > 0
    ensures var tensors := p.batch.Some?;
      var pieces := if tensors then ChunkRows(Span(0, n), chunks) else ArraySplit(Span(0, n), chunks);
      var ranges := ChunkRanges(n, chunks, tensors, padding);
      && ranges == (if (padding || n % chunks == 0) && |pieces| == chunks then Some(pieces) else None)
      && ChunkSpec(p, n, chunks, padding) == (if ranges.Some? then Some(Takes(p, ranges.value)) else None)
  {}

  /** Range i lies where chunk i has to be, by one of the three ways to cut. */
  ghost predicate RangeAt(idx: seq<nat>, lo: int, hi: int) {
    0 <= lo <= hi && idx == Span(lo, hi)
  }

  lemma ChunkIsRange(p: Proto, n: nat, chunks: nat, i: nat, idx: seq<nat>)
    requires i < chunks
    requires p.batch.Some? ==> RangeAt(idx, Least(i * CeilDiv(n, chunks), n), Least((i + 1) * CeilDiv(n, chunks), n))
    requires p.batch.None? ==>
      RangeAt(idx, i * (n / chunks) + Least(i, n % chunks), (i + 1) * (n / chunks) + Least(i + 1, n % chunks))
    ensures ChunkIs(Take(p, idx), p, n, chunks, i)
  {
    if n % chunks == 0 { EvenRange(n, chunks, i); }
  }

  lemma EvenRange(n: nat, chunks: nat, i: nat)
    requires i < chunks && n % chunks == 0
    ensures CeilDiv(n, chunks) == n / chunks
    ensures i * (n / chunks) <= (i + 1) * (n / chunks) <= n
  {
    EvenPieces(n, chunks);
    assert (i + 1) * (n / chunks) == i * (n / chunks) + n / chunks;
    MulMono(i + 1, chunks, n / chunks);
  }

  lemma EvenPieces(n: nat, chunks: nat)
    requires chunks > 0 && n % chunks == 0
    ensures CeilDiv(n, chunks) == n / chunks && chunks * (n / chunks) == n
    ensures n > 0 ==> (chunks - 1) * CeilDiv(n, chunks) < n
  {
    var s := n / chunks;
    assert n == chunks * s;
    CeilExact(s, chunks);
    assert (chunks - 1) * s == chunks * s - s;
  }

  /** How many pieces torch.chunk cuts. */
  lemma PieceTotal(n: nat, chunks: nat)
    requires chunks > 0
    ensures |ChunkRows(Span(0, n), chunks)| == chunks <==> n == 0 || (chunks - 1) * CeilDiv(n, chunks) < n
  {
    if n > 0 {
      var s := CeilDiv(n, chunks);
      ChunkSize(n, chunks);
      assert s * chunks == chunks * s && chunks * s == (chunks - 1) * s + s;
      PieceCount(Span(0, n), s, chunks);
    }
  }

  lemma TensorRange(n: nat, chunks: nat, i: nat)
    requires i < chunks && |ChunkRows(Span(0, n), chunks)| == chunks
    ensures RangeAt(ChunkRows(Span(0, n), chunks)[i], Least(i * CeilDiv(n, chunks), n), Least((i + 1) * CeilDiv(n, chunks), n))
  {
    var s := CeilDiv(n, chunks);
    assert (i + 1) * s == i * s + s;
    if n == 0 {
      assert 0 <= i * s;
      assert Span(0, 0) == [];
    } else {
      ChunkSize(n, chunks);
      PieceAt(Span(0, n), s, i, i * s);
      SpanPart(n, i * s, s);
    }
  }

  lemma SpanPart(n: nat, lo: nat, s: nat)
    requires lo < n
    ensures (if lo + s <= n then Span(0, n)[lo..lo + s] else Span(0, n)[lo..]) == Span(lo, Least(lo + s, n))
  {}

  lemma ArrayRange(n: nat, chunks: nat, i: nat)
    requires i < chunks
    ensures RangeAt(ArraySplit(Span(0, n), chunks)[i],
      i * (n / chunks) + Least(i, n % chunks), (i + 1) * (n / chunks) + Least(i + 1, n % chunks))
  {
    PartAt(Span(0, n), chunks, i);
    var lo, hi := DivPoint(n, chunks, i), DivPoint(n, chunks, i + 1);
    assert Span(0, n)[lo..hi] == Span(lo, hi);
  }

  /** numpy's array_split at given positions. */
  function SplitAtCuts(col: Column, cuts: seq<int>): (parts: seq<Column>)
    ensures |parts| == |cuts| + 1
    decreases |cuts|
  {
    if cuts == [] then [col]
    else
      var last := |cuts| - 1;
      var hi := Bound(cuts[last], |col|);
      SplitAtCuts(col[..hi], cuts[..last]) + [col[hi..]]
  }

  /** The pieces that TensorDict.chunk cuts, as batches of their own. */
  function ChunkTensors(t: Tensors, chunks: nat): seq<Tensors>
    requires chunks > 0
  {
    var pieces := ChunkRows(Span(0, t.size), chunks);
    TensorPieces(t, pieces)
  }

  function TensorPieces(t: Tensors, pieces: seq<seq<nat>>): (r: seq<Tensors>)
    ensures |r| == |pieces| && forall i :: 0 <= i < |r| ==> r[i] == Tensors(|pieces[i]|, PickAll(t.cols, pieces[i]))
  {
    seq(|pieces|, i requires 0 <= i < |pieces| => Tensors(|pieces[i]|, PickAll(t.cols, pieces[i])))
  }

  /** Where the pieces end, without the end of the last. */
  function Ends(sizes: seq<nat>): (ends: seq<int>)
    ensures |ends| == |sizes|
  {
    if sizes == [] then []
    else Ends(sizes[..|sizes| - 1]) + [Sum(sizes)]
  }

  function Sizes(pieces: seq<seq<nat>>): (r: seq<nat>)
    ensures |r| == |pieces| && forall i :: 0 <= i < |r| ==> r[i] == |pieces[i]|
  {
    seq(|pieces|, i requires 0 <= i < |pieces| => |pieces[i]|)
  }

  lemma {:induction false} SizesSum(pieces: seq<seq<nat>>)
    ensures Sum(Sizes(pieces)) == |Flatten(pieces)|
  {
    if pieces != [] {
      assert Sizes(pieces)[1..] == Sizes(pieces[1..]);
      SizesSum(pieces[1..]);
    }
  }

  function Picks(col: Column, pieces: seq<seq<nat>>): (r: seq<Column>)
    ensures |r| == |pieces| && forall i :: 0 <= i < |r| ==> r[i] == Pick(col, pieces[i])
  {
    seq(|pieces|, i requires 0 <= i < |pieces| => Pick(col, pieces[i]))
  }

  lemma SpanSplit(a: seq<nat>, b: seq<nat>, n: nat)
    requires a + b == Span(0, n)
    ensures |a| <= n && a == Span(0, |a|) && b == Span(|a|, n)
  {
    assert a == (a + b)[..|a|] && b == (a + b)[|a|..];
  }

  ghost predicate AllInRange(pieces: seq<seq<nat>>, n: nat) {
    forall i :: 0 <= i < |pieces| ==> InRange(pieces[i], n)
  }

  lemma AllInRangeSnoc(init: seq<seq<nat>>, last: seq<nat>, m: nat, n: nat)
    requires AllInRange(init, m) && m <= n && last == Span(m, n)
    ensures AllInRange(init + [last], n)
  {}

  lemma {:induction false} FlatRange(pieces: seq<seq<nat>>, n: nat)
    requires Flatten(pieces) == Span(0, n)
    ensures AllInRange(pieces, n)
  {
    if pieces != [] {
      hide *;
      var init, last := pieces[..|pieces| - 1], pieces[|pieces| - 1];
      assert pieces == init + [last];
      FlattenSnoc(init, last);
      SpanSplit(Flatten(init), last, n);
      FlatRange(init, |Flatten(init)|);
      AllInRangeSnoc(init, last, |Flatten(init)|, n);
    }
  }

  lemma EndsSnoc(sizes: seq<nat>, m: nat)
    ensures Ends(sizes + [m]) == Ends(sizes) + [Sum(sizes + [m])]
  {
    assert (sizes + [m])[..|sizes|] == sizes;
  }

  lemma CutOnce(col: Column, cuts: seq<int>, hi: nat)
    requires hi <= |col|
    ensures SplitAtCuts(col, cuts + [hi]) == SplitAtCuts(col[..hi], cuts) + [col[hi..]]
  {
    assert (cuts + [hi])[..|cuts|] == cuts;
  }

  lemma PicksPrefix(col: Column, hi: nat, pieces: seq<seq<nat>>)
    requires hi <= |col| && Flatten(pieces) == Span(0, hi)
    ensures Picks(col[..hi], pieces) == Picks(col, pieces)
  {
    FlatRange(pieces, hi);
    forall i | 0 <= i < |pieces| ensures Pick(col[..hi], pieces[i]) == Pick(col, pieces[i]) {}
  }

  /** Cutting an array where the tensors' chunks end gives it the tensors' row ranges. */
  lemma {:induction false} CutsArePicks(col: Column, pieces: seq<seq<nat>>)
    requires pieces != [] && Flatten(pieces) == Span(0, |col|)
    ensures SplitAtCuts(col, Ends(Sizes(pieces[..|pieces| - 1]))) == Picks(col, pieces)
    decreases |pieces|
  {
    var init, last := pieces[..|pieces| - 1], pieces[|pieces| - 1];
    assert pieces == init + [last];
    FlattenSnoc(init, last);
    SpanSplit(Flatten(init), last, |col|);
    var hi := |Flatten(init)|;
    assert col[hi..] == Pick(col, last);
    assert Picks(col, pieces) == Picks(col, init) + [Pick(col, last)];
    if init == [] {
      assert Sizes(init) == [];
      assert Picks(col, init) == [];
    } else {
      CutsArePicks(col[..hi], init);
      PicksPrefix(col, hi, init);
      var front, m := init[..|init| - 1], |init[|init| - 1]|;
      assert Sizes(init) == Sizes(front) + [m];
      SizesSum(init);
      EndsSnoc(Sizes(front), m);
      CutOnce(col, Ends(Sizes(front)), hi);
    }
  }

  lemma SplitIsPicks(col: Column, chunks: nat)
    requires chunks > 0
    ensures ArraySplit(col, chunks) == Picks(col, ArraySplit(Span(0, |col|), chunks))
  {
    forall i | 0 <= i < chunks ensures Part(col, chunks, i) == Pick(col, Part(Span(0, |col|), chunks, i)) {
      PartAt(col, chunks, i);
      PartAt(Span(0, |col|), chunks, i);
    }
  }

  /** The arrays of each chunk, key by key. */
  method SplitArrays(cols: Columns, f: Column -> seq<Column>, ghost pieces: seq<seq<nat>>, chunks: nat)
      returns (r: seq<Columns>)
    requires |pieces| == chunks && forall k <- cols :: f(cols[k]) == Picks(cols[k], pieces)
    ensures |r| == chunks && forall i :: 0 <= i < chunks ==> r[i] == PickAll(cols, pieces[i])
  {
    r := seq(chunks, _ => map[]);
    var todo := cols.Keys;
    while todo != {}
      invariant todo <= cols.Keys && |r| == chunks
      invariant forall i :: 0 <= i < chunks ==> r[i] == map k | k in cols.Keys - todo :: Pick(cols[k], pieces[i])
    {
      var key :| key in todo;
      var parts := f(cols[key]);
      ghost var before := r;
      for i := 0 to chunks
        invariant |r| == chunks
        invariant forall j :: 0 <= j < i ==> r[j] == before[j][key := parts[j]]
        invariant forall j :: i <= j < chunks ==> r[j] == before[j]
      {
        r := r[i := r[i][key := parts[i]]];
      }
      todo := todo - {key};
    }
  }

  /** `chunk`: the same row ranges of both stores. */
  method Chunk(p: Proto, chunks: nat, padding: bool, ghost n: nat) returns (r: Option<seq<Proto>>)
    requires Aligned(p, n) && chunks > 0
    ensures r == ChunkSpec(p, n, chunks, padding)
    ensures r.Some? <==>
      (padding || n % chunks == 0) && (p.batch.Some? && n > 0 ==> (chunks - 1) * CeilDiv(n, chunks) < n)
    ensures r.Some? ==> |r.value| == chunks && forall i :: 0 <= i < chunks ==> ChunkIs(r.value[i], p, n, chunks, i)
  {
    ChunkExact(p, n, chunks, padding);
    hide ChunkIs;
    var len := Length(p, n);
    if !padding && len % chunks != 0 {
      return None;
    }
    if p.batch.Some? {
      r := ChunkBoth(p.batch.value, p.nonTensor, chunks, n);
    } else {
      ghost var pieces := ArraySplit(Span(0, n), chunks);
      forall k | k in p.nonTensor ensures ArraySplit(p.nonTensor[k], chunks) == Picks(p.nonTensor[k], pieces) {
        SplitIsPicks(p.nonTensor[k], chunks);
      }
      var arrays := SplitArrays(p.nonTensor, c => ArraySplit(c, chunks), pieces, chunks);
      hide ArraySplit;
      r := Some(seq(chunks, i requires 0 <= i < chunks => Proto(None, arrays[i])));
      assert r.value == Takes(p, pieces);
    }
  }

  /** With tensors, the arrays are cut where the tensors' chunks end. */
  method ChunkBoth(t: Tensors, nonTensor: Columns, chunks: nat, ghost n: nat) returns (r: Option<seq<Proto>>)
    requires Aligned(Proto(Some(t), nonTensor), n) && chunks > 0
    ensures var pieces := ChunkRows(Span(0, n), chunks);
      r == if |pieces| != chunks then None else Some(Takes(Proto(Some(t), nonTensor), pieces))
  {
    ghost var pieces := ChunkRows(Span(0, n), chunks);
    ChunkRowsFlat(Span(0, n), chunks);
    var batches := ChunkTensors(t, chunks);
    hide ChunkRows;
    var sizes := seq(|batches|, i requires 0 <= i < |batches| => batches[i].size);
    if |batches| != chunks {
      return None;
    }
    var cuts := Ends(sizes[..chunks - 1]);
    assert sizes[..chunks - 1] == Sizes(pieces[..chunks - 1]);
    forall k | k in nonTensor ensures SplitAtCuts(nonTensor[k], cuts) == Picks(nonTensor[k], pieces) {
      CutsArePicks(nonTensor[k], pieces);
    }
    hide *;
    var arrays := SplitArrays(nonTensor, c => SplitAtCuts(c, cuts), pieces, chunks);
    r := Some(seq(chunks, i requires 0 <= i < chunks => Proto(Some(batches[i]), arrays[i])));
    assert r.value == Takes(Proto(Some(t), nonTensor), pieces) by {
      forall i | 0 <= i < chunks ensures Take(Proto(Some(t), nonTensor), pieces[i]) == Proto(Some(batches[i]), arrays[i]) {
        TakeIs(t, nonTensor, pieces[i]);
      }
    }
  }

  // ---------- Concatenation ----------

  /** The rows under a key, in list order, from the batches that have it. */
  function Joined(dicts: seq<Columns>, k: string): Column {
    if dicts == [] then []
    else
      var last := dicts[|dicts| - 1];
      Joined(dicts[..|dicts| - 1], k) + if k in last then last[k] else []
  }

  function Arrays(ps: seq<Proto>): (r: seq<Columns>)
    ensures |r| == |ps| && forall i :: 0 <= i < |r| ==> r[i] == ps[i].nonTensor
  {
    seq(|ps|, i requires 0 <= i < |ps| => ps[i].nonTensor)
  }

  ghost predicate AllTensors(ps: seq<Proto>) {
    forall i :: 0 <= i < |ps| ==> ps[i].batch.Some?
  }

  function TensorCols(ps: seq<Proto>): (r: seq<Columns>)
    requires forall i :: 0 <= i < |ps| ==> ps[i].batch.Some?
    ensures |r| == |ps| && forall i :: 0 <= i < |r| ==> r[i] == ps[i].batch.value.cols
  {
    seq(|ps|, i requires 0 <= i < |ps| => ps[i].batch.value.cols)
  }

  function TotalSize(ps: seq<Proto>): nat
    requires forall i :: 0 <= i < |ps| ==> ps[i].batch.Some?
  {
    if ps == [] then 0 else TotalSize(ps[..|ps| - 1]) + ps[|ps| - 1].batch.value.size
  }

  /** torch.cat of TensorDicts needs one set of keys. */
  ghost predicate SameKeys(dicts: seq<Columns>) {
    forall i :: 0 <= i < |dicts| ==> dicts[i].Keys == dicts[0].Keys
  }

  /** The first dict decides the keys of the arrays. */
  ghost predicate KeysOfFirst(dicts: seq<Columns>) {
    forall i :: 0 <= i < |dicts| ==> dicts[i].Keys <= dicts[0].Keys
  }

  function JoinAll(dicts: seq<Columns>): Columns
    requires dicts != []
  {
    map k | k in dicts[0] :: Joined(dicts, k)
  }

  ghost predicate OtherTensors(p: Proto, q: Proto) {
    p.batch.Some? && q.batch.Some? && q.batch.value.cols.Keys != p.batch.value.cols.Keys
  }

  /** Concatenation fails on an empty list, on an array that the first batch does not have, and beside tensors on
      a batch without them or with other tensors, and on arrays whose joined length is not the batch size. */
  lemma ConcatFails(ps: seq<Proto>)
    ensures ConcatSpec(ps).None? <==>
      || ps == []
      || (exists i, k :: 0 <= i < |ps| && k in ps[i].nonTensor && k !in ps[0].nonTensor)
      || (ps[0].batch.Some? && exists i :: 0 <= i < |ps| && ps[i].batch.None?)
      || (ps[0].batch.Some? && exists i :: 0 <= i < |ps| && OtherTensors(ps[0], ps[i]))
      || (AllTensors(ps) && exists k <- ps[0].nonTensor :: |Joined(Arrays(ps), k)| != TotalSize(ps))
  {
    if ps != [] {
      FirstKeysIff(ps);
      JoinedLengthsIff(ps, if AllTensors(ps) then TotalSize(ps) else 0);
      if AllTensors(ps) { SameKeysIff(ps); }
      hide KeysOfFirst;
      hide SameKeys;
      hide Uniform;
      hide JoinAll;
    }
  }

  lemma FirstKeysIff(ps: seq<Proto>)
    requires ps != []
    ensures KeysOfFirst(Arrays(ps)) <==> !exists i, k :: 0 <= i < |ps| && k in ps[i].nonTensor && k !in ps[0].nonTensor
  {
    if i :| 0 <= i < |ps| && !(ps[i].nonTensor.Keys <= ps[0].nonTensor.Keys) {
      var k :| k in ps[i].nonTensor && k !in ps[0].nonTensor;
      assert !(Arrays(ps)[i].Keys <= Arrays(ps)[0].Keys);
    } else {
      forall i, k | 0 <= i < |ps| && k in ps[i].nonTensor ensures k in ps[0].nonTensor {
        assert k in ps[i].nonTensor.Keys;
      }
    }
  }

  lemma SameKeysIff(ps: seq<Proto>)
    requires ps != [] && AllTensors(ps)
    ensures SameKeys(TensorCols(ps)) <==>
      !exists i :: 0 <= i < |ps| && OtherTensors(ps[0], ps[i])
  {
    if i :| 0 <= i < |ps| && OtherTensors(ps[0], ps[i]) {
      assert TensorCols(ps)[i].Keys != TensorCols(ps)[0].Keys;
    }
  }

  lemma JoinedLengthsIff(ps: seq<Proto>, n: nat)
    requires ps != []
    ensures Uniform(JoinAll(Arrays(ps)), n) <==> !exists k <- ps[0].nonTensor :: |Joined(Arrays(ps), k)| != n
  {
    hide Joined;
    var all := JoinAll(Arrays(ps));
    forall k ensures k in ps[0].nonTensor ==> k in all && all[k] == Joined(Arrays(ps), k) {}
    if k :| k in ps[0].nonTensor && |Joined(Arrays(ps), k)| != n { assert |all[k]| != n; }
  }

  /** `None`: an empty list, a missing or differing tensor batch, an array key that the first batch does not
      have, or arrays whose joined length is not the batch size. */
  ghost function ConcatSpec(ps: seq<Proto>): Option<Proto> {
    if ps == [] || !KeysOfFirst(Arrays(ps)) then None
    else
      var arrays := JoinAll(Arrays(ps));
      if ps[0].batch.None? then Some(Proto(None, arrays))
      else if !AllTensors(ps) || !SameKeys(TensorCols(ps)) then None
      else
        var t := Tensors(TotalSize(ps), JoinAll(TensorCols(ps)));
        if Uniform(arrays, t.size) then Some(Proto(Some(t), arrays)) else None
  }

  /** `concat` on the tensors: the list of batches, then torch.cat. */
  method ConcatTensors(ps: seq<Proto>) returns (r: Option<Tensors>)
    requires ps != []
    ensures r == if AllTensors(ps) && SameKeys(TensorCols(ps))
                 then Some(Tensors(TotalSize(ps), JoinAll(TensorCols(ps)))) else None
  {
    var total := 0;
    for i := 0 to |ps|
      invariant AllTensors(ps[..i]) && total == TotalSize(ps[..i])
      invariant forall j :: 0 <= j < i ==> ps[j].batch.Some? && ps[j].batch.value.cols.Keys == ps[0].batch.value.cols.Keys
    {
      if ps[i].batch.None? {
        assert !AllTensors(ps);
        return None;
      }
      if ps[i].batch.value.cols.Keys != ps[0].batch.value.cols.Keys {
        if AllTensors(ps) {
          assert TensorCols(ps)[i].Keys != TensorCols(ps)[0].Keys;
        }
        return None;
      }
      assert ps[..i + 1][..i] == ps[..i];
      total := total + ps[i].batch.value.size;
    }
    assert ps[..|ps|] == ps;
    r := Some(Tensors(total, JoinAll(TensorCols(ps))));
  }

  /** The dict of lists of the arrays, with the key check. */
  method ConcatArrays(dicts: seq<Columns>) returns (r: Option<Columns>)
    requires dicts != []
    ensures r == if KeysOfFirst(dicts) then Some(JoinAll(dicts)) else None
  {
    hide Joined;
    JoinedNothing(dicts);
    var out: Columns := map k | k in dicts[0] :: [];
    for i := 0 to |dicts|
      invariant KeysOfFirst(dicts[..i]) && out.Keys == dicts[0].Keys
      invariant forall k <- out :: out[k] == Joined(dicts[..i], k)
    {
      assert dicts[..i + 1] == dicts[..i] + [dicts[i]];
      if !(dicts[i].Keys <= dicts[0].Keys) {
        return None;
      }
      forall k ensures Joined(dicts[..i + 1], k) ==
        Joined(dicts[..i], k) + if k in dicts[i] then dicts[i][k] else []
      {
        JoinedSnoc(dicts[..i], dicts[i], k);
      }
      out := AppendDict(out, dicts[i]);
    }
    assert dicts[..|dicts|] == dicts;
    assert out == JoinAll(dicts);
    r := Some(out);
  }

  lemma JoinedNothing(dicts: seq<Columns>)
    ensures forall k :: Joined(dicts[..0], k) == []
  {}

  lemma JoinedSnoc(dicts: seq<Columns>, d: Columns, k: string)
    ensures Joined(dicts + [d], k) == Joined(dicts, k) + if k in d then d[k] else []
  {
    assert (dicts + [d])[..|dicts|] == dicts;
  }

  method AppendDict(lists: Columns, d: Columns) returns (out: Columns)
    requires d.Keys <= lists.Keys
    ensures out.Keys == lists.Keys
    ensures forall k <- out :: out[k] == lists[k] + if k in d then d[k] else []
  {
    out := lists;
    var todo := d.Keys;
    while todo != {}
      invariant todo <= d.Keys && out.Keys == lists.Keys
      invariant forall k <- out :: out[k] == lists[k] + if k in d && k !in todo then d[k] else []
    {
      var k :| k in todo;
      out := out[k := out[k] + d[k]];
      todo := todo - {k};
    }
  }

  /** `concat` */
  method Concat(ps: seq<Proto>) returns (r: Option<Proto>)
    ensures r == ConcatSpec(ps)
  {
    if ps == [] {
      return None;
    }
    var arrays := ConcatArrays(Arrays(ps));
    if ps[0].batch.None? {
      return if arrays.Some? then Some(Proto(None, arrays.value)) else None;
    }
    var tensors := ConcatTensors(ps);
    if arrays.None? || tensors.None? {
      return None;
    }
    var consistent := CheckConsistency(tensors.value.size, arrays.value);
    r := if consistent then Some(Proto(tensors, arrays.value)) else None;
  }

  method CheckConsistency(size: nat, arrays: Columns) returns (ok: bool)
    ensures ok == Uniform(arrays, size)
  {
    var todo := arrays.Keys;
    while todo != {}
      invariant todo <= arrays.Keys && forall k <- arrays.Keys - todo :: |arrays[k]| == size
    {
      var k :| k in todo;
      if |arrays[k]| != size {
        return false;
      }
      todo := todo - {k};
    }
    ok := true;
  }

  lemma {:induction false} JoinedPicks(col: Column, pieces: seq<seq<nat>>, dicts: seq<Columns>, k: string)
    requires |dicts| == |pieces|
    requires forall i :: 0 <= i < |dicts| ==> k in dicts[i] && dicts[i][k] == Pick(col, pieces[i])
    ensures Joined(dicts, k) == Pick(col, Flatten(pieces))
  {
    if dicts != [] {
      var init, last := pieces[..|pieces| - 1], pieces[|pieces| - 1];
      assert pieces == init + [last];
      JoinedPicks(col, init, dicts[..|dicts| - 1], k);
      FlattenSnoc(init, last);
      PickAppend(col, Flatten(init), last);
    } else {
      assert Pick(col, Flatten(pieces)) == [];
    }
  }

  lemma PickAppend(col: Column, a: seq<nat>, b: seq<nat>)
    ensures Pick(col, a + b) == Pick(col, a) + Pick(col, b)
  {
    assert forall j :: 0 <= j < |b| ==> (a + b)[|a| + j] == b[j];
  }

  lemma {:induction false} TotalOfTakes(p: Proto, pieces: seq<seq<nat>>)
    requires p.batch.Some?
    ensures TotalSize(Takes(p, pieces)) == |Flatten(pieces)|
  {
    if pieces != [] {
      var init, last := pieces[..|pieces| - 1], pieces[|pieces| - 1];
      assert pieces == init + [last];
      TotalOfTakes(p, init);
      FlattenSnoc(init, last);
      assert Takes(p, pieces)[..|init|] == Takes(p, init);
    }
  }

  lemma JoinAllPicks(cols: Columns, pieces: seq<seq<nat>>, dicts: seq<Columns>)
    requires |dicts| == |pieces| > 0 && forall i :: 0 <= i < |dicts| ==> dicts[i] == PickAll(cols, pieces[i])
    ensures KeysOfFirst(dicts) && SameKeys(dicts) && JoinAll(dicts) == PickAll(cols, Flatten(pieces))
  {
    forall i | 0 <= i < |dicts| ensures dicts[i].Keys == cols.Keys {}
    forall k | k in cols ensures Joined(dicts, k) == Pick(cols[k], Flatten(pieces)) {
      JoinedPicks(cols[k], pieces, dicts, k);
    }
  }

  /** Concatenating selections of one batch selects the joined indices. */
  lemma ConcatOfTakes(p: Proto, pieces: seq<seq<nat>>)
    requires pieces != []
    ensures ConcatSpec(Takes(p, pieces)) == Some(Take(p, Flatten(pieces)))
  {
    var ps := Takes(p, pieces);
    JoinAllPicks(p.nonTensor, pieces, Arrays(ps));
    if p.batch.Some? {
      assert AllTensors(ps);
      TotalOfTakes(p, pieces);
      JoinAllPicks(p.batch.value.cols, pieces, TensorCols(ps));
    }
  }
}
