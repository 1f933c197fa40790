/** The operations that repeat, regroup or reorder rows: both stores go through one row map. */
module DataProtoRows {
  import opened Arithmetic
  import opened Sums
  import opened Options
  import opened Splits
  import opened DataProtos
  import opened DataProtoDispatch

  // ---------- What torch and numpy do with one column ----------

  function Same<T>(x: T, n: nat): (r: seq<T>)
    ensures |r| == n && forall i :: 0 <= i < n ==> r[i] == x
  {
    if n == 0 then [] else Same(x, n - 1) + [x]
  }

  /** repeat_interleave with one count, and numpy's repeat. */
  function RepeatEach<T>(xs: seq<T>, t: nat): seq<T> {
    if xs == [] then [] else RepeatEach(xs[..|xs| - 1], t) + Same(xs[|xs| - 1], t)
  }

  /** expand and reshape, and numpy's tile. */
  function Tile<T>(xs: seq<T>, t: nat): seq<T> {
    if t == 0 then [] else Tile(xs, t - 1) + xs
  }

  /** repeat_interleave with a count for each row. */
  function RepeatBy<T>(xs: seq<T>, times: seq<nat>): seq<T>
    requires |xs| == |times|
  {
    if xs == [] then []
    else
      var last := |xs| - 1;
      RepeatBy(xs[..last], times[..last]) + Same(xs[last], times[last])
  }

  function EachIdx(n: nat, t: nat): (idx: seq<nat>)
    ensures |idx| == n * t && (forall i :: 0 <= i < n * t ==> idx[i] == i / t) && InRange(idx, n)
  {
    if t == 0 then []
    else
      assert forall i :: 0 <= i < n * t ==> i / t < n by {
        forall i | 0 <= i < n * t ensures i / t < n { QuotientBelow(i, n, t); }
      }
      seq(n * t, i requires 0 <= i < n * t => i / t)
  }

  lemma QuotientBelow(i: nat, n: nat, t: nat)
    requires t > 0 && i < n * t
    ensures i / t < n
  {
    if i / t >= n { MulMono(n, i / t, t); }
  }

  lemma EachIdxNext(n: nat, t: nat)
    ensures EachIdx(n + 1, t) == EachIdx(n, t) + Same<nat>(n, t)
  {
    assert (n + 1) * t == n * t + t;
    var next := EachIdx(n + 1, t);
    forall i | n * t <= i < n * t + t ensures next[i] == n {
      DivUnique(i, t, n, i - n * t);
    }
  }

  lemma {:induction false} RepeatEachIs(col: Column, t: nat)
    ensures RepeatEach(col, t) == Pick(col, EachIdx(|col|, t))
  {
    if col != [] {
      var last := |col| - 1;
      RepeatEachIs(col[..last], t);
      EachIdxNext(last, t);
      var a, b := EachIdx(last, t), Same<nat>(last, t);
      assert Pick(col, a) == Pick(col[..last], a);
      assert Pick(col, b) == Same(col[last], t);
      PickAppend(col, a, b);
    }
  }

  lemma {:induction false} TileIs(col: Column, t: nat)
    requires col != [] || t == 0
    ensures |col| * t == 0 || |col| > 0
    ensures Tile(col, t) == Pick(col, Wrapped(|col|, |col| * t))
  {
    if t > 0 {
      TileIs(col, t - 1);
      var n := |col|;
      assert n * t == n * (t - 1) + n;
      forall i | n * (t - 1) <= i < n * t ensures Wrapped(n, n * t)[i] == i - n * (t - 1) {
        DivUnique(i, n, t - 1, i - n * (t - 1));
      }
      assert Pick(col, Wrapped(n, n * t)) == Pick(col, Wrapped(n, n * (t - 1))) + col;
    }
  }

  lemma {:induction false} EmptyTile<T>(t: nat)
    ensures Tile<T>([], t) == []
  {
    if t > 0 { EmptyTile<T>(t - 1); }
  }

  /** The rows that sample-level repetition takes. */
  function ByIdx(times: seq<nat>): seq<nat> {
    RepeatBy<nat>(Span(0, |times|), times)
  }

  lemma ByIdxIs(times: seq<nat>)
    ensures ByIdx(times) == RepeatBy<nat>(Span(0, |times|), times)
  {}

  /** How often row i is chosen. */
  function Occurrences(idx: seq<nat>, i: nat): nat {
    multiset(idx)[i]
  }

  lemma RepeatByNext(times: seq<nat>, m: nat)
    ensures ByIdx(times + [m]) == ByIdx(times) + Same<nat>(|times|, m)
  {
    hide *;
    RepeatBySnoc<nat>(Span(0, |times|), |times|, times, m);
    var n: nat := |times|;
    SpanNext(n);
    ByIdxIs(times);
    ByIdxIs(times + [m]);
  }

  lemma SpanNext(n: nat)
    ensures Span(0, n + 1) == Span(0, n) + [n]
  {
    var a, b := Span(0, n + 1), Span(0, n) + [n];
    assert forall j :: 0 <= j < n ==> b[j] == Span(0, n)[j];
    assert b[n] == n;
    assert forall j :: 0 <= j < n + 1 ==> a[j] == j;
    assert a == b;
  }

  lemma RepeatBySnoc<T>(xs: seq<T>, x: T, times: seq<nat>, m: nat)
    requires |xs| == |times|
    ensures RepeatBy(xs + [x], times + [m]) == RepeatBy(xs, times) + Same(x, m)
  {
    assert (times + [m])[..|times|] == times && (xs + [x])[..|xs|] == xs;
  }

  lemma RepeatNothing(times: seq<nat>)
    requires times == []
    ensures var idx := ByIdx(times); idx == [] && Ascending(idx) && InRange(idx, |times|)
    ensures forall i: nat :: Occurrences([], i) == 0
  {}

  lemma {:induction false} RepeatByIs(col: Column, times: seq<nat>)
    requires |col| == |times|
    ensures InRange(ByIdx(times), |col|)
    ensures RepeatBy(col, times) == Pick(col, ByIdx(times))
  {
    if col != [] {
      var last: nat := |col| - 1;
      var front, m := times[..last], times[last];
      assert times == front + [m] && col == col[..last] + [col[last]];
      RepeatByIs(col[..last], front);
      RepeatByNext(front, m);
      RepeatBySnoc(col[..last], col[last], front, m);
      var a, b := ByIdx(front), Same<nat>(last, m);
      assert Pick(col, a) == Pick(col[..last], a);
      assert Pick(col, b) == Same(col[last], m);
      PickAppend(col, a, b);
    }
  }

  ghost predicate Ascending(idx: seq<nat>) {
    forall j, k :: 0 <= j <= k < |idx| ==> idx[j] <= idx[k]
  }

  lemma AscendingAppend(a: seq<nat>, x: nat, m: nat)
    requires Ascending(a) && InRange(a, x)
    ensures Ascending(a + Same<nat>(x, m)) && InRange(a + Same<nat>(x, m), x + 1)
    ensures Occurrences(a, x) == 0
  {}

  lemma OccurrencesAppend(a: seq<nat>, b: seq<nat>, i: nat)
    ensures Occurrences(a + b, i) == Occurrences(a, i) + Occurrences(b, i)
  {}

  /** Sample-level repetition keeps the order of the rows and takes row i as often as asked. */
  lemma {:induction false} RepeatByExact(times: seq<nat>, i: nat)
    ensures var idx := ByIdx(times);
      && Occurrences(idx, i) == (if i < |times| then times[i] else 0)
      && Ascending(idx) && InRange(idx, |times|)
  {
    hide *;
    if times == [] {
      RepeatNothing(times);
    } else {
      var last: nat := |times| - 1;
      var front, m := times[..last], times[last];
      assert times == front + [m];
      RepeatByExact(front, i);
      RepeatByNext(front, m);
      var a := ByIdx(front);
      AscendingAppend(a, last, m);
      OccurrencesAppend(a, Same<nat>(last, m), i);
      SameElement(last, m, i);
    }
  }

  lemma {:induction false} SameElement(x: nat, n: nat, y: nat)
    ensures Occurrences(Same<nat>(x, n), y) == if y == x then n else 0
  {
    if n > 0 {
      SameElement(x, n - 1, y);
    }
  }

  // ---------- The operations ----------

  /** Apply one function to every column of both stores. */
  method MapBoth(p: Proto, f: Column -> Column, size: nat, ghost idx: seq<nat>) returns (r: Proto)
    requires |idx| == size
    requires p.batch.Some? ==> forall k <- p.batch.value.cols :: f(p.batch.value.cols[k]) == Pick(p.batch.value.cols[k], idx)
    requires forall k <- p.nonTensor :: f(p.nonTensor[k]) == Pick(p.nonTensor[k], idx)
    ensures r == Take(p, idx)
  {
    var nonTensor := MapColumns(p.nonTensor, f);
    assert nonTensor == PickAll(p.nonTensor, idx);
    if p.batch.None? {
      return Proto(None, nonTensor);
    }
    var cols := MapColumns(p.batch.value.cols, f);
    assert cols == PickAll(p.batch.value.cols, idx);
    r := Proto(Some(Tensors(size, cols)), nonTensor);
  }

  function RepeatIdx(n: nat, times: nat, interleave: bool): (idx: seq<nat>)
    ensures |idx| == n * times
  {
    if interleave then EachIdx(n, times)
    else if n == 0 then [] else Wrapped(n, n * times)
  }

  /** Interleaved, row i comes from row `i / times`, otherwise from row `i mod n`. */
  lemma RepeatExact(n: nat, times: nat, interleave: bool, i: nat)
    requires n > 0 && times > 0 && i < n * times
    ensures RepeatIdx(n, times, interleave)[i] == if interleave then i / times else i % n
  {}

  /** `repeat`, in both modes. */
  method Repeat(p: Proto, times: nat, interleave: bool, ghost n: nat) returns (r: Proto)
    requires Aligned(p, n)
    ensures r == Take(p, RepeatIdx(n, times, interleave))
  {
    var len := Length(p, n);
    forall col: Column | |col| == n
      ensures (if interleave then RepeatEach(col, times) else Tile(col, times)) ==
        Pick(col, RepeatIdx(n, times, interleave))
    {
      RepeatIs(col, times, interleave);
    }
    hide *;
    AlignedColumns(p, n);
    r := MapBoth(p, c => if interleave then RepeatEach(c, times) else Tile(c, times), len * times,
      RepeatIdx(n, times, interleave));
  }

  lemma AlignedColumns(p: Proto, n: nat)
    requires Aligned(p, n)
    ensures p.batch.Some? ==> forall k <- p.batch.value.cols :: |p.batch.value.cols[k]| == n
    ensures forall k <- p.nonTensor :: |p.nonTensor[k]| == n
  {}

  lemma RepeatIs(col: Column, times: nat, interleave: bool)
    ensures (if interleave then RepeatEach(col, times) else Tile(col, times)) ==
      Pick(col, RepeatIdx(|col|, times, interleave))
  {
    if interleave {
      RepeatEachIs(col, times);
    } else if col == [] {
      EmptyTile<Cell>(times);
    } else {
      TileIs(col, times);
    }
  }

  /** No column in either store. */
  predicate Columnless(p: Proto) {
    (p.batch.Some? ==> p.batch.value.cols == map[]) && p.nonTensor == map[]
  }

  /** Without columns only the number of rows is left. */
  lemma ColumnlessTake(p: Proto, idx: seq<nat>)
    requires Columnless(p)
    ensures Take(p, idx) == Proto(if p.batch.Some? then Some(Tensors(|idx|, map[])) else None, map[])
  {}

  /** The rows taken, if the counts fit. There has to be a count for each row; a single count is broadcast to
      all rows, but then the announced batch size of the tensors, the sum of the counts, is too small unless
      it is zero. */
  function SampleRows(p: Proto, n: nat, times: seq<nat>): Option<seq<nat>> {
    if Columnless(p) then Some(Same<nat>(0, Total(times)))
    else if |times| == n then Some(ByIdx(times))
    else if |times| == 1 && (p.batch.None? || times[0] == 0) then Some(EachIdx(n, times[0]))
    else None
  }

  function Total(times: seq<nat>): nat {
    if times == [] then 0 else Total(times[..|times| - 1]) + times[|times| - 1]
  }

  /** What one column becomes. */
  function RepeatCounts(col: Column, times: seq<nat>): Option<Column> {
    if |times| == |col| then Some(RepeatBy(col, times))
    else if |times| == 1 then Some(RepeatEach(col, times[0]))
    else None
  }

  lemma {:induction false} TotalIsSum(times: seq<nat>)
    ensures Total(times) == Sum(times)
  {
    if times != [] {
      var front, m := times[..|times| - 1], times[|times| - 1];
      TotalIsSum(front);
      assert times == front + [m];
      SumAppend(front, [m]);
      assert [m][1..] == [];
      assert Sum([m]) == m;
    }
  }

  lemma {:induction false} EachExact(n: nat, t: nat, i: nat)
    ensures Ascending(EachIdx(n, t)) && Occurrences(EachIdx(n, t), i) == if i < n then t else 0
  {
    hide *;
    if n == 0 {
      EachNothing(t, i);
    } else {
      EachExact(n - 1, t, i);
      EachIdxNext(n - 1, t);
      EachBelow(n - 1, t);
      AscendingAppend(EachIdx(n - 1, t), n - 1, t);
      OccurrencesAppend(EachIdx(n - 1, t), Same<nat>(n - 1, t), i);
      SameElement(n - 1, t, i);
    }
  }

  lemma EachNothing(t: nat, i: nat)
    ensures Ascending(EachIdx(0, t)) && Occurrences(EachIdx(0, t), i) == 0
  {
    assert EachIdx(0, t) == [];
  }

  lemma EachBelow(n: nat, t: nat)
    ensures InRange(EachIdx(n, t), n)
  {}

  /** What sample-level repetition takes: row i as often as its count says, or as the single count says, in the
      order of the rows. Without columns only the sum of the counts matters. */
  lemma SampleRowsExact(p: Proto, n: nat, times: seq<nat>, i: nat)
    ensures SampleRows(p, n, times).None? <==>
      !Columnless(p) && |times| != n && (|times| != 1 || (p.batch.Some? && times[0] != 0))
    ensures SampleRows(p, n, times).Some? ==>
      var idx := SampleRows(p, n, times).value;
      if Columnless(p) then |idx| == Sum(times)
      else
        && InRange(idx, n) && Ascending(idx)
        && Occurrences(idx, i) == if i >= n then 0 else if |times| == n then times[i] else times[0]
  {
    if Columnless(p) {
      TotalIsSum(times);
    } else if |times| == n {
      RepeatByExact(times, i);
    } else if |times| == 1 {
      EachExact(n, times[0], i);
      EachBelow(n, times[0]);
    }
    hide ByIdx;
    hide EachIdx;
    hide Ascending;
    hide Occurrences;
    hide Total;
  }

  lemma {:induction false} ByIdxLength(times: seq<nat>)
    ensures |ByIdx(times)| == Total(times)
  {
    if times != [] {
      var front, m := times[..|times| - 1], times[|times| - 1];
      assert times == front + [m];
      ByIdxLength(front);
      RepeatByNext(front, m);
    }
  }

  lemma CountsAre(col: Column, times: seq<nat>)
    ensures |times| == |col| ==> RepeatCounts(col, times) == Some(Pick(col, ByIdx(times)))
    ensures |times| != |col| && |times| == 1 ==> RepeatCounts(col, times) == Some(Pick(col, EachIdx(|col|, times[0])))
    ensures |times| != |col| && |times| != 1 ==> RepeatCounts(col, times) == None
  {
    if |times| == |col| { RepeatByIs(col, times); } else if |times| == 1 { RepeatEachIs(col, times[0]); }
  }

  /** `sample_level_repeat` */
  method SampleLevelRepeat(p: Proto, times: seq<nat>, ghost n: nat) returns (r: Option<Proto>)
    requires Aligned(p, n)
    ensures r == match SampleRows(p, n, times) case None => None case Some(idx) => Some(Take(p, idx))
  {
    var len := Length(p, n);
    var total := Total(times);
    if Columnless(p) {
      ColumnlessTake(p, Same<nat>(0, total));
      return Some(Proto(if p.batch.Some? then Some(Tensors(total, map[])) else None, map[]));
    }
    if |times| != len && |times| != 1 {
      return None;
    }
    if p.batch.Some? && |times| != len && times[0] != 0 {
      return None;
    }
    ghost var idx := if |times| == n then ByIdx(times) else EachIdx(n, times[0]);
    assert SampleRows(p, n, times) == Some(idx);
    if |times| == n { ByIdxLength(times); }
    forall col: Column | |col| == n ensures RepeatCounts(col, times) == Some(Pick(col, idx)) { CountsAre(col, times); }
    var size := if |times| == len then total else len * times[0];
    hide *;
    AlignedColumns(p, n);
    var both := MapBoth(p, c => if RepeatCounts(c, times).Some? then RepeatCounts(c, times).value else c, size, idx);
    r := Some(both);
  }

  /** `split`: consecutive slices. */
  method Split(p: Proto, size: nat, ghost n: nat) returns (r: seq<Proto>)
    requires Aligned(p, n) && size > 0
    ensures r == Takes(p, if n == 0 then [] else Pieces(Span(0, n), size))
  {
    hide *;
    var len := Length(p, n);
    r := [];
    var i := 0;
    ghost var pieces: seq<seq<nat>> := [];
    while i < len
      invariant r == Takes(p, pieces)
      invariant i < n ==> pieces + Pieces(Span(i, n), size) == Pieces(Span(0, n), size)
      invariant i >= n && n > 0 ==> pieces == Pieces(Span(0, n), size)
      invariant n == 0 ==> pieces == []
      decreases len - i
    {
      var part := SliceProto(p, i, i + size, n);
      PiecesNext(i, n, size);
      r := r + [part];
      pieces := pieces + [Span(i, if i + size < n then i + size else n)];
      i := i + size;
    }
  }

  /** Part i has the rows from `i * size` on, `size` of them or up to the end, and no part is empty. */
  ghost predicate PartsOf(r: seq<Proto>, p: Proto, n: nat, size: nat) {
    && n <= |r| * size < n + size
    && forall i :: 0 <= i < |r| ==> RowsOf(r[i], p, i * size, Least(i * size + size, n))
  }

  /** What `split` returns. */
  lemma SplitExact(p: Proto, n: nat, size: nat)
    requires size > 0
    ensures PartsOf(Takes(p, if n == 0 then [] else Pieces(Span(0, n), size)), p, n, size)
  {
    var pieces := if n == 0 then [] else Pieces(Span(0, n), size);
    hide Pieces;
    if n > 0 { PieceSpread(n, size); }
    forall i | 0 <= i < |pieces| ensures RowsOf(Take(p, pieces[i]), p, i * size, Least(i * size + size, n)) {
      PieceRange(n, size, i);
    }
  }

  lemma PieceSpread(n: nat, size: nat)
    requires size > 0 && n > 0
    ensures n <= |Pieces(Span(0, n), size)| * size < n + size
  {
    hide *;
    PiecesFlat(Span(0, n), size);
    var m: nat := |Pieces(Span(0, n), size)|;
    TimesNext(m, size);
    PieceAt(Span(0, n), size, m - 1, (m - 1) * size);
  }

  lemma PieceRange(n: nat, size: nat, i: nat)
    requires size > 0 && n > 0 && i < |Pieces(Span(0, n), size)|
    ensures RangeAt(Pieces(Span(0, n), size)[i], i * size, Least(i * size + size, n))
  {
    hide Pieces;
    PieceAt(Span(0, n), size, i, i * size);
    SpanPart(n, i * size, size);
  }

  lemma PiecesNext(i: nat, n: nat, size: nat)
    requires i < n && size > 0
    ensures Bound(i, n) == i && Bound(i + size, n) == if i + size < n then i + size else n
    ensures Pieces(Span(i, n), size) ==
      if i + size < n then [Span(i, i + size)] + Pieces(Span(i + size, n), size) else [Span(i, n)]
  {
    if i + size < n {
      assert Span(i, n)[..size] == Span(i, i + size) && Span(i, n)[size..] == Span(i + size, n);
    }
  }

  /** Concatenating the parts of a split gives the batch. */
  lemma SplitConcat(p: Proto, n: nat, size: nat)
    requires Aligned(p, n) && size > 0 && n > 0
    ensures ConcatSpec(Takes(p, Pieces(Span(0, n), size))) == Some(p)
  {
    PiecesFlat(Span(0, n), size);
    ConcatOfTakes(p, Pieces(Span(0, n), size));
    TakeEverything(p, n);
  }
}
