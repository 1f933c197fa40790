/** Splitting columns along their second dimension into rows, and batches that are still to be computed. */
module DataProtoColumns {
  import opened Arithmetic
  import opened Options
  import opened Buckets
  import opened Splits
  import opened DataProtos
  import opened DataProtoDispatch
  import opened DataProtoRows
  import opened DataProtoObjects

  /** Every row is a vector of w cells. */
  ghost predicate Wide(col: Column, w: nat) {
    forall i :: 0 <= i < |col| ==> col[i].Vector? && |col[i].cells| == w
  }

  /** The width of the second dimension; `None` if there is none. */
  function Width(col: Column): Option<nat> {
    if col == [] || col[0].Leaf? then None else Some(|col[0].cells|)
  }

  /** A tensor is regular: its rows have one width or none has any. */
  ghost predicate Regular(col: Column) {
    (forall i :: 0 <= i < |col| ==> col[i].Leaf?) || (col != [] && Width(col).Some? && Wide(col, Width(col).value))
  }

  /** `reshape` to `split` times the rows, each with a part of the width. */
  function Regroup(col: Column, split: nat): Option<Column>
    requires split > 0
  {
    match Width(col)
    case None => None
    case Some(w) =>
      var flat := Unfold(col);
      if flat.None? || |flat.value| != |col| * split * (w / split) then None
      else Some(Fold(flat.value, |col| * split, w / split))
  }

  function Rows(col: Column): (bs: seq<seq<Cell>>)
    requires forall i :: 0 <= i < |col| ==> col[i].Vector?
    ensures |bs| == |col| && forall i :: 0 <= i < |col| ==> bs[i] == col[i].cells
  {
    seq(|col|, i requires 0 <= i < |col| => col[i].cells)
  }

  lemma WideFlat(col: Column, w: nat)
    requires Wide(col, w)
    ensures Unfold(col) == Some(Flatten(Rows(col))) && |Flatten(Rows(col))| == |col| * w
    ensures Blocks(Flatten(Rows(col)), w, |col|) == Rows(col)
  {
    var bs := Rows(col);
    assert col == Vectors(bs);
    UnfoldVectors(bs);
    FlatBlocks(bs, w);
  }

  /** Row i in the flattened column. */
  lemma WideRow(col: Column, w: nat, i: nat)
    requires Wide(col, w) && i < |col|
    ensures Unfold(col).Some? && i * w + w <= |Unfold(col).value|
    ensures Unfold(col).value[i * w..i * w + w] == col[i].cells
  {
    WideFlat(col, w);
    var bs := Rows(col);
    assert bs[i] == col[i].cells;
    hide *;
    BlocksAt(Flatten(bs), w, |col|, i);
  }

  lemma DividesIff(n: nat, w: nat, split: nat)
    requires split > 0 && n > 0
    ensures n * w == n * split * (w / split) <==> w % split == 0
  {
    var v, r := w / split, w % split;
    assert w == split * v + r;
    assert n * split * v == n * (split * v);
    assert n * w == n * (split * v) + n * r;
    if r > 0 { MulMono(1, n, r); }
  }

  /** The reshape exists exactly when the parts divide the width. */
  lemma RegroupIff(col: Column, w: nat, split: nat)
    requires split > 0 && col != [] && Wide(col, w)
    ensures Width(col) == Some(w)
    ensures Regroup(col, split).Some? <==> w % split == 0
    ensures w % split == 0 ==>
      Unfold(col).Some? && |Unfold(col).value| == |col| * split * (w / split)
      && Regroup(col, split).value == Fold(Unfold(col).value, |col| * split, w / split)
  {
    assert col[0].Vector?;
    WideFlat(col, w);
    DividesIff(|col|, w, split);
  }

  lemma ExactParts(w: nat, split: nat)
    requires split > 0 && w % split == 0
    ensures w == split * (w / split)
  {}

  lemma FoldRow(flat: Column, n: nat, v: nat, k: nat)
    requires |flat| == n * v && k < n
    ensures k * v + v <= |flat| && Fold(flat, n, v)[k] == Vector(flat[k * v..k * v + v])
  {
    BlocksAt(flat, v, n, k);
  }

  lemma SubSlice<T>(xs: seq<T>, a: nat, w: nat, b: nat, v: nat, k: nat)
    requires a + w <= |xs| && b + v <= w && k == a + b
    ensures xs[k..k + v] == xs[a..a + w][b..b + v]
  {
    var whole := xs[a..a + w];
    var x, y := xs[k..k + v], whole[b..b + v];
    assert |x| == |y| == v;
    forall i | 0 <= i < v ensures x[i] == y[i] {
      assert whole[b + i] == xs[a + (b + i)];
    }
  }

  /** Row `i * split + j` of the regrouped column is the j-th part of row i. */
  lemma RegroupRow(col: Column, w: nat, split: nat, i: nat, j: nat, v: nat)
    requires split > 0 && Wide(col, w) && w % split == 0 && i < |col| && j < split && v == w / split
    ensures Regroup(col, split).Some?
    ensures var r := Regroup(col, split).value;
      && |r| == |col| * split && i * split + j < |r| && j * v + v <= w
      && r[i * split + j] == Vector(col[i].cells[j * v..j * v + v])
  {
    RegroupIff(col, w, split);
    WideRow(col, w, i);
    ExactParts(w, split);
    assert |col[i].cells| == w;
    hide *;
    FoldedPart(Unfold(col).value, |col|, w, split, i, j, v, col[i].cells);
  }

  /** Block `i * split + j` of a flattened column whose row i is known. */
  lemma FoldedPart(flat: Column, n: nat, w: nat, split: nat, i: nat, j: nat, v: nat, row: Column)
    requires w == split * v && |flat| == n * split * v && i < n && j < split
    requires |row| == w && i * w + w <= |flat| && flat[i * w..i * w + w] == row
    ensures i * split + j < n * split && j * v + v <= w
    ensures Fold(flat, n * split, v)[i * split + j] == Vector(row[j * v..j * v + v])
  {
    hide *;
    RowIndex(n, split, i, j);
    PartInRow(split, v, i, j);
    RowPart(flat, n * split, v, i * split + j, i * w, w, j * v);
  }

  /** Block k of v cells is the part from b of the w cells from a, when its first cell is a + b. */
  lemma RowPart(flat: Column, n: nat, v: nat, k: nat, a: nat, w: nat, b: nat)
    requires |flat| == n * v && k < n && k * v == a + b && a + w <= |flat| && b + v <= w
    ensures Fold(flat, n, v)[k] == Vector(flat[a..a + w][b..b + v])
  {
    hide *;
    FoldRow(flat, n, v, k);
    SubSlice(flat, a, w, b, v, k * v);
  }

  lemma RowIndex(n: nat, split: nat, i: nat, j: nat)
    requires i < n && j < split
    ensures i * split + j < n * split && (i * split + j) / split == i && (i * split + j) % split == j
  {
    MulMono(i + 1, n, split);
    assert (i + 1) * split == i * split + split;
    DivUnique(i * split + j, split, i, j);
  }

  lemma PartInRow(split: nat, v: nat, i: nat, j: nat)
    requires j < split
    ensures var w := split * v; (i * split + j) * v == i * w + j * v && j * v + v <= w
  {
    assert (i * split + j) * v == i * (split * v) + j * v;
    MulMono(j + 1, split, v);
    assert (j + 1) * v == j * v + v;
  }

  // ---------- The operation ----------

  /** What becomes of one column; `None` is a reshape that fails. */
  function Unfolded(col: Column, split: nat, chosen: bool): Option<Column>
    requires split > 0
  {
    if chosen then Regroup(col, split) else Some(RepeatEach(col, split))
  }

  ghost predicate AllUnfold(cols: Columns, split: nat, keys: set<string>)
    requires split > 0
  {
    forall k <- cols :: Unfolded(cols[k], split, k in keys).Some?
  }

  ghost function UnfoldedAll(cols: Columns, split: nat, keys: set<string>): Columns
    requires split > 0 && AllUnfold(cols, split, keys)
  {
    map k | k in cols :: Unfolded(cols[k], split, k in keys).value
  }

  method UnfoldStore(cols: Columns, split: nat, keys: set<string>) returns (r: Option<Columns>)
    requires split > 0
    ensures r == if AllUnfold(cols, split, keys) then Some(UnfoldedAll(cols, split, keys)) else None
  {
    var out: Columns := map[];
    var todo := cols.Keys;
    while todo != {}
      invariant todo <= cols.Keys && out.Keys == cols.Keys - todo
      invariant forall k <- out :: Unfolded(cols[k], split, k in keys) == Some(out[k])
    {
      var k :| k in todo;
      var col := if k in keys then Regroup(cols[k], split) else Some(RepeatEach(cols[k], split));
      if col.None? {
        return None;
      }
      out := out[k := col.value];
      todo := todo - {k};
    }
    assert out == UnfoldedAll(cols, split, keys);
    r := Some(out);
  }

  /** Absent split keys choose no tensor, and raise as soon as there is an array to look up. */
  ghost predicate CanUnfold(p: Proto, split: nat, keys: Option<set<string>>)
    requires split > 0
  {
    var chosen := if keys.Some? then keys.value else {};
    && (keys.None? ==> p.nonTensor == map[])
    && (p.batch.Some? ==> AllUnfold(p.batch.value.cols, split, chosen))
    && AllUnfold(p.nonTensor, split, chosen)
  }

  ghost function UnfoldChunks(p: Proto, split: nat, keys: Option<set<string>>): Proto
    requires split > 0 && CanUnfold(p, split, keys)
  {
    var chosen := if keys.Some? then keys.value else {};
    Proto(if p.batch.Some?
            then Some(Tensors(p.batch.value.size * split, UnfoldedAll(p.batch.value.cols, split, chosen))) else None,
          UnfoldedAll(p.nonTensor, split, chosen))
  }

  /** `unfold_column_chunks` */
  method UnfoldColumnChunks(p: Proto, split: nat, keys: Option<set<string>>) returns (r: Option<Proto>)
    requires split > 0
    ensures r == if CanUnfold(p, split, keys) then Some(UnfoldChunks(p, split, keys)) else None
  {
    var chosen := if keys.Some? then keys.value else {};
    var batch := None;
    if p.batch.Some? {
      var cols := UnfoldStore(p.batch.value.cols, split, chosen);
      if cols.None? {
        return None;
      }
      batch := Some(Tensors(p.batch.value.size * split, cols.value));
    }
    if keys.None? && p.nonTensor != map[] {
      return None;
    }
    var arrays := UnfoldStore(p.nonTensor, split, chosen);
    r := if arrays.None? then None else Some(Proto(batch, arrays.value));
  }

  /** Row i of every column of the result, in either store, comes from row i / split: the whole row, or the
      part i mod split of it for a split key. */
  ghost predicate FromRows(before: Column, after: Column, split: nat, chosen: bool)
    requires split > 0
  {
    && |after| == |before| * split
    && forall i, j :: 0 <= i < |before| && 0 <= j < split ==> FromRow(before, after, split, chosen, i, j)
  }

  ghost predicate FromRow(before: Column, after: Column, split: nat, chosen: bool, i: nat, j: nat)
    requires split > 0 && i < |before|
  {
    var k := i * split + j;
    && k < |after|
    && if !chosen then after[k] == before[i]
       else
         && before[i].Vector?
         && var v := |before[i].cells| / split;
            j * v + v <= |before[i].cells| && after[k] == Vector(before[i].cells[j * v..j * v + v])
  }

  lemma ColumnRows(col: Column, split: nat, chosen: bool)
    requires split > 0 && Regular(col) && Unfolded(col, split, chosen).Some?
    ensures FromRows(col, Unfolded(col, split, chosen).value, split, chosen)
    ensures chosen ==> col != [] && Width(col).Some? && Width(col).value % split == 0
  {
    if chosen {
      assert col != [] && !col[0].Leaf?;
      RegroupIff(col, Width(col).value, split);
      RegroupedRows(col, Width(col).value, split);
    } else {
      RepeatedRows(col, split);
    }
  }

  lemma RepeatedRows(col: Column, split: nat)
    requires split > 0
    ensures FromRows(col, RepeatEach(col, split), split, false)
  {
    RepeatEachIs(col, split);
    var after := RepeatEach(col, split);
    forall i, j | 0 <= i < |col| && 0 <= j < split ensures FromRow(col, after, split, false, i, j) {
      RowIndex(|col|, split, i, j);
    }
  }

  lemma RegroupedRows(col: Column, w: nat, split: nat)
    requires split > 0 && Wide(col, w) && w % split == 0 && col != []
    ensures Regroup(col, split).Some? && FromRows(col, Regroup(col, split).value, split, true)
  {
    RegroupRow(col, w, split, 0, 0, w / split);
    var after := Regroup(col, split).value;
    hide Regroup;
    forall i, j | 0 <= i < |col| && 0 <= j < split ensures FromRow(col, after, split, true, i, j) {
      assert |col[i].cells| == w && col[i].Vector?;
      RegroupRow(col, w, split, i, j, w / split);
    }
  }

  ghost predicate RegularStore(cols: Columns, n: nat) {
    forall k <- cols :: Regular(cols[k]) && |cols[k]| == n
  }

  /** Unfolding keeps both stores aligned on the row map i / split. It fails exactly when a split key has no
      second dimension that the parts divide, or when arrays are present and no keys are given. */
  lemma UnfoldKeepsRows(p: Proto, n: nat, split: nat, keys: Option<set<string>>)
    requires split > 0 && n > 0 && Aligned(p, n)
    requires (p.batch.Some? ==> RegularStore(p.batch.value.cols, n)) && RegularStore(p.nonTensor, n)
    ensures CanUnfold(p, split, keys) <==>
      && (keys.None? ==> p.nonTensor == map[])
      && (p.batch.Some? && keys.Some? ==> AllDivide(p.batch.value.cols, split, keys.value))
      && (keys.Some? ==> AllDivide(p.nonTensor, split, keys.value))
    ensures CanUnfold(p, split, keys) ==>
      var r, chosen := UnfoldChunks(p, split, keys), if keys.Some? then keys.value else {};
      && Aligned(r, n * split)
      && (p.batch.Some? ==> StoreFromRows(p.batch.value.cols, r.batch.value.cols, split, chosen))
      && StoreFromRows(p.nonTensor, r.nonTensor, split, chosen)
  {
    var chosen := if keys.Some? then keys.value else {};
    if p.batch.Some? {
      StoreRows(p.batch.value.cols, n, split, chosen);
    }
    StoreRows(p.nonTensor, n, split, chosen);
    if keys.None? {
      assert AllDivide(p.nonTensor, split, chosen);
      if p.batch.Some? { assert AllDivide(p.batch.value.cols, split, chosen); }
    }
    if CanUnfold(p, split, keys) && p.nonTensor != map[] {
      var k :| k in p.nonTensor;
      assert k in UnfoldChunks(p, split, keys).nonTensor;
    }
  }

  ghost predicate AllDivide(cols: Columns, split: nat, chosen: set<string>)
    requires split > 0
  {
    forall k <- cols :: k in chosen ==> Width(cols[k]).Some? && Width(cols[k]).value % split == 0
  }

  ghost predicate StoreFromRows(before: Columns, after: Columns, split: nat, chosen: set<string>)
    requires split > 0
  {
    after.Keys == before.Keys && forall k <- before :: FromRows(before[k], after[k], split, k in chosen)
  }

  lemma StoreRows(cols: Columns, n: nat, split: nat, chosen: set<string>)
    requires split > 0 && n > 0 && RegularStore(cols, n)
    ensures AllUnfold(cols, split, chosen) <==> AllDivide(cols, split, chosen)
    ensures AllUnfold(cols, split, chosen) ==>
      var r := UnfoldedAll(cols, split, chosen);
      StoreFromRows(cols, r, split, chosen) && Uniform(r, n * split)
  {
    forall k | k in cols
      ensures Unfolded(cols[k], split, k in chosen).Some? <==>
        (k in chosen ==> Width(cols[k]).Some? && Width(cols[k]).value % split == 0)
      ensures Unfolded(cols[k], split, k in chosen).Some? ==>
        FromRows(cols[k], Unfolded(cols[k], split, k in chosen).value, split, k in chosen)
    {
      if k in chosen && Width(cols[k]).Some? {
        RegroupIff(cols[k], Width(cols[k]).value, split);
      }
      if Unfolded(cols[k], split, k in chosen).Some? {
        ColumnRows(cols[k], split, k in chosen);
      }
    }
  }

  // ---------- Batches still to be computed ----------

  /** The outputs of one group of workers that have mapped the chunks of a batch with f. */
  ghost predicate MappedChunks(outputs: seq<Proto>, p: Proto, n: nat, workers: nat, f: Proto -> Proto) {
    && Aligned(p, n) && workers > 0 && n % workers == 0 && RowWise(f)
    && var chunks := ChunkSpec(p, n, workers, false);
       chunks.Some? && outputs == Mapped(chunks.value, f)
  }

  /** Chunk i of the mapped batch, if it can be cut into `chunks` parts. */
  ghost predicate IsPart(r: Option<Proto>, whole: Proto, n: nat, i: nat, chunks: nat, padding: bool)
    requires i < chunks
  {
    && (r.Some? <==>
          (padding || n % chunks == 0) && (whole.batch.Some? && n > 0 ==> (chunks - 1) * CeilDiv(n, chunks) < n))
    && (r.Some? ==> ChunkIs(r.value, whole, n, chunks, i))
  }

  /** `DataProtoFuture.get`. From the outputs of workers that have mapped the chunks of a batch, it gives the
      mapped batch, or the part of it that was asked for; without padding that fails exactly when the parts do
      not divide its rows. */
  method GetFuture(outputs: seq<Proto>, dispatch: Option<(nat, nat)>, padding: bool, ghost n: nat)
      returns (r: Option<Proto>)
    requires ConcatSpec(outputs).Some? ==> Aligned(ConcatSpec(outputs).value, n)
    requires dispatch.Some? ==> dispatch.value.0 < dispatch.value.1
    ensures ConcatSpec(outputs) == None ==> r == None
    ensures forall p, workers, f :: MappedChunks(outputs, p, n, workers, f) ==>
      && (dispatch == None ==> r == Some(f(p)))
      && (dispatch.Some? ==> IsPart(r, f(p), n, dispatch.value.0, dispatch.value.1, padding))
  {
    forall p, workers, f | MappedChunks(outputs, p, n, workers, f) ensures ConcatSpec(outputs) == Some(f(p)) {
      ChunkMapConcat(p, n, workers, f, outputs);
    }
    r := Concat(outputs);
    if r.Some? && dispatch.Some? {
      var (i, chunks) := dispatch.value;
      ghost var all := r.value;
      var parts := Chunk(r.value, chunks, padding, n);
      r := if parts.None? then None else Some(parts.value[i]);
      assert IsPart(r, all, n, i, chunks, padding);
    }
  }
}
