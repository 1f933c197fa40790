/** A DataProto as an object: the operations that change it in place, folding among them, the regrouping
    of columns, and batches that are still to be computed. */
module DataProtoObjects {
  import opened Options
  import opened Buckets
  import opened Splits
  import opened DataProtos
  import opened DataProtoRows

  // ---------- Selecting by integer indices ----------

  /** torch and numpy count negative indices from the end; others out of range raise. */
  predicate ValidIdx(indices: seq<int>, n: nat) {
    forall j :: 0 <= j < |indices| ==> -(n as int) <= indices[j] < n
  }

  function Wrap(indices: seq<int>, n: nat): (idx: seq<nat>)
    requires ValidIdx(indices, n)
    ensures |idx| == |indices| && InRange(idx, n)
    ensures forall j :: 0 <= j < |idx| ==> idx[j] == if indices[j] < 0 then indices[j] + n else indices[j]
  {
    seq(|indices|, j requires 0 <= j < |indices| => if indices[j] < 0 then indices[j] + n else indices[j])
  }

  /** The rows that an index list takes; without columns nothing is looked up. `None`: an index is out of
      range in some column. */
  function IndexRows(p: Proto, n: nat, indices: seq<int>): Option<seq<nat>> {
    if Columnless(p) then Some(Same<nat>(0, |indices|))
    else if ValidIdx(indices, n) then Some(Wrap(indices, n))
    else None
  }

  /** Index j selects the row it names, counted from the end if it is negative; selection fails exactly when there
      is a column and some index names no row. */
  lemma IndexRowsExact(p: Proto, n: nat, indices: seq<int>)
    ensures IndexRows(p, n, indices).Some? <==>
      Columnless(p) || forall j :: 0 <= j < |indices| ==> -(n as int) <= indices[j] < n
    ensures IndexRows(p, n, indices).Some? ==>
      var idx := IndexRows(p, n, indices).value;
      && |idx| == |indices|
      && (!Columnless(p) ==> forall j :: 0 <= j < |indices| ==>
            idx[j] == if indices[j] >= 0 then indices[j] else n + indices[j])
  {}

  function Selected(p: Proto, idx: Option<seq<nat>>): Option<Proto> {
    if idx.None? then None else Some(Take(p, idx.value))
  }

  /** `select_idxs` with a list of integers. */
  method SelectIdxs(p: Proto, indices: seq<int>, ghost n: nat) returns (r: Option<Proto>)
    requires Aligned(p, n)
    ensures r == Selected(p, IndexRows(p, n, indices))
  {
    if Columnless(p) {
      ColumnlessTake(p, Same<nat>(0, |indices|));
      return Some(Proto(if p.batch.Some? then Some(Tensors(|indices|, map[])) else None, map[]));
    }
    var len := Length(p, n);
    if !ValidIdx(indices, len) {
      return None;
    }
    var idx := Wrap(indices, len);
    var both := MapBoth(p, c => Pick(c, idx), |indices|, idx);
    r := Some(both);
  }

  /** A mask takes row i once or not at all. */
  function Ones(mask: seq<bool>): (times: seq<nat>)
    ensures |times| == |mask| && forall i :: 0 <= i < |mask| ==> times[i] == if mask[i] then 1 else 0
  {
    seq(|mask|, i requires 0 <= i < |mask| => if mask[i] then 1 else 0)
  }

  /** The rows that a mask takes; its length has to be that of the columns. */
  function MaskRows(p: Proto, n: nat, mask: seq<bool>): Option<seq<nat>> {
    if Columnless(p) then Some(Same<nat>(0, Total(Ones(mask))))
    else if |mask| == n then Some(ByIdx(Ones(mask)))
    else None
  }

  /** A mask selects the rows that it marks, each once and in order; that fails exactly when there is a column of
      another length. Without columns only the number of marks matters. */
  lemma MaskRowsExact(p: Proto, n: nat, mask: seq<bool>, i: nat)
    ensures MaskRows(p, n, mask).Some? <==> Columnless(p) || |mask| == n
    ensures MaskRows(p, n, mask).Some? ==>
      var idx := MaskRows(p, n, mask).value;
      && |idx| == multiset(mask)[true]
      && (!Columnless(p) ==>
            InRange(idx, n) && Ascending(idx) && Occurrences(idx, i) == if i < n && mask[i] then 1 else 0)
  {
    OnesTotal(mask);
    ByIdxLength(Ones(mask));
    RepeatByExact(Ones(mask), i);
    hide ByIdx;
    hide Ascending;
    hide Occurrences;
    hide Total;
  }

  lemma {:induction false} OnesTotal(mask: seq<bool>)
    ensures Total(Ones(mask)) == multiset(mask)[true]
  {
    if mask != [] {
      var front, b := mask[..|mask| - 1], mask[|mask| - 1];
      assert mask == front + [b];
      OnesTotal(front);
      assert Ones(mask)[..|mask| - 1] == Ones(front);
    }
  }

  /** `select_idxs` with a list of booleans. */
  method SelectMask(p: Proto, mask: seq<bool>, ghost n: nat) returns (r: Option<Proto>)
    requires Aligned(p, n)
    ensures r == Selected(p, MaskRows(p, n, mask))
  {
    var size := Total(Ones(mask));
    if Columnless(p) {
      ColumnlessTake(p, Same<nat>(0, size));
      return Some(Proto(if p.batch.Some? then Some(Tensors(size, map[])) else None, map[]));
    }
    var len := Length(p, n);
    if |mask| != len {
      return None;
    }
    var idx := ByIdx(Ones(mask));
    ByIdxLength(Ones(mask));
    var both := MapBoth(p, c => Pick(c, idx), size, idx);
    r := Some(both);
  }

  /** Masking keeps the order and takes exactly the rows that the mask marks, once. */
  lemma MaskExact(mask: seq<bool>, i: nat)
    ensures var idx := ByIdx(Ones(mask));
      && Ascending(idx) && InRange(idx, |mask|)
      && Occurrences(idx, i) == if i < |mask| && mask[i] then 1 else 0
  {
    RepeatByExact(Ones(mask), i);
  }

  /** Reordering by an inverse restores the batch. */
  lemma ReorderBack(p: Proto, n: nat, idx: seq<nat>, back: seq<nat>)
    requires Aligned(p, n) && InRange(idx, n) && InRange(back, |idx|) && Compose(idx, back) == Span(0, n)
    ensures Take(Take(p, idx), back) == p
  {
    TakeTake(p, n, idx, back);
    TakeEverything(p, n);
  }

  // ---------- Folding ----------

  function Vectors(bs: seq<seq<Cell>>): (r: Column)
    ensures |r| == |bs| && forall i :: 0 <= i < |r| ==> r[i] == Vector(bs[i])
  {
    seq(|bs|, i requires 0 <= i < |bs| => Vector(bs[i]))
  }

  /** A column regrouped into `groups` rows of `each` cells. */
  function Fold(col: Column, groups: nat, each: nat): (r: Column)
    requires |col| == groups * each
    ensures |r| == groups
  {
    Vectors(Blocks(col, each, groups))
  }

  /** The cells of all rows; rows that are no vectors cannot be flattened. */
  function Unfold(col: Column): Option<Column> {
    if col == [] then Some([])
    else
      match Unfold(col[..|col| - 1])
      case None => None
      case Some(front) => if col[|col| - 1].Vector? then Some(front + col[|col| - 1].cells) else None
  }

  lemma UnfoldSnoc(col: Column, c: Cell)
    ensures Unfold(col + [c]) ==
      if Unfold(col).Some? && c.Vector? then Some(Unfold(col).value + c.cells) else None
  {
    assert (col + [c])[..|col|] == col;
  }

  lemma {:induction false} UnfoldVectors(bs: seq<seq<Cell>>)
    ensures Unfold(Vectors(bs)) == Some(Flatten(bs))
  {
    if bs == [] {
      assert Vectors(bs) == [];
    } else {
      var init, last := bs[..|bs| - 1], bs[|bs| - 1];
      assert bs == init + [last] && Vectors(bs) == Vectors(init) + [Vector(last)];
      UnfoldVectors(init);
      hide *;
      FlattenSnoc(init, last);
      UnfoldSnoc(Vectors(init), Vector(last));
    }
  }

  lemma UnfoldOfFold(col: Column, groups: nat, each: nat)
    requires |col| == groups * each
    ensures Unfold(Fold(col, groups, each)) == Some(col)
  {
    UnfoldVectors(Blocks(col, each, groups));
    BlocksFlat(col, each, groups);
  }

  function FoldAll(cols: Columns, groups: nat, each: nat): Columns
    requires forall k <- cols :: |cols[k]| == groups * each
  {
    map k | k in cols :: Fold(cols[k], groups, each)
  }

  function Folded(p: Proto, n: nat, groups: nat): Proto
    requires p.batch.Some? && groups > 0 && n % groups == 0
    requires forall k <- p.batch.value.cols :: |p.batch.value.cols[k]| == n
    requires forall k <- p.nonTensor :: |p.nonTensor[k]| == n
  {
    assert n == groups * (n / groups);
    Proto(Some(Tensors(groups, FoldAll(p.batch.value.cols, groups, n / groups))),
          FoldAll(p.nonTensor, groups, n / groups))
  }

  /** Folding leaves one row a group in both stores. */
  lemma FoldedAligned(p: Proto, n: nat, groups: nat)
    requires Aligned(p, n) && p.batch.Some? && groups > 0 && n % groups == 0
    ensures Aligned(Folded(p, n, groups), groups)
    ensures var r := Folded(p, n, groups);
      r.batch.Some? && r.batch.value.cols.Keys == p.batch.value.cols.Keys && r.nonTensor.Keys == p.nonTensor.Keys
  {}

  /** Group g holds the same rows of every column. */
  lemma FoldGroups(col: Column, n: nat, groups: nat, g: nat)
    requires |col| == n && g < groups && n % groups == 0
    ensures n == groups * (n / groups)
    ensures var each := n / groups; Fold(col, groups, each)[g] == Vector(Pick(col, Span(g * each, g * each + each)))
  {
    assert n == groups * (n / groups);
    hide *;
    FoldAt(col, groups, n / groups, g);
  }

  lemma FoldAt(col: Column, groups: nat, each: nat, g: nat)
    requires |col| == groups * each && g < groups
    ensures Fold(col, groups, each)[g] == Vector(Pick(col, Span(g * each, g * each + each)))
  {
    hide *;
    BlocksAt(col, each, groups, g);
    PickSpan(col, g * each, each);
    FoldIs(col, groups, each, g);
  }

  lemma FoldIs(col: Column, groups: nat, each: nat, g: nat)
    requires |col| == groups * each && g < groups
    ensures Fold(col, groups, each)[g] == Vector(Blocks(col, each, groups)[g])
  {}

  lemma PickSpan(col: Column, lo: nat, n: nat)
    requires lo + n <= |col|
    ensures Pick(col, Span(lo, lo + n)) == col[lo..lo + n]
  {
    var x, y := Pick(col, Span(lo, lo + n)), col[lo..lo + n];
    forall i | 0 <= i < n ensures x[i] == y[i] {}
  }

  ghost predicate ColumnsUnfoldTo(cols: Columns, len: nat) {
    forall k <- cols :: Unfold(cols[k]).Some? && |Unfold(cols[k]).value| == len
  }

  ghost predicate UnfoldsTo(p: Proto, len: nat) {
    && p.batch.Some? && p.batch.value.cols != map[]
    && ColumnsUnfoldTo(p.batch.value.cols, len) && ColumnsUnfoldTo(p.nonTensor, len)
  }

  ghost function UnfoldAll(cols: Columns): Columns
    requires forall k <- cols :: Unfold(cols[k]).Some?
  {
    map k | k in cols :: Unfold(cols[k]).value
  }

  ghost function Unfolded(p: Proto, len: nat): Proto
    requires UnfoldsTo(p, len)
  {
    Proto(Some(Tensors(len, UnfoldAll(p.batch.value.cols))), UnfoldAll(p.nonTensor))
  }

  /** Unfolding what was folded gives the batch back. */
  lemma FoldUnfold(p: Proto, n: nat, groups: nat)
    requires Aligned(p, n) && p.batch.Some? && p.batch.value.cols != map[] && groups > 0 && n % groups == 0
    ensures UnfoldsTo(Folded(p, n, groups), n) && Unfolded(Folded(p, n, groups), n) == p
  {
    assert n == groups * (n / groups);
    hide *;
    FoldedIs(p, n, groups);
    var cols, arrays := p.batch.value.cols, p.nonTensor;
    FoldUnfoldColumns(cols, n, groups, n / groups);
    FoldUnfoldColumns(arrays, n, groups, n / groups);
    UnfoldedIs(groups, FoldAll(cols, groups, n / groups), FoldAll(arrays, groups, n / groups), n);
  }

  lemma FoldedIs(p: Proto, n: nat, groups: nat)
    requires Aligned(p, n) && p.batch.Some? && groups > 0 && n % groups == 0
    ensures n == groups * (n / groups) && Uniform(p.batch.value.cols, n) && Uniform(p.nonTensor, n)
    ensures p.batch.value.size == n
    ensures forall k <- p.batch.value.cols :: |p.batch.value.cols[k]| == n
    ensures forall k <- p.nonTensor :: |p.nonTensor[k]| == n
    ensures Folded(p, n, groups) ==
      Proto(Some(Tensors(groups, FoldAll(p.batch.value.cols, groups, n / groups))), FoldAll(p.nonTensor, groups, n / groups))
  {}

  lemma UnfoldedIs(groups: nat, cols: Columns, arrays: Columns, len: nat)
    requires cols != map[] && ColumnsUnfoldTo(cols, len) && ColumnsUnfoldTo(arrays, len)
    ensures (forall k <- cols :: Unfold(cols[k]).Some?) && (forall k <- arrays :: Unfold(arrays[k]).Some?)
    ensures var p := Proto(Some(Tensors(groups, cols)), arrays);
      UnfoldsTo(p, len) && Unfolded(p, len) == Proto(Some(Tensors(len, UnfoldAll(cols))), UnfoldAll(arrays))
  {
    hide UnfoldAll;
  }

  lemma FoldUnfoldColumns(cols: Columns, n: nat, groups: nat, each: nat)
    requires Uniform(cols, n) && n == groups * each
    ensures forall k <- cols :: |cols[k]| == groups * each
    ensures var f := FoldAll(cols, groups, each);
      && ColumnsUnfoldTo(f, n) && (cols != map[] ==> f != map[])
      && (forall k <- f :: Unfold(f[k]).Some?) && UnfoldAll(f) == cols
  {
    forall k | k in cols ensures Unfold(Fold(cols[k], groups, each)) == Some(cols[k]) {
      UnfoldOfFold(cols[k], groups, each);
    }
    FoldKeys(cols, groups, each);
  }

  lemma FoldKeys(cols: Columns, groups: nat, each: nat)
    requires forall k <- cols :: |cols[k]| == groups * each
    ensures FoldAll(cols, groups, each).Keys == cols.Keys
    ensures cols != map[] ==> FoldAll(cols, groups, each) != map[]
  {
    if cols != map[] {
      var k :| k in cols;
      assert k in FoldAll(cols, groups, each);
    }
  }

  /** The columns flattened to one common length, if they all can be. */
  method UnfoldColumns(cols: Columns) returns (r: Option<Columns>)
    ensures r == if forall k <- cols :: Unfold(cols[k]).Some? then Some(UnfoldAll(cols)) else None
  {
    var out: Columns := map[];
    var todo := cols.Keys;
    while todo != {}
      invariant todo <= cols.Keys && out.Keys == cols.Keys - todo
      invariant forall k <- out :: Unfold(cols[k]) == Some(out[k])
    {
      var k :| k in todo;
      var col := Unfold(cols[k]);
      if col.None? {
        return None;
      }
      out := out[k := col.value];
      todo := todo - {k};
    }
    assert out == UnfoldAll(cols);
    r := Some(out);
  }

  lemma UnfoldUniform(cols: Columns, len: nat)
    requires forall k <- cols :: Unfold(cols[k]).Some?
    ensures Uniform(UnfoldAll(cols), len) <==> ColumnsUnfoldTo(cols, len)
  {
    forall k | k in cols ensures UnfoldAll(cols)[k] == Unfold(cols[k]).value {}
    if Uniform(UnfoldAll(cols), len) {
      forall k | k in cols ensures |Unfold(cols[k]).value| == len {
        assert k in UnfoldAll(cols);
      }
    }
  }

  /** `unfold_batch_dim` with two dimensions. `None`: columns that cannot be viewed as one batch. */
  method UnfoldBatchDim(p: Proto) returns (r: Option<Proto>)
    ensures forall len :: UnfoldsTo(p, len) ==> r == Some(Unfolded(p, len))
    ensures (forall len :: !UnfoldsTo(p, len)) ==> r == None
  {
    if p.batch.None? || p.batch.value.cols == map[] {
      return None;
    }
    var cols := UnfoldColumns(p.batch.value.cols);
    var arrays := UnfoldColumns(p.nonTensor);
    if cols.None? || arrays.None? {
      return None;
    }
    var k :| k in p.batch.value.cols;
    assert k in cols.value;
    var len := |cols.value[k]|;
    forall l: nat
      ensures Uniform(cols.value, l) <==> ColumnsUnfoldTo(p.batch.value.cols, l)
      ensures Uniform(arrays.value, l) <==> ColumnsUnfoldTo(p.nonTensor, l)
    {
      UnfoldUniform(p.batch.value.cols, l);
      UnfoldUniform(p.nonTensor, l);
    }
    assert forall l :: UnfoldsTo(p, l) ==> l == len;
    var ok := CheckConsistency(len, cols.value);
    var same := CheckConsistency(len, arrays.value);
    if !ok || !same {
      return None;
    }
    assert UnfoldsTo(p, len);
    r := Some(Proto(Some(Tensors(len, cols.value)), arrays.value));
  }

  // ---------- Reordering and padding, on values ----------

  method PickColumns(cols: Columns, idx: seq<nat>) returns (r: Columns)
    ensures r == PickAll(cols, idx)
  {
    r := MapColumns(cols, c => Pick(c, idx));
    assert r == PickAll(cols, idx);
  }

  /** What reordering makes of the two stores. */
  lemma ReorderedIs(p: Proto, n: nat, indices: seq<int>, idx: seq<nat>)
    requires Aligned(p, n) && p.batch.Some?
    requires idx == if ValidIdx(indices, n) then Wrap(indices, n) else Same<nat>(0, |indices|)
    ensures p.batch.value.size == n && |idx| == |indices| && PickAll(map[], idx) == map[]
    ensures Columnless(p) || ValidIdx(indices, n) ==>
      Selected(p, IndexRows(p, n, indices)) ==
      Some(Proto(Some(Tensors(|indices|, PickAll(p.batch.value.cols, idx))), PickAll(p.nonTensor, idx)))
  {
    if Columnless(p) { ColumnlessTake(p, Same<nat>(0, |indices|)); }
  }

  /** The rows after padding; without columns only their number matters. */
  function PaddedRows(p: Proto, n: nat, size: nat, first: bool): seq<nat> {
    Span(0, n) + Same<nat>(if Columnless(p) || first || n == 0 then 0 else n - 1, size)
  }

  lemma PaddedCandidate(p: Proto, n: nat, idx: seq<int>, first: bool)
    requires Aligned(p, n) && |idx| == 1 && idx[0] == if first then 0 else n as int - 1
    ensures IndexRows(p, n, idx).Some? <==> n > 0 || Columnless(p)
    ensures IndexRows(p, n, idx).Some? ==>
      IndexRows(p, n, idx) == Some([if Columnless(p) || first then 0 else n - 1])
  {
    if Columnless(p) {
      assert Same<nat>(0, 1) == [0];
    } else if n > 0 {
      assert Wrap(idx, n) == [if first then 0 else n - 1];
    }
  }

  /** The padding part, and the batch with it. */
  lemma PaddedConcat(p: Proto, n: nat, row: nat, one: nat, size: nat, candidate: Proto, part: Proto)
    requires Aligned(p, n) && (row < n || Columnless(p)) && candidate == Take(p, [row])
    requires one == if p.batch.None? && p.nonTensor == map[] then 0 else 1
    requires part == Take(candidate, RepeatIdx(one, size, true))
    ensures ConcatSpec([p, part]) == Some(Take(p, Span(0, n) + Same<nat>(row, size)))
  {
    var copies := Same<nat>(row, size);
    assert part == Take(p, copies) by {
      if Columnless(p) {
        ColumnlessTake(p, copies);
        ColumnlessTake(p, [row]);
        ColumnlessTake(candidate, RepeatIdx(one, size, true));
      } else {
        assert Compose([row], RepeatIdx(1, size, true)) == copies;
        TakeTake(p, n, [row], RepeatIdx(1, size, true));
      }
    }
    TakeEverything(p, n);
    var pieces := [Span(0, n), copies];
    assert [p, part] == Takes(p, pieces);
    ConcatOfTakes(p, pieces);
    TwoPieces(Span(0, n), copies);
  }

  lemma TwoPieces(a: seq<nat>, b: seq<nat>)
    ensures Flatten([a, b]) == a + b
  {
    FlattenSnoc([a], b);
    FlattenSnoc([], a);
    assert [] + [a] == [a] && [a] + [b] == [a, b];
  }

  /** The batch with the rows of `padding` appended. */
  method Padded(p: Proto, size: nat, first: bool, ghost n: nat) returns (r: Option<Proto>)
    requires Aligned(p, n)
    ensures r == if n > 0 || Columnless(p) then Some(Take(p, PaddedRows(p, n, size, first))) else None
  {
    hide *;
    var len := Length(p, n);
    var idx := [if first then 0 else len as int - 1];
    PaddedCandidate(p, n, idx, first);
    var candidate := SelectIdxs(p, idx, n);
    SelectedIs(p, IndexRows(p, n, idx));
    if candidate.None? {
      return None;
    }
    ghost var row := if Columnless(p) || first then 0 else n - 1;
    ghost var one := if p.batch.None? && p.nonTensor == map[] then 0 else 1;
    CandidateAligned(p, n, row, one);
    var part := Repeat(candidate.value, size, true, one);
    PaddedConcat(p, n, row, one, size, candidate.value, part);
    PaddedRowsAre(p, n, size, first);
    r := Concat([p, part]);
  }

  lemma SelectedIs(p: Proto, idx: Option<seq<nat>>)
    ensures Selected(p, idx) == if idx.None? then None else Some(Take(p, idx.value))
  {}

  lemma CandidateAligned(p: Proto, n: nat, row: nat, one: nat)
    requires Aligned(p, n) && one == if p.batch.None? && p.nonTensor == map[] then 0 else 1
    ensures Aligned(Take(p, [row]), one)
  {}

  lemma PaddedRowsAre(p: Proto, n: nat, size: nat, first: bool)
    requires n > 0 || Columnless(p)
    ensures PaddedRows(p, n, size, first) == Span(0, n) + Same<nat>(if Columnless(p) || first then 0 else n - 1, size)
  {}

  // ---------- The object ----------

  class DataProto {
    var batch: Option<Tensors>
    var nonTensor: Columns

    function Value(): Proto
      reads this
    {
      Proto(batch, nonTensor)
    }

    constructor (p: Proto)
      ensures Value() == p
    {
      batch, nonTensor := p.batch, p.nonTensor;
    }

    /** `reorder`. The tensors come first: without a tensor batch, or with a bad index, it raises before
        anything has changed. Only if the tensor batch has no tensor does a bad index raise at the arrays,
        after the batch has been replaced. */
    method Reorder(indices: seq<int>, ghost n: nat) returns (ok: bool)
      requires Aligned(Value(), n)
      modifies this
      ensures ok <==> old(batch.Some?) && (Columnless(old(Value())) || ValidIdx(indices, n))
      ensures ok ==> Selected(old(Value()), IndexRows(old(Value()), n, indices)) == Some(Value())
      ensures !ok && old(batch.Some? ==> batch.value.cols != map[]) ==> Value() == old(Value())
      ensures !ok && old(batch.Some? && batch.value.cols == map[]) ==>
        batch == Some(Tensors(|indices|, map[])) && nonTensor == old(nonTensor)
    {
      if batch.None? {
        return false;
      }
      var len := batch.value.size;
      var valid := ValidIdx(indices, len);
      if batch.value.cols != map[] && !valid {
        return false;
      }
      var idx: seq<nat> := if valid then Wrap(indices, len) else Same<nat>(0, |indices|);
      ghost var p := Value();
      var cols := PickColumns(batch.value.cols, idx);
      hide PickAll;
      ReorderedIs(p, n, indices, idx);
      batch := Some(Tensors(|indices|, cols));
      if nonTensor != map[] && !valid {
        return false;
      }
      nonTensor := PickColumns(nonTensor, idx);
      ok := true;
    }

    /** `padding`: append copies of the first or the last row. */
    method Padding(size: nat, first: bool, ghost n: nat) returns (ok: bool)
      requires Aligned(Value(), n)
      modifies this
      ensures ok <==> size == 0 || n > 0 || Columnless(old(Value()))
      ensures Value() == if size == 0 || !ok then old(Value()) else
        Take(old(Value()), Span(0, n) + Same<nat>(if first || n == 0 || Columnless(old(Value())) then 0 else n - 1, size))
    {
      if size == 0 {
        return true;
      }
      var padded := Padded(Value(), size, first, n);
      if padded.None? {
        return false;
      }
      batch := padded.value.batch;
      nonTensor := padded.value.nonTensor;
      ok := true;
    }

    /** `fold_batch_dim`; it regroups the arrays of its argument in place. */
    method FoldBatchDim(groups: nat, ghost n: nat) returns (r: Option<Proto>)
      requires Aligned(Value(), n)
      modifies this`nonTensor
      ensures r.Some? <==> batch.Some? && groups > 0 && n % groups == 0
      ensures r.Some? ==> r.value == Folded(old(Value()), n, groups) && nonTensor == r.value.nonTensor
      ensures r.None? ==> nonTensor == old(nonTensor)
    {
      if batch.None? || groups == 0 || batch.value.size % groups != 0 {
        return None;
      }
      var each := batch.value.size / groups;
      assert n == groups * each;
      nonTensor := FoldAll(nonTensor, groups, each);
      r := Some(Proto(Some(Tensors(groups, FoldAll(batch.value.cols, groups, each))), nonTensor));
    }
  }

  /** After a fold, the argument's own stores still agree exactly if it had no arrays or was folded into
      groups of one row. */
  lemma FoldLeavesArgumentAligned(p: Proto, n: nat, groups: nat)
    requires Aligned(p, n) && p.batch.Some? && groups > 0 && n % groups == 0
    ensures Aligned(Proto(p.batch, Folded(p, n, groups).nonTensor), n) <==> p.nonTensor == map[] || groups == n
  {
    assert n == groups * (n / groups);
    var arrays := Folded(p, n, groups).nonTensor;
    if p.nonTensor != map[] {
      var k :| k in p.nonTensor;
      assert k in arrays && |arrays[k]| == groups;
    }
  }
}
