/** Concatenating different batches: exactly when the rows of both stores stay together. */
module DataProtoConcat {
  import opened Options
  import opened Sums
  import opened Prefixes
  import opened DataProtos

  ghost predicate AllAligned(ps: seq<Proto>, ns: seq<nat>) {
    |ps| == |ns| && forall i :: 0 <= i < |ps| ==> Aligned(ps[i], ns[i])
  }

  ghost predicate AllUniform(dicts: seq<Columns>, ns: seq<nat>) {
    |dicts| == |ns| && forall i :: 0 <= i < |dicts| ==> Uniform(dicts[i], ns[i])
  }

  /** Every batch that lacks the key has no rows. */
  ghost predicate HasRows(dicts: seq<Columns>, ns: seq<nat>, k: string) {
    |dicts| == |ns| && forall i :: 0 <= i < |dicts| ==> k in dicts[i] || ns[i] == 0
  }

  lemma SumSnoc(ns: seq<nat>, n: nat)
    ensures Sum(ns + [n]) == Sum(ns) + n && Sum(ns) >= 0
  {
    SumAppend(ns, [n]);
    assert [n][1..] == [];
    assert Sum([n]) == n + Sum([n][1..]);
  }

  lemma UniformAt(dict: Columns, n: nat, k: string)
    requires Uniform(dict, n)
    ensures k in dict ==> |dict[k]| == n
  {}

  /** A joined column has all rows exactly when no batch with rows lacks its key. */
  lemma {:induction false} JoinedLength(dicts: seq<Columns>, ns: seq<nat>, k: string)
    requires AllUniform(dicts, ns)
    ensures |Joined(dicts, k)| <= Sum(ns)
    ensures |Joined(dicts, k)| == Sum(ns) <==> HasRows(dicts, ns, k)
  {
    if dicts != [] {
      var d, n := dicts[|dicts| - 1], ns[|ns| - 1];
      var front, ms := dicts[..|dicts| - 1], ns[..|ns| - 1];
      assert dicts == front + [d] && ns == ms + [n];
      JoinedLength(front, ms, k);
      UniformAt(d, n, k);
      HasRowsSnoc(front, ms, d, n, k);
      hide *;
      JoinedSnoc(front, d, k);
      SumSnoc(ms, n);
    }
  }

  lemma HasRowsSnoc(front: seq<Columns>, ms: seq<nat>, d: Columns, n: nat, k: string)
    requires |front| == |ms|
    ensures HasRows(front + [d], ms + [n], k) <==> HasRows(front, ms, k) && (k in d || n == 0)
  {
    var dicts, ns := front + [d], ms + [n];
    assert dicts[|front|] == d && ns[|front|] == n;
    assert forall i :: 0 <= i < |front| ==> dicts[i] == front[i] && ns[i] == ms[i];
  }

  lemma StartSnoc(ms: seq<nat>, n: nat, i: nat)
    requires i <= |ms|
    ensures Start(ms + [n], i) == Start(ms, i)
  {
    assert (ms + [n])[..i] == ms[..i];
  }

  /** Then row r of batch i is row `Start(ns, i) + r` of the joined column. */
  lemma {:induction false} JoinedAt(dicts: seq<Columns>, ns: seq<nat>, k: string, i: nat, r: nat)
    requires AllUniform(dicts, ns) && HasRows(dicts, ns, k) && i < |dicts| && r < ns[i]
    ensures k in dicts[i] && r < |dicts[i][k]|
    ensures 0 <= Start(ns, i) + r < |Joined(dicts, k)| && Joined(dicts, k)[Start(ns, i) + r] == dicts[i][k][r]
  {
    var d, n := dicts[|dicts| - 1], ns[|ns| - 1];
    var front, ms := dicts[..|dicts| - 1], ns[..|ns| - 1];
    assert dicts == front + [d] && ns == ms + [n];
    UniformAt(dicts[i], ns[i], k);
    JoinedLength(front, ms, k);
    HasRowsSnoc(front, ms, d, n, k);
    SumSnoc(ms, n);
    StartSnoc(ms, n, i);
    JoinedSnoc(front, d, k);
    if i < |front| {
      JoinedAt(front, ms, k, i, r);
    } else {
      StartAll(ms);
    }
  }

  /** All joined columns have all rows exactly when no batch with rows lacks a key of the first. */
  lemma JoinAllUniform(dicts: seq<Columns>, ns: seq<nat>)
    requires dicts != [] && AllUniform(dicts, ns)
    ensures Sum(ns) >= 0
    ensures Uniform(JoinAll(dicts), Sum(ns)) <==>
      forall i :: 0 <= i < |dicts| ==> dicts[0].Keys <= dicts[i].Keys || ns[i] == 0
  {
    SumNonNegative(ns);
    forall k | k in dicts[0] ensures |Joined(dicts, k)| == Sum(ns) <==> HasRows(dicts, ns, k) {
      JoinedLength(dicts, ns, k);
    }
    if Uniform(JoinAll(dicts), Sum(ns)) {
      forall i | 0 <= i < |dicts| && ns[i] != 0 ensures dicts[0].Keys <= dicts[i].Keys {
        forall k | k in dicts[0] ensures k in dicts[i] {
          assert k in JoinAll(dicts);
          assert HasRows(dicts, ns, k);
        }
      }
    }
  }

  lemma SumNonNegative(ns: seq<nat>)
    ensures Sum(ns) >= 0
  {
    assert forall i :: 0 <= i < |ns| ==> ns[i] >= 0;
  }

  lemma {:induction false} TotalIsSum(ps: seq<Proto>, ns: seq<nat>)
    requires AllAligned(ps, ns) && AllTensors(ps)
    ensures TotalSize(ps) == Sum(ns)
  {
    if ps != [] {
      var ms, n := ns[..|ns| - 1], ns[|ns| - 1];
      assert ns == ms + [n];
      TotalIsSum(ps[..|ps| - 1], ms);
      SumSnoc(ms, n);
    }
  }

  lemma StoresUniform(ps: seq<Proto>, ns: seq<nat>)
    requires AllAligned(ps, ns)
    ensures AllUniform(Arrays(ps), ns)
    ensures AllTensors(ps) ==> AllUniform(TensorCols(ps), ns)
  {}

  /** A batch with rows has every array of the first one, and there is one. */
  ghost predicate Complete(ps: seq<Proto>, ns: seq<nat>)
    requires |ps| == |ns| > 0
  {
    forall i :: 0 <= i < |ps| ==>
      ns[i] == 0 || (ps[0].nonTensor != map[] && ps[0].nonTensor.Keys <= ps[i].nonTensor.Keys)
  }

  lemma SumZero(ns: seq<nat>)
    ensures Sum(ns) == 0 <==> forall i :: 0 <= i < |ns| ==> ns[i] == 0
  {
    if ns != [] {
      SumZero(ns[1..]);
      SumNonNegative(ns[1..]);
      assert forall i :: 0 < i < |ns| ==> ns[i] == ns[1..][i - 1];
    }
  }

  /** What `concat` returns has the rows of all batches in both stores, exactly when there is a tensor batch
      or every batch with rows has the arrays of the first. Otherwise the arrays have different lengths. */
  lemma ConcatAlignedIff(ps: seq<Proto>, ns: seq<nat>)
    requires AllAligned(ps, ns) && ConcatSpec(ps).Some?
    ensures Sum(ns) >= 0 && ps != []
    ensures Aligned(ConcatSpec(ps).value, Sum(ns)) <==> ps[0].batch.Some? || Complete(ps, ns)
  {
    var arrays, q := Arrays(ps), ConcatSpec(ps).value;
    StoresUniform(ps, ns);
    JoinAllUniform(arrays, ns);
    SumZero(ns);
    hide Joined;
    if ps[0].batch.Some? {
      TotalIsSum(ps, ns);
      JoinAllUniform(TensorCols(ps), ns);
      assert forall i :: 0 <= i < |ps| ==> TensorCols(ps)[0].Keys <= TensorCols(ps)[i].Keys;
    } else {
      assert q == Proto(None, JoinAll(arrays));
      assert JoinAll(arrays) == map[] <==> ps[0].nonTensor == map[] by {
        assert JoinAll(arrays).Keys == ps[0].nonTensor.Keys;
      }
    }
  }

  ghost predicate RowOf(before: Columns, r: nat, after: Columns, at: int) {
    && after.Keys == before.Keys
    && forall k <- after :: r < |before[k]| && 0 <= at < |after[k]| && after[k][at] == before[k][r]
  }

  /** In that case row `Start(ns, i) + r` of every column of either store is row r of batch i. */
  lemma ConcatRows(ps: seq<Proto>, ns: seq<nat>, i: nat, r: nat)
    requires AllAligned(ps, ns) && ConcatSpec(ps).Some?
    requires Sum(ns) >= 0 && Aligned(ConcatSpec(ps).value, Sum(ns)) && i < |ps| && r < ns[i]
    ensures var q, p, at := ConcatSpec(ps).value, ps[i], Start(ns, i) + r;
      && RowOf(p.nonTensor, r, q.nonTensor, at)
      && (q.batch.Some? ==> p.batch.Some? && RowOf(p.batch.value.cols, r, q.batch.value.cols, at))
  {
    var q, arrays := ConcatSpec(ps).value, Arrays(ps);
    StoresUniform(ps, ns);
    assert q.nonTensor == JoinAll(arrays);
    StoreRows(arrays, ns, i, r);
    if q.batch.Some? {
      var cols := TensorCols(ps);
      assert q.batch.value.cols == JoinAll(cols);
      TotalIsSum(ps, ns);
      StoreRows(cols, ns, i, r);
    }
  }

  lemma StoreRows(dicts: seq<Columns>, ns: seq<nat>, i: nat, r: nat)
    requires dicts != [] && AllUniform(dicts, ns) && KeysOfFirst(dicts)
    requires Sum(ns) >= 0 && Uniform(JoinAll(dicts), Sum(ns)) && i < |dicts| && r < ns[i]
    ensures RowOf(dicts[i], r, JoinAll(dicts), Start(ns, i) + r)
  {
    JoinAllUniform(dicts, ns);
    assert JoinAll(dicts).Keys == dicts[0].Keys == dicts[i].Keys;
    forall k | k in dicts[0] ensures
      k in dicts[i] && r < |dicts[i][k]| && 0 <= Start(ns, i) + r < |Joined(dicts, k)|
      && Joined(dicts, k)[Start(ns, i) + r] == dicts[i][k][r]
    {
      assert HasRows(dicts, ns, k);
      JoinedAt(dicts, ns, k, i, r);
    }
  }

  lemma JoinedTwo(first: Columns, second: Columns, k: string)
    ensures Joined([first, second], k) ==
      (if k in first then first[k] else []) + if k in second then second[k] else []
  {
    assert [first, second] == [first] + [second] && [first] == [] + [first];
    JoinedSnoc([first], second, k);
    JoinedSnoc([], first, k);
  }

  /** Without tensors, a second batch that lacks an array of the first passes, and the arrays come out with
      different lengths. */
  lemma ConcatLosesRows(a: string, b: string, x: Cell, y: Cell)
    requires a != b
    ensures var ps := [Proto(None, map[a := [x], b := [x]]), Proto(None, map[a := [y]])];
      && AllAligned(ps, [1, 1])
      && ConcatSpec(ps) == Some(Proto(None, map[a := [x, y], b := [x]]))
      && forall n :: !Aligned(ConcatSpec(ps).value, n)
  {
    var first, second: Columns := map[a := [x], b := [x]], map[a := [y]];
    var ps := [Proto(None, first), Proto(None, second)];
    JoinedTwo(first, second, a);
    JoinedTwo(first, second, b);
    hide Joined;
    assert Arrays(ps) == [first, second];
    LosesRows(first, second, a, b, x, y);
    assert AllAligned(ps, [1, 1]);
    UnequalColumns(a, b, x, y);
  }

  lemma LosesRows(first: Columns, second: Columns, a: string, b: string, x: Cell, y: Cell)
    requires a != b && first == map[a := [x], b := [x]] && second == map[a := [y]]
    requires Joined([first, second], a) == [x] + [y] && Joined([first, second], b) == [x] + []
    ensures KeysOfFirst([first, second]) && JoinAll([first, second]) == map[a := [x, y], b := [x]]
  {
    hide Joined;
    var all, expected := JoinAll([first, second]), map[a := [x, y], b := [x]];
    assert all.Keys == {a, b} == expected.Keys;
    assert all[a] == expected[a] && all[b] == expected[b];
  }

  lemma UnequalColumns(a: string, b: string, x: Cell, y: Cell)
    requires a != b
    ensures forall n :: !Aligned(Proto(None, map[a := [x, y], b := [x]]), n)
  {
    var cols: Columns := map[a := [x, y], b := [x]];
    assert |cols[a]| == 2 && |cols[b]| == 1;
  }
}
