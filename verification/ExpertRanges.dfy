/** Which experts a rank of the expert-parallel group copies when a checkpoint is converted. */
module ExpertRanges {
  import opened Arithmetic

  /** Expert `idx` of all experts becomes local expert `local` of a rank. */
  predicate Owns(experts: nat, epSize: nat, rank: nat, idx: nat, local: nat)
    requires epSize > 0
  {
    var each := experts / epSize;
    idx < experts && local < each && idx == rank * each + local
  }

  /** A rank's experts are consecutive, from `rank * each` to `(rank + 1) * each - 1`, and keep their order. */
  lemma OwnsExact(experts: nat, epSize: nat, rank: nat, idx: nat, local: nat)
    requires epSize > 0
    ensures var each := experts / epSize;
      && (Owns(experts, epSize, rank, idx, local) ==> local == idx - rank * each)
      && ((exists l: nat :: Owns(experts, epSize, rank, idx, l)) <==>
            idx < experts && rank * each <= idx < (rank + 1) * each)
  {
    var each := experts / epSize;
    assert (rank + 1) * each == rank * each + each;
    if idx < experts && rank * each <= idx < (rank + 1) * each {
      assert Owns(experts, epSize, rank, idx, idx - rank * each);
    }
  }

  /** The loop over the experts of a layer, on one rank. */
  method LocalExperts<T>(experts: seq<T>, epSize: nat, epRank: nat) returns (weights: map<nat, T>)
    requires epSize > 0
    ensures forall local: nat :: local in weights <==>
      exists idx: nat :: Owns(|experts|, epSize, epRank, idx, local)
    ensures forall idx: nat, local: nat :: Owns(|experts|, epSize, epRank, idx, local) ==>
      local in weights && weights[local] == experts[idx]
  {
    weights := map[];
    var each := |experts| / epSize;
    for idx := 0 to |experts|
      invariant forall local: nat :: local in weights <==>
        exists i: nat :: i < idx && Owns(|experts|, epSize, epRank, i, local)
      invariant forall i: nat, local: nat :: i < idx && Owns(|experts|, epSize, epRank, i, local) ==>
        local in weights && weights[local] == experts[i]
    {
      var start, end := epRank * each, (epRank + 1) * each;
      assert end == start + each;
      if idx < start || idx >= end {
        continue;
      }
      assert Owns(|experts|, epSize, epRank, idx, idx - start);
      weights := weights[idx - start := experts[idx]];
    }
  }

  /** Over the ranks of the group every expert below `epSize * (experts / epSize)` is copied by exactly one
      rank, to exactly one place, and the others by none. So all are copied exactly when the group size
      divides their number. */
  lemma ExpertsSharedOut(experts: nat, epSize: nat, idx: nat)
    requires epSize > 0
    ensures (exists rank: nat, local: nat :: rank < epSize && Owns(experts, epSize, rank, idx, local)) <==>
      idx < epSize * (experts / epSize)
    ensures forall rank: nat, local: nat, rank': nat, local': nat ::
      Owns(experts, epSize, rank, idx, local) && Owns(experts, epSize, rank', idx, local') ==>
      rank == rank' && local == local'
    ensures experts % epSize == 0 <==> epSize * (experts / epSize) == experts
  {
    var each := experts / epSize;
    assert experts == epSize * each + experts % epSize;
    forall rank: nat, local: nat | Owns(experts, epSize, rank, idx, local)
      ensures rank == idx / each && local == idx % each
      ensures rank < epSize ==> idx < epSize * each
    {
      DivUnique(idx, each, rank, local);
      if rank < epSize {
        MulMono(rank + 1, epSize, each);
        assert (rank + 1) * each == rank * each + each;
      }
    }
    if idx < epSize * each {
      var rank, local := idx / each, idx % each;
      assert idx == rank * each + local;
      if rank >= epSize { MulMono(epSize, rank, each); }
      assert Owns(experts, epSize, rank, idx, local);
    }
  }
}
