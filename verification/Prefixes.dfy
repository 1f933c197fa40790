/** Prefix sums: numbering the slots of consecutive groups. */
module Prefixes {
  import opened Sums
  import opened PipelineShards

  /** How many slots lie before group r. */
  function Start(ns: seq<int>, r: nat): int
    requires r <= |ns|
  {
    Sum(ns[..r])
  }

  ghost predicate NonNegative(ns: seq<int>) {
    forall i :: 0 <= i < |ns| ==> ns[i] >= 0
  }

  lemma StartNext(ns: seq<int>, r: nat)
    requires r < |ns|
    ensures Start(ns, r + 1) == Start(ns, r) + ns[r] && Start(ns, 0) == 0
  {
    assert ns[..r + 1] == ns[..r] + [ns[r]];
    SumAppend(ns[..r], [ns[r]]);
    assert [ns[r]][1..] == [];
    assert Sum([ns[r]]) == ns[r];
  }

  lemma {:induction false} StartMono(ns: seq<int>, r: nat, t: nat)
    requires NonNegative(ns) && r <= t <= |ns|
    ensures Start(ns, r) <= Start(ns, t)
  {
    if r < t {
      StartMono(ns, r, t - 1);
      StartNext(ns, t - 1);
    }
  }

  lemma StartAll(ns: seq<int>)
    ensures Start(ns, |ns|) == Sum(ns) && Start(ns, 0) == 0
  {
    assert ns[..|ns|] == ns;
  }

  /** Slot `local` of group `r` has number g. */
  predicate Numbers(ns: seq<int>, r: nat, local: int, g: int) {
    r < |ns| && 0 <= local < ns[r] && Start(ns, r) + local == g
  }

  lemma {:induction false} Located(ns: seq<int>, r: nat, g: int)
    requires NonNegative(ns) && r <= |ns| && 0 <= g < Start(ns, r)
    ensures exists t: nat, local :: t < r && Numbers(ns, t, local, g)
  {
    if r == 0 {
      StartAll(ns);
    } else {
      StartNext(ns, r - 1);
      if g < Start(ns, r - 1) {
        Located(ns, r - 1, g);
      } else {
        assert Numbers(ns, r - 1, g - Start(ns, r - 1), g);
      }
    }
  }

  /** Group and local number determine the number and are determined by it; every number below the sum is
      taken, and no other. */
  lemma NumberingIsBijective(ns: seq<int>, g: int)
    requires NonNegative(ns)
    ensures 0 <= g < Sum(ns) <==> exists r: nat, local :: Numbers(ns, r, local, g)
    ensures forall r: nat, local, t: nat, other ::
      Numbers(ns, r, local, g) && Numbers(ns, t, other, g) ==> r == t && local == other
  {
    StartAll(ns);
    if 0 <= g < Sum(ns) {
      Located(ns, |ns|, g);
    }
    forall r: nat, local | Numbers(ns, r, local, g)
      ensures 0 <= g < Sum(ns)
      ensures forall t: nat, other :: Numbers(ns, t, other, g) ==> r <= t
    {
      StartNext(ns, r);
      StartMono(ns, r + 1, |ns|);
      StartMono(ns, 0, r);
      forall t: nat, other | Numbers(ns, t, other, g) ensures r <= t {
        if t < r {
          StartNext(ns, t);
          StartMono(ns, t + 1, r);
        }
      }
    }
  }

  /** The search gives every rank at least one layer. */
  lemma SearchPositive(layers: int, pp: int)
    requires Search(layers, pp).Shards?
    ensures var r := Search(layers, pp).shards;
      |r| == pp && Sum(r) == layers && NonNegative(r) && pp >= 1 && forall k :: 0 <= k < pp ==> r[k] > 0
  {
    SearchBounds(layers, pp, 0);
    forall k | 0 <= k < pp ensures Search(layers, pp).shards[k] > 0 {
      SearchBounds(layers, pp, k);
    }
  }
}
