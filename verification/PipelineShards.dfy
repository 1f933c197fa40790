/** The search for a pipeline sharding: how many layers each pipeline rank gets. */
module PipelineShards {
  import opened Arithmetic
  import opened Sums

  /** A sharding that the search considers, with the key it is sorted by. */
  datatype Plan = Plan(shards: seq<int>, gap: int)

  datatype Error = TooFewLayers | BadPipelineSize | NoCandidate

  datatype Result = Shards(shards: seq<int>) | Raised(error: Error)

  function Abs(x: int): nat {
    if x < 0 then -x else x
  }

  function Middle(n: nat, k: nat): seq<int> {
    seq(k, i requires 0 <= i < k => n)
  }

  /** The sharding for `m` layers on each of the middle ranks. */
  function PlanFor(layers: int, pp: int, m: nat): Plan
    requires pp >= 2
  {
    var rest := layers - m * (pp - 2);
    Plan([rest / 2] + Middle(m, pp - 2) + [rest - rest / 2], Abs(rest / 2 - m))
  }

  predicate IsCandidate(layers: int, pp: int, m: nat) {
    var rest := layers - m * (pp - 2);
    0 < rest / 2 <= m && 0 < rest - rest / 2 <= m
  }

  function Candidates(layers: int, pp: int, n: nat): seq<Plan>
    requires pp >= 2
  {
    if n == 0 then []
    else
      Candidates(layers, pp, n - 1) +
      if IsCandidate(layers, pp, n - 1) then [PlanFor(layers, pp, n - 1)] else []
  }

  // ---------- Python's sort by a key ----------

  /** A new plan goes behind the ones with the same key. */
  function Insert(sorted: seq<Plan>, p: Plan): seq<Plan> {
    if sorted == [] then [p]
    else if p.gap < sorted[|sorted| - 1].gap then Insert(sorted[..|sorted| - 1], p) + [sorted[|sorted| - 1]]
    else sorted + [p]
  }

  function SortByGap(ps: seq<Plan>): seq<Plan> {
    if ps == [] then [] else Insert(SortByGap(ps[..|ps| - 1]), ps[|ps| - 1])
  }

  ghost predicate Ascending(ps: seq<Plan>) {
    forall i, j :: 0 <= i < j < |ps| ==> ps[i].gap <= ps[j].gap
  }

  function WithGap(ps: seq<Plan>, gap: int): seq<Plan> {
    if ps == [] then [] else WithGap(ps[..|ps| - 1], gap) + if ps[|ps| - 1].gap == gap then [ps[|ps| - 1]] else []
  }

  lemma WithGapSnoc(ps: seq<Plan>, p: Plan, gap: int)
    ensures WithGap(ps + [p], gap) == WithGap(ps, gap) + if p.gap == gap then [p] else []
  {
    assert (ps + [p])[..|ps|] == ps;
  }

  lemma {:induction false} InsertAscending(ps: seq<Plan>, p: Plan)
    requires Ascending(ps)
    ensures Ascending(Insert(ps, p)) && multiset(Insert(ps, p)) == multiset(ps) + multiset{p}
  {
    if ps != [] && p.gap < ps[|ps| - 1].gap {
      var init, last := ps[..|ps| - 1], ps[|ps| - 1];
      assert ps == init + [last];
      InsertAscending(init, p);
      AscendingSnoc(Insert(init, p), init, p, last);
    }
  }

  lemma AscendingSnoc(r: seq<Plan>, init: seq<Plan>, p: Plan, last: Plan)
    requires Ascending(r) && multiset(r) == multiset(init) + multiset{p}
    requires Ascending(init + [last]) && p.gap < last.gap
    ensures Ascending(r + [last])
  {
    forall i | 0 <= i < |r| ensures r[i].gap <= last.gap {
      assert r[i] in multiset(r);
      if r[i] != p {
        assert r[i] in multiset(init);
        var j :| 0 <= j < |init| && init[j] == r[i];
        assert (init + [last])[j].gap <= (init + [last])[|init|].gap;
      }
    }
  }

  lemma {:induction false} InsertKeeps(ps: seq<Plan>, p: Plan, gap: int)
    requires Ascending(ps)
    ensures WithGap(Insert(ps, p), gap) == WithGap(ps + [p], gap)
  {
    if ps != [] && p.gap < ps[|ps| - 1].gap {
      var init, last := ps[..|ps| - 1], ps[|ps| - 1];
      assert ps == init + [last];
      InsertKeeps(init, p, gap);
      hide WithGap;
      WithGapSnoc(Insert(init, p), last, gap);
      WithGapSnoc(init, p, gap);
      WithGapSnoc(init, last, gap);
      WithGapSnoc(ps, p, gap);
    }
  }

  /** The sort is stable: it orders by the key and keeps plans with one key in their order. */
  lemma {:induction false} SortIsStable(ps: seq<Plan>, gap: int)
    ensures Ascending(SortByGap(ps)) && multiset(SortByGap(ps)) == multiset(ps)
    ensures WithGap(SortByGap(ps), gap) == WithGap(ps, gap)
  {
    if ps != [] {
      var init, p := ps[..|ps| - 1], ps[|ps| - 1];
      assert ps == init + [p];
      SortIsStable(init, gap);
      hide *;
      SortSnoc(init, p);
      InsertAscending(SortByGap(init), p);
      InsertKeeps(SortByGap(init), p, gap);
      WithGapSnoc(SortByGap(init), p, gap);
      WithGapSnoc(init, p, gap);
    }
  }

  lemma SortSnoc(ps: seq<Plan>, p: Plan)
    ensures SortByGap(ps + [p]) == Insert(SortByGap(ps), p)
  {
    assert (ps + [p])[..|ps|] == ps;
  }

  lemma {:induction false} InsertHead(ps: seq<Plan>, p: Plan)
    requires ps != [] && ps[0].gap <= p.gap
    ensures Insert(ps, p) != [] && Insert(ps, p)[0] == ps[0]
  {
    if p.gap < ps[|ps| - 1].gap { InsertHead(ps[..|ps| - 1], p); }
  }

  /** A plan that comes first and has the least key stays first. */
  lemma {:induction false} SortHead(ps: seq<Plan>)
    requires ps != [] && forall i :: 0 <= i < |ps| ==> ps[0].gap <= ps[i].gap
    ensures SortByGap(ps) != [] && SortByGap(ps)[0] == ps[0]
  {
    if |ps| > 1 {
      SortHead(ps[..|ps| - 1]);
      InsertHead(SortByGap(ps[..|ps| - 1]), ps[|ps| - 1]);
    }
  }

  // ---------- The search ----------

  /** What the search computes. */
  function Search(layers: int, pp: int): Result {
    if layers < pp then Raised(TooFewLayers)
    else if pp < 1 then Raised(BadPipelineSize)
    else if pp == 1 then Shards([layers])
    else if pp == 2 then Shards([layers / 2, layers - layers / 2])
    else
      var found := Candidates(layers, pp, layers);
      if found == [] then Raised(NoCandidate)
      else assert SortByGap(found) != [] by { SortIsStable(found, 0); } Shards(SortByGap(found)[0].shards)
  }

  /** `get_dynamic_pipeline_shards` */
  method GetDynamicPipelineShards(layerNum: int, ppSize: int) returns (r: Result)
    ensures r == Search(layerNum, ppSize)
  {
    if layerNum < ppSize {
      return Raised(TooFewLayers);
    }
    if ppSize < 1 {
      return Raised(BadPipelineSize);
    }
    if ppSize == 1 {
      return Shards([layerNum]);
    }
    if ppSize == 2 {
      return Shards([layerNum / 2, layerNum - layerNum / 2]);
    }
    hide *;
    var middleSize := ppSize - 2;
    assert Candidates(layerNum, ppSize, 0) == [] by { CandidatesStep(layerNum, ppSize, 0); }
    var strategies: seq<Plan> := [];
    for m := 0 to layerNum
      invariant strategies == Candidates(layerNum, ppSize, m)
    {
      CandidatesStep(layerNum, ppSize, m);
      var firstLast := layerNum - m * middleSize;
      var first := firstLast / 2;
      var last := firstLast - firstLast / 2;
      if 0 < first <= m && 0 < last <= m {
        strategies := strategies + [Plan([first] + Middle(m, middleSize) + [last], Abs(first - m))];
      }
    }
    SearchStep(layerNum, ppSize);
    if strategies == [] {
      return Raised(NoCandidate);
    }
    var res := SortByGap(strategies)[0].shards;
    assert Sum(res) == layerNum by { SearchSums(layerNum, ppSize); }
    r := Shards(res);
  }

  /** The search by the number of ranks. The layers are checked before the number of ranks. One rank gets all,
      two get half each, the first the smaller half; from three on, the middle ranks get the rounded-up average
      and the ends share what that leaves, the first again the smaller half, unless it is less than two. */
  lemma SearchCases(layers: int, pp: int)
    ensures var r := Search(layers, pp);
      && (r == Raised(TooFewLayers) <==> layers < pp)
      && (r == Raised(BadPipelineSize) <==> pp <= layers && pp < 1)
      && (pp == 1 <= layers ==> r == Shards([layers]))
      && (pp == 2 <= layers ==>
            && r.Shards? && |r.shards| == 2 && r.shards[0] + r.shards[1] == layers
            && r.shards[0] <= r.shards[1] <= r.shards[0] + 1)
      && (r == Raised(NoCandidate) <==> 3 <= pp <= layers && layers - CeilDiv(layers, pp) * (pp - 2) < 2)
      && (3 <= pp && r.Shards? ==>
            var m := CeilDiv(layers, pp);
            && |r.shards| == pp && (forall k :: 1 <= k < pp - 1 ==> r.shards[k] == m)
            && r.shards[0] + r.shards[pp - 1] == layers - m * (pp - 2)
            && r.shards[0] <= r.shards[pp - 1] <= r.shards[0] + 1)
  {
    if 3 <= pp <= layers {
      hide *;
      var m := CeilDiv(layers, pp);
      SearchClosedForm(layers, pp);
      MiddleIs(m, pp - 2);
    } else {
      hide Candidates;
    }
  }

  lemma CandidatesStep(layers: int, pp: int, m: nat)
    requires pp >= 2
    ensures Candidates(layers, pp, 0) == []
    ensures var rest := layers - m * (pp - 2);
      Candidates(layers, pp, m + 1) == Candidates(layers, pp, m) +
        if 0 < rest / 2 <= m && 0 < rest - rest / 2 <= m
        then [Plan([rest / 2] + Middle(m, pp - 2) + [rest - rest / 2], Abs(rest / 2 - m))] else []
  {}

  lemma SearchStep(layers: int, pp: int)
    requires layers >= pp >= 3
    ensures var found := Candidates(layers, pp, layers);
      if found == [] then Search(layers, pp) == Raised(NoCandidate)
      else SortByGap(found) != [] && Search(layers, pp) == Shards(SortByGap(found)[0].shards)
  {
    SortIsStable(Candidates(layers, pp, layers), 0);
  }

  lemma SearchSums(layers: int, pp: int)
    requires layers >= pp >= 3 && Search(layers, pp).Shards?
    ensures Sum(Search(layers, pp).shards) == layers
  {
    SearchClosedForm(layers, pp);
    PlanSums(layers, pp, CeilDiv(layers, pp));
  }

  /** A candidate is a middle size that lies between the average stage and what leaves two layers over. */
  lemma CandidateIff(layers: nat, pp: nat, m: nat)
    requires pp >= 3
    ensures IsCandidate(layers, pp, m) <==> CeilDiv(layers, pp) <= m && m * (pp - 2) + 2 <= layers
  {
    var q := CeilDiv(layers, pp);
    assert m * pp == m * (pp - 2) + 2 * m;
    if m * pp >= layers && m < q {
      MulMono(m, q - 1, pp);
    }
    if q <= m {
      MulMono(q, m, pp);
    }
  }

  lemma LargerIsWorse(layers: nat, pp: nat, m: nat, n: nat)
    requires pp >= 3 && m < n && IsCandidate(layers, pp, n)
    ensures IsCandidate(layers, pp, m) ==> PlanFor(layers, pp, m).gap < PlanFor(layers, pp, n).gap
    ensures CeilDiv(layers, pp) <= m ==> IsCandidate(layers, pp, m)
  {
    MulMono(m + 1, n, pp - 2);
    assert (m + 1) * (pp - 2) == m * (pp - 2) + (pp - 2);
    CandidateIff(layers, pp, n);
    CandidateIff(layers, pp, m);
  }

  lemma {:induction false} CandidatesFrom(layers: nat, pp: nat, n: nat)
    requires pp >= 3
    ensures var m, found := CeilDiv(layers, pp), Candidates(layers, pp, n);
      if m < n && IsCandidate(layers, pp, m)
      then found != [] && found[0] == PlanFor(layers, pp, m) && forall i :: 0 <= i < |found| ==> found[0].gap <= found[i].gap
      else found == []
  {
    if n > 0 {
      CandidatesFrom(layers, pp, n - 1);
      var m := CeilDiv(layers, pp);
      if IsCandidate(layers, pp, n - 1) {
        CandidateIff(layers, pp, n - 1);
        if m < n - 1 {
          LargerIsWorse(layers, pp, m, n - 1);
        }
      }
    }
  }

  lemma {:induction false} MiddleSum(m: nat, k: nat)
    ensures Sum(Middle(m, k)) == m * k
  {
    if k > 0 {
      assert Middle(m, k)[1..] == Middle(m, k - 1);
      MiddleSum(m, k - 1);
      assert m * k == m * (k - 1) + m;
    }
  }

  lemma PlanSums(layers: int, pp: int, m: nat)
    requires pp >= 2
    ensures Sum(PlanFor(layers, pp, m).shards) == layers
  {
    var rest := layers - m * (pp - 2);
    MiddleSum(m, pp - 2);
    SumAppend([rest / 2] + Middle(m, pp - 2), [rest - rest / 2]);
    SumAppend([rest / 2], Middle(m, pp - 2));
    assert Sum([rest / 2]) == rest / 2 && Sum([rest - rest / 2]) == rest - rest / 2 by {
      assert Sum([]) == 0;
    }
  }

  /** With three or more ranks the search puts the rounded-up average on every middle rank and shares the
      rest between the first and the last. It fails exactly when that leaves fewer than two layers. */
  lemma SearchClosedForm(layers: int, pp: int)
    requires layers >= pp >= 3
    ensures var m := CeilDiv(layers, pp); var rest := layers - m * (pp - 2);
      Search(layers, pp) ==
        if m * (pp - 2) + 2 <= layers then Shards([rest / 2] + Middle(m, pp - 2) + [rest - rest / 2])
        else Raised(NoCandidate)
  {
    hide *;
    var m := CeilDiv(layers, pp);
    CandidateIff(layers, pp, m);
    CandidatesFrom(layers, pp, layers);
    CeilSmaller(layers, pp);
    SearchStep(layers, pp);
    PlanIs(layers, pp, m);
    if m * (pp - 2) + 2 <= layers {
      SortHead(Candidates(layers, pp, layers));
    }
  }

  /** The chosen sharding has the least gap between its first and its middle ranks among all candidates, and
      is the only one with that gap. */
  lemma SearchLeastGap(layers: int, pp: int, k: nat)
    requires layers >= pp >= 3 && Search(layers, pp).Shards? && IsCandidate(layers, pp, k)
    ensures var m := CeilDiv(layers, pp);
      && IsCandidate(layers, pp, m) && Search(layers, pp).shards == PlanFor(layers, pp, m).shards
      && (k == m || PlanFor(layers, pp, m).gap < PlanFor(layers, pp, k).gap)
  {
    hide *;
    var m := CeilDiv(layers, pp);
    SearchClosedForm(layers, pp);
    PlanIs(layers, pp, m);
    CandidateIff(layers, pp, m);
    CandidateIff(layers, pp, k);
    if m < k {
      LargerIsWorse(layers, pp, m, k);
    }
  }

  lemma PlanIs(layers: int, pp: int, m: nat)
    requires pp >= 2
    ensures var rest := layers - m * (pp - 2);
      PlanFor(layers, pp, m).shards == [rest / 2] + Middle(m, pp - 2) + [rest - rest / 2]
  {}

  lemma CeilSmaller(layers: nat, pp: nat)
    requires layers >= 2 && pp >= 2
    ensures CeilDiv(layers, pp) < layers
  {
    var m := CeilDiv(layers, pp);
    MulMono(2, pp, layers - 1);
    assert (layers - 1) * pp == pp * (layers - 1);
    if m >= layers {
      MulMono(layers - 1, m - 1, pp);
    }
  }

  /** Whatever the search returns shares all layers out, leaves no rank without one, and has the smallest
      possible largest stage. */
  lemma SearchIsUniform(layers: int, pp: int, other: seq<int>, k: nat)
    requires Search(layers, pp).Shards?
    requires |other| == pp && Sum(other) == layers
    requires k < pp
    ensures var r := Search(layers, pp).shards;
      && |r| == pp && Sum(r) == layers && 0 < r[k]
      && exists j :: 0 <= j < pp && r[k] <= other[j]
  {
    var r := Search(layers, pp).shards;
    var m := CeilDiv(layers, pp);
    assert |r| == pp && Sum(r) == layers && 0 < r[k] <= m by { SearchBounds(layers, pp, k); }
    if forall j :: 0 <= j < pp ==> other[j] <= m - 1 {
      Pigeonhole(other, m - 1);
    }
  }

  lemma SearchBounds(layers: int, pp: int, k: nat)
    requires Search(layers, pp).Shards? && k < pp
    ensures var r := Search(layers, pp).shards; |r| == pp && Sum(r) == layers && 0 < r[k] <= CeilDiv(layers, pp)
  {
    if pp >= 3 {
      hide *;
      var m := CeilDiv(layers, pp);
      SearchClosedForm(layers, pp);
      CandidateIs(layers, pp, m);
      CandidateIff(layers, pp, m);
      PlanIs(layers, pp, m);
      PlanSums(layers, pp, m);
      MiddleIs(m, pp - 2);
    } else if pp == 2 {
      TwoRanks(layers);
    } else {
      var r := Search(layers, pp).shards;
      assert r == [layers] && r[1..] == [];
      assert CeilDiv(layers, 1) == layers;
    }
  }

  lemma CandidateIs(layers: int, pp: int, m: nat)
    ensures var rest := layers - m * (pp - 2);
      IsCandidate(layers, pp, m) <==> 0 < rest / 2 <= m && 0 < rest - rest / 2 <= m
  {}

  lemma MiddleIs(m: nat, k: nat)
    ensures |Middle(m, k)| == k && forall i :: 0 <= i < k ==> Middle(m, k)[i] == m
  {}

  lemma TwoRanks(layers: nat)
    requires layers >= 2
    ensures var r := [layers / 2, layers - layers / 2];
      Sum(r) == layers && 0 < r[0] <= r[1] <= CeilDiv(layers, 2)
  {
    var r := [layers / 2, layers - layers / 2];
    assert r[1..] == [r[1]] && r[1..][1..] == [];
    assert Sum(r[1..]) == r[1];
  }

  lemma {:induction false} Pigeonhole(xs: seq<int>, m: int)
    requires forall j :: 0 <= j < |xs| ==> xs[j] <= m
    ensures Sum(xs) <= m * |xs|
  {
    if xs != [] {
      Pigeonhole(xs[1..], m);
      assert m * |xs| == m * (|xs| - 1) + m;
    }
  }

  /** Although five layers can be shared among four ranks, the search finds nothing. */
  lemma FiveLayersFourRanks()
    ensures Search(5, 4) == Raised(NoCandidate)
    ensures Sum([1, 1, 1, 2]) == 5
  {
    assert CeilDiv(5, 4) == 2;
    SearchClosedForm(5, 4);
    assert [1, 1, 1, 2][1..] == [1, 1, 2] && [1, 1, 2][1..] == [1, 2] && [1, 2][1..] == [2];
    assert Sum([2]) == 2 by { assert [2][1..] == []; }
  }

  /** It always succeeds when the ranks divide the layers, and then every rank gets the same number. */
  lemma DivisibleIsEven(layers: int, pp: int, each: int)
    requires each >= 1 && pp >= 3 && layers == each * pp
    ensures Search(layers, pp) == Shards(Middle(each, pp))
  {
    assert each * pp == each * (pp - 2) + 2 * each;
    assert layers >= pp by { MulMono(1, each, pp); }
    var m := CeilDiv(layers, pp);
    assert m == each by {
      if m < each { MulMono(m, each - 1, pp); }
      if m > each { MulMono(each, m - 1, pp); }
    }
    SearchClosedForm(layers, pp);
    assert [each] + Middle(each, pp - 2) + [each] == Middle(each, pp);
  }
}
