/** When stacking the experts succeeds, and when splitting the stacks restores the checkpoint. */
module MoeRoundTrip {
  import opened Options
  import opened MoeExperts

  function Lookup(s: State, k: Key): Option<Tensor> {
    if k in s then Some(s[k]) else None
  }

  lemma SameState(a: State, b: State)
    requires forall k :: Lookup(a, k) == Lookup(b, k)
    ensures a == b
  {
    forall k ensures (k in a <==> k in b) && (k in a ==> a[k] == b[k]) {
      assert Lookup(a, k) == Lookup(b, k);
    }
  }

  // ---------- One projection ----------

  /** Two states agree on every key of this layer and projection. */
  ghost predicate SameAt(a: State, b: State, i: nat, p: Proj) {
    Lookup(a, Stacked(i, p)) == Lookup(b, Stacked(i, p)) &&
    forall j: nat :: Lookup(a, Expert(i, j, p)) == Lookup(b, Expert(i, j, p))
  }

  lemma StackableSame(a: State, b: State, i: nat, p: Proj, n: nat)
    requires SameAt(a, b, i, p)
    ensures Stackable(a, i, p, n) <==> Stackable(b, i, p, n)
    ensures Stackable(a, i, p, n) ==> Slices(a, i, p, n) == Slices(b, i, p, n)
  {
    forall j: nat ensures Expert(i, j, p) in a <==> Expert(i, j, p) in b {
      assert Lookup(a, Expert(i, j, p)) == Lookup(b, Expert(i, j, p));
    }
    if AllPresent(a, i, p, n) {
      forall j: nat | j < n ensures a[Expert(i, j, p)] == b[Expert(i, j, p)] {
        assert Lookup(a, Expert(i, j, p)) == Lookup(b, Expert(i, j, p));
      }
      assert Slices(a, i, p, n) == Slices(b, i, p, n);
    }
  }

  /** What stacking leaves under a key. */
  lemma StackProjAt(s: State, i: nat, p: Proj, n: nat, k: Key)
    ensures StackProj(s, i, p, n).Ok? <==> Stackable(s, i, p, n)
    ensures Stackable(s, i, p, n) ==>
      Lookup(StackProj(s, i, p, n).state, k) ==
        if k == Stacked(i, p) then Some(Rows(Slices(s, i, p, n)))
        else if k.Expert? && k.layer == i && k.proj == p && k.expert < n then None
        else Lookup(s, k)
  {}

  // ---------- Merging by layers ----------

  /** The projections of layer i that come before k of the three. */
  function Rank(p: Proj): nat {
    match p case Gate => 0 case Up => 1 case Down => 2
  }

  /** Layers `from` to `i` and the first k projections of layer i have been merged. */
  predicate Before(j: nat, p: Proj, from: nat, i: nat, k: nat) {
    from <= j && (j < i || (j == i && Rank(p) < k))
  }

  function Order(k: nat): Proj
    requires k < 3
    ensures Rank(Order(k)) == k
  {
    if k == 0 then Gate else if k == 1 then Up else Down
  }

  ghost predicate CanStack(s: State, from: nat, i: nat, k: nat, n: nat) {
    forall j: nat, p :: Before(j, p, from, i, k) ==> Stackable(s, j, p, n)
  }

  /** m is s with the projections before (i, k) merged. */
  ghost predicate IsMerged(s: State, m: State, from: nat, i: nat, k: nat, n: nat) {
    forall key :: Lookup(m, key) == MergedAt(s, from, i, k, n, key)
  }

  ghost function MergedAt(s: State, from: nat, i: nat, k: nat, n: nat, key: Key): Option<Tensor> {
    if key.Stacked? && Before(key.layer, key.proj, from, i, k) && AllPresent(s, key.layer, key.proj, n)
    then Some(Rows(Slices(s, key.layer, key.proj, n)))
    else if key.Expert? && Before(key.layer, key.proj, from, i, k) && key.expert < n then None
    else Lookup(s, key)
  }

  lemma UntouchedAt(s: State, m: State, from: nat, i: nat, k: nat, n: nat, j: nat, p: Proj)
    requires IsMerged(s, m, from, i, k, n) && !Before(j, p, from, i, k)
    ensures SameAt(s, m, j, p)
  {
    assert Lookup(m, Stacked(j, p)) == MergedAt(s, from, i, k, n, Stacked(j, p));
    forall e: nat ensures Lookup(s, Expert(j, e, p)) == Lookup(m, Expert(j, e, p)) {
      assert Lookup(m, Expert(j, e, p)) == MergedAt(s, from, i, k, n, Expert(j, e, p));
    }
  }

  /** What r has to be for a merge up to (i, k). */
  ghost predicate MergeStands(s: State, r: Result, from: nat, i: nat, k: nat, n: nat) {
    (r.Ok? <==> CanStack(s, from, i, k, n)) && (r.Ok? ==> IsMerged(s, r.state, from, i, k, n))
  }

  lemma MergeStep(s: State, r: Result, from: nat, i: nat, k: nat, n: nat)
    requires MergeStands(s, r, from, i, k, n) && k < 3 && from <= i
    ensures MergeStands(s, Then(r, i, Order(k), n), from, i, k + 1, n)
  {
    var p := Order(k);
    forall j: nat, q ensures Before(j, q, from, i, k + 1) <==> Before(j, q, from, i, k) || (j == i && q == p) {}
    assert CanStack(s, from, i, k + 1, n) <==> CanStack(s, from, i, k, n) && Stackable(s, i, p, n) by {
      if CanStack(s, from, i, k + 1, n) {
        assert Before(i, p, from, i, k + 1);
        forall j: nat, q | Before(j, q, from, i, k) ensures Stackable(s, j, q, n) {
          assert Before(j, q, from, i, k + 1);
        }
      }
    }
    if r.Ok? {
      var m := r.state;
      UntouchedAt(s, m, from, i, k, n, i, p);
      StackableSame(s, m, i, p, n);
      StackProjAt(m, i, p, n, Stacked(i, p));
      if Stackable(m, i, p, n) {
        MergeStepAt(s, m, from, i, k, n);
      }
    }
  }

  lemma MergeStepAt(s: State, m: State, from: nat, i: nat, k: nat, n: nat)
    requires IsMerged(s, m, from, i, k, n) && k < 3 && from <= i
    requires Stackable(m, i, Order(k), n) && Stackable(s, i, Order(k), n)
    requires Slices(m, i, Order(k), n) == Slices(s, i, Order(k), n)
    ensures IsMerged(s, StackProj(m, i, Order(k), n).state, from, i, k + 1, n)
  {
    hide StackProj;
    hide Stackable;
    var p := Order(k);
    assert AllPresent(s, i, p, n) by { StackableParts(s, i, p, n); }
    StackProjAt(m, i, p, n, Stacked(i, p));
    forall key ensures Lookup(StackProj(m, i, p, n).state, key) == MergedAt(s, from, i, k + 1, n, key) {
      StackProjAt(m, i, p, n, key);
      assert Lookup(m, key) == MergedAt(s, from, i, k, n, key);
    }
  }

  lemma StackableParts(s: State, i: nat, p: Proj, n: nat)
    requires Stackable(s, i, p, n)
    ensures n > 0 && AllPresent(s, i, p, n)
  {}

  lemma MergeLayerStands(s: State, r: Result, from: nat, i: nat, n: nat)
    requires MergeStands(s, r, from, i, 0, n) && from <= i
    ensures MergeStands(s, MergeLayer(r, i, n), from, i + 1, 0, n)
  {
    var g := Then(r, i, Gate, n);
    var u := Then(g, i, Up, n);
    var d := Then(u, i, Down, n);
    assert MergeLayer(r, i, n) == d;
    assert Order(0) == Gate && Order(1) == Up && Order(2) == Down;
    hide Then;
    hide MergeStands;
    MergeStep(s, r, from, i, 0, n);
    MergeStep(s, g, from, i, 1, n);
    MergeStep(s, u, from, i, 2, n);
    LayerDone(s, d, from, i, n);
  }

  lemma LayerDone(s: State, r: Result, from: nat, i: nat, n: nat)
    requires MergeStands(s, r, from, i, 3, n)
    ensures MergeStands(s, r, from, i + 1, 0, n)
  {
    forall j: nat, p ensures Before(j, p, from, i, 3) <==> Before(j, p, from, i + 1, 0) {}
    assert CanStack(s, from, i, 3, n) <==> CanStack(s, from, i + 1, 0, n);
    if r.Ok? {
      forall key ensures Lookup(r.state, key) == MergedAt(s, from, i + 1, 0, n, key) {
        assert Lookup(r.state, key) == MergedAt(s, from, i, 3, n, key);
      }
    }
  }

  lemma {:induction false} MergeLayersStand(s: State, from: nat, end: nat, n: nat)
    ensures MergeStands(s, MergeLayers(s, from, end, n), from, end, 0, n)
    decreases end
  {
    hide *;
    if end <= from {
      MergeLayersNext(s, from, end, n);
      NothingMerged(s, from, end, n);
    } else {
      MergeLayersStand(s, from, end - 1, n);
      MergeLayersNext(s, from, end - 1, n);
      MergeLayerStands(s, MergeLayers(s, from, end - 1, n), from, end - 1, n);
    }
  }

  lemma NothingMerged(s: State, from: nat, end: nat, n: nat)
    requires end <= from
    ensures MergeStands(s, Ok(s), from, end, 0, n)
  {
    forall j: nat, p ensures !Before(j, p, from, end, 0) {}
  }

  /** Merging succeeds exactly when every layer from the first sparse one on has all its experts, in equal
      shapes, for each projection. It then moves them under the stacked keys and changes nothing else. */
  lemma MergeExact(s: State, from: nat, end: nat, n: nat)
    ensures MergeLayers(s, from, end, n).Ok? <==>
      forall j: nat, p :: from <= j < end ==> Stackable(s, j, p, n)
    ensures MergeLayers(s, from, end, n).Ok? ==> forall key ::
      Lookup(MergeLayers(s, from, end, n).state, key) ==
        match key
        case Stacked(l, p) =>
          if from <= l < end && AllPresent(s, l, p, n) then Some(Rows(Slices(s, l, p, n))) else Lookup(s, key)
        case Expert(l, e, p) => if from <= l < end && e < n then None else Lookup(s, key)
        case Other(_) => Lookup(s, key)
  {
    MergeLayersStand(s, from, end, n);
    forall j: nat, p ensures Before(j, p, from, end, 0) <==> from <= j < end {}
    var r := MergeLayers(s, from, end, n);
    assert r.Ok? <==> CanStack(s, from, end, 0, n);
    assert CanStack(s, from, end, 0, n) <==> forall j: nat, p :: from <= j < end ==> Stackable(s, j, p, n);
    if r.Ok? {
      forall key ensures Lookup(r.state, key) == MergedAt(s, from, end, 0, n, key) {}
    }
  }

  /** What the merge script does. It needs an expert count, and reads `num_experts` before `n_routed_experts`; the
      layers before `first_k_dense_replace`, if there is such an attribute, are left alone. */
  lemma MergeMainExact(s: State, c: Config)
    ensures Merge(s, c) == Err(NoExpertCount) <==> c.numExperts.None? && c.routedExperts.None?
    ensures c.numExperts.Some? || c.routedExperts.Some? ==>
      var n := if c.numExperts.Some? then c.numExperts.value else c.routedExperts.value;
      var from := if c.firstDense.Some? then c.firstDense.value else 0;
      && (Merge(s, c).Ok? <==> forall j: nat, p :: from <= j < c.layers ==> Stackable(s, j, p, n))
      && (Merge(s, c).Ok? ==> forall key ::
            Lookup(Merge(s, c).state, key) ==
              match key
              case Stacked(l, p) =>
                if from <= l < c.layers && AllPresent(s, l, p, n) then Some(Rows(Slices(s, l, p, n))) else Lookup(s, key)
              case Expert(l, e, p) => if from <= l < c.layers && e < n then None else Lookup(s, key)
              case Other(_) => Lookup(s, key))
  {
    MergeIs(s, c);
    hide Merge;
    if c.numExperts.Some? || c.routedExperts.Some? {
      var n := if c.numExperts.Some? then c.numExperts.value else c.routedExperts.value;
      var from := if c.firstDense.Some? then c.firstDense.value else 0;
      MergeExact(s, from, c.layers, n);
      MergeErrors(s, from, c.layers, n);
      hide MergeLayers;
    }
  }

  lemma MergeIs(s: State, c: Config)
    ensures Merge(s, c) ==
      if c.numExperts.None? && c.routedExperts.None? then Err(NoExpertCount)
      else MergeLayers(s, if c.firstDense.Some? then c.firstDense.value else 0, c.layers,
        if c.numExperts.Some? then c.numExperts.value else c.routedExperts.value)
  {
    hide MergeLayers;
  }

  lemma {:induction false} MergeErrors(s: State, from: nat, end: nat, n: nat)
    ensures MergeLayers(s, from, end, n) != Err(NoExpertCount)
    decreases end
  {
    hide *;
    MergeLayersNext(s, from, end, n);
    if end > from {
      MergeErrors(s, from, end - 1, n);
      MergeLayersNext(s, from, end - 1, n);
      LayerErrors(MergeLayers(s, from, end - 1, n), end - 1, n);
    }
  }

  lemma LayerErrors(r: Result, i: nat, n: nat)
    requires r != Err(NoExpertCount)
    ensures MergeLayer(r, i, n) != Err(NoExpertCount)
  {}

  // ---------- Splitting by layers ----------

  ghost predicate HasRows(t: Tensor, n: nat) {
    n == 0 || (t.Rows? && n <= |t.rows|)
  }

  ghost predicate CanSplit(m: State, i: nat, k: nat, n: nat) {
    forall j: nat, p :: Before(j, p, 0, i, k) && Stacked(j, p) in m ==> HasRows(m[Stacked(j, p)], n)
  }

  ghost function SplitAt(m: State, i: nat, k: nat, n: nat, key: Key): Option<Tensor> {
    if key.Stacked? && Before(key.layer, key.proj, 0, i, k) then None
    else if key.Expert? && Before(key.layer, key.proj, 0, i, k) && key.expert < n &&
      Stacked(key.layer, key.proj) in m && HasRows(m[Stacked(key.layer, key.proj)], n)
    then Some(m[Stacked(key.layer, key.proj)].rows[key.expert])
    else Lookup(m, key)
  }

  ghost predicate IsSplit(m: State, r: State, i: nat, k: nat, n: nat) {
    forall key :: Lookup(r, key) == SplitAt(m, i, k, n, key)
  }

  ghost predicate SplitStands(m: State, r: Result, i: nat, k: nat, n: nat) {
    (r.Ok? <==> CanSplit(m, i, k, n)) && (r.Ok? ==> IsSplit(m, r.state, i, k, n))
  }

  lemma SplitProjAt(s: State, i: nat, p: Proj, n: nat, k: Key)
    ensures SplitProj(s, i, p, n).Ok? <==> (Stacked(i, p) in s ==> HasRows(s[Stacked(i, p)], n))
    ensures SplitProj(s, i, p, n).Ok? ==>
      Lookup(SplitProj(s, i, p, n).state, k) ==
        if Stacked(i, p) in s && k == Stacked(i, p) then None
        else if Stacked(i, p) in s && k.Expert? && k.layer == i && k.proj == p && k.expert < n
        then Some(s[Stacked(i, p)].rows[k.expert])
        else Lookup(s, k)
  {}

  lemma SplitStep(m: State, r: Result, i: nat, k: nat, n: nat)
    requires SplitStands(m, r, i, k, n) && k < 3
    ensures SplitStands(m, ThenSplit(r, i, Order(k), n), i, k + 1, n)
  {
    var p := Order(k);
    forall j: nat, q ensures Before(j, q, 0, i, k + 1) <==> Before(j, q, 0, i, k) || (j == i && q == p) {}
    assert CanSplit(m, i, k + 1, n) <==> CanSplit(m, i, k, n) && (Stacked(i, p) in m ==> HasRows(m[Stacked(i, p)], n)) by {
      if CanSplit(m, i, k + 1, n) {
        assert Before(i, p, 0, i, k + 1);
        forall j: nat, q | Before(j, q, 0, i, k) && Stacked(j, q) in m ensures HasRows(m[Stacked(j, q)], n) {
          assert Before(j, q, 0, i, k + 1);
        }
      }
    }
    if r.Ok? {
      assert Lookup(r.state, Stacked(i, p)) == SplitAt(m, i, k, n, Stacked(i, p));
      assert Lookup(r.state, Stacked(i, p)) == Lookup(m, Stacked(i, p));
      SplitProjAt(r.state, i, p, n, Stacked(i, p));
      if SplitProj(r.state, i, p, n).Ok? {
        hide SplitProj;
        forall key ensures Lookup(SplitProj(r.state, i, p, n).state, key) == SplitAt(m, i, k + 1, n, key) {
          SplitProjAt(r.state, i, p, n, key);
          assert Lookup(r.state, key) == SplitAt(m, i, k, n, key);
        }
      }
    }
  }

  lemma SplitLayerStands(m: State, r: Result, i: nat, n: nat)
    requires SplitStands(m, r, i, 0, n)
    ensures SplitStands(m, SplitSome(r, i, n, 3), i + 1, 0, n)
  {
    assert SplitSome(r, i, n, 0) == r;
    assert Order(0) == Gate && Order(1) == Up && Order(2) == Down;
    hide *;
    SplitSomeNext(r, i, n, 0);
    SplitSomeNext(r, i, n, 1);
    SplitSomeNext(r, i, n, 2);
    SplitStep(m, r, i, 0, n);
    SplitStep(m, SplitSome(r, i, n, 1), i, 1, n);
    SplitStep(m, SplitSome(r, i, n, 2), i, 2, n);
    SplitLayerDone(m, SplitSome(r, i, n, 3), i, n);
  }

  lemma SplitLayerDone(m: State, r: Result, i: nat, n: nat)
    requires SplitStands(m, r, i, 3, n)
    ensures SplitStands(m, r, i + 1, 0, n)
  {
    forall j: nat, p ensures Before(j, p, 0, i, 3) <==> Before(j, p, 0, i + 1, 0) {}
    assert CanSplit(m, i, 3, n) <==> CanSplit(m, i + 1, 0, n);
    if r.Ok? {
      forall key ensures Lookup(r.state, key) == SplitAt(m, i + 1, 0, n, key) {
        assert Lookup(r.state, key) == SplitAt(m, i, 3, n, key);
      }
    }
  }

  lemma {:induction false} SplitLayersStand(m: State, layers: nat, n: nat)
    ensures SplitStands(m, SplitLayers(m, layers, n), layers, 0, n)
  {
    if layers == 0 {
      forall j: nat, p ensures !Before(j, p, 0, 0, 0) {}
    } else {
      SplitLayersStand(m, layers - 1, n);
      SplitLayersNext(m, layers - 1, n);
      hide *;
      SplitLayerStands(m, SplitLayers(m, layers - 1, n), layers - 1, n);
    }
  }

  lemma SplitLayersNext(m: State, i: nat, n: nat)
    ensures SplitLayers(m, i + 1, n) == SplitSome(SplitLayers(m, i, n), i, n, 3)
  {}

  /** Splitting succeeds exactly when every stack it finds has at least the number of experts, and moves
      the slices back under the experts' keys. */
  lemma SplitExact(m: State, layers: nat, n: nat)
    ensures SplitLayers(m, layers, n).Ok? <==>
      forall j: nat, p :: j < layers && Stacked(j, p) in m ==> HasRows(m[Stacked(j, p)], n)
    ensures SplitLayers(m, layers, n).Ok? ==> forall key ::
      Lookup(SplitLayers(m, layers, n).state, key) ==
        match key
        case Stacked(l, p) => if l < layers then None else Lookup(m, key)
        case Expert(l, e, p) =>
          if l < layers && e < n && Stacked(l, p) in m && HasRows(m[Stacked(l, p)], n)
          then Some(m[Stacked(l, p)].rows[e]) else Lookup(m, key)
        case Other(_) => Lookup(m, key)
  {
    SplitLayersStand(m, layers, n);
    forall j: nat, p ensures Before(j, p, 0, layers, 0) <==> j < layers {}
    var r := SplitLayers(m, layers, n);
    assert r.Ok? <==> CanSplit(m, layers, 0, n);
    assert CanSplit(m, layers, 0, n) <==>
      forall j: nat, p :: j < layers && Stacked(j, p) in m ==> HasRows(m[Stacked(j, p)], n);
    if r.Ok? {
      forall key ensures Lookup(r.state, key) == SplitAt(m, layers, 0, n, key) {}
    }
  }

  // ---------- Round trips ----------

  ghost predicate NoStacks(s: State, layers: nat) {
    forall j: nat, p :: j < layers ==> Stacked(j, p) !in s
  }

  /** Splitting a merged checkpoint restores the original exactly when the original had no stacked key in
      any layer and the configuration names its expert count the way the split reads it. */
  lemma MergeThenSplit(s: State, c: Config)
    requires Merge(s, c).Ok?
    ensures Split(Merge(s, c).state, c) == Ok(s) <==> c.numExperts.Some? && NoStacks(s, c.layers)
  {
    if c.numExperts.Some? {
      var n := c.numExperts.value;
      var first := if c.firstDense.Some? then c.firstDense.value else 0;
      var m := Merge(s, c).state;
      assert Merge(s, c) == MergeLayers(s, first, c.layers, n);
      assert Split(m, c) == SplitLayers(m, c.layers, n);
      hide MergeLayers;
      hide SplitLayers;
      SplitOfMerged(s, m, first, c.layers, n);
    }
  }

  lemma SplitOfMerged(s: State, m: State, first: nat, layers: nat, n: nat)
    requires MergeLayers(s, first, layers, n) == Ok(m)
    ensures SplitLayers(m, layers, n) == Ok(s) <==> NoStacks(s, layers)
  {
    MergeExact(s, first, layers, n);
    SplitExact(m, layers, n);
    hide MergeLayers;
    hide SplitLayers;
    var r := SplitLayers(m, layers, n);
    if NoStacks(s, layers) {
      forall j: nat, p | j < layers && Stacked(j, p) in m ensures HasRows(m[Stacked(j, p)], n) {
        MergedStack(s, m, first, layers, n, j, p);
      }
      forall key ensures Lookup(r.state, key) == Lookup(s, key) {
        if key.Expert? && key.layer < layers {
          MergedStack(s, m, first, layers, n, key.layer, key.proj);
        }
      }
      SameState(r.state, s);
    } else {
      var j: nat, p :| j < layers && Stacked(j, p) in s;
      if r.Ok? {
        assert Lookup(r.state, Stacked(j, p)) == None;
      }
    }
  }

  /** The stack that a merge leaves in a layer, if any. */
  lemma MergedStack(s: State, m: State, first: nat, layers: nat, n: nat, j: nat, p: Proj)
    requires MergeLayers(s, first, layers, n) == Ok(m) && j < layers && Stacked(j, p) !in s
    ensures if first <= j
      then AllPresent(s, j, p, n) && Stacked(j, p) in m && m[Stacked(j, p)] == Rows(Slices(s, j, p, n))
      else Stacked(j, p) !in m
  {
    MergeExact(s, first, layers, n);
    hide MergeLayers;
    assert first <= j ==> Stackable(s, j, p, n);
    assert Lookup(m, Stacked(j, p)) ==
      if first <= j && AllPresent(s, j, p, n) then Some(Rows(Slices(s, j, p, n))) else Lookup(s, Stacked(j, p));
  }
}
