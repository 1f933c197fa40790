/** Stacking the expert weights of a mixture-of-experts checkpoint, and taking the stacks apart again. */
module MoeExperts {
  import opened Options

  /** A tensor is a scalar or the sequence of its slices along the first dimension. */
  datatype Tensor = Scalar(value: int) | Rows(rows: seq<Tensor>)

  datatype Proj = Gate | Up | Down

  /** The parameter names that matter: one expert's projection, a layer's stacked projection, any other. */
  datatype Key = Expert(layer: nat, expert: nat, proj: Proj) | Stacked(layer: nat, proj: Proj) | Other(name: string)

  type State = map<Key, Tensor>

  datatype Error = KeyMissing | CannotStack | IndexOutOfRange | NoExpertCount

  datatype Result = Ok(state: State) | Err(error: Error)

  /** The attributes of the model configuration that the scripts read; `None` is an absent attribute. */
  datatype Config = Config(numExperts: Option<nat>, routedExperts: Option<nat>, layers: nat, firstDense: Option<nat>)

  function Shape(t: Tensor): seq<nat> {
    match t
    case Scalar(_) => []
    case Rows(rs) => if rs == [] then [0] else [|rs|] + Shape(rs[0])
  }

  ghost predicate SameShapes(ts: seq<Tensor>) {
    forall j :: 0 <= j < |ts| ==> Shape(ts[j]) == Shape(ts[0])
  }

  /** torch.stack */
  method Stack(ts: seq<Tensor>) returns (t: Option<Tensor>)
    ensures t == if ts != [] && SameShapes(ts) then Some(Rows(ts)) else None
  {
    if ts == [] {
      return None;
    }
    for j := 0 to |ts|
      invariant forall i :: 0 <= i < j ==> Shape(ts[i]) == Shape(ts[0])
    {
      if Shape(ts[j]) != Shape(ts[0]) {
        return None;
      }
    }
    t := Some(Rows(ts));
  }

  // ---------- Merging ----------

  ghost predicate AllPresent(s: State, i: nat, p: Proj, n: nat) {
    forall j: nat :: j < n ==> Expert(i, j, p) in s
  }

  function Slices(s: State, i: nat, p: Proj, n: nat): (ts: seq<Tensor>)
    requires AllPresent(s, i, p, n)
    ensures |ts| == n && forall j :: 0 <= j < n ==> ts[j] == s[Expert(i, j, p)]
  {
    seq(n, j requires 0 <= j < n => s[Expert(i, j, p)])
  }

  function ExpertKeys(i: nat, p: Proj, n: nat): (ks: set<Key>)
    ensures forall k :: k in ks <==> k.Expert? && k.layer == i && k.proj == p && k.expert < n
  {
    if n == 0 then {} else ExpertKeys(i, p, n - 1) + {Expert(i, n - 1, p)}
  }

  /** The experts of one projection can be stacked. */
  ghost predicate Stackable(s: State, i: nat, p: Proj, n: nat) {
    n > 0 && AllPresent(s, i, p, n) && SameShapes(Slices(s, i, p, n))
  }

  ghost function StackProj(s: State, i: nat, p: Proj, n: nat): Result {
    if !AllPresent(s, i, p, n) then Err(KeyMissing)
    else if !Stackable(s, i, p, n) then Err(CannotStack)
    else Ok((s - ExpertKeys(i, p, n))[Stacked(i, p) := Rows(Slices(s, i, p, n))])
  }

  ghost function Then(r: Result, i: nat, p: Proj, n: nat): Result {
    match r
    case Err(_) => r
    case Ok(s) => StackProj(s, i, p, n)
  }

  /** Layers `from` up to `end` of a state, in order. */
  ghost function MergeLayers(s: State, from: nat, end: nat, n: nat): Result
    decreases end
  {
    if end <= from then Ok(s) else MergeLayer(MergeLayers(s, from, end - 1, n), end - 1, n)
  }

  ghost function MergeLayer(r: Result, i: nat, n: nat): Result {
    Then(Then(Then(r, i, Gate, n), i, Up, n), i, Down, n)
  }

  ghost function Merge(s: State, c: Config): Result {
    if c.numExperts == None && c.routedExperts == None then Err(NoExpertCount)
    else
      var n := if c.numExperts.Some? then c.numExperts.value else c.routedExperts.value;
      MergeLayers(s, if c.firstDense.Some? then c.firstDense.value else 0, c.layers, n)
  }

  /** One projection of one layer: pop every expert's tensor, then store their stack. */
  method StackExperts(s: State, i: nat, p: Proj, n: nat) returns (r: Result)
    ensures r == StackProj(s, i, p, n)
    ensures r == Err(KeyMissing) <==> exists j: nat :: j < n && Expert(i, j, p) !in s
    ensures r == Err(CannotStack) <==>
      && (forall j: nat :: j < n ==> Expert(i, j, p) in s)
      && (n == 0 || exists j: nat :: j < n && Shape(s[Expert(i, j, p)]) != Shape(s[Expert(i, 0, p)]))
  {
    var state, parts := s, [];
    for j := 0 to n
      invariant AllPresent(s, i, p, j) && parts == Slices(s, i, p, j) && state == s - ExpertKeys(i, p, j)
    {
      var key := Expert(i, j, p);
      if key !in state {
        return Err(KeyMissing);
      }
      parts := parts + [state[key]];
      state := state - {key};
    }
    var stacked := Stack(parts);
    r := if stacked.None? then Err(CannotStack) else Ok(state[Stacked(i, p) := stacked.value]);
  }

  method MergeMain(s: State, config: Config) returns (r: Result)
    ensures r == Merge(s, config)
  {
    var numExperts;
    if config.numExperts.Some? {
      numExperts := config.numExperts.value;
    } else if config.routedExperts.Some? {
      numExperts := config.routedExperts.value;
    } else {
      return Err(NoExpertCount);
    }
    var start := if config.firstDense.Some? then config.firstDense.value else 0;
    r := MergeRange(s, start, config.layers, numExperts);
  }

  method MergeRange(s: State, start: nat, layers: nat, n: nat) returns (r: Result)
    ensures r == MergeLayers(s, start, layers, n)
  {
    hide *;
    r := Ok(s);
    MergeLayersNext(s, start, start, n);
    if start >= layers {
      MergeLayersNext(s, start, layers, n);
      return;
    }
    for i := start to layers
      invariant r.Ok? && r == MergeLayers(s, start, i, n)
    {
      MergeLayersNext(s, start, i, n);
      r := StackLayer(r.state, i, n);
      if r.Err? {
        MergeStuck(s, start, i + 1, layers, n);
        return;
      }
    }
  }

  lemma MergeLayersNext(s: State, from: nat, i: nat, n: nat)
    ensures i <= from ==> MergeLayers(s, from, i, n) == Ok(s)
    ensures from <= i ==> MergeLayers(s, from, i + 1, n) == MergeLayer(MergeLayers(s, from, i, n), i, n)
  {}

  /** The loop body: the three projections of a layer. */
  method StackLayer(s: State, i: nat, n: nat) returns (r: Result)
    ensures r == MergeLayer(Ok(s), i, n)
  {
    hide StackProj;
    r := StackExperts(s, i, Gate, n);
    if r.Err? {
      return;
    }
    r := StackExperts(r.state, i, Up, n);
    if r.Err? {
      return;
    }
    r := StackExperts(r.state, i, Down, n);
  }

  lemma {:induction false} MergeStuck(s: State, from: nat, i: nat, end: nat, n: nat)
    requires i <= end && from <= i && MergeLayers(s, from, i, n).Err?
    ensures MergeLayers(s, from, end, n) == MergeLayers(s, from, i, n)
  {
    if i < end { MergeStuck(s, from, i, end - 1, n); }
  }

  // ---------- Splitting ----------

  function RowsFrom(t: Tensor, i: nat, p: Proj, n: nat): (m: State)
    requires n == 0 || (t.Rows? && n <= |t.rows|)
    ensures m.Keys == ExpertKeys(i, p, n)
    ensures forall j: nat :: j < n ==> m[Expert(i, j, p)] == t.rows[j]
  {
    if n == 0 then map[] else RowsFrom(t, i, p, n - 1)[Expert(i, n - 1, p) := t.rows[n - 1]]
  }

  function SplitProj(s: State, i: nat, p: Proj, n: nat): Result {
    if Stacked(i, p) !in s then Ok(s)
    else
      var t := s[Stacked(i, p)];
      if n > 0 && (t.Scalar? || n > |t.rows|) then Err(IndexOutOfRange)
      else Ok((s - {Stacked(i, p)}) + RowsFrom(t, i, p, n))
  }

  function ThenSplit(r: Result, i: nat, p: Proj, n: nat): Result {
    match r
    case Err(_) => r
    case Ok(s) => SplitProj(s, i, p, n)
  }

  function SplitLayers(s: State, layers: nat, n: nat): Result {
    if layers == 0 then Ok(s) else SplitSome(SplitLayers(s, layers - 1, n), layers - 1, n, 3)
  }

  function Split(s: State, c: Config): Result {
    if c.numExperts == None then Err(NoExpertCount) else SplitLayers(s, c.layers, c.numExperts.value)
  }

  method SplitOne(s: State, i: nat, p: Proj, n: nat) returns (r: Result)
    ensures r == SplitProj(s, i, p, n)
  {
    var key := Stacked(i, p);
    if key !in s {
      return Ok(s);
    }
    r := Unstack(s - {key}, s[key], i, p, n);
  }

  /** Store the slices of a stack under the experts' keys. */
  method Unstack(rest: State, stacked: Tensor, i: nat, p: Proj, n: nat) returns (r: Result)
    ensures r == if n > 0 && (stacked.Scalar? || n > |stacked.rows|) then Err(IndexOutOfRange)
                 else Ok(rest + RowsFrom(stacked, i, p, n))
  {
    var state := rest;
    for j := 0 to n
      invariant j > 0 ==> stacked.Rows? && j <= |stacked.rows|
      invariant state == rest + RowsFrom(stacked, i, p, j)
    {
      if stacked.Scalar? || j >= |stacked.rows| {
        return Err(IndexOutOfRange);
      }
      RowsNext(rest, stacked, i, p, j);
      hide RowsFrom;
      state := state[Expert(i, j, p) := stacked.rows[j]];
    }
    r := Ok(state);
  }

  lemma RowsNext(rest: State, t: Tensor, i: nat, p: Proj, j: nat)
    requires t.Rows? && j < |t.rows|
    ensures rest + RowsFrom(t, i, p, j + 1) == (rest + RowsFrom(t, i, p, j))[Expert(i, j, p) := t.rows[j]]
  {}

  method SplitMain(s: State, config: Config) returns (r: Result)
    ensures r == Split(s, config)
  {
    if config.numExperts.None? {
      return Err(NoExpertCount);
    }
    var n := config.numExperts.value;
    var projs := [Gate, Up, Down];
    r := Ok(s);
    for i := 0 to config.layers
      invariant r.Ok? && r == SplitLayers(s, i, n)
    {
      ghost var before := r;
      for k := 0 to 3
        invariant r.Ok? && r == SplitSome(before, i, n, k)
      {
        hide SplitProj;
        SplitSomeNext(before, i, n, k);
        r := SplitOne(r.state, i, projs[k], n);
        if r.Err? {
          SplitStuck(s, i + 1, config.layers, n);
          return;
        }
      }
    }
  }

  /** The first k projections of a layer. */
  function SplitSome(r: Result, i: nat, n: nat, k: nat): Result {
    if k == 0 then r
    else if k == 1 then ThenSplit(r, i, Gate, n)
    else if k == 2 then ThenSplit(ThenSplit(r, i, Gate, n), i, Up, n)
    else ThenSplit(ThenSplit(ThenSplit(r, i, Gate, n), i, Up, n), i, Down, n)
  }

  lemma SplitSomeNext(r: Result, i: nat, n: nat, k: nat)
    requires k < 3
    ensures SplitSome(r, i, n, k + 1) == ThenSplit(SplitSome(r, i, n, k), i, [Gate, Up, Down][k], n)
    ensures SplitSome(r, i, n, k + 1).Err? ==> SplitSome(r, i, n, 3) == SplitSome(r, i, n, k + 1)
  {}

  lemma {:induction false} SplitStuck(s: State, i: nat, layers: nat, n: nat)
    requires i <= layers && SplitLayers(s, i, n).Err?
    ensures SplitLayers(s, layers, n) == SplitLayers(s, i, n)
  {
    if i < layers { SplitStuck(s, i, layers - 1, n); }
  }
}
