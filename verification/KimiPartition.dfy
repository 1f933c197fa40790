/** How the Kimi engine spreads a stream of weights over the trainer ranks and cuts each share into
    buckets. */
module KimiPartition {
  import opened Arithmetic
  import opened Buckets
  import opened Options

  /** Assignment into a dict of tensors: an existing name keeps its place and gets the new tensor. */
  function PutWeight(d: seq<Weight>, w: Weight): seq<Weight> {
    if d == [] then [w]
    else if d[0].name == w.name then [w] + d[1..]
    else [d[0]] + PutWeight(d[1..], w)
  }

  /** The dict that assigning a group of weights in order leaves. */
  function DictOf(g: seq<Weight>): seq<Weight> {
    if g == [] then [] else PutWeight(DictOf(g[..|g| - 1]), g[|g| - 1])
  }

  function Dicts(groups: seq<seq<Weight>>): (r: seq<seq<Weight>>)
    ensures |r| == |groups| && forall i :: 0 <= i < |r| ==> r[i] == DictOf(groups[i])
  {
    seq(|groups|, i requires 0 <= i < |groups| => DictOf(groups[i]))
  }

  /** The weights whose position in the stream belongs to this rank, in order. */
  function Share(ws: seq<Weight>, world: nat, rank: nat): seq<Weight>
    requires world > 0
  {
    if ws == [] then []
    else
      var i := |ws| - 1;
      Share(ws[..i], world, rank) + if i % world == rank then [ws[i]] else []
  }

  /** The groups that the generator has finished after the weights of its share so far, and the open one. */
  function Groups(share: seq<Weight>, bytes: nat): (r: (seq<seq<Weight>>, seq<Weight>)) {
    if share == [] then ([], [])
    else
      var (done, open) := Groups(share[..|share| - 1], bytes);
      var w := share[|share| - 1];
      if ByteCount(open) + |w.bytes| > bytes && open != [] then (done + [open], [w]) else (done, open + [w])
  }

  function AllGroups(share: seq<Weight>, bytes: nat): seq<seq<Weight>> {
    var (done, open) := Groups(share, bytes);
    if open == [] then done else done + [open]
  }

  /** Weight number j is the one at position `first + j * n` of the stream, up to the end of the stream. */
  ghost predicate EveryNth(some: seq<Weight>, ws: seq<Weight>, n: nat, first: nat) {
    && |ws| <= first + |some| * n
    && forall j :: 0 <= j < |some| ==> 0 <= first + j * n < |ws| && some[j] == ws[first + j * n]
  }

  /** The generator; `None` stands for its ValueError. If no two weights share a name,
      a rank emits every weight whose position in the stream is its number modulo the number of ranks. */
  method NamedTensorBuckets(ws: seq<Weight>, bucketBytes: int, worldSize: nat, rankId: nat)
      returns (emitted: Option<seq<seq<Weight>>>)
    requires worldSize > 0
    ensures emitted == None <==> bucketBytes <= 0
    ensures emitted.Some? ==> emitted.value == Dicts(AllGroups(Share(ws, worldSize, rankId), bucketBytes))
    ensures emitted.Some? && DistinctNames(ws) && rankId < worldSize ==>
      EveryNth(Flatten(emitted.value), ws, worldSize, rankId)
  {
    if bucketBytes <= 0 {
      return None;
    }
    hide Tracks;
    hide Share;
    hide PutWeight;
    hide Dicts;
    hide AllGroups;
    var out: seq<seq<Weight>> := [];
    var bucket: seq<Weight> := [];
    var size: nat := 0;
    ghost var share := Share(ws[..0], worldSize, rankId);
    TracksNothing(ws, bucketBytes, worldSize, rankId);
    for i := 0 to |ws|
      invariant share == Share(ws[..i], worldSize, rankId)
      invariant Tracks(out, bucket, size, share, bucketBytes)
    {
      var w := ws[i];
      ShareNext(ws, i, worldSize, rankId);
      if i % worldSize == rankId {
        out, bucket, size := AddTensor(out, bucket, size, w, bucketBytes, share);
        share := share + [w];
      }
    }
    assert ws[..|ws|] == ws;
    TracksEnd(out, bucket, size, share, bucketBytes);
    if bucket != [] {
      out := out + [bucket];
    }
    emitted := Some(out);
    if DistinctNames(ws) && rankId < worldSize { Partition(ws, worldSize, rankId, bucketBytes); }
  }

  /** One tensor of this rank: the current bucket is emitted first if the tensor would overfill it. */
  method AddTensor(emitted: seq<seq<Weight>>, current: seq<Weight>, currentSize: nat, w: Weight, bytes: nat,
                   ghost share: seq<Weight>)
      returns (out: seq<seq<Weight>>, bucket: seq<Weight>, size: nat)
    requires Tracks(emitted, current, currentSize, share, bytes)
    ensures Tracks(out, bucket, size, share + [w], bytes)
  {
    hide Tracks;
    hide PutWeight;
    out, bucket, size := emitted, current, currentSize;
    TracksSnoc(out, bucket, size, share, w, bytes);
    if size + |w.bytes| > bytes {
      if bucket != [] {
        out := out + [bucket];
        bucket, size := [], 0;
      }
    }
    bucket := PutWeight(bucket, w);
    size := size + |w.bytes|;
  }

  /** The generator's variables against the groups of its share so far. */
  ghost predicate Tracks(out: seq<seq<Weight>>, bucket: seq<Weight>, size: nat, share: seq<Weight>, bytes: nat) {
    var (done, open) := Groups(share, bytes);
    out == Dicts(done) && bucket == DictOf(open) && size == ByteCount(open)
  }

  lemma TracksNothing(ws: seq<Weight>, bytes: nat, world: nat, rank: nat)
    requires world > 0
    ensures Tracks([], [], 0, Share(ws[..0], world, rank), bytes)
  {}

  lemma TracksSnoc(out: seq<seq<Weight>>, bucket: seq<Weight>, size: nat, share: seq<Weight>, w: Weight, bytes: nat)
    requires Tracks(out, bucket, size, share, bytes)
    ensures if size + |w.bytes| > bytes && bucket != []
      then Tracks(out + [bucket], PutWeight([], w), |w.bytes|, share + [w], bytes)
      else Tracks(out, PutWeight(bucket, w), size + |w.bytes|, share + [w], bytes)
  {
    hide Dicts;
    hide DictOf;
    hide ByteCount;
    hide Groups;
    hide PutWeight;
    var (done, open) := Groups(share, bytes);
    GroupsSnoc(share, w, bytes);
    DictNonempty(open);
    DictSnoc(open, w);
    DictSnoc([], w);
    assert [] + [w] == [w];
    DictsSnoc(done, open);
  }

  lemma TracksEnd(out: seq<seq<Weight>>, bucket: seq<Weight>, size: nat, share: seq<Weight>, bytes: nat)
    requires Tracks(out, bucket, size, share, bytes)
    ensures Dicts(AllGroups(share, bytes)) == if bucket == [] then out else out + [bucket]
  {
    var (done, open) := Groups(share, bytes);
    DictNonempty(open);
    DictsSnoc(done, open);
  }

  lemma ShareNext(ws: seq<Weight>, i: nat, world: nat, rank: nat)
    requires world > 0 && i < |ws|
    ensures Share(ws[..i + 1], world, rank) ==
      if i % world == rank then Share(ws[..i], world, rank) + [ws[i]] else Share(ws[..i], world, rank)
  {
    assert ws[..i + 1][..i] == ws[..i];
  }

  lemma GroupsSnoc(share: seq<Weight>, w: Weight, bytes: nat)
    ensures var (done, open) := Groups(share, bytes);
      Groups(share + [w], bytes) ==
        if ByteCount(open) + |w.bytes| > bytes && open != [] then (done + [open], [w]) else (done, open + [w])
  {
    assert (share + [w])[..|share|] == share;
  }

  lemma DictSnoc(open: seq<Weight>, w: Weight)
    ensures DictOf(open + [w]) == PutWeight(DictOf(open), w)
    ensures ByteCount(open + [w]) == ByteCount(open) + |w.bytes|
    ensures DictOf([]) == [] && ByteCount([]) == 0
  {
    assert (open + [w])[..|open|] == open;
  }

  lemma DictsSnoc(done: seq<seq<Weight>>, open: seq<Weight>)
    ensures Dicts(done + [open]) == Dicts(done) + [DictOf(open)]
  {}

  lemma DictNonempty(g: seq<Weight>)
    ensures DictOf(g) == [] <==> g == []
  {}

  // ---------- The groups of one rank ----------

  lemma {:induction false} GroupsFlat(share: seq<Weight>, bytes: nat)
    ensures var (done, open) := Groups(share, bytes);
      Flatten(done) + open == share
  {
    if share == [] {
      assert Groups(share, bytes) == ([], []);
    } else {
      hide *;
      var init, w := share[..|share| - 1], share[|share| - 1];
      assert share == init + [w];
      GroupsFlat(init, bytes);
      GroupsSnoc(init, w, bytes);
      var (done, open) := Groups(init, bytes);
      FlattenSnoc(done, open);
      assert Flatten(done) + (open + [w]) == Flatten(done) + open + [w];
    }
  }

  lemma NoGroups(bytes: nat)
    ensures Groups([], bytes) == ([], [])
  {}

  /** A bucket that may be emitted: not empty, and above the limit only if it is a single weight. */
  ghost predicate Sound(g: seq<Weight>, bytes: nat) {
    g != [] && (ByteCount(g) > bytes ==> |g| == 1)
  }

  lemma {:induction false} GroupsSound(share: seq<Weight>, bytes: nat)
    ensures var (done, open) := Groups(share, bytes);
      (forall i :: 0 <= i < |done| ==> Sound(done[i], bytes)) && (open != [] ==> Sound(open, bytes))
  {
    hide ByteCount;
    hide Groups;
    hide DictOf;
    hide PutWeight;
    if share == [] {
      NoGroups(bytes);
    } else {
      var init, w := share[..|share| - 1], share[|share| - 1];
      assert share == init + [w];
      GroupsSound(init, bytes);
      GroupsSnoc(init, w, bytes);
      var (done, open) := Groups(init, bytes);
      DictSnoc(open, w);
      DictSnoc([], w);
      assert [] + [w] == [w];
      if ByteCount(open) + |w.bytes| > bytes && open != [] {
        assert forall i :: 0 <= i < |done + [open]| ==> Sound((done + [open])[i], bytes);
      }
    }
  }

  lemma {:induction false} DictIsGroup(g: seq<Weight>)
    requires DistinctNames(g)
    ensures DictOf(g) == g
  {
    hide DistinctNames;
    hide PutWeight;
    hide ByteCount;
    if g != [] {
      var init, w := g[..|g| - 1], g[|g| - 1];
      assert g == init + [w];
      DistinctSnoc(init, w);
      DictIsGroup(init);
      PutFresh(init, w);
      DictSnoc(init, w);
    }
  }

  lemma DistinctSnoc(init: seq<Weight>, w: Weight)
    requires DistinctNames(init + [w])
    ensures DistinctNames(init) && forall i :: 0 <= i < |init| ==> init[i].name != w.name
  {
    var g := init + [w];
    assert forall i :: 0 <= i < |init| ==> init[i] == g[i];
    assert g[|init|] == w;
  }

  lemma {:induction false} PutFresh(d: seq<Weight>, w: Weight)
    requires forall i :: 0 <= i < |d| ==> d[i].name != w.name
    ensures PutWeight(d, w) == d + [w]
  {
    if d != [] { PutFresh(d[1..], w); }
  }

  /** Assigning to a dict without repeated names replaces the value of the name where it stands, or adds the
      name at the end. */
  lemma {:induction false} PutWeightExact(d: seq<Weight>, w: Weight)
    requires DistinctNames(d)
    ensures var r := PutWeight(d, w);
      if exists i :: 0 <= i < |d| && d[i].name == w.name
      then |r| == |d| && forall i :: 0 <= i < |d| ==> r[i] == if d[i].name == w.name then w else d[i]
      else r == d + [w]
  {
    if d != [] && d[0].name != w.name {
      forall i, j | 0 <= i < j < |d[1..]| ensures d[1..][i].name != d[1..][j].name {
        assert d[1..][i] == d[i + 1] && d[1..][j] == d[j + 1];
      }
      PutWeightExact(d[1..], w);
      if i :| 0 <= i < |d| && d[i].name == w.name { assert d[1..][i - 1] == d[i]; }
      assert d == [d[0]] + d[1..];
    }
  }

  lemma {:induction false} FlattenDistinct(gs: seq<seq<Weight>>)
    requires DistinctNames(Flatten(gs))
    ensures forall i :: 0 <= i < |gs| ==> DictOf(gs[i]) == gs[i]
  {
    if gs != [] {
      var f, t := Flatten(gs), Flatten(gs[1..]);
      forall i, j | 0 <= i < j < |gs[0]| ensures gs[0][i].name != gs[0][j].name {
        assert f[i] == gs[0][i] && f[j] == gs[0][j];
      }
      forall i, j | 0 <= i < j < |t| ensures t[i].name != t[j].name {
        assert f[|gs[0]| + i] == t[i] && f[|gs[0]| + j] == t[j];
      }
      DictIsGroup(gs[0]);
      FlattenDistinct(gs[1..]);
      forall i | 0 <= i < |gs| ensures DictOf(gs[i]) == gs[i] {
        if i > 0 { assert gs[i] == gs[1..][i - 1]; }
      }
    }
  }

  /** Bucket i was closed because the weight that comes next would have overfilled it. */
  ghost predicate ClosedAt(gs: seq<seq<Weight>>, i: nat, bytes: nat)
    requires i + 1 < |gs|
  {
    gs[i + 1] != [] && ByteCount(gs[i]) + |gs[i + 1][0].bytes| > bytes
  }

  ghost predicate Closed(gs: seq<seq<Weight>>, bytes: nat) {
    forall i: nat :: i + 1 < |gs| ==> ClosedAt(gs, i, bytes)
  }

  lemma {:induction false} GroupsClosed(share: seq<Weight>, bytes: nat)
    ensures Closed(AllGroups(share, bytes), bytes)
    ensures var (done, open) := Groups(share, bytes); open == [] ==> done == []
  {
    if share == [] {
      NoGroups(bytes);
    } else {
      var init, w := share[..|share| - 1], share[|share| - 1];
      assert share == init + [w];
      GroupsClosed(init, bytes);
      GroupsSnoc(init, w, bytes);
      var (done, open) := Groups(init, bytes);
      hide ByteCount;
      hide Groups;
      if ByteCount(open) + |w.bytes| > bytes && open != [] {
        ClosedSnoc(done + [open], [w], bytes);
      } else if open == [] {
        assert [] + [w] == [w];
      } else {
        ClosedLonger(done, open, w, bytes);
      }
    }
  }

  lemma ClosedSnoc(gs: seq<seq<Weight>>, g: seq<Weight>, bytes: nat)
    requires Closed(gs, bytes) && g != [] && gs != [] && ByteCount(gs[|gs| - 1]) + |g[0].bytes| > bytes
    ensures Closed(gs + [g], bytes)
  {
    hide ByteCount;
    forall i: nat | i + 1 < |gs + [g]| ensures ClosedAt(gs + [g], i, bytes) {
      if i + 1 < |gs| { assert ClosedAt(gs, i, bytes); }
    }
  }

  lemma ClosedLonger(done: seq<seq<Weight>>, open: seq<Weight>, w: Weight, bytes: nat)
    requires Closed(done + [open], bytes) && open != []
    ensures Closed(done + [open + [w]], bytes)
  {
    hide ByteCount;
    forall i: nat | i + 1 < |done| + 1 ensures ClosedAt(done + [open + [w]], i, bytes) {
      assert ClosedAt(done + [open], i, bytes);
    }
  }

  // ---------- The shares of all ranks ----------

  /** A rank's share is every world-th weight, beginning with the one at its own number; there is none for a
      number that is no rank. */
  lemma {:induction false} ShareExact(ws: seq<Weight>, world: nat, rank: nat)
    requires world > 0
    ensures var s := Share(ws, world, rank);
      if rank < world then EveryNth(s, ws, world, rank) else s == []
  {
    if ws != [] {
      var i: nat := |ws| - 1;
      assert ws[..i + 1] == ws;
      ShareNext(ws, i, world, rank);
      ShareExact(ws[..i], world, rank);
      if rank < world { NextNth(Share(ws[..i], world, rank), ws, i, world, rank); }
      hide Share;
      hide EveryNth;
    }
  }

  lemma NextNth(s: seq<Weight>, ws: seq<Weight>, i: nat, n: nat, first: nat)
    requires first < n && i + 1 == |ws| && EveryNth(s, ws[..i], n, first)
    ensures EveryNth(if i % n == first then s + [ws[i]] else s, ws, n, first)
  {
    hide *;
    LastNth(s, ws[..i], n, first);
    NextPosition(i, n, first, |s|);
    if i % n == first { NthSnoc(s, ws, i, n, first); } else { NthSkip(s, ws, i, n, first); }
  }

  lemma LastNth(s: seq<Weight>, ws: seq<Weight>, n: nat, first: nat)
    requires EveryNth(s, ws, n, first)
    ensures |ws| <= first + |s| * n && (|s| > 0 ==> first + (|s| - 1) * n < |ws|)
  {
    if s != [] { assert s[|s| - 1] == ws[first + (|s| - 1) * n]; }
  }

  lemma NthSnoc(s: seq<Weight>, ws: seq<Weight>, i: nat, n: nat, first: nat)
    requires i + 1 == |ws| && EveryNth(s, ws[..i], n, first)
    requires i == first + |s| * n && |ws| <= first + (|s| + 1) * n
    ensures EveryNth(s + [ws[i]], ws, n, first)
  {
    var more := s + [ws[i]];
    forall j | 0 <= j < |more| ensures 0 <= first + j * n < |ws| && more[j] == ws[first + j * n] {
      if j < |s| { assert s[j] == ws[..i][first + j * n]; }
    }
  }

  lemma NthSkip(s: seq<Weight>, ws: seq<Weight>, i: nat, n: nat, first: nat)
    requires i + 1 == |ws| && EveryNth(s, ws[..i], n, first) && |ws| <= first + |s| * n
    ensures EveryNth(s, ws, n, first)
  {
    forall j | 0 <= j < |s| ensures 0 <= first + j * n < |ws| && s[j] == ws[first + j * n] {
      assert s[j] == ws[..i][first + j * n];
    }
  }

  lemma NextPosition(i: nat, world: nat, rank: nat, n: nat)
    requires rank < world && i <= rank + n * world && (n > 0 ==> rank + (n - 1) * world < i)
    ensures if i % world == rank then i == rank + n * world && i + 1 <= rank + (n + 1) * world
      else i + 1 <= rank + n * world
  {
    var q := i / world;
    assert i == q * world + i % world;
    if i % world == rank {
      if q < n { MulMono(q, n - 1, world); }
      if q > n { MulMono(n + 1, q, world); }
      assert (n + 1) * world == n * world + world;
    } else if i == rank + n * world {
      DivUnique(i, world, n, rank);
    }
  }

  lemma ShareDistinct(ws: seq<Weight>, world: nat, rank: nat)
    requires world > 0 && DistinctNames(ws)
    ensures DistinctNames(Share(ws, world, rank))
  {
    ShareExact(ws, world, rank);
    hide Share;
    var s := Share(ws, world, rank);
    forall j, k | 0 <= j < k < |s| ensures s[j].name != s[k].name {
      MulMono(j + 1, k, world);
      assert (j + 1) * world == j * world + world;
      assert s[j] == ws[rank + j * world] && s[k] == ws[rank + k * world];
    }
  }

  /** What a trainer rank emits, bucket after bucket. */
  function Emitted(ws: seq<Weight>, world: nat, rank: nat, bytes: nat): seq<Weight>
    requires world > 0
  {
    Flatten(Dicts(AllGroups(Share(ws, world, rank), bytes)))
  }

  /** For distinct names, a trainer rank emits every world-th weight of the stream from the one at its own
      number on, in order. No bucket is empty, one above the limit holds a single weight, and a bucket is
      closed only when the next weight would overfill it. */
  lemma Partition(ws: seq<Weight>, world: nat, rank: nat, bytes: nat)
    requires rank < world && DistinctNames(ws)
    ensures var buckets := Dicts(AllGroups(Share(ws, world, rank), bytes)); var all := Flatten(buckets);
      && EveryNth(all, ws, world, rank)
      && (forall i :: 0 <= i < |buckets| ==> Sound(buckets[i], bytes))
      && Closed(buckets, bytes)
  {
    hide *;
    var share := Share(ws, world, rank);
    ShareExact(ws, world, rank);
    ShareDistinct(ws, world, rank);
    AllGroupsExact(share, bytes);
    GroupsClosed(share, bytes);
    FlattenDistinct(AllGroups(share, bytes));
    assert Dicts(AllGroups(share, bytes)) == AllGroups(share, bytes);
  }

  /** What the ranks below n emit. */
  function EmittedByAll(ws: seq<Weight>, world: nat, bytes: nat, n: nat): seq<Weight>
    requires world > 0
  {
    if n == 0 then [] else EmittedByAll(ws, world, bytes, n - 1) + Emitted(ws, world, n - 1, bytes)
  }

  /** For distinct names, all ranks together emit every weight of the stream once. */
  lemma NothingLost(ws: seq<Weight>, world: nat, bytes: nat)
    requires world > 0 && DistinctNames(ws)
    ensures multiset(EmittedByAll(ws, world, bytes, world)) == multiset(ws)
  {
    EmittedIsShares(ws, world, bytes, world);
    SharesOfAll(ws, world, world);
    WithinRanks(ws, world);
  }

  function Shares(ws: seq<Weight>, world: nat, n: nat): seq<Weight>
    requires world > 0
  {
    if n == 0 then [] else Shares(ws, world, n - 1) + Share(ws, world, n - 1)
  }

  lemma {:induction false} EmittedIsShares(ws: seq<Weight>, world: nat, bytes: nat, n: nat)
    requires world > 0 && DistinctNames(ws)
    ensures EmittedByAll(ws, world, bytes, n) == Shares(ws, world, n)
  {
    hide *;
    AllNext(ws, world, bytes, n);
    if n > 0 {
      AllNext(ws, world, bytes, n - 1);
      EmittedIsShares(ws, world, bytes, n - 1);
      EmittedIsShare(ws, world, n - 1, bytes);
    }
  }

  lemma AllNext(ws: seq<Weight>, world: nat, bytes: nat, n: nat)
    requires world > 0
    ensures EmittedByAll(ws, world, bytes, n + 1) == EmittedByAll(ws, world, bytes, n) + Emitted(ws, world, n, bytes)
    ensures Shares(ws, world, n + 1) == Shares(ws, world, n) + Share(ws, world, n)
    ensures EmittedByAll(ws, world, bytes, 0) == [] == Shares(ws, world, 0)
  {}

  lemma EmittedIsShare(ws: seq<Weight>, world: nat, rank: nat, bytes: nat)
    requires world > 0 && DistinctNames(ws)
    ensures Emitted(ws, world, rank, bytes) == Share(ws, world, rank)
  {
    var share := Share(ws, world, rank);
    ShareDistinct(ws, world, rank);
    AllGroupsExact(share, bytes);
    FlattenDistinct(AllGroups(share, bytes));
    assert Dicts(AllGroups(share, bytes)) == AllGroups(share, bytes);
    hide *;
    EmittedIs(ws, world, rank, bytes);
  }

  lemma EmittedIs(ws: seq<Weight>, world: nat, rank: nat, bytes: nat)
    requires world > 0
    ensures Emitted(ws, world, rank, bytes) == Flatten(Dicts(AllGroups(Share(ws, world, rank), bytes)))
  {}

  /** The weights whose position falls to a rank below n. */
  function Below(ws: seq<Weight>, world: nat, n: nat): seq<Weight>
    requires world > 0
  {
    if ws == [] then []
    else
      var i := |ws| - 1;
      Below(ws[..i], world, n) + if i % world < n then [ws[i]] else []
  }

  lemma {:induction false} SharesOfAll(ws: seq<Weight>, world: nat, n: nat)
    requires world > 0
    ensures multiset(Shares(ws, world, n)) == multiset(Below(ws, world, n))
  {
    hide *;
    AllNext(ws, world, 0, n);
    if n == 0 {
      BelowNone(ws, world);
    } else {
      AllNext(ws, world, 0, n - 1);
      SharesOfAll(ws, world, n - 1);
      BelowNext(ws, world, n - 1);
    }
  }

  lemma {:induction false} BelowNone(ws: seq<Weight>, world: nat)
    requires world > 0
    ensures Below(ws, world, 0) == []
  {
    if ws != [] { BelowNone(ws[..|ws| - 1], world); }
  }

  lemma {:induction false} BelowNext(ws: seq<Weight>, world: nat, n: nat)
    requires world > 0
    ensures multiset(Below(ws, world, n + 1)) == multiset(Below(ws, world, n)) + multiset(Share(ws, world, n))
  {
    if ws != [] { BelowNext(ws[..|ws| - 1], world, n); }
  }

  lemma {:induction false} WithinRanks(ws: seq<Weight>, world: nat)
    requires world > 0
    ensures Below(ws, world, world) == ws
  {
    if ws != [] {
      WithinRanks(ws[..|ws| - 1], world);
      assert ws == ws[..|ws| - 1] + [ws[|ws| - 1]];
    }
  }

  lemma AllGroupsExact(share: seq<Weight>, bytes: nat)
    ensures Flatten(AllGroups(share, bytes)) == share
    ensures forall i :: 0 <= i < |AllGroups(share, bytes)| ==> Sound(AllGroups(share, bytes)[i], bytes)
  {
    var (done, open) := Groups(share, bytes);
    GroupsFlat(share, bytes);
    GroupsSound(share, bytes);
    FlattenSnoc(done, open);
  }
}
