/** What the local consumers of a Mooncake relay see: exactly when some run yields bytes that the sender
    has not sent. */
module MooncakeViews {
  import opened Buckets
  import opened Transfers
  import opened Streams
  import opened MooncakeChain
  import opened MooncakeSafety
  import opened MooncakeProgress
  import MooncakeResults
  import Packing

  // ---------- Views that the magic can change ----------

  /** The entry covers a byte among the first four that differs from the magic. */
  ghost predicate Covers(m: Meta, data: seq<byte>) {
    exists i: nat :: m.offset <= i < m.offset + m.size && i < 4 && i < |data| && data[i] != MAGIC[i]
  }

  /** View j of bucket k can be changed by the magic. */
  ghost predicate Exposed(c: Config, k: nat, j: nat) {
    k < |c.buckets| && j < |c.buckets[k].metas| && Covers(c.buckets[k].metas[j], c.buckets[k].data)
  }

  ghost predicate NoExposedView(c: Config) {
    forall k: nat, j: nat :: !Exposed(c, k, j)
  }

  /** What receiver x would have yielded from intact buckets. */
  ghost function Expected(c: Config, x: Rank): seq<Weight>
    requires ValidConfig(c) && x.k <= |c.buckets|
  {
    if x.k == |c.buckets| then Outs(c.buckets, c.size, x.k)
    else if x.pc.Acking? then Outs(c.buckets, c.size, x.k + 1)
    else if x.pc.Yielding? && x.pc.j <= |c.buckets[x.k].metas| then
      Outs(c.buckets, c.size, x.k) + UnpackedBucket(c.buckets, c.size, x.k)[..x.pc.j]
    else Outs(c.buckets, c.size, x.k)
  }

  /** As many views as expected, and the expected ones if the magic cannot change any. */
  ghost predicate Tracks(c: Config, x: Rank) {
    && ValidConfig(c) && x.k <= |c.buckets|
    && |x.out| == |Expected(c, x)|
    && (NoExposedView(c) ==> x.out == Expected(c, x))
  }

  lemma IntactView(buf: seq<byte>, data: seq<byte>, m: Meta)
    requires Holds(buf, data) && m.offset + m.size <= |data|
    ensures View(m, buf) == View(m, data)
  {
    assert buf[..|data|] == data;
    assert buf[m.offset..m.offset + m.size] == buf[..|data|][m.offset..m.offset + m.size];
  }

  /** From a marked buffer a view is the sender's exactly when it covers no byte that the magic changes. */
  lemma MarkedView(buf: seq<byte>, data: seq<byte>, m: Meta)
    requires Content(buf, data, true) && m.offset + m.size <= |data|
    ensures View(m, buf) == View(m, data) <==> !Covers(m, data)
  {
    MarkedBytes(buf);
    SliceSame(buf, data, m.offset, m.size);
    hide Marked;
  }

  lemma MarkedBytes(buf: seq<byte>)
    requires Marked(buf)
    ensures |buf| >= 4 && forall i: nat :: i < 4 ==> buf[i] == MAGIC[i]
  {
    forall i: nat | i < 4 ensures buf[i] == MAGIC[i] { assert buf[..4][i] == buf[i]; }
  }

  lemma SliceSame(a: seq<byte>, b: seq<byte>, o: nat, n: nat)
    requires o + n <= |a| && o + n <= |b|
    ensures a[o..o + n] == b[o..o + n] <==> forall i: nat :: o <= i < o + n ==> a[i] == b[i]
  {
    var v, w := a[o..o + n], b[o..o + n];
    forall i: nat | o <= i < o + n ensures v[i - o] == a[i] && w[i - o] == b[i] {}
    if forall i: nat :: o <= i < o + n ==> a[i] == b[i] {
      forall x | 0 <= x < n ensures v[x] == w[x] { assert a[o + x] == b[o + x]; }
      assert v == w;
    } else {
      var i: nat :| o <= i < o + n && a[i] != b[i];
      assert v[i - o] != w[i - o];
    }
  }

  lemma ContentView(c: Config, k: nat, j: nat, buf: seq<byte>, acked: bool)
    requires ValidConfig(c) && k < |c.buckets| && j < |c.buckets[k].metas|
    requires Content(buf, c.buckets[k].data, acked)
    ensures var m := c.buckets[k].metas[j];
      && m.offset + m.size <= |c.buckets[k].data| <= |buf|
      && UnpackedBucket(c.buckets, c.size, k)[j] == View(m, c.buckets[k].data)
      && (View(m, buf) == View(m, c.buckets[k].data) <==> !acked || !Exposed(c, k, j))
  {
    var b := c.buckets[k];
    assert b in c.buckets && b.metas[j] in b.metas;
    hide View;
    hide Covers;
    if acked { MarkedView(buf, b.data, b.metas[j]); } else { IntactView(buf, b.data, b.metas[j]); }
  }

  /** The buffer from which a rank yields. */
  lemma YieldContent(c: Config, s: State, r: nat) returns (acked: bool)
    requires ValidConfig(c) && Inv(c, s) && WellFormed(c, s) && 0 < r <= c.n && s.ranks[r].pc.Yielding?
    ensures var x := s.ranks[r];
      && x.k < |c.buckets| && x.info.metas == c.buckets[x.k].metas && x.pc.j <= |c.buckets[x.k].metas|
      && Content(x.bufs[Cur(x)], c.buckets[x.k].data, acked)
    ensures acked == (r < c.n && s.ranks[r + 1].k > s.ranks[r].k)
  {
    hide Content;
    hide Outs;
    var x := s.ranks[r];
    assert RankInv(c, r, x);
    acked := r < c.n && s.ranks[r + 1].k > x.k;
    if r < c.n {
      assert LinkInv(c, r, x, s.queues[r], s.ranks[r + 1]);
    }
  }

  lemma AppendExpected(c: Config, x: Rank, w: Weight)
    requires Tracks(c, x) && x.pc.Yielding? && x.k < |c.buckets| && x.pc.j < |c.buckets[x.k].metas|
    requires NoExposedView(c) ==> w == UnpackedBucket(c.buckets, c.size, x.k)[x.pc.j]
    ensures Tracks(c, x.(out := x.out + [w], pc := Yielding(x.pc.j + 1)))
  {
    hide Outs;
    hide UnpackedBucket;
    hide NoExposedView;
    var u, j := UnpackedBucket(c.buckets, c.size, x.k), x.pc.j;
    assert u[..j + 1] == u[..j] + [u[j]];
  }

  lemma FinishExpected(c: Config, x: Rank)
    requires Tracks(c, x) && x.pc.Yielding? && x.k < |c.buckets| && x.pc.j == |c.buckets[x.k].metas|
    ensures Tracks(c, x.(pc := Acking))
  {
    hide NoExposedView;
    hide UnpackedBucket;
    var u := UnpackedBucket(c.buckets, c.size, x.k);
    assert u[..x.pc.j] == u;
  }

  /** What one yield appends. */
  lemma YieldShape(c: Config, x: Rank, up: seq<Info>)
    requires WellFormedRank(c, x) && x.pc.Yielding?
    ensures var j, ms, x' := x.pc.j, x.info.metas, StepReceiver(c, true, x, up).0;
      if j >= |ms| then x' == x.(pc := Acking)
      else ms[j].offset + ms[j].size <= |x.bufs[Cur(x)]| ==>
        x' == x.(out := x.out + [View(ms[j], x.bufs[Cur(x)])], pc := Yielding(j + 1))
    ensures StepReceiver(c, false, x, up) == StepReceiver(c, true, x, up)
  {}

  /** One yield. */
  lemma YieldTracks(c: Config, s: State, r: nat)
    requires ValidConfig(c) && Inv(c, s) && WellFormed(c, s) && 0 < r <= c.n && s.ranks[r].pc.Yielding?
    requires Tracks(c, s.ranks[r])
    ensures Tracks(c, StepReceiver(c, r < c.n, s.ranks[r], s.queues[r - 1]).0)
  {
    var x, up := s.ranks[r], s.queues[r - 1];
    assert WellFormedRank(c, x);
    assert NoExposedView(c) ==> !Exposed(c, x.k, x.pc.j);
    hide *;
    var acked := YieldContent(c, s, r);
    YieldShape(c, x, up);
    if x.pc.j < |c.buckets[x.k].metas| {
      ContentView(c, x.k, x.pc.j, x.bufs[Cur(x)], acked);
      AppendExpected(c, x, View(x.info.metas[x.pc.j], x.bufs[Cur(x)]));
    } else {
      FinishExpected(c, x);
    }
  }

  /** The steps of a receiver other than a yield. */
  lemma StepTracks(c: Config, s: State, r: nat)
    requires ValidConfig(c) && Inv(c, s) && WellFormed(c, s) && 0 < r <= c.n && Enabled(c, s, Local(r))
    requires Tracks(c, s.ranks[r]) && !s.ranks[r].pc.Yielding?
    ensures Tracks(c, Apply(c, s, Local(r)).ranks[r])
  {
    hide Outs;
    hide UnpackedBucket;
    hide NoExposedView;
    hide LinkInv;
    var x := s.ranks[r];
    assert RankInv(c, r, x);
    NothingYet(c, x.k);
  }

  lemma NothingYet(c: Config, k: nat)
    requires ValidConfig(c)
    ensures k < |c.buckets| ==> UnpackedBucket(c.buckets, c.size, k)[..0] == []
  {}

  lemma EventTracks(c: Config, s: State, e: Event, r: nat)
    requires ValidConfig(c) && Inv(c, s) && WellFormed(c, s) && Enabled(c, s, e) && 0 < r <= c.n
    requires Tracks(c, s.ranks[r])
    ensures |Apply(c, s, e).ranks| == c.n + 1 && Tracks(c, Apply(c, s, e).ranks[r])
  {
    if e == Local(r) {
      hide *;
      StepShape(c, s, e);
      if s.ranks[r].pc.Yielding? {
        YieldIs(c, s, r);
        YieldTracks(c, s, r);
      } else {
        StepTracks(c, s, r);
      }
    } else {
      OtherKeeps(c, s, e, r);
      SameTracks(c, s.ranks[r], Apply(c, s, e).ranks[r]);
    }
  }

  lemma StepShape(c: Config, s: State, e: Event)
    requires WellFormed(c, s) && Enabled(c, s, e)
    ensures |Apply(c, s, e).ranks| == c.n + 1
  {}

  lemma YieldIs(c: Config, s: State, r: nat)
    requires WellFormed(c, s) && 0 < r <= c.n && s.ranks[r].pc.Yielding? && Enabled(c, s, Local(r))
    ensures |Apply(c, s, Local(r)).ranks| == c.n + 1
    ensures Apply(c, s, Local(r)).ranks[r] == StepReceiver(c, r < c.n, s.ranks[r], s.queues[r - 1]).0
  {}

  /** Events of other ranks, and bytes that land, leave what a rank has yielded and where it stands. */
  lemma OtherKeeps(c: Config, s: State, e: Event, r: nat)
    requires WellFormed(c, s) && Enabled(c, s, e) && 0 < r <= c.n && e != Local(r)
    ensures |Apply(c, s, e).ranks| == c.n + 1
    ensures var x, x' := s.ranks[r], Apply(c, s, e).ranks[r];
      && x'.out == x.out && x'.k == x.k
      && (x'.pc == x.pc || (x.pc.Reading? && x'.pc.Reading?))
  {}

  lemma SameTracks(c: Config, x: Rank, x': Rank)
    requires Tracks(c, x) && x'.out == x.out && x'.k == x.k && (x'.pc == x.pc || (x.pc.Reading? && x'.pc.Reading?))
    ensures Tracks(c, x')
  {
    hide Outs;
    hide UnpackedBucket;
    hide NoExposedView;
  }

  lemma {:induction false} RunTracks(c: Config, states: seq<State>, events: seq<Event>, i: nat, r: nat)
    requires ValidConfig(c) && SafeStream(c) && IsRun(c, states, events) && i <= |events| && 0 < r <= c.n
    ensures |states[i].ranks| == c.n + 1 && Tracks(c, states[i].ranks[r])
  {
    if i == 0 {
      assert states[0].ranks[r] == InitRank(r, states[0].ranks[r].bufs);
    } else {
      RunTracks(c, states, events, i - 1, r);
      RunInv(c, states, events, i - 1);
      assert IsStep(c, states[i - 1], events[i - 1], states[i]);
      hide *;
      StepFacts(c, states[i - 1], events[i - 1], states[i]);
      EventTracks(c, states[i - 1], events[i - 1], r);
    }
  }

  lemma StepFacts(c: Config, s: State, e: Event, s': State)
    requires IsStep(c, s, e, s')
    ensures WellFormed(c, s) && Enabled(c, s, e) && s' == Apply(c, s, e)
  {}

  // ---------- No exposed view, or no intermediate rank ----------

  /** If there is no intermediate rank, or the magic cannot change any view, every rank yields the sender's
      sequence and nothing else. */
  lemma ViewsIntact(c: Config, states: seq<State>, events: seq<Event>, i: nat, r: nat)
    requires ValidConfig(c) && SafeStream(c) && IsRun(c, states, events) && i <= |events| && 0 < r <= c.n
    requires c.n == 1 || NoExposedView(c)
    ensures |states[i].ranks| == c.n + 1 && Packing.Decodable(c.buckets)
    ensures states[i].ranks[r].out <= Packing.Decode(c.buckets)
  {
    AllOuts(c.buckets, c.size);
    if r == c.n {
      MooncakeResults.LastRankDelivers(c, states, events, i);
    } else {
      RunTracks(c, states, events, i, r);
      ExpectedPrefix(c, states[i].ranks[r]);
    }
  }

  lemma ExpectedPrefix(c: Config, x: Rank)
    requires ValidConfig(c) && x.k <= |c.buckets|
    ensures Expected(c, x) <= Outs(c.buckets, c.size, |c.buckets|)
  {
    OutsGrow(c.buckets, c.size, x.k, |c.buckets|);
    if x.k < |c.buckets| {
      OutsGrow(c.buckets, c.size, x.k + 1, |c.buckets|);
      if x.pc.Yielding? && x.pc.j <= |c.buckets[x.k].metas| {
        YieldedPrefix(c.buckets, c.size, x.k, x.pc.j);
      }
    }
  }

  // ---------- The run that yields the magic ----------

  /** Rank 1 has not begun to yield bucket k. */
  ghost predicate Before(x: Rank, k: nat) {
    x.k < k || (x.k == k && (x.pc.Receiving? || x.pc.AwaitDown? || x.pc.Reading? || x.pc.Forwarding?))
  }

  /** Rank 1 is about to yield view j of bucket k. */
  ghost predicate At(x: Rank, k: nat, j: nat) {
    x.k == k && x.pc == Yielding(j)
  }

  lemma BeforeKept(c: Config, s: State, e: Event, k: nat)
    requires WellFormed(c, s) && Enabled(c, s, e) && Before(s.ranks[1], k) && k < |c.buckets|
    requires var x := s.ranks[1]; x.pc.Acking? ==> x.k < |c.buckets| && x.info == InfoOf(c, x.k)
    requires |Apply(c, s, e).ranks| == c.n + 1 && Apply(c, s, e).ranks[1].pc != Failed
    ensures Before(Apply(c, s, e).ranks[1], k) || At(Apply(c, s, e).ranks[1], k, 0)
  {
    var x := s.ranks[1];
    if e != Local(1) {
      OtherKeeps(c, s, e, 1);
    } else if x.pc.Acking? || x.pc.Forwarding? {
      assert Apply(c, s, e).ranks[1] == if x.pc.Acking? then AfterAck(c, x) else x.(pc := Yielding(0));
    } else {
      assert Apply(c, s, e).ranks[1] == StepReceiver(c, 1 < c.n, x, s.queues[0]).0;
    }
  }

  lemma FirstFacts(c: Config, s: State)
    requires ValidConfig(c) && Inv(c, s) && WellFormed(c, s)
    ensures var x := s.ranks[1]; x.pc.Acking? ==> x.k < |c.buckets| && x.info == InfoOf(c, x.k)
  {
    RankInvFacts(c, 1, s.ranks[1]);
  }

  lemma NotFailed(c: Config, s: State, r: nat)
    requires ValidConfig(c) && Inv(c, s) && r <= c.n
    ensures |s.ranks| == c.n + 1 && s.ranks[r].pc != Failed
  {
    RankInvFacts(c, r, s.ranks[r]);
  }

  /** While rank 1 waits in front of its first view, the ranks behind it can go on. */
  lemma NextIsBusy(c: Config, s: State, k: nat)
    requires ValidConfig(c) && Inv(c, s) && WellFormed(c, s) && c.n > 1
    requires At(s.ranks[1], k, 0) && k < |c.buckets| && s.ranks[2].k <= k
    ensures Busy(s, 2)
  {
    assert RankInv(c, 1, s.ranks[1]) && RankInv(c, 2, s.ranks[2]);
    assert LinkInv(c, 1, s.ranks[1], s.queues[1], s.ranks[2]);
  }

  /** The run goes on, without a yield of bucket k by rank 1, until rank 2 has acknowledged bucket k. */
  lemma {:induction false} HoldBack(c: Config, k: nat, states: seq<State>, events: seq<Event>)
      returns (states': seq<State>, events': seq<Event>)
    requires ValidConfig(c) && SafeStream(c) && c.n > 1 && k < |c.buckets| && IsRun(c, states, events)
    requires WellFormed(c, states[|events|])
    requires Before(states[|events|].ranks[1], k) || At(states[|events|].ranks[1], k, 0)
    ensures IsRun(c, states', events') && |states'[|events'|].ranks| == c.n + 1
    ensures At(states'[|events'|].ranks[1], k, 0) && states'[|events'|].ranks[2].k > k
    decreases Measure(c, states[|events|])
  {
    RunLength(c, states, events);
    hide *;
    var s := states[|events|];
    RunInv(c, states, events, |events|);
    StateShape(c, s);
    if At(s.ranks[1], k, 0) && s.ranks[2].k > k {
      states', events' := states, events;
    } else {
      var e: Event;
      if At(s.ranks[1], k, 0) {
        NextIsBusy(c, s, k);
        e := DownMoves(c, s, 2);
        LaterRank(c, s, e, k);
      } else {
        NotYetDone(c, s, k);
        e := RankMoves(c, s, 1);
        AlwaysSafe(c, s, e);
        StepKeeps(c, s, e);
        NotFailed(c, Apply(c, s, e), 1);
        FirstFacts(c, s);
        BeforeKept(c, s, e, k);
      }
      AlwaysSafe(c, s, e);
      StepWork(c, s, e);
      ExtendRun(c, states, events, e);
      RunInv(c, states + [Apply(c, s, e)], events + [e], |events| + 1);
      states', events' := HoldBack(c, k, states + [Apply(c, s, e)], events + [e]);
    }
  }

  lemma StateShape(c: Config, s: State)
    requires WellFormed(c, s)
    ensures |s.ranks| == c.n + 1 && |s.queues| == c.n && c.n >= 1
  {}

  lemma LaterRank(c: Config, s: State, e: Event, k: nat)
    requires WellFormed(c, s) && Enabled(c, s, e) && RankOf(e) >= 2 && c.n > 1 && At(s.ranks[1], k, 0)
    ensures |Apply(c, s, e).ranks| == c.n + 1 && At(Apply(c, s, e).ranks[1], k, 0)
  {
    OtherKeeps(c, s, e, 1);
  }

  lemma NotYetDone(c: Config, s: State, k: nat)
    requires ValidConfig(c) && Inv(c, s) && WellFormed(c, s) && k < |c.buckets|
    requires Before(s.ranks[1], k) || At(s.ranks[1], k, 0)
    ensures s.ranks[1].pc != Done
  {
    assert RankInv(c, 1, s.ranks[1]);
  }

  /** Then rank 1 yields up to and including view j. */
  lemma {:induction false} YieldUpTo(c: Config, k: nat, from: nat, j: nat, states: seq<State>, events: seq<Event>)
      returns (states': seq<State>, events': seq<Event>)
    requires ValidConfig(c) && SafeStream(c) && c.n > 1 && Exposed(c, k, j) && from <= j && IsRun(c, states, events)
    requires |states[|events|].ranks| == c.n + 1
    requires At(states[|events|].ranks[1], k, from) && states[|events|].ranks[2].k > k
    ensures IsRun(c, states', events') && |states'[|events'|].ranks| == c.n + 1 && Packing.Decodable(c.buckets)
    ensures !(states'[|events'|].ranks[1].out <= Packing.Decode(c.buckets))
    decreases j - from
  {
    assert k < |c.buckets| && j < |c.buckets[k].metas|;
    RunLength(c, states, events);
    hide *;
    var s := states[|events|];
    RunInv(c, states, events, |events|);
    StateShape(c, s);
    RunTracks(c, states, events, |events|, 1);
    var s' := YieldOne(c, s, k, from);
    ExtendRun(c, states, events, Local(1));
    if from == j {
      states', events' := states + [s'], events + [Local(1)];
      AllOuts(c.buckets, c.size);
      WrongView(c, s.ranks[1], s'.ranks[1], k, j);
    } else {
      states', events' := YieldUpTo(c, k, from + 1, j, states + [s'], events + [Local(1)]);
    }
  }

  /** One yield from the marked buffer. */
  lemma YieldOne(c: Config, s: State, k: nat, j: nat) returns (s': State)
    requires ValidConfig(c) && Inv(c, s) && WellFormed(c, s) && c.n > 1 && k < |c.buckets| && j < |c.buckets[k].metas|
    requires At(s.ranks[1], k, j) && s.ranks[2].k > k
    ensures Enabled(c, s, Local(1)) && s' == Apply(c, s, Local(1)) && |s'.ranks| == c.n + 1
    ensures At(s'.ranks[1], k, j + 1) && s'.ranks[2].k > k
    ensures |s'.ranks[1].out| == |s.ranks[1].out| + 1
    ensures Exposed(c, k, j) ==> s'.ranks[1].out[|s.ranks[1].out|] != UnpackedBucket(c.buckets, c.size, k)[j]
  {
    s' := Apply(c, s, Local(1));
    var x := s.ranks[1];
    assert WellFormedRank(c, x) && x.pc == Yielding(j) && x.k == k;
    assert s'.ranks[2] == s.ranks[2];
    hide *;
    YieldIs(c, s, 1);
    var acked := YieldContent(c, s, 1);
    YieldShape(c, x, s.queues[0]);
    ContentView(c, k, j, x.bufs[Cur(x)], acked);
  }

  lemma WrongView(c: Config, x: Rank, x': Rank, k: nat, j: nat)
    requires Tracks(c, x) && k < |c.buckets| && j < |c.buckets[k].metas| && x.k == k && x.pc == Yielding(j)
    requires |x'.out| == |x.out| + 1 && x'.out[|x.out|] != UnpackedBucket(c.buckets, c.size, k)[j]
    ensures !(x'.out <= Outs(c.buckets, c.size, |c.buckets|))
  {
    TrackedLength(c, x, k, j);
    hide *;
    OutsAt(c.buckets, c.size, k, j);
  }

  lemma TrackedLength(c: Config, x: Rank, k: nat, j: nat)
    requires Tracks(c, x) && k < |c.buckets| && j < |c.buckets[k].metas| && x.k == k && x.pc == Yielding(j)
    ensures |x.out| == |Outs(c.buckets, c.size, k)| + j && ValidStream(c.buckets, c.size)
  {
    hide NoExposedView;
    hide Outs;
  }

  /** In every run every rank has yielded a prefix of the sender's sequence, if and only if there is no
      intermediate rank or no view covers a byte among its bucket's first four that differs from the magic. */
  lemma ViewsIff(c: Config)
    requires ValidConfig(c) && SafeStream(c)
    ensures Packing.Decodable(c.buckets)
    ensures (forall states, events, r :: IsRun(c, states, events) && 0 < r <= c.n ==> Intact(c, states[|events|], r))
      <==> c.n == 1 || NoExposedView(c)
  {
    AllOuts(c.buckets, c.size);
    if c.n == 1 || NoExposedView(c) {
      forall states, events, r | IsRun(c, states, events) && 0 < r <= c.n ensures Intact(c, states[|events|], r) {
        ViewsIntact(c, states, events, |events|, r);
      }
    } else {
      var k: nat, j: nat :| Exposed(c, k, j);
      var zeros := seq(c.size, _ => 0);
      var s := FirstRun(c, seq(c.n + 1, _ => [zeros, zeros]));
      InitInv(c, s);
      InvWellFormed(c, s);
      assert s.ranks[1] == InitRank(1, s.ranks[1].bufs);
      var states, events := HoldBack(c, k, [s], []);
      states, events := YieldUpTo(c, k, 0, j, states, events);
      assert !Intact(c, states[|events|], 1);
    }
  }

  ghost predicate Intact(c: Config, s: State, r: int)
    requires Packing.Decodable(c.buckets)
  {
    |s.ranks| == c.n + 1 && 0 < r <= c.n && s.ranks[r].out <= Packing.Decode(c.buckets)
  }
}
