/** A schedule of the Mooncake relay in which rank 1 lags behind: over a bucket that starts like the magic
    the sender goes on at once, and from then on every acknowledgement is taken for that of a later bucket. */
module MooncakeLag {
  import opened Buckets
  import opened Streams
  import opened MooncakeChain
  import opened MooncakeSafety
  import opened MooncakeDrive
  import Packing

  // ---------- The sender level with the receivers ----------

  /** Every bucket before j is acknowledged, and both buffers of the sender start with the magic. */
  ghost predicate Level(c: Config, s: State, j: nat)
    requires ValidConfig(c)
  {
    Ahead(c, s, j, j, Filling(0)) && BothMarked(s.ranks[0])
  }

  /** Placing bucket k and passing the wait over the other buffer. */
  lemma PushGo(c: Config, s: State, j: nat, k: nat, states: seq<State>, events: seq<Event>)
      returns (states': seq<State>, events': seq<Event>, s': State)
    requires ValidConfig(c) && EndsIn(c, states, events, s) && Ahead(c, s, j, k, Filling(0)) && WellFormed(c, s)
    requires k + 1 < |c.buckets| && Marked(s.ranks[0].bufs[(k + 1) % 2])
    ensures EndsIn(c, states', events', s') && Ahead(c, s', j, k + 1, Filling(0)) && WellFormed(c, s')
    ensures s'.ranks[0].bufs == Loaded(c, s.ranks[0], k)
  {
    hide *;
    AheadFacts(c, s, j, k, Filling(0));
    states', events', s' := Push(c, s, j, k, states, events);
    NextIs(c, k);
    OtherSlot(c, s.ranks[0], k);
    if k > 0 {
      states', events', s' := Go(c, s', j, k + 1, AwaitAck, states', events');
    }
  }

  lemma NextIs(c: Config, k: nat)
    ensures if k + 1 == |c.buckets| then NextK(c, k) == k && NextPc(c, k) == AwaitLast
      else NextK(c, k) == k + 1 && NextPc(c, k) == if k > 0 then AwaitAck else Filling(0)
  {}

  lemma OtherSlot(c: Config, x: Rank, k: nat)
    requires WellFormedRank(c, x) && k < |c.buckets|
    ensures var bufs := Loaded(c, x, k);
      && |bufs| == |x.bufs| == 2 && bufs[(k + 1) % 2] == x.bufs[(k + 1) % 2]
      && bufs[k % 2] == Over(x.bufs[k % 2], c.buckets[k].data)
  {}

  lemma LevelStep(c: Config, s: State, j: nat, states: seq<State>, events: seq<Event>)
      returns (states': seq<State>, events': seq<Event>, s': State)
    requires ValidConfig(c) && EndsIn(c, states, events, s) && Level(c, s, j) && j + 1 < |c.buckets|
    ensures EndsIn(c, states', events', s') && Level(c, s', j + 1)
  {
    hide *;
    LevelFacts(c, s, j);
    states', events', s' := PushGo(c, s, j, j, states, events);
    var s1 := s';
    OtherSlot(c, s.ranks[0], j);
    AheadFacts(c, s1, j, j + 1, Filling(0));
    states', events', s' := Pull(c, s1, j, j + 1, Filling(0), states', events');
    MarkSlot(c, s1.ranks[0], j);
    WellFormedFacts(c, s');
    LevelIs(c, s', j + 1);
  }

  lemma LevelFacts(c: Config, s: State, j: nat)
    requires ValidConfig(c) && Level(c, s, j)
    ensures Ahead(c, s, j, j, Filling(0)) && WellFormed(c, s) && |s.ranks| == c.n + 1 && |s.ranks[0].bufs| == 2
    ensures WellFormedRank(c, s.ranks[0]) && j < |c.buckets|
    ensures forall k: nat :: Marked(s.ranks[0].bufs[k % 2])
  {}

  lemma LevelIs(c: Config, s: State, j: nat)
    requires ValidConfig(c) && Ahead(c, s, j, j, Filling(0)) && s.ranks != [] && |s.ranks[0].bufs| == 2
    requires Marked(s.ranks[0].bufs[j % 2]) && Marked(s.ranks[0].bufs[(j + 1) % 2])
    ensures Level(c, s, j)
  {}

  lemma MarkSlot(c: Config, x: Rank, j: nat)
    requires WellFormedRank(c, x)
    ensures var y := MarkedRank(x, j % 2);
      |x.bufs| == |y.bufs| == 2 && Marked(y.bufs[j % 2]) && y.bufs[(j + 1) % 2] == x.bufs[(j + 1) % 2]
    ensures j % 2 == (j + 2) % 2
  {}

  /** Memory whose first bytes happen to be the magic. */
  function PrimedState(c: Config): State
    requires c.size >= 4
  {
    var buf := MAGIC + seq(c.size - 4, _ => 0);
    State(seq(c.n + 1, r requires 0 <= r <= c.n => InitRank(r, [buf, buf])), seq(c.n, _ => []))
  }

  /** A run after which every bucket before j is acknowledged. */
  lemma {:induction false} ReachLevel(c: Config, j: nat) returns (states: seq<State>, events: seq<Event>, s: State)
    requires ValidConfig(c) && j < |c.buckets|
    ensures EndsIn(c, states, events, s) && Level(c, s, j)
  {
    if j == 0 {
      s := PrimedState(c);
      StartLevel(c);
      states, events := [s], [];
    } else {
      states, events, s := ReachLevel(c, j - 1);
      states, events, s := LevelStep(c, s, j - 1, states, events);
    }
  }

  lemma StartLevel(c: Config)
    requires ValidConfig(c)
    ensures EndsIn(c, [PrimedState(c)], [], PrimedState(c)) && Level(c, PrimedState(c), 0)
  {
    var s := PrimedState(c);
    var buf := MAGIC + seq(c.size - 4, _ => 0);
    assert buf[..4] == MAGIC;
    assert forall r :: 0 <= r <= c.n ==> s.ranks[r] == InitRank(r, [buf, buf]);
  }

  // ---------- Rank 1 one bucket of a parity behind ----------

  /** The sender has overwritten bucket j, which no receiver has begun to read, with bucket j + 2. */
  ghost predicate Lagging(c: Config, s: State, j: nat)
    requires ValidConfig(c)
  {
    && j + 2 < |c.buckets|
    && Ahead(c, s, j, NextK(c, j + 2), NextPc(c, j + 2))
  }

  /** A bucket that starts like the magic leaves the magic where it was. */
  lemma OverMarked(buf: seq<byte>, data: seq<byte>)
    requires Marked(buf) && !Distinguishable(data) && |data| <= |buf|
    ensures Marked(Over(buf, data))
  {
    var n := if |data| < 4 then |data| else 4;
    var r := Over(buf, data);
    forall i | 0 <= i < 4 ensures r[i] == MAGIC[i] {
      if i < n { assert data[..n][i] == MAGIC[i]; } else { assert buf[..4][i] == MAGIC[i]; }
    }
    assert r[..4] == MAGIC;
  }

  /** The sender places two buckets and takes the magic for the acknowledgement of the first. */
  lemma PushOver(c: Config, s: State, m: nat, states: seq<State>, events: seq<Event>)
      returns (states': seq<State>, events': seq<Event>, s': State)
    requires ValidConfig(c) && EndsIn(c, states, events, s) && Level(c, s, m)
    requires m + 2 < |c.buckets| && !Distinguishable(c.buckets[m].data)
    ensures EndsIn(c, states', events', s') && WellFormed(c, s') && Ahead(c, s', m, m + 2, Filling(0))
  {
    hide *;
    LevelFacts(c, s, m);
    var s1;
    states', events', s1 := PushGo(c, s, m, m, states, events);
    OtherSlot(c, s.ranks[0], m);
    KeepsMark(c, s.ranks[0].bufs[m % 2], m);
    AheadFacts(c, s1, m, m + 1, Filling(0));
    MarkSlot(c, s1.ranks[0], m);
    states', events', s' := PushGo(c, s1, m, m + 1, states', events');
  }

  /** Then it places a third bucket over the first. */
  lemma BeginLag(c: Config, s: State, m: nat, states: seq<State>, events: seq<Event>)
      returns (states': seq<State>, events': seq<Event>, s': State)
    requires ValidConfig(c) && EndsIn(c, states, events, s) && Level(c, s, m)
    requires m + 2 < |c.buckets| && !Distinguishable(c.buckets[m].data)
    ensures EndsIn(c, states', events', s') && Lagging(c, s', m) && WellFormed(c, s')
    ensures c.buckets[m + 2].data <= s'.ranks[0].bufs[m % 2]
  {
    hide *;
    var s2;
    states', events', s2 := PushOver(c, s, m, states, events);
    AheadFacts(c, s2, m, m + 2, Filling(0));
    states', events', s' := Push(c, s2, m, m + 2, states', events');
    OtherSlot(c, s2.ranks[0], m + 2);
    OverHolds(c, s2.ranks[0], m + 2);
    MarkSlot(c, s2.ranks[0], m);
    LaggingIs(c, s', m);
  }

  lemma KeepsMark(c: Config, buf: seq<byte>, m: nat)
    requires ValidConfig(c) && m < |c.buckets| && |buf| == c.size
    requires Marked(buf) && !Distinguishable(c.buckets[m].data)
    ensures Marked(Over(buf, c.buckets[m].data))
  {
    ConfigBucket(c, m);
    OverMarked(buf, c.buckets[m].data);
  }

  lemma OverHolds(c: Config, x: Rank, k: nat)
    requires ValidConfig(c) && WellFormedRank(c, x) && k < |c.buckets|
    ensures |x.bufs| == 2 && c.buckets[k].data <= Over(x.bufs[k % 2], c.buckets[k].data)
  {
    ConfigBucket(c, k);
  }

  lemma LaggingIs(c: Config, s: State, j: nat)
    requires ValidConfig(c) && j + 2 < |c.buckets| && Ahead(c, s, j, NextK(c, j + 2), NextPc(c, j + 2))
    ensures Lagging(c, s, j)
  {}

  lemma LaggingFacts(c: Config, s: State, j: nat)
    requires ValidConfig(c) && Lagging(c, s, j)
    ensures j + 2 < |c.buckets| && Ahead(c, s, j, NextK(c, j + 2), NextPc(c, j + 2))
  {}

  /** Rank 1 acknowledges buckets j and j + 1, the sender takes the first for the acknowledgement of bucket
      j + 2 and goes on to bucket j + 4. */
  lemma LagStep(c: Config, s: State, j: nat, states: seq<State>, events: seq<Event>)
      returns (states': seq<State>, events': seq<Event>, s': State)
    requires ValidConfig(c) && EndsIn(c, states, events, s) && Lagging(c, s, j) && j + 4 < |c.buckets|
    ensures EndsIn(c, states', events', s') && Lagging(c, s', j + 2) && WellFormed(c, s')
    ensures c.buckets[j + 4].data <= s'.ranks[0].bufs[(j + 2) % 2]
  {
    hide *;
    LaggingFacts(c, s, j);
    NextIs(c, j + 2);
    AheadFacts(c, s, j, j + 3, AwaitAck);
    var s1, s2, s3, s4;
    states', events', s1 := Pull(c, s, j, j + 3, AwaitAck, states, events);
    MarkSlot(c, s.ranks[0], j);
    AheadFacts(c, s1, j + 1, j + 3, AwaitAck);
    states', events', s2 := Pull(c, s1, j + 1, j + 3, AwaitAck, states', events');
    MarkSlot(c, s1.ranks[0], j + 1);
    AheadFacts(c, s2, j + 2, j + 3, AwaitAck);
    states', events', s3 := Go(c, s2, j + 2, j + 3, AwaitAck, states', events');
    states', events', s4 := PushGo(c, s3, j + 2, j + 3, states', events');
    AheadFacts(c, s4, j + 2, j + 4, Filling(0));
    states', events', s' := Push(c, s4, j + 2, j + 4, states', events');
    OtherSlot(c, s4.ranks[0], j + 4);
    OverHolds(c, s4.ranks[0], j + 4);
    LaggingIs(c, s', j + 2);
  }

  /** The sender has returned and rank 1 has not acknowledged everything. */
  ghost predicate ReturnsEarly(c: Config, s: State) {
    |s.ranks| == c.n + 1 && c.n >= 1 && s.ranks[0].pc == Done && s.ranks[1].k < |c.buckets|
  }

  lemma EndLag(c: Config, s: State, j: nat, states: seq<State>, events: seq<Event>)
      returns (states': seq<State>, events': seq<Event>)
    requires ValidConfig(c) && EndsIn(c, states, events, s) && Lagging(c, s, j) && j + 3 == |c.buckets|
    ensures IsRun(c, states', events') && |states'| == |events'| + 1 && ReturnsEarly(c, states'[|events'|])
  {
    hide *;
    LaggingFacts(c, s, j);
    NextIs(c, j + 2);
    AheadFacts(c, s, j, j + 2, AwaitLast);
    var s1, s2;
    states', events', s1 := Pull(c, s, j, j + 2, AwaitLast, states, events);
    MarkSlot(c, s.ranks[0], j);
    AheadFacts(c, s1, j + 1, j + 2, AwaitLast);
    states', events', s2 := Go(c, s1, j + 1, j + 2, AwaitLast, states', events');
    WellFormedFacts(c, s2);
    EarlyIs(c, s2, states', events');
  }

  lemma EarlyIs(c: Config, s: State, states: seq<State>, events: seq<Event>)
    requires EndsIn(c, states, events, s) && |s.ranks| > 1 && s.ranks[0].pc == Done && s.ranks[1].k < |c.buckets|
    ensures IsRun(c, states, events) && |states| == |events| + 1 && ReturnsEarly(c, states[|events|])
  {}

  /** From a lagging state to an early return. */
  lemma {:induction false} LagOn(c: Config, s: State, j: nat, states: seq<State>, events: seq<Event>)
      returns (states': seq<State>, events': seq<Event>)
    requires ValidConfig(c) && EndsIn(c, states, events, s) && Lagging(c, s, j) && (|c.buckets| - 1 - j) % 2 == 0
    ensures IsRun(c, states', events') && |states'| == |events'| + 1 && ReturnsEarly(c, states'[|events'|])
    decreases |c.buckets| - j
  {
    hide *;
    LaggingFacts(c, s, j);
    if j + 3 == |c.buckets| {
      states', events' := EndLag(c, s, j, states, events);
    } else {
      var s';
      states', events', s' := LagStep(c, s, j, states, events);
      states', events' := LagOn(c, s', j + 2, states', events');
    }
  }

  /** The last bucket itself starts like the magic. */
  lemma LastLevel(c: Config, s: State, states: seq<State>, events: seq<Event>)
      returns (states': seq<State>, events': seq<Event>)
    requires ValidConfig(c) && |c.buckets| > 0 && EndsIn(c, states, events, s) && Level(c, s, |c.buckets| - 1)
    requires !Distinguishable(c.buckets[|c.buckets| - 1].data)
    ensures IsRun(c, states', events') && |states'| == |events'| + 1 && ReturnsEarly(c, states'[|events'|])
  {
    hide *;
    var k := |c.buckets| - 1;
    LevelFacts(c, s, k);
    NextIs(c, k);
    var s1, s2;
    states', events', s1 := Push(c, s, k, k, states, events);
    OtherSlot(c, s.ranks[0], k);
    KeepsMark(c, s.ranks[0].bufs[k % 2], k);
    AheadFacts(c, s1, k, k, AwaitLast);
    states', events', s2 := Go(c, s1, k, k, AwaitLast, states', events');
    WellFormedFacts(c, s2);
    EarlyIs(c, s2, states', events');
  }

  /** If bucket m starts like the magic and shares the last bucket's buffer, some run returns the sender before
      rank 1 has acknowledged everything. */
  lemma EarlyReturnRun(c: Config, m: nat) returns (states: seq<State>, events: seq<Event>)
    requires ValidConfig(c) && m < |c.buckets| && (|c.buckets| - 1 - m) % 2 == 0 && !Distinguishable(c.buckets[m].data)
    ensures IsRun(c, states, events) && |states| == |events| + 1 && ReturnsEarly(c, states[|events|])
  {
    hide *;
    var s;
    states, events, s := ReachLevel(c, m);
    if m + 1 == |c.buckets| {
      states, events := LastLevel(c, s, states, events);
    } else {
      states, events, s := BeginLag(c, s, m, states, events);
      states, events := LagOn(c, s, m, states, events);
    }
  }

  // ---------- What rank 1 yields when it lags ----------

  /** A state in which bucket j is overwritten before it is read, for every j from m on that shares its buffer. */
  lemma {:induction false} ReachLag(c: Config, m: nat, j: nat) returns (states: seq<State>, events: seq<Event>, s: State)
    requires ValidConfig(c) && m < |c.buckets| && !Distinguishable(c.buckets[m].data)
    requires m <= j && (j - m) % 2 == 0 && j + 2 < |c.buckets|
    ensures EndsIn(c, states, events, s) && Lagging(c, s, j) && WellFormed(c, s)
    ensures c.buckets[j + 2].data <= s.ranks[0].bufs[j % 2]
    decreases j
  {
    hide *;
    if j == m {
      states, events, s := ReachLevel(c, m);
      states, events, s := BeginLag(c, s, m, states, events);
    } else {
      states, events, s := ReachLag(c, m, j - 2);
      states, events, s := LagStep(c, s, j - 2, states, events);
    }
  }

  /** Byte i of bucket j, which view t covers, differs from the byte that bucket j + 2 puts in its place. */
  ghost predicate Differs(c: Config, j: nat, t: nat, i: nat) {
    && j + 2 < |c.buckets| && t < |c.buckets[j].metas|
    && var m := c.buckets[j].metas[t];
    && m.offset <= i < m.offset + m.size && i < |c.buckets[j].data| && i < |c.buckets[j + 2].data|
    && c.buckets[j + 2].data[i] != c.buckets[j].data[i]
  }

  lemma ReadOver(c: Config, j: nat, s: State, i: nat)
    requires ValidConfig(c) && j + 2 < |c.buckets| && WellFormed(c, s) && c.buckets[j + 2].data <= s.ranks[0].bufs[j % 2]
    requires i < |c.buckets[j].data| && i < |c.buckets[j + 2].data|
    ensures i < |ReadFrom(c, j, s)| && ReadFrom(c, j, s)[i] == c.buckets[j + 2].data[i]
  {
    ConfigBucket(c, j);
    var src, n := s.ranks[0].bufs[j % 2], |c.buckets[j].data|;
    assert ReadFrom(c, j, s)[i] == src[..n][i] == src[i];
    assert src[..|c.buckets[j + 2].data|][i] == src[i];
  }

  lemma OtherWeight(c: Config, j: nat, t: nat, i: nat, buf: seq<byte>)
    requires ValidConfig(c) && Differs(c, j, t, i) && i < |buf| && buf[i] == c.buckets[j + 2].data[i]
    requires forall m <- c.buckets[j].metas :: m.offset + m.size <= |buf|
    ensures Views(c.buckets[j].metas, buf)[t] != UnpackedBucket(c.buckets, c.size, j)[t]
  {
    var b := c.buckets[j];
    assert b in c.buckets && b.metas[t] in b.metas;
    var m := b.metas[t];
    assert View(m, buf).bytes[i - m.offset] == buf[i];
    assert View(m, b.data).bytes[i - m.offset] == b.data[i];
  }

  lemma NotPrefix(c: Config, j: nat, t: nat, out: seq<Weight>, ws: seq<Weight>)
    requires ValidConfig(c) && j < |c.buckets| && t < |ws| == |c.buckets[j].metas|
    requires |out| == |Outs(c.buckets, c.size, j)| && ws[t] != UnpackedBucket(c.buckets, c.size, j)[t]
    ensures !(out + ws <= Outs(c.buckets, c.size, |c.buckets|))
  {
    OutsAt(c.buckets, c.size, j, t);
    hide *;
    assert (out + ws)[|out| + t] == ws[t];
  }

  /** If a bucket m starts like the magic, then in some run every later bucket j of the same buffer is read when
      bucket j + 2 has replaced it: rank 1 yields bytes that the sender has not sent wherever a view covers a
      byte that differs. */
  lemma WrongBytes(c: Config, m: nat, j: nat, t: nat, i: nat) returns (states: seq<State>, events: seq<Event>)
    requires ValidConfig(c) && m < |c.buckets| && !Distinguishable(c.buckets[m].data)
    requires m <= j && (j - m) % 2 == 0 && Differs(c, j, t, i)
    ensures IsRun(c, states, events) && |states| == |events| + 1 && Packing.Decodable(c.buckets)
    ensures |states[|events|].ranks| == c.n + 1 && c.n >= 1
    ensures !(states[|events|].ranks[1].out <= Packing.Decode(c.buckets))
  {
    AllOuts(c.buckets, c.size);
    DiffersFacts(c, j, t, i);
    hide *;
    var s, s';
    states, events, s := ReachLag(c, m, j);
    LaggingFacts(c, s, j);
    NextIs(c, j + 2);
    var k, pc := NextK(c, j + 2), NextPc(c, j + 2);
    AheadFacts(c, s, j, k, pc);
    states, events, s' := Pull(c, s, j, k, pc, states, events);
    WellFormedFacts(c, s');
    ReadOver(c, j, s, i);
    OtherWeight(c, j, t, i, ReadFrom(c, j, s));
    NotPrefix(c, j, t, s.ranks[1].out, Views(c.buckets[j].metas, ReadFrom(c, j, s)));
    EndsInFacts(c, states, events, s');
  }

  lemma DiffersFacts(c: Config, j: nat, t: nat, i: nat)
    requires Differs(c, j, t, i)
    ensures j + 2 < |c.buckets| && t < |c.buckets[j].metas| && i < |c.buckets[j].data| && i < |c.buckets[j + 2].data|
  {}

  lemma EndsInFacts(c: Config, states: seq<State>, events: seq<Event>, s: State)
    requires EndsIn(c, states, events, s)
    ensures IsRun(c, states, events) && |states| == |events| + 1 && states[|events|] == s
  {}
}
