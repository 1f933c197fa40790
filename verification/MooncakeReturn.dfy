/** When a Mooncake sender can return although its last bucket has not been acknowledged. */
module MooncakeReturn {
  import opened Transfers
  import opened MooncakeChain
  import opened MooncakeSafety
  import opened MooncakeDrive
  import opened MooncakeLag

  /** Every bucket that shares the last bucket's buffer, and the last one itself, can be told from the magic. */
  ghost predicate SafeEnd(c: Config) {
    forall m: nat :: m < |c.buckets| && (|c.buckets| - 1 - m) % 2 == 0 ==> Distinguishable(c.buckets[m].data)
  }

  // ---------- What holds of one buffer of the sender, whatever happens to the other ----------

  /** Bucket m is intact until rank 1 has acknowledged it, and was placed after bucket m - 2 was acknowledged. */
  ghost predicate Kept(c: Config, x: Rank, m: nat, acks: nat)
    requires |x.bufs| == 2 && m < |c.buckets|
  {
    (m >= 2 ==> m - 1 <= acks) && (m >= acks ==> Holds(x.bufs[m % 2], c.buckets[m].data))
  }

  /** The latest bucket in the sender's buffer p. */
  ghost predicate SlotInv(c: Config, p: bit, x: Rank, acks: nat)
    requires WellFormedRank(c, x)
  {
    var placed := Placed(0, x);
    && placed <= |c.buckets|
    && (placed >= 1 && (placed - 1) % 2 == p ==> Kept(c, x, placed - 1, acks))
    && (placed >= 2 && placed % 2 == p && !x.pc.Filling? ==> Kept(c, x, placed - 2, acks))
    && (x.pc.Filling? && Cur(x) == p ==>
          && (x.k >= 2 ==> x.k - 1 <= acks)
          && x.pc.pos <= |c.buckets[x.k].data| <= c.size && x.bufs[p][..x.pc.pos] == c.buckets[x.k].data[..x.pc.pos])
    && (x.pc.Done? ==> acks >= |c.buckets|)
  }

  /** Where the sender stands. */
  ghost predicate SenderAt(c: Config, x: Rank) {
    && WellFormedRank(c, x) && x.k < |c.buckets| && x.shouldWait == (x.k > 0)
    && match x.pc
       case Filling(pos) => pos <= |c.buckets[x.k].data| <= c.size
       case Sending => true
       case AwaitAck => x.k >= 2
       case AwaitLast => LastBucket(c, x.k)
       case Done => LastBucket(c, x.k)
       case _ => false
  }

  /** The sender x, its queue and rank 1 = b. */
  ghost predicate PairInv(c: Config, p: bit, x: Rank, q: seq<Info>, b: Rank) {
    && SenderAt(c, x) && WellFormedRank(c, b)
    && Popped(b) <= Sent(0, x) <= |c.buckets|
    && (!b.pc.Receiving? && !b.pc.Done? ==> b.k < |c.buckets| && b.info == InfoOf(c, b.k))
    && |q| == Sent(0, x) - Popped(b)
    && (forall i :: 0 <= i < |q| ==> q[i] == InfoOf0(c, Popped(b) + i))
    && SlotInv(c, p, x, b.k)
  }

  // ---------- The sender's steps ----------

  lemma PairFill(c: Config, p: bit, x: Rank, q: seq<Info>, b: Rank, g: nat)
    requires PairInv(c, p, x, q, b) && x.pc.Filling? && x.pc.pos < g <= |c.buckets[x.k].data|
    ensures PairInv(c, p, Filled(c, x, g), q, b)
  {
    var d := c.buckets[x.k].data;
    assert Filled(c, x, g).bufs[Cur(x)][..g] == x.bufs[Cur(x)][..x.pc.pos] + d[x.pc.pos..g];
    assert d[..g] == d[..x.pc.pos] + d[x.pc.pos..g];
  }

  lemma PairPlace(c: Config, p: bit, x: Rank, q: seq<Info>, b: Rank)
    requires PairInv(c, p, x, q, b) && x.pc.Filling? && x.pc.pos == |c.buckets[x.k].data|
    ensures PairInv(c, p, StepSender(c, x, q).0, q, b) && StepSender(c, x, q).1 == q
  {
    assert Cur(x) == p ==> x.bufs[p][..|c.buckets[x.k].data|] == c.buckets[x.k].data;
  }

  lemma PairSend(c: Config, p: bit, x: Rank, q: seq<Info>, b: Rank)
    requires ValidConfig(c) && PairInv(c, p, x, q, b) && x.pc.Sending?
    ensures var (x', q') := StepSender(c, x, q); PairInv(c, p, x', q', b)
  {
    hide Holds;
    if !LastBucket(c, x.k) { ConfigBucket(c, x.k + 1); }
  }

  /** A wait over a distinguishable bucket of this buffer ends because rank 1 has acknowledged that bucket. */
  lemma PairWait(c: Config, p: bit, x: Rank, q: seq<Info>, b: Rank)
    requires ValidConfig(c) && PairInv(c, p, x, q, b) && (x.pc.AwaitAck? || x.pc.AwaitLast?) && Marked(x.bufs[Cur(x)])
    requires SafeEnd(c) && p == (|c.buckets| - 1) % 2
    ensures PairInv(c, p, StepSender(c, x, q).0, q, b) && StepSender(c, x, q).1 == q
  {
    ConfigBucket(c, x.k);
    var m := if x.pc.AwaitAck? then x.k - 2 else x.k;
    SameParity(m, x.k, |c.buckets| - 1);
    if Cur(x) == p {
      assert Kept(c, x, m, b.k) && m % 2 == p;
      assert Distinguishable(c.buckets[m].data);
      if m >= b.k { MarkedMeansAcked(x.bufs[m % 2], c.buckets[m].data, false); }
    }
    hide Holds;
    hide Marked;
  }

  lemma SameParity(m: nat, k: nat, n: nat)
    requires m == k || m + 2 == k
    ensures m % 2 == k % 2 && (m <= n && m % 2 == n % 2 ==> (n - m) % 2 == 0)
  {}

  // ---------- The steps of rank 1 ----------

  /** A step of rank 1, or a mark in its buffers, that takes and acknowledges nothing. */
  lemma PairInner(c: Config, p: bit, x: Rank, q: seq<Info>, b: Rank, b': Rank)
    requires PairInv(c, p, x, q, b) && WellFormedRank(c, b') && b'.k == b.k && b'.info == b.info
    requires (b'.pc.Receiving? <==> b.pc.Receiving?) && (b'.pc.Done? <==> b.pc.Done?)
    ensures PairInv(c, p, x, q, b')
  {
    hide SlotInv;
  }

  lemma PairTake(c: Config, p: bit, x: Rank, q: seq<Info>, b: Rank, hasNext: bool)
    requires ValidConfig(c) && PairInv(c, p, x, q, b) && b.pc.Receiving? && q != []
    ensures var (b', q') := StepReceiver(c, hasNext, b, q); PairInv(c, p, x, q', b')
  {
    hide SlotInv;
    assert q[0] == InfoOf0(c, b.k);
    assert b.k < |c.buckets|;
    ConfigBucket(c, b.k);
    var q' := q[1..];
    assert forall i :: 0 <= i < |q'| ==> q'[i] == q[i + 1];
  }

  lemma WorkShape(c: Config, b: Rank, up: seq<Info>, hasNext: bool)
    requires WellFormedRank(c, b) && (b.pc.AwaitDown? || b.pc.Reading? || b.pc.Yielding?)
    ensures var (b', up') := StepReceiver(c, hasNext, b, up);
      && WellFormedRank(c, b') && b'.k == b.k && b'.info == b.info && up' == up && !b'.pc.Receiving? && !b'.pc.Done?
  {}

  lemma PairAck(c: Config, p: bit, x: Rank, q: seq<Info>, b: Rank)
    requires PairInv(c, p, x, q, b) && b.pc.Acking?
    ensures b.k < |c.buckets| && b.info.ptr == b.k % 2
    ensures PairInv(c, p, MarkedRank(x, b.info.ptr), q, AfterAck(c, b))
  {
    SlotAck(c, p, x, b.k);
    hide SlotInv;
  }

  /** Rank 1 marks the buffer of the bucket that it acknowledges, and no other bucket's. */
  lemma SlotAck(c: Config, p: bit, x: Rank, k: nat)
    requires SenderAt(c, x) && SlotInv(c, p, x, k) && k < Sent(0, x)
    ensures SlotInv(c, p, MarkedRank(x, k % 2), k + 1)
  {
    hide Holds;
    hide Mark;
  }

  // ---------- The steps of a state ----------

  ghost predicate Pair(c: Config, p: bit, s: State) {
    |s.ranks| == c.n + 1 && |s.queues| == c.n && c.n >= 1 && PairInv(c, p, s.ranks[0], s.queues[0], s.ranks[1])
  }

  /** What a step does to the sender, its queue and rank 1. */
  lemma PairShape(c: Config, s: State, e: Event)
    requires WellFormed(c, s) && Enabled(c, s, e)
    ensures var s', x, q, b := Apply(c, s, e), s.ranks[0], s.queues[0], s.ranks[1];
      && |s'.ranks| == c.n + 1 && |s'.queues| == c.n
      && var x', q', b' := s'.ranks[0], s'.queues[0], s'.ranks[1];
      match e
      case FillTo(g) => x' == Filled(c, x, g) && q' == q && b' == b
      case Copy(r, i) => x' == x && q' == q && (b' == b || (r == 1 && b' == Copied(c, x, b, i)))
      case Local(r) =>
        if r == 0 then x' == StepSender(c, x, q).0 && q' == StepSender(c, x, q).1 && b' == b
        else if r > 1 then x' == x && q' == q && (b' == b || (r == 2 && b' == MarkedRank(b, s.ranks[2].info.ptr)))
        else if b.pc.Forwarding? then x' == x && q' == q && b' == b.(pc := Yielding(0))
        else if b.pc.Acking? then x' == MarkedRank(x, b.info.ptr) && q' == q && b' == AfterAck(c, b)
        else x' == x && b' == StepReceiver(c, 1 < c.n, b, q).0 && q' == StepReceiver(c, 1 < c.n, b, q).1
  {
    hide StepReceiver;
    hide StepSender;
    hide AfterAck;
    hide Copied;
    hide Filled;
    hide Mark;
  }

  lemma PairStep(c: Config, p: bit, s: State, e: Event)
    requires ValidConfig(c) && SafeEnd(c) && p == (|c.buckets| - 1) % 2
    requires WellFormed(c, s) && Pair(c, p, s) && Enabled(c, s, e)
    ensures Pair(c, p, Apply(c, s, e))
  {
    PairShape(c, s, e);
    var x, q, b := s.ranks[0], s.queues[0], s.ranks[1];
    var b' := Apply(c, s, e).ranks[1];
    hide SlotInv;
    hide StepReceiver;
    hide StepSender;
    hide AfterAck;
    hide Filled;
    hide Mark;
    hide Apply;
    hide SafeEnd;
    if e.FillTo? {
      PairFill(c, p, x, q, b, e.g);
    } else if e.Copy? || e.r > 1 {
      PairInner(c, p, x, q, b, b');
    } else if e.r == 0 {
      if x.pc.Filling? { PairPlace(c, p, x, q, b); } else if x.pc.Sending? { PairSend(c, p, x, q, b); } else { PairWait(c, p, x, q, b); }
    } else if b.pc.Receiving? {
      PairTake(c, p, x, q, b, 1 < c.n);
    } else if b.pc.Acking? {
      PairAck(c, p, x, q, b);
    } else {
      if !b.pc.Forwarding? { WorkShape(c, b, q, 1 < c.n); }
      PairInner(c, p, x, q, b, b');
    }
  }

  lemma {:induction false} PairRun(c: Config, p: bit, states: seq<State>, events: seq<Event>, i: nat)
    requires ValidConfig(c) && SafeEnd(c) && p == (|c.buckets| - 1) % 2 && IsRun(c, states, events) && i <= |events|
    ensures Pair(c, p, states[i])
  {
    if i == 0 {
      PairStart(c, p, states[0]);
    } else {
      PairRun(c, p, states, events, i - 1);
      assert IsStep(c, states[i - 1], events[i - 1], states[i]);
      PairStep(c, p, states[i - 1], events[i - 1]);
    }
  }

  lemma PairStart(c: Config, p: bit, s: State)
    requires ValidConfig(c) && Init(c, s)
    ensures Pair(c, p, s)
  {
    assert s.ranks[0] == InitRank(0, s.ranks[0].bufs) && s.ranks[1] == InitRank(1, s.ranks[1].bufs);
    ConfigBucket(c, 0);
  }

  // ---------- The exact condition ----------

  /** If the last bucket and all that share its buffer are distinguishable, the sender returns only after
      rank 1 has read and acknowledged everything, whatever the other buckets are. */
  lemma SenderReturnsAcked(c: Config, states: seq<State>, events: seq<Event>, i: nat)
    requires ValidConfig(c) && SafeEnd(c) && IsRun(c, states, events) && i <= |events|
    ensures |states[i].ranks| == c.n + 1
    ensures states[i].ranks[0].pc == Done ==> states[i].ranks[1].k >= |c.buckets|
  {
    PairRun(c, (|c.buckets| - 1) % 2, states, events, i);
  }

  /** Some run returns the sender before rank 1 has acknowledged everything, exactly when the last bucket or
      an earlier one in the same buffer starts like the magic. */
  lemma EarlyReturnIff(c: Config)
    requires ValidConfig(c)
    ensures (exists states, events :: IsRun(c, states, events) && ReturnsEarly(c, states[|events|])) <==> !SafeEnd(c)
  {
    if SafeEnd(c) {
      forall states, events | IsRun(c, states, events) ensures !ReturnsEarly(c, states[|events|]) {
        SenderReturnsAcked(c, states, events, |events|);
      }
    } else {
      var m: nat :| m < |c.buckets| && (|c.buckets| - 1 - m) % 2 == 0 && !Distinguishable(c.buckets[m].data);
      var states, events := EarlyReturnRun(c, m);
    }
  }
}
