/** The inductive invariant of the Mooncake relay and its preservation by every step. */
module MooncakeSafety {
  import opened Buckets
  import opened Transfers
  import opened Streams
  import opened MooncakeChain

  function InfoOf(c: Config, m: nat): Info
    requires m < |c.buckets|
  {
    Info(c.buckets[m].metas, m % 2, |c.buckets[m].data|, LastBucket(c, m))
  }

  /** The start of the bucket cannot be mistaken for the magic. */
  predicate Distinguishable(data: seq<byte>) {
    !(data[..if |data| < 4 then |data| else 4] <= MAGIC)
  }

  // ---------- Progress counters, read off the control state ----------

  /** Buckets that rank r has placed completely in its buffers. */
  function Placed(r: nat, x: Rank): nat {
    match x.pc
    case Sending => x.k + 1
    case AwaitLast => x.k + 1
    case Forwarding => x.k + 1
    case Yielding(_) => x.k + 1
    case Acking => x.k + 1
    case Done => if r == 0 then x.k + 1 else x.k
    case _ => x.k
  }

  /** Infos that rank r has sent. */
  function Sent(r: nat, x: Rank): nat {
    match x.pc
    case AwaitLast => x.k + 1
    case Yielding(_) => x.k + 1
    case Acking => x.k + 1
    case Done => if r == 0 then x.k + 1 else x.k
    case _ => x.k
  }

  /** Infos that a receiver has taken. */
  function Popped(x: Rank): nat {
    if x.pc.Receiving? || x.pc.Done? then x.k else x.k + 1
  }

  /** Rank x writes bucket Placed into the buffer that held bucket Placed - 2. */
  predicate Overwriting(x: Rank) {
    x.pc.Filling? || x.pc.Reading?
  }

  // ---------- The invariant ----------

  /** A placed bucket: intact until the reader's magic covers its first four bytes. */
  ghost predicate Content(buf: seq<byte>, data: seq<byte>, acked: bool) {
    if acked then Marked(buf) && |data| <= |buf| && forall i :: 4 <= i < |data| ==> buf[i] == data[i]
    else Holds(buf, data)
  }

  /** The last two placed buckets, minus the one being overwritten. */
  ghost predicate Contents(c: Config, x: Rank, placed: nat, acks: nat)
    requires WellFormedRank(c, x)
  {
    && placed <= |c.buckets|
    && (placed >= 1 ==>
          Content(x.bufs[(placed - 1) % 2], c.buckets[placed - 1].data, placed - 1 < acks))
    && (placed >= 2 && !Overwriting(x) ==>
          Content(x.bufs[(placed - 2) % 2], c.buckets[placed - 2].data, placed - 2 < acks))
  }

  ghost predicate SenderInv(c: Config, x: Rank)
    requires WellFormedRank(c, x)
  {
    && x.k < |c.buckets| && x.relayed == [] && x.shouldWait == (x.k > 0)
    && match x.pc
       case Filling(pos) =>
         pos <= |c.buckets[x.k].data| <= c.size && x.bufs[Cur(x)][..pos] == c.buckets[x.k].data[..pos]
       case Sending => true
       case AwaitAck => x.k >= 2
       case AwaitLast => LastBucket(c, x.k)
       case Done => LastBucket(c, x.k)
       case _ => false
  }

  ghost predicate ReceiverInv(c: Config, r: nat, x: Rank)
    requires WellFormedRank(c, x)
  {
    && x.k <= |c.buckets|
    && (x.pc.Done? <==> x.k == |c.buckets|)
    && (!x.pc.Receiving? && !x.pc.Done? ==> x.info == InfoOf(c, x.k))
    && |x.relayed| == Placed(r, x) <= |c.buckets|
    && (forall m :: 0 <= m < |x.relayed| ==> x.relayed[m] == c.buckets[m].data)
    && match x.pc
       case Receiving => true
       case AwaitDown => x.k >= 2 && r < c.n
       case Reading(missing) => HoldsExcept(x.bufs[Cur(x)], c.buckets[x.k].data, missing)
       case Forwarding => true
       case Yielding(j) => j <= |x.info.metas|
       case Acking => true
       case Done => true
       case _ => false
  }

  /** What the last rank, whose buffers nobody else writes, holds and has yielded. */
  ghost predicate LastRankInv(c: Config, x: Rank)
    requires ValidConfig(c) && WellFormedRank(c, x) && x.k <= |c.buckets|
  {
    && Contents(c, x, Placed(c.n, x), 0)
    && x.out == (match x.pc
                 case Yielding(j) =>
                   if x.k < |c.buckets| && j <= |c.buckets[x.k].metas| then Outs(c.buckets, c.size, x.k) + UnpackedBucket(c.buckets, c.size, x.k)[..j]
                   else []
                 case Acking => if x.k < |c.buckets| then Outs(c.buckets, c.size, x.k + 1) else []
                 case _ => Outs(c.buckets, c.size, x.k))
  }

  ghost predicate RankInv(c: Config, r: nat, x: Rank)
    requires ValidConfig(c)
  {
    && WellFormedRank(c, x)
    && (if r == 0 then SenderInv(c, x) else ReceiverInv(c, r, x))
    && (r == c.n ==> LastRankInv(c, x))
  }

  /** Rank i = a, its queue, and rank i + 1 = b, which has acknowledged b.k buckets. */
  ghost predicate LinkInv(c: Config, i: nat, a: Rank, q: seq<Info>, b: Rank)
    requires WellFormedRank(c, a)
  {
    && Popped(b) <= Sent(i, a) <= Placed(i, a) <= b.k + 2
    && (Overwriting(a) ==> Placed(i, a) <= b.k + 1)
    && |q| == Sent(i, a) - Popped(b) && Sent(i, a) <= |c.buckets|
    && (forall j :: 0 <= j < |q| ==> q[j] == InfoOf(c, Popped(b) + j))
    && Contents(c, a, Placed(i, a), b.k)
  }

  ghost predicate Inv(c: Config, s: State)
    requires ValidConfig(c)
  {
    && |s.ranks| == c.n + 1 && |s.queues| == c.n
    && (forall r :: 0 <= r <= c.n ==> RankInv(c, r, s.ranks[r]))
    && (forall i :: 0 <= i < c.n ==> LinkInv(c, i, s.ranks[i], s.queues[i], s.ranks[i + 1]))
  }

  lemma InitInv(c: Config, s: State)
    requires ValidConfig(c) && Init(c, s)
    ensures Inv(c, s)
  {
    assert c.buckets[0] in c.buckets;
    forall r | 0 <= r <= c.n ensures RankInv(c, r, s.ranks[r]) {
      assert s.ranks[r] == InitRank(r, s.ranks[r].bufs);
    }
    forall i | 0 <= i < c.n ensures LinkInv(c, i, s.ranks[i], s.queues[i], s.ranks[i + 1]) {
      assert s.ranks[i] == InitRank(i, s.ranks[i].bufs);
      assert s.ranks[i + 1] == InitRank(i + 1, s.ranks[i + 1].bufs);
    }
  }

  // ---------- Preservation, one rank and its links at a time ----------

  lemma FillRank(c: Config, x: Rank, q: seq<Info>, b: Rank, g: nat)
    requires ValidConfig(c) && RankInv(c, 0, x) && LinkInv(c, 0, x, q, b)
    requires x.pc.Filling? && x.pc.pos < g <= |c.buckets[x.k].data|
    ensures var x' := Filled(c, x, g);
      RankInv(c, 0, x') && LinkInv(c, 0, x', q, b)
  {
    var d, x' := c.buckets[x.k].data, Filled(c, x, g);
    assert c.buckets[x.k] in c.buckets;
    assert x'.bufs[Cur(x)][..g] == x.bufs[Cur(x)][..x.pc.pos] + d[x.pc.pos..g];
    assert d[..g] == d[..x.pc.pos] + d[x.pc.pos..g];
  }

  /** A wait that returns over a distinguishable bucket returns because that bucket was acknowledged. */
  lemma MarkedMeansAcked(buf: seq<byte>, data: seq<byte>, acked: bool)
    requires Content(buf, data, acked)
    ensures Marked(buf) && Distinguishable(data) ==> acked
  {
    var n := if |data| < 4 then |data| else 4;
    if !acked && Marked(buf) {
      assert data[..n] == buf[..4][..n];
    }
  }

  lemma SenderPlaces(c: Config, x: Rank, q: seq<Info>, b: Rank)
    requires ValidConfig(c) && RankInv(c, 0, x) && LinkInv(c, 0, x, q, b)
    requires x.pc.Filling? && x.pc.pos == |c.buckets[x.k].data|
    ensures var (x', q') := StepSender(c, x, q);
      RankInv(c, 0, x') && LinkInv(c, 0, x', q', b)
  {
    assert x.bufs[Cur(x)][..|c.buckets[x.k].data|] == c.buckets[x.k].data;
  }

  lemma SenderSends(c: Config, x: Rank, q: seq<Info>, b: Rank)
    requires ValidConfig(c) && RankInv(c, 0, x) && LinkInv(c, 0, x, q, b)
    requires x.pc.Sending?
    ensures var (x', q') := StepSender(c, x, q);
      RankInv(c, 0, x') && LinkInv(c, 0, x', q', b)
  {
    hide Content;
    if !LastBucket(c, x.k) { assert c.buckets[x.k + 1] in c.buckets; }
  }

  lemma SenderAcked(c: Config, x: Rank, q: seq<Info>, b: Rank)
    requires ValidConfig(c) && RankInv(c, 0, x) && LinkInv(c, 0, x, q, b)
    requires x.pc.AwaitAck? || x.pc.AwaitLast?
    requires x.pc.AwaitAck? ==> Marked(x.bufs[Cur(x)]) && Distinguishable(c.buckets[x.k - 2].data)
    ensures var (x', q') := StepSender(c, x, q);
      RankInv(c, 0, x') && LinkInv(c, 0, x', q', b)
  {
    hide Content;
    hide Marked;
    hide Distinguishable;
    assert c.buckets[x.k] in c.buckets;
    if x.pc.AwaitAck? {
      MarkedMeansAcked(x.bufs[Cur(x)], c.buckets[x.k - 2].data, x.k - 2 < b.k);
    }
  }

  lemma ReceiverBegins(c: Config, r: nat, x: Rank, up: seq<Info>)
    requires ValidConfig(c) && 0 < r <= c.n && RankInv(c, r, x) && x.k < |c.buckets|
    requires x.pc.Receiving? || x.pc.AwaitDown?
    requires x.pc.Receiving? ==> up != [] && up[0] == InfoOf(c, x.k)
    ensures RankInv(c, r, StepReceiver(c, r < c.n, x, up).0)
  {
    if x.pc.Receiving? { TakesInfo(c, r, x, up); } else { StartsReading(c, r, x, up); }
  }

  lemma TakesInfo(c: Config, r: nat, x: Rank, up: seq<Info>)
    requires ValidConfig(c) && 0 < r <= c.n && RankInv(c, r, x) && x.k < |c.buckets|
    requires x.pc.Receiving? && up != [] && up[0] == InfoOf(c, x.k)
    ensures RankInv(c, r, StepReceiver(c, r < c.n, x, up).0)
  {
    hide HoldsExcept;
    hide Content;
    assert c.buckets[x.k] in c.buckets;
    BeginsReading(x.bufs[Cur(x)], c.buckets[x.k].data);
    if r == c.n { LastRankBegins(c, x, StepReceiver(c, false, x, up).0); }
    hide LastRankInv;
  }

  lemma StartsReading(c: Config, r: nat, x: Rank, up: seq<Info>)
    requires ValidConfig(c) && 0 < r <= c.n && RankInv(c, r, x) && x.k < |c.buckets| && x.pc.AwaitDown?
    ensures RankInv(c, r, StepReceiver(c, r < c.n, x, up).0)
  {
    hide HoldsExcept;
    assert c.buckets[x.k] in c.buckets;
    BeginsReading(x.bufs[Cur(x)], c.buckets[x.k].data);
    hide LastRankInv;
  }

  lemma LastRankBegins(c: Config, x: Rank, x': Rank)
    requires ValidConfig(c) && WellFormedRank(c, x) && WellFormedRank(c, x') && x.k <= |c.buckets| && LastRankInv(c, x)
    requires (x.pc.Receiving? || x.pc.AwaitDown?) && x'.pc.Reading?
    requires x'.k == x.k && x'.bufs == x.bufs && x'.out == x.out
    ensures LastRankInv(c, x')
  {
    hide Content;
    hide Outs;
  }

  lemma BeginLinks(c: Config, r: nat, p: Rank, up: seq<Info>, x: Rank)
    requires ValidConfig(c) && 0 < r <= c.n && RankInv(c, r, x) && WellFormedRank(c, p) && LinkInv(c, r - 1, p, up, x)
    requires x.pc.Receiving? || x.pc.AwaitDown?
    requires x.pc.Receiving? ==> up != []
    ensures x.k < |c.buckets| && (x.pc.Receiving? ==> up[0] == InfoOf(c, x.k))
    ensures var (x', up') := StepReceiver(c, r < c.n, x, up);
      LinkInv(c, r - 1, p, up', x')
  {
    hide Content;
    hide HoldsExcept;
    hide LastRankInv;
    if x.pc.Receiving? { assert up[0] == InfoOf(c, x.k); }
    assert c.buckets[x.k] in c.buckets;
    if x.pc.Receiving? {
      assert forall j :: 0 <= j < |up[1..]| ==> up[1..][j] == up[j + 1];
    }
  }

  lemma ReceiverReads(c: Config, r: nat, p: Rank, up: seq<Info>, x: Rank)
    requires ValidConfig(c) && 0 < r <= c.n && RankInv(c, r, x) && WellFormedRank(c, p) && LinkInv(c, r - 1, p, up, x)
    requires x.pc.Reading? && x.pc.missing == {}
    ensures var (x', up') := StepReceiver(c, r < c.n, x, up);
      RankInv(c, r, x') && LinkInv(c, r - 1, p, up', x')
  {
    var d := c.buckets[x.k].data;
    Arrived(x.bufs[Cur(x)], d);
    assert x.bufs[Cur(x)][..|d|] == d;
  }

  lemma BeginsReading(buf: seq<byte>, data: seq<byte>)
    requires |data| <= |buf|
    ensures HoldsExcept(buf, data, Positions(|data|))
  {}

  lemma DownReceiving(c: Config, r: nat, x: Rank, up: seq<Info>, down: seq<Info>, nx: Rank)
    requires ValidConfig(c) && 0 < r < c.n && RankInv(c, r, x) && LinkInv(c, r, x, down, nx)
    requires x.pc.Receiving? && up != [] && up[0] == InfoOf(c, x.k)
    ensures var (x', _) := StepReceiver(c, true, x, up);
      WellFormedRank(c, x') && LinkInv(c, r, x', down, nx)
  {
    hide Content;
    hide HoldsExcept;
    if x.k < |c.buckets| {
      assert c.buckets[x.k] in c.buckets;
    }
  }

  lemma DownWaited(c: Config, r: nat, x: Rank, up: seq<Info>, down: seq<Info>, nx: Rank)
    requires ValidConfig(c) && 0 < r < c.n && RankInv(c, r, x) && LinkInv(c, r, x, down, nx)
    requires x.pc.AwaitDown? && Marked(x.bufs[Cur(x)]) && Distinguishable(c.buckets[x.k - 2].data)
    ensures var (x', _) := StepReceiver(c, true, x, up);
      WellFormedRank(c, x') && LinkInv(c, r, x', down, nx)
  {
    hide Content;
    hide HoldsExcept;
    hide Distinguishable;
    if x.k < |c.buckets| {
      assert c.buckets[x.k] in c.buckets;
      MarkedMeansAcked(x.bufs[Cur(x)], c.buckets[x.k - 2].data, x.k - 2 < nx.k);
    }
  }

  lemma DownRead(c: Config, r: nat, x: Rank, up: seq<Info>, down: seq<Info>, nx: Rank)
    requires ValidConfig(c) && 0 < r < c.n && RankInv(c, r, x) && LinkInv(c, r, x, down, nx)
    requires x.pc.Reading? && x.pc.missing == {}
    ensures var (x', _) := StepReceiver(c, true, x, up);
      WellFormedRank(c, x') && LinkInv(c, r, x', down, nx)
  {
    hide HoldsExcept;
    if x.k < |c.buckets| {
      assert c.buckets[x.k] in c.buckets;
      Arrived(x.bufs[Cur(x)], c.buckets[x.k].data);
    }
  }

  lemma ReceiverDown(c: Config, r: nat, x: Rank, up: seq<Info>, down: seq<Info>, nx: Rank)
    requires ValidConfig(c) && 0 < r < c.n && RankInv(c, r, x) && LinkInv(c, r, x, down, nx)
    requires x.pc.Receiving? || x.pc.AwaitDown? || x.pc.Reading?
    requires x.pc.Receiving? ==> up != [] && up[0] == InfoOf(c, x.k)
    requires x.pc.Reading? ==> x.pc.missing == {}
    requires x.pc.AwaitDown? ==> Marked(x.bufs[Cur(x)]) && Distinguishable(c.buckets[x.k - 2].data)
    ensures var (x', _) := StepReceiver(c, true, x, up);
      WellFormedRank(c, x') && LinkInv(c, r, x', down, nx)
  {
    if x.pc.Receiving? {
      DownReceiving(c, r, x, up, down, nx);
    } else if x.pc.AwaitDown? {
      DownWaited(c, r, x, up, down, nx);
    } else {
      DownRead(c, r, x, up, down, nx);
    }
  }

  lemma YieldRank(c: Config, r: nat, x: Rank, up: seq<Info>)
    requires ValidConfig(c) && 0 < r <= c.n && RankInv(c, r, x) && x.pc.Yielding?
    ensures RankInv(c, r, StepReceiver(c, r < c.n, x, up).0)
  {
    hide Content;
    var j, b := x.pc.j, c.buckets[x.k];
    assert b in c.buckets;
    if j < |b.metas| { assert b.metas[j] in b.metas; }
    if r == c.n { LastRankView(c, x); }
  }

  /** A view that the last rank yields is the sender's weight. */
  lemma LastRankView(c: Config, x: Rank)
    requires ValidConfig(c) && RankInv(c, c.n, x) && c.n > 0 && x.pc.Yielding?
    ensures x.k < |c.buckets| && x.info.metas == c.buckets[x.k].metas
    ensures var j, ms := x.pc.j, c.buckets[x.k].metas;
      if j < |ms| then
        && ms[j].offset + ms[j].size <= |x.bufs[Cur(x)]|
        && UnpackedBucket(c.buckets, c.size, x.k)[..j + 1]
           == UnpackedBucket(c.buckets, c.size, x.k)[..j] + [View(ms[j], x.bufs[Cur(x)])]
      else UnpackedBucket(c.buckets, c.size, x.k)[..j] == UnpackedBucket(c.buckets, c.size, x.k)
  {
    hide RankInv;
    LastRankHolds(c, x);
    BucketView(c.buckets, c.size, x.k, x.pc.j, x.bufs[Cur(x)]);
  }

  lemma LastRankHolds(c: Config, x: Rank)
    requires ValidConfig(c) && RankInv(c, c.n, x) && c.n > 0 && x.pc.Yielding?
    ensures WellFormedRank(c, x) && x.k < |c.buckets| && x.info == InfoOf(c, x.k)
    ensures Holds(x.bufs[Cur(x)], c.buckets[x.k].data) && x.pc.j <= |c.buckets[x.k].metas|
  {
    hide Outs;
  }

  lemma YieldLinks(c: Config, r: nat, p: Rank, up: seq<Info>, x: Rank)
    requires ValidConfig(c) && 0 < r <= c.n && RankInv(c, r, x) && x.pc.Yielding?
    requires WellFormedRank(c, p) && LinkInv(c, r - 1, p, up, x)
    ensures LinkInv(c, r - 1, p, up, StepReceiver(c, r < c.n, x, up).0)
    ensures StepReceiver(c, r < c.n, x, up).1 == up
  {
    var b := c.buckets[x.k];
    assert b in c.buckets;
    if x.pc.j < |b.metas| { assert b.metas[x.pc.j] in b.metas; }
  }

  lemma YieldDown(c: Config, r: nat, x: Rank, up: seq<Info>, down: seq<Info>, nx: Rank)
    requires ValidConfig(c) && 0 < r < c.n && RankInv(c, r, x) && x.pc.Yielding? && LinkInv(c, r, x, down, nx)
    ensures var (x', _) := StepReceiver(c, true, x, up);
      WellFormedRank(c, x') && LinkInv(c, r, x', down, nx)
  {
    var b := c.buckets[x.k];
    assert b in c.buckets;
    if x.pc.j < |b.metas| { assert b.metas[x.pc.j] in b.metas; }
  }

  lemma ForwardRank(c: Config, r: nat, p: Rank, up: seq<Info>, x: Rank)
    requires ValidConfig(c) && 0 < r <= c.n && RankInv(c, r, x) && x.pc.Forwarding?
    requires WellFormedRank(c, p) && LinkInv(c, r - 1, p, up, x)
    ensures RankInv(c, r, x.(pc := Yielding(0))) && LinkInv(c, r - 1, p, up, x.(pc := Yielding(0)))
  {
    NothingYielded(c.buckets, c.size, x.k);
  }

  lemma ForwardDown(c: Config, r: nat, x: Rank, down: seq<Info>, nx: Rank)
    requires ValidConfig(c) && 0 < r < c.n && RankInv(c, r, x) && x.pc.Forwarding? && LinkInv(c, r, x, down, nx)
    ensures WellFormedRank(c, x.(pc := Yielding(0)))
    ensures LinkInv(c, r, x.(pc := Yielding(0)), down + [x.info.(ptr := Cur(x))], nx)
  {}

  function MarkedRank(p: Rank, ptr: bit): Rank
    requires |p.bufs| == 2 && |p.bufs[ptr]| >= 4
  {
    p.(bufs := p.bufs[ptr := Mark(p.bufs[ptr])])
  }

  lemma AckRank(c: Config, r: nat, p: Rank, up: seq<Info>, x: Rank)
    requires ValidConfig(c) && 0 < r <= c.n && RankInv(c, r, x) && x.pc.Acking?
    requires RankInv(c, r - 1, p) && LinkInv(c, r - 1, p, up, x)
    ensures RankInv(c, r, AfterAck(c, x))
    ensures LinkInv(c, r - 1, MarkedRank(p, x.info.ptr), up, AfterAck(c, x))
  {
    AckSelf(c, r, x);
    AckContents(c, r - 1, p, up, x);
  }

  lemma AckContents(c: Config, i: nat, p: Rank, up: seq<Info>, x: Rank)
    requires WellFormedRank(c, p) && WellFormedRank(c, x) && x.k < |c.buckets|
    requires LinkInv(c, i, p, up, x) && x.pc.Acking? && x.info == InfoOf(c, x.k)
    ensures LinkInv(c, i, MarkedRank(p, x.info.ptr), up, AfterAck(c, x))
  {
    var m := x.k;
    MarkContent(p.bufs[m % 2], c.buckets[m].data);
    hide Content;
    hide Mark;
    hide InfoOf;
    assert Placed(i, p) == m + 1 || Placed(i, p) == m + 2;
    if Placed(i, p) == m + 1 {
      assert Contents(c, MarkedRank(p, m % 2), m + 1, m + 1);
    } else {
      assert Contents(c, MarkedRank(p, m % 2), m + 2, m + 1);
    }
  }

  lemma AckSelf(c: Config, r: nat, x: Rank)
    requires ValidConfig(c) && 0 < r <= c.n && RankInv(c, r, x) && x.pc.Acking?
    ensures RankInv(c, r, AfterAck(c, x))
  {}

  lemma MarkContent(buf: seq<byte>, data: seq<byte>)
    requires |buf| >= 4 && Holds(buf, data)
    ensures Content(Mark(buf), data, true)
  {}

  lemma AckUpstream(c: Config, r: nat, p: Rank, up: seq<Info>, x: Rank)
    requires ValidConfig(c) && 0 < r <= c.n && RankInv(c, r, x) && x.pc.Acking?
    requires RankInv(c, r - 1, p) && LinkInv(c, r - 1, p, up, x)
    ensures RankInv(c, r - 1, MarkedRank(p, x.info.ptr))
  {
    assert Overwriting(p) ==> x.info.ptr != Cur(p);
  }

  lemma AckDown(c: Config, r: nat, x: Rank, down: seq<Info>, nx: Rank)
    requires ValidConfig(c) && 0 < r < c.n && RankInv(c, r, x) && x.pc.Acking? && LinkInv(c, r, x, down, nx)
    ensures WellFormedRank(c, AfterAck(c, x)) && LinkInv(c, r, AfterAck(c, x), down, nx)
  {}

  /** The link above the marked rank does not mention its buffers. */
  lemma AckTwoUp(c: Config, i: nat, a: Rank, q: seq<Info>, p: Rank, ptr: bit)
    requires WellFormedRank(c, a) && WellFormedRank(c, p) && LinkInv(c, i, a, q, p)
    ensures LinkInv(c, i, a, q, MarkedRank(p, ptr))
  {}

  /** What is being read is intact: only its reader may mark it, and the owner may not overwrite it. */
  lemma SourceHolds(c: Config, r: nat, p: Rank, up: seq<Info>, x: Rank)
    requires ValidConfig(c) && 0 < r <= c.n && RankInv(c, r, x) && WellFormedRank(c, p) && LinkInv(c, r - 1, p, up, x)
    requires x.pc.Reading?
    ensures x.k < |c.buckets| && Holds(p.bufs[x.info.ptr], c.buckets[x.k].data)
  {}

  lemma CopyRank(c: Config, r: nat, p: Rank, x: Rank, i: nat)
    requires ValidConfig(c) && 0 < r <= c.n && RankInv(c, r, x) && WellFormedRank(c, p)
    requires x.pc.Reading? && i in x.pc.missing
    requires x.k < |c.buckets| && Holds(p.bufs[x.info.ptr], c.buckets[x.k].data)
    ensures RankInv(c, r, Copied(c, p, x, i))
  {
    hide HoldsExcept;
    hide Outs;
    ArrivalStep(x.bufs[Cur(x)], c.buckets[x.k].data, x.pc.missing, p.bufs[x.info.ptr], i);
    hide Holds;
  }

  lemma CopyLinks(c: Config, r: nat, p: Rank, up: seq<Info>, x: Rank, i: nat)
    requires 0 < r <= c.n && WellFormedRank(c, x) && WellFormedRank(c, p) && LinkInv(c, r - 1, p, up, x)
    requires x.pc.Reading? && i in x.pc.missing
    ensures LinkInv(c, r - 1, p, up, Copied(c, p, x, i))
  {}

  lemma CopyDown(c: Config, r: nat, p: Rank, x: Rank, i: nat, down: seq<Info>, nx: Rank)
    requires 0 < r < c.n && WellFormedRank(c, x) && WellFormedRank(c, p) && LinkInv(c, r, x, down, nx)
    requires x.pc.Reading? && i in x.pc.missing
    ensures WellFormedRank(c, Copied(c, p, x, i)) && LinkInv(c, r, Copied(c, p, x, i), down, nx)
  {}

  // ---------- Preservation, on states ----------

  /** A wait over bucket k - 2 that this event would end is over a distinguishable bucket. */
  ghost predicate WaitSafe(c: Config, s: State, e: Event)
    requires |s.ranks| == c.n + 1
  {
    e.Local? && e.r <= c.n && (s.ranks[e.r].pc.AwaitAck? || s.ranks[e.r].pc.AwaitDown?) && 2 <= s.ranks[e.r].k < |c.buckets| + 2
    ==> Distinguishable(c.buckets[s.ranks[e.r].k - 2].data)
  }

  /** A step changes rank r and the queues next to it, and perhaps marks rank r - 1. */
  lemma Reassemble(c: Config, s: State, s': State, r: nat)
    requires ValidConfig(c) && Inv(c, s) && r <= c.n
    requires |s'.ranks| == c.n + 1 && |s'.queues| == c.n
    requires forall q :: 0 <= q <= c.n && q != r && q != r - 1 ==> s'.ranks[q] == s.ranks[q]
    requires forall i :: 0 <= i < c.n && i != r && i != r - 1 ==> s'.queues[i] == s.queues[i]
    requires RankInv(c, r, s'.ranks[r])
    requires r > 0 ==> RankInv(c, r - 1, s'.ranks[r - 1]) && LinkInv(c, r - 1, s'.ranks[r - 1], s'.queues[r - 1], s'.ranks[r])
    requires r > 1 ==> LinkInv(c, r - 2, s'.ranks[r - 2], s'.queues[r - 2], s'.ranks[r - 1])
    requires r < c.n ==> LinkInv(c, r, s'.ranks[r], s'.queues[r], s'.ranks[r + 1])
    ensures Inv(c, s')
  {
    hide RankInv;
    hide LinkInv;
  }

  lemma RankInvFacts(c: Config, r: nat, x: Rank)
    requires ValidConfig(c) && RankInv(c, r, x) && r <= c.n
    ensures WellFormedRank(c, x) && x.pc != Failed
    ensures x.pc.AwaitAck? || x.pc.AwaitDown? ==> 2 <= x.k < |c.buckets|
    ensures x.pc.Acking? ==> x.k < |c.buckets| && x.info == InfoOf(c, x.k)
    ensures r == 0 <==> x.pc.Filling? || x.pc.Sending? || x.pc.AwaitAck? || x.pc.AwaitLast? || (x.pc.Done? && x.k < |c.buckets|)
  {}

  lemma InvWellFormed(c: Config, s: State)
    requires ValidConfig(c) && Inv(c, s)
    ensures WellFormed(c, s)
  {
    hide RankInv;
    hide LinkInv;
    forall r | 0 <= r <= c.n ensures WellFormedRank(c, s.ranks[r]) {
      RankInvFacts(c, r, s.ranks[r]);
    }
  }

  lemma SenderKeeps(c: Config, s: State)
    requires ValidConfig(c) && Inv(c, s) && WellFormed(c, s) && Enabled(c, s, Local(0)) && WaitSafe(c, s, Local(0))
    ensures Inv(c, Apply(c, s, Local(0)))
  {
    hide RankInv;
    hide LinkInv;
    var x, b := s.ranks[0], s.ranks[1];
    RankInvFacts(c, 0, x);
    if x.pc.Filling? { SenderPlaces(c, x, s.queues[0], b); }
    else if x.pc.Sending? { SenderSends(c, x, s.queues[0], b); }
    else { SenderAcked(c, x, s.queues[0], b); }
    Reassemble(c, s, Apply(c, s, Local(0)), 0);
  }

  lemma AckKeeps(c: Config, s: State, r: nat)
    requires ValidConfig(c) && Inv(c, s) && WellFormed(c, s) && 0 < r <= c.n && s.ranks[r].pc.Acking?
    ensures Inv(c, Apply(c, s, Local(r)))
  {
    hide RankInv;
    hide LinkInv;
    var s', x, p, up := Apply(c, s, Local(r)), s.ranks[r], s.ranks[r - 1], s.queues[r - 1];
    assert WellFormedRank(c, p);
    AckRank(c, r, p, up, x);
    AckUpstream(c, r, p, up, x);
    if r > 1 { AckTwoUp(c, r - 2, s.ranks[r - 2], s.queues[r - 2], p, x.info.ptr); }
    if r < c.n { AckDown(c, r, x, s.queues[r], s.ranks[r + 1]); }
    Reassemble(c, s, s', r);
  }

  lemma ReceiverKeeps(c: Config, s: State, r: nat)
    requires ValidConfig(c) && Inv(c, s) && WellFormed(c, s) && 0 < r <= c.n
    requires Enabled(c, s, Local(r)) && WaitSafe(c, s, Local(r)) && !s.ranks[r].pc.Acking?
    ensures Inv(c, Apply(c, s, Local(r)))
  {
    hide RankInv;
    hide LinkInv;
    var s', x, p, up := Apply(c, s, Local(r)), s.ranks[r], s.ranks[r - 1], s.queues[r - 1];
    assert WellFormedRank(c, p);
    RankInvFacts(c, r, x);
    if x.pc.Forwarding? {
      ForwardRank(c, r, p, up, x);
      if r < c.n { ForwardDown(c, r, x, s.queues[r], s.ranks[r + 1]); }
    } else if x.pc.Yielding? {
      YieldRank(c, r, x, up);
      YieldLinks(c, r, p, up, x);
      if r < c.n { YieldDown(c, r, x, up, s.queues[r], s.ranks[r + 1]); }
    } else {
      if x.pc.Reading? {
        ReceiverReads(c, r, p, up, x);
      } else {
        BeginLinks(c, r, p, up, x);
        ReceiverBegins(c, r, x, up);
      }
      if r < c.n { ReceiverDown(c, r, x, up, s.queues[r], s.ranks[r + 1]); }
    }
    Reassemble(c, s, s', r);
  }

  lemma CopyKeeps(c: Config, s: State, r: nat, i: nat)
    requires ValidConfig(c) && Inv(c, s) && WellFormed(c, s) && Enabled(c, s, Copy(r, i))
    ensures Inv(c, Apply(c, s, Copy(r, i)))
  {
    hide RankInv;
    hide LinkInv;
    var x, p, up := s.ranks[r], s.ranks[r - 1], s.queues[r - 1];
    SourceHolds(c, r, p, up, x);
    CopyRank(c, r, p, x, i);
    CopyLinks(c, r, p, up, x, i);
    if r < c.n { CopyDown(c, r, p, x, i, s.queues[r], s.ranks[r + 1]); }
    Reassemble(c, s, Apply(c, s, Copy(r, i)), r);
  }

  lemma StepKeeps(c: Config, s: State, e: Event)
    requires ValidConfig(c) && Inv(c, s) && WellFormed(c, s) && Enabled(c, s, e) && WaitSafe(c, s, e)
    ensures Inv(c, Apply(c, s, e))
  {
    hide RankInv;
    hide LinkInv;
    match e
    case FillTo(g) =>
      FillRank(c, s.ranks[0], s.queues[0], s.ranks[1], g);
      Reassemble(c, s, Apply(c, s, e), 0);
    case Copy(r, i) => CopyKeeps(c, s, r, i);
    case Local(r) =>
      if r == 0 { SenderKeeps(c, s); }
      else if s.ranks[r].pc.Acking? { AckKeeps(c, s, r); }
      else { ReceiverKeeps(c, s, r); }
  }

  /** Every bucket whose buffer is used again can be told from the magic. */
  ghost predicate SafeStream(c: Config) {
    forall m :: 0 <= m < |c.buckets| - 2 ==> Distinguishable(c.buckets[m].data)
  }

  lemma AlwaysSafe(c: Config, s: State, e: Event)
    requires ValidConfig(c) && SafeStream(c) && Inv(c, s) && Enabled(c, s, e) && WellFormed(c, s)
    ensures WaitSafe(c, s, e)
  {
    if e.Local? && e.r <= c.n { RankInvFacts(c, e.r, s.ranks[e.r]); }
  }

  lemma {:induction false} RunInv(c: Config, states: seq<State>, events: seq<Event>, i: nat)
    requires ValidConfig(c) && SafeStream(c) && IsRun(c, states, events) && i <= |events|
    ensures Inv(c, states[i]) && WellFormed(c, states[i])
  {
    if i == 0 {
      InitInv(c, states[0]);
    } else {
      RunInv(c, states, events, i - 1);
      var s, e := states[i - 1], events[i - 1];
      assert IsStep(c, s, e, states[i]);
      AlwaysSafe(c, s, e);
      StepKeeps(c, s, e);
    }
    InvWellFormed(c, states[i]);
  }
}
