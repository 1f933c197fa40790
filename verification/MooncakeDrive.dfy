/** Driving the Mooncake relay: runs in which one rank works alone, and how they compose. */
module MooncakeDrive {
  import opened Buckets
  import opened Streams
  import opened MooncakeChain
  import opened MooncakeSafety
  import opened MooncakeProgress

  // ---------- Runs that end in a given state ----------

  ghost predicate EndsIn(c: Config, states: seq<State>, events: seq<Event>, s: State) {
    IsRun(c, states, events) && states[|events|] == s && WellFormed(c, s)
  }

  /** One more event. */
  lemma Then(c: Config, states: seq<State>, events: seq<Event>, s: State, e: Event)
      returns (states': seq<State>, events': seq<Event>)
    requires EndsIn(c, states, events, s) && Enabled(c, s, e) && WellFormed(c, Apply(c, s, e))
    ensures EndsIn(c, states', events', Apply(c, s, e))
  {
    ExtendRun(c, states, events, e);
    states', events' := states + [Apply(c, s, e)], events + [e];
  }

  // ---------- One receiver at work on one bucket ----------

  lemma ConfigBucket(c: Config, j: nat)
    requires ValidConfig(c) && j < |c.buckets|
    ensures |c.buckets[j].data| <= c.size && forall m <- c.buckets[j].metas :: m.offset + m.size <= c.size
  {
    assert c.buckets[j] in c.buckets;
  }

  /** What rank r has in its buffer after reading bucket j from `src`. */
  function ReadBuf(c: Config, j: nat, src: seq<byte>, dst: seq<byte>): seq<byte>
    requires j < |c.buckets| && |c.buckets[j].data| <= |src| && |c.buckets[j].data| <= |dst|
  {
    src[..|c.buckets[j].data|] + dst[|c.buckets[j].data|..]
  }

  /** Receiver x after bucket j: it has yielded the views of what it read. */
  ghost predicate Worked(c: Config, j: nat, src: seq<byte>, x: Rank, x': Rank)
    requires ValidConfig(c) && j < |c.buckets| && WellFormedRank(c, x) && |src| == c.size
  {
    ConfigBucket(c, j);
    && WellFormedRank(c, x')
    && x'.k == j + 1 && x'.pc == (if LastBucket(c, j) then Done else Receiving)
    && x'.bufs[(j + 1) % 2] == x.bufs[(j + 1) % 2]
    && x'.out == x.out + Views(c.buckets[j].metas, ReadBuf(c, j, src, x.bufs[j % 2]))
  }

  /** Receiver r at bucket j, with nothing but its own work in between: how far it is. */
  ghost predicate Midway(c: Config, s0: State, s: State, r: nat, j: nat)
    requires ValidConfig(c) && j < |c.buckets| && 0 < r <= c.n && WellFormed(c, s0) && s0.queues[r - 1] != []
  {
    && WellFormed(c, s)
    && (forall q :: 0 <= q <= c.n && q != r ==> s.ranks[q] == s0.ranks[q])
    && (forall i :: 0 <= i < c.n && i != r - 1 && i != r ==> s.queues[i] == s0.queues[i])
    && s.queues[r - 1] == (if s.ranks[r].pc.Receiving? then s0.queues[r - 1] else s0.queues[r - 1][1..])
    && (r < c.n ==>
          s.queues[r] == s0.queues[r] + if s.ranks[r].pc.Yielding? || s.ranks[r].pc.Acking? then [InfoOf(c, j)] else [])
    && HalfDone(c, j, s0.ranks[r - 1].bufs[j % 2], s0.ranks[r], s.ranks[r])
  }

  /** The receiver itself. */
  ghost predicate HalfDone(c: Config, j: nat, src: seq<byte>, x: Rank, y: Rank)
    requires ValidConfig(c) && j < |c.buckets| && WellFormedRank(c, x) && |src| == c.size
  {
    ConfigBucket(c, j);
    var len, buf := |c.buckets[j].data|, ReadBuf(c, j, src, x.bufs[j % 2]);
    && WellFormedRank(c, y) && y.k == j && y.bufs[(j + 1) % 2] == x.bufs[(j + 1) % 2]
    && (!y.pc.Receiving? ==> y.info == InfoOf(c, j))
    && match y.pc
       case Receiving => y.bufs == x.bufs && y.out == x.out
       case AwaitDown => y.bufs == x.bufs && y.out == x.out && Marked(y.bufs[j % 2])
       case Reading(missing) =>
         && y.out == x.out
         && (forall i <- missing :: i < len)
         && forall i: nat :: i < c.size && i !in missing ==> y.bufs[j % 2][i] == buf[i]
       case Forwarding => y.bufs[j % 2] == buf && y.out == x.out
       case Yielding(v) =>
         && y.bufs[j % 2] == buf && v <= |c.buckets[j].metas|
         && y.out == x.out + Views(c.buckets[j].metas, buf)[..v]
       case Acking => y.bufs[j % 2] == buf && y.out == x.out + Views(c.buckets[j].metas, buf)
       case _ => false
  }

  /** The phases still ahead, and the work in the present one. */
  function Phase(x: Rank): nat {
    match x.pc
    case Receiving => 6
    case AwaitDown => 5
    case Reading(_) => 4
    case Forwarding => 3
    case Yielding(_) => 2
    case _ => 1
  }

  function Left(c: Config, x: Rank): nat {
    match x.pc
    case Reading(missing) => |missing|
    case Yielding(v) => Minus(|x.info.metas|, v)
    case _ => 0
  }

  // ---------- Its steps ----------

  lemma TakeStep(c: Config, j: nat, src: seq<byte>, x: Rank, y: Rank, hasNext: bool, up: seq<Info>)
    requires ValidConfig(c) && j < |c.buckets| && WellFormedRank(c, x) && |src| == c.size && HalfDone(c, j, src, x, y)
    requires y.pc.Receiving? && up != [] && up[0] == InfoOf(c, j)
    requires j >= 2 && hasNext ==> Marked(x.bufs[j % 2])
    ensures var (y', up') := StepReceiver(c, hasNext, y, up);
      HalfDone(c, j, src, x, y') && up' == up[1..] && (y'.pc.AwaitDown? || y'.pc.Reading?)
  {
    ConfigBucket(c, j);
  }

  lemma StartStep(c: Config, j: nat, src: seq<byte>, x: Rank, y: Rank, hasNext: bool, up: seq<Info>)
    requires ValidConfig(c) && j < |c.buckets| && WellFormedRank(c, x) && |src| == c.size && HalfDone(c, j, src, x, y)
    requires y.pc.AwaitDown?
    ensures var (y', up') := StepReceiver(c, hasNext, y, up); HalfDone(c, j, src, x, y') && up' == up && y'.pc.Reading?
  {
    ConfigBucket(c, j);
  }

  lemma CopyStep(c: Config, j: nat, p: Rank, x: Rank, y: Rank, i: nat)
    requires ValidConfig(c) && j < |c.buckets| && WellFormedRank(c, x) && WellFormedRank(c, p)
    requires HalfDone(c, j, p.bufs[j % 2], x, y) && y.pc.Reading? && i in y.pc.missing
    ensures var y' := Copied(c, p, y, i);
      HalfDone(c, j, p.bufs[j % 2], x, y') && y'.pc.Reading? && |y'.pc.missing| < |y.pc.missing|
  {
    ConfigBucket(c, j);
    assert y.pc.missing == (y.pc.missing - {i}) + {i};
  }

  lemma ReadStep(c: Config, j: nat, src: seq<byte>, x: Rank, y: Rank, hasNext: bool, up: seq<Info>)
    requires ValidConfig(c) && j < |c.buckets| && WellFormedRank(c, x) && |src| == c.size && HalfDone(c, j, src, x, y)
    requires y.pc == Reading({})
    ensures var (y', up') := StepReceiver(c, hasNext, y, up); HalfDone(c, j, src, x, y') && up' == up && y'.pc.Forwarding?
  {
    ConfigBucket(c, j);
    assert y.bufs[j % 2] == ReadBuf(c, j, src, x.bufs[j % 2]);
  }

  lemma ForwardStep(c: Config, j: nat, src: seq<byte>, x: Rank, y: Rank)
    requires ValidConfig(c) && j < |c.buckets| && WellFormedRank(c, x) && |src| == c.size && HalfDone(c, j, src, x, y)
    requires y.pc.Forwarding?
    ensures HalfDone(c, j, src, x, y.(pc := Yielding(0))) && y.info.(ptr := Cur(y)) == InfoOf(c, j)
  {
    ConfigBucket(c, j);
  }

  lemma YieldStep(c: Config, j: nat, src: seq<byte>, x: Rank, y: Rank, hasNext: bool, up: seq<Info>)
    requires ValidConfig(c) && j < |c.buckets| && WellFormedRank(c, x) && |src| == c.size && HalfDone(c, j, src, x, y)
    requires y.pc.Yielding?
    ensures var (y', up') := StepReceiver(c, hasNext, y, up);
      && HalfDone(c, j, src, x, y') && up' == up
      && (y'.pc.Acking? || (y'.pc.Yielding? && Left(c, y') < Left(c, y)))
  {
    ConfigBucket(c, j);
    var ms, v := c.buckets[j].metas, y.pc.j;
    var all := Views(ms, ReadBuf(c, j, src, x.bufs[j % 2]));
    if v < |ms| {
      assert ms[v] in ms;
      assert all[..v + 1] == all[..v] + [all[v]];
    } else {
      assert all[..v] == all;
    }
  }

  /** The receiver works until it is about to acknowledge. */
  lemma {:induction false} WorkOn(c: Config, s0: State, s: State, r: nat, j: nat, states: seq<State>, events: seq<Event>)
      returns (states': seq<State>, events': seq<Event>, s': State)
    requires ValidConfig(c) && j < |c.buckets| && 0 < r <= c.n && WellFormed(c, s0) && s0.queues[r - 1] != []
    requires s0.queues[r - 1][0] == InfoOf(c, j) && (j >= 2 && r < c.n ==> Marked(s0.ranks[r].bufs[j % 2]))
    requires EndsIn(c, states, events, s) && Midway(c, s0, s, r, j)
    ensures EndsIn(c, states', events', s') && Midway(c, s0, s', r, j) && s'.ranks[r].pc.Acking?
    decreases Phase(s.ranks[r]), Left(c, s.ranks[r])
  {
    if s.ranks[r].pc.Acking? {
      return states, events, s;
    }
    var e := WorkStep(c, s0, s, r, j);
    assert BringsOn(c, s0, s, r, j, e);
    hide *;
    states', events' := Then(c, states, events, s, e);
    states', events', s' := WorkOn(c, s0, Apply(c, s, e), r, j, states', events');
  }

  /** The event brings the receiver on. */
  ghost predicate BringsOn(c: Config, s0: State, s: State, r: nat, j: nat, e: Event)
    requires ValidConfig(c) && j < |c.buckets| && 0 < r <= c.n && WellFormed(c, s0) && s0.queues[r - 1] != []
    requires WellFormed(c, s)
  {
    && Enabled(c, s, e) && WellFormed(c, Apply(c, s, e)) && Midway(c, s0, Apply(c, s, e), r, j)
    && var y, y' := s.ranks[r], Apply(c, s, e).ranks[r];
    Phase(y') < Phase(y) || (Phase(y') == Phase(y) && Left(c, y') < Left(c, y))
  }

  lemma WorkStep(c: Config, s0: State, s: State, r: nat, j: nat) returns (e: Event)
    requires ValidConfig(c) && j < |c.buckets| && 0 < r <= c.n && WellFormed(c, s0) && s0.queues[r - 1] != []
    requires s0.queues[r - 1][0] == InfoOf(c, j) && (j >= 2 && r < c.n ==> Marked(s0.ranks[r].bufs[j % 2]))
    requires WellFormed(c, s) && Midway(c, s0, s, r, j) && !s.ranks[r].pc.Acking?
    ensures BringsOn(c, s0, s, r, j, e)
  {
    hide *;
    WellFormedFacts(c, s);
    if i: nat :| s.ranks[r].pc.Reading? && i in s.ranks[r].pc.missing {
      e := Copy(r, i);
      WorkCopy(c, s0, s, r, j, i);
    } else {
      e := Local(r);
      if s.ranks[r].pc.Forwarding? { WorkForward(c, s0, s, r, j); } else { WorkLocal(c, s0, s, r, j); }
    }
  }

  lemma WorkCopy(c: Config, s0: State, s: State, r: nat, j: nat, i: nat)
    requires ValidConfig(c) && j < |c.buckets| && 0 < r <= c.n && WellFormed(c, s0) && s0.queues[r - 1] != []
    requires s0.queues[r - 1][0] == InfoOf(c, j) && (j >= 2 && r < c.n ==> Marked(s0.ranks[r].bufs[j % 2]))
    requires WellFormed(c, s) && Midway(c, s0, s, r, j) && !s.ranks[r].pc.Acking?
    requires s.ranks[r].pc.Reading? && i in s.ranks[r].pc.missing
    ensures BringsOn(c, s0, s, r, j, Copy(r, i))
  {
    hide HalfDone;
    hide InfoOf;
    hide Copied;
    hide Left;
    var src, x, y := s0.ranks[r - 1].bufs[j % 2], s0.ranks[r], s.ranks[r];
    HalfFacts(c, j, src, x, y);
    CopyStep(c, j, s.ranks[r - 1], x, y, i);
    HalfFacts(c, j, src, x, Copied(c, s.ranks[r - 1], y, i));
    LeftReading(c, y, Copied(c, s.ranks[r - 1], y, i));
  }

  lemma WorkForward(c: Config, s0: State, s: State, r: nat, j: nat)
    requires ValidConfig(c) && j < |c.buckets| && 0 < r <= c.n && WellFormed(c, s0) && s0.queues[r - 1] != []
    requires s0.queues[r - 1][0] == InfoOf(c, j) && (j >= 2 && r < c.n ==> Marked(s0.ranks[r].bufs[j % 2]))
    requires WellFormed(c, s) && Midway(c, s0, s, r, j) && !s.ranks[r].pc.Acking?
    requires s.ranks[r].pc.Forwarding?
    ensures BringsOn(c, s0, s, r, j, Local(r))
  {
    hide HalfDone;
    hide InfoOf;
    hide Left;
    var src, x, y := s0.ranks[r - 1].bufs[j % 2], s0.ranks[r], s.ranks[r];
    HalfFacts(c, j, src, x, y);
    ForwardStep(c, j, src, x, y);
  }

  lemma WorkLocal(c: Config, s0: State, s: State, r: nat, j: nat)
    requires ValidConfig(c) && j < |c.buckets| && 0 < r <= c.n && WellFormed(c, s0) && s0.queues[r - 1] != []
    requires s0.queues[r - 1][0] == InfoOf(c, j) && (j >= 2 && r < c.n ==> Marked(s0.ranks[r].bufs[j % 2]))
    requires WellFormed(c, s) && Midway(c, s0, s, r, j) && !s.ranks[r].pc.Acking?
    requires !s.ranks[r].pc.Forwarding? && (s.ranks[r].pc.Reading? ==> s.ranks[r].pc.missing == {})
    ensures BringsOn(c, s0, s, r, j, Local(r))
  {
    hide HalfDone;
    hide InfoOf;
    hide StepReceiver;
    hide Left;
    var src, x, y := s0.ranks[r - 1].bufs[j % 2], s0.ranks[r], s.ranks[r];
    HalfFacts(c, j, src, x, y);
    OwnStep(c, j, src, x, y, r < c.n, s.queues[r - 1]);
  }

  /** The steps inside the receiver. */
  lemma OwnStep(c: Config, j: nat, src: seq<byte>, x: Rank, y: Rank, hasNext: bool, up: seq<Info>)
    requires ValidConfig(c) && j < |c.buckets| && WellFormedRank(c, x) && |src| == c.size && HalfDone(c, j, src, x, y)
    requires y.pc.Receiving? ==> up != [] && up[0] == InfoOf(c, j)
    requires j >= 2 && hasNext ==> Marked(x.bufs[j % 2])
    requires !y.pc.Forwarding? && !y.pc.Acking? && (y.pc.Reading? ==> y.pc.missing == {})
    ensures WellFormedRank(c, y)
    ensures var (y', up') := StepReceiver(c, hasNext, y, up);
      && WellFormedRank(c, y') && HalfDone(c, j, src, x, y')
      && up' == (if y.pc.Receiving? then up[1..] else up)
      && !y'.pc.Receiving? && (y'.pc.Yielding? || y'.pc.Acking? <==> y.pc.Yielding?)
      && (Phase(y') < Phase(y) || (Phase(y') == Phase(y) && Left(c, y') < Left(c, y)))
  {
    HalfFacts(c, j, src, x, y);
    hide HalfDone;
    hide InfoOf;
    hide StepReceiver;
    hide Left;
    hide Marked;
    if y.pc.Receiving? {
      TakeStep(c, j, src, x, y, hasNext, up);
    } else if y.pc.AwaitDown? {
      StartStep(c, j, src, x, y, hasNext, up);
    } else if y.pc.Reading? {
      ReadStep(c, j, src, x, y, hasNext, up);
    } else {
      YieldStep(c, j, src, x, y, hasNext, up);
    }
    HalfFacts(c, j, src, x, StepReceiver(c, hasNext, y, up).0);
  }

  lemma LeftReading(c: Config, y: Rank, y': Rank)
    requires y.pc.Reading? && y'.pc.Reading? && |y'.pc.missing| < |y.pc.missing|
    ensures Left(c, y') < Left(c, y)
  {}

  lemma HalfFacts(c: Config, j: nat, src: seq<byte>, x: Rank, y: Rank)
    requires ValidConfig(c) && j < |c.buckets| && WellFormedRank(c, x) && |src| == c.size && HalfDone(c, j, src, x, y)
    ensures WellFormedRank(c, y) && y.k == j
    ensures y.pc.AwaitDown? ==> Marked(y.bufs[j % 2])
    ensures y.pc.Receiving? || y.pc.AwaitDown? || y.pc.Reading? || y.pc.Forwarding? || y.pc.Yielding? || y.pc.Acking?
    ensures !y.pc.Receiving? ==> y.info == InfoOf(c, j)
  {}

  /** Rank r has handled bucket j: it has worked, its info has gone on, and it has marked the rank before. */
  ghost predicate Handled(c: Config, s0: State, s: State, r: nat, j: nat)
    requires ValidConfig(c) && j < |c.buckets| && 0 < r <= c.n && WellFormed(c, s0) && s0.queues[r - 1] != []
  {
    && WellFormed(c, s)
    && (forall q :: 0 <= q <= c.n && q != r && q != r - 1 ==> s.ranks[q] == s0.ranks[q])
    && (forall i :: 0 <= i < c.n && i != r - 1 && i != r ==> s.queues[i] == s0.queues[i])
    && s.queues[r - 1] == s0.queues[r - 1][1..]
    && (r < c.n ==> s.queues[r] == s0.queues[r] + [InfoOf(c, j)])
    && s.ranks[r - 1] == MarkedRank(s0.ranks[r - 1], j % 2)
    && Worked(c, j, s0.ranks[r - 1].bufs[j % 2], s0.ranks[r], s.ranks[r])
  }

  lemma AckStep(c: Config, s0: State, s: State, r: nat, j: nat)
    requires ValidConfig(c) && j < |c.buckets| && 0 < r <= c.n && WellFormed(c, s0) && s0.queues[r - 1] != []
    requires Midway(c, s0, s, r, j) && s.ranks[r].pc.Acking?
    ensures WellFormed(c, s) && Enabled(c, s, Local(r)) && Handled(c, s0, Apply(c, s, Local(r)), r, j)
  {
    hide Views;
    var p := s.ranks[r - 1];
    assert WellFormedRank(c, p) && WellFormedRank(c, MarkedRank(p, j % 2));
  }

  lemma StartMidway(c: Config, s: State, r: nat, j: nat)
    requires ValidConfig(c) && j < |c.buckets| && 0 < r <= c.n && WellFormed(c, s) && s.queues[r - 1] != []
    requires Idle(s.ranks[r], j)
    ensures Midway(c, s, s, r, j)
  {}

  ghost predicate Idle(x: Rank, j: nat) {
    x.pc == Receiving && x.k == j
  }

  /** Rank r handles bucket j. */
  lemma Solo(c: Config, s: State, r: nat, j: nat, states: seq<State>, events: seq<Event>)
      returns (states': seq<State>, events': seq<Event>, s': State)
    requires ValidConfig(c) && j < |c.buckets| && 0 < r <= c.n && EndsIn(c, states, events, s) && WellFormed(c, s)
    requires Idle(s.ranks[r], j) && s.queues[r - 1] != [] && s.queues[r - 1][0] == InfoOf(c, j)
    requires j >= 2 && r < c.n ==> Marked(s.ranks[r].bufs[j % 2])
    ensures EndsIn(c, states', events', s') && Handled(c, s, s', r, j)
  {
    StartMidway(c, s, r, j);
    states', events', s' := WorkOn(c, s, s, r, j, states, events);
    AckStep(c, s, s', r, j);
    hide *;
    HandledFacts(c, s, Apply(c, s', Local(r)), r, j);
    states', events' := Then(c, states', events', s', Local(r));
    s' := Apply(c, s', Local(r));
  }

  lemma HandledFacts(c: Config, s0: State, s: State, r: nat, j: nat)
    requires ValidConfig(c) && j < |c.buckets| && 0 < r <= c.n && WellFormed(c, s0) && s0.queues[r - 1] != []
    requires Handled(c, s0, s, r, j)
    ensures WellFormed(c, s)
  {}

  // ---------- All receivers ----------

  ghost predicate BothMarked(x: Rank) {
    |x.bufs| == 2 && Marked(x.bufs[0]) && Marked(x.bufs[1])
  }

  /** All receivers are in front of bucket j, with nothing between them, and the buffers of all but the last
      are marked. */
  ghost predicate AllIdle(c: Config, s: State, j: nat) {
    && WellFormed(c, s)
    && (forall r :: 1 <= r <= c.n ==> Idle(s.ranks[r], j))
    && (forall r :: 1 <= r < c.n ==> s.queues[r] == [] && BothMarked(s.ranks[r]))
  }

  /** Ranks 1 to r have handled bucket j, the others have not begun. */
  ghost predicate SweptTo(c: Config, s0: State, s: State, j: nat, r: nat)
    requires WellFormed(c, s0) && r <= c.n
  {
    && WellFormed(c, s)
    && (forall q :: 1 <= q <= r ==> Idle(s.ranks[q], j + 1))
    && (forall q :: r < q <= c.n ==> s.ranks[q] == s0.ranks[q])
    && (forall q :: 1 <= q < r ==> s.queues[q] == [] && BothMarked(s.ranks[q]))
    && (r > 0 && r < c.n ==>
          s.queues[r] == [InfoOf0(c, j)] && Marked(s.ranks[r].bufs[(j + 1) % 2]))
    && (forall q :: r < q < c.n ==> s.queues[q] == [])
  }

  function InfoOf0(c: Config, j: nat): Info {
    if j < |c.buckets| then InfoOf(c, j) else NO_INFO
  }

  /** What handling bucket j by all receivers does to the sender and to rank 1. */
  ghost predicate Swept(c: Config, s0: State, s: State, j: nat)
    requires ValidConfig(c) && j < |c.buckets| && WellFormed(c, s0) && s0.queues[0] != []
  {
    && WellFormed(c, s)
    && s.ranks[0] == MarkedRank(s0.ranks[0], j % 2) && s.queues[0] == s0.queues[0][1..]
    && s.ranks[1].out == s0.ranks[1].out + Views(c.buckets[j].metas, ReadFrom(c, j, s0))
  }

  /** What rank 1 reads as bucket j. */
  function ReadFrom(c: Config, j: nat, s: State): (buf: seq<byte>)
    requires ValidConfig(c) && j < |c.buckets| && WellFormed(c, s)
    ensures |buf| == c.size && forall m <- c.buckets[j].metas :: m.offset + m.size <= |buf|
  {
    ConfigBucket(c, j);
    ReadBuf(c, j, s.ranks[0].bufs[j % 2], s.ranks[1].bufs[j % 2])
  }

  lemma {:induction false} SweepOn(c: Config, s0: State, s: State, j: nat, r: nat, states: seq<State>, events: seq<Event>)
      returns (states': seq<State>, events': seq<Event>, s': State)
    requires ValidConfig(c) && j + 1 < |c.buckets| && AllIdle(c, s0, j) && s0.queues[0] != [] && s0.queues[0][0] == InfoOf(c, j)
    requires 1 <= r <= c.n && EndsIn(c, states, events, s) && SweptTo(c, s0, s, j, r) && Swept(c, s0, s, j)
    ensures EndsIn(c, states', events', s') && SweptTo(c, s0, s', j, c.n) && Swept(c, s0, s', j)
    decreases c.n - r
  {
    hide *;
    if r == c.n {
      return states, events, s;
    }
    NextSwept(c, s0, s, j, r);
    states', events', s' := Solo(c, s, r + 1, j, states, events);
    NextSweep(c, s0, s, s', j, r);
    states', events', s' := SweepOn(c, s0, s', j, r + 1, states', events');
  }

  /** The next receiver can begin. */
  lemma NextSwept(c: Config, s0: State, s: State, j: nat, r: nat)
    requires ValidConfig(c) && j + 1 < |c.buckets| && AllIdle(c, s0, j) && 1 <= r < c.n && SweptTo(c, s0, s, j, r)
    ensures WellFormed(c, s) && Idle(s.ranks[r + 1], j) && s.queues[r] != [] && s.queues[r][0] == InfoOf(c, j)
    ensures j >= 2 && r + 1 < c.n ==> Marked(s.ranks[r + 1].bufs[j % 2])
  {
    hide InfoOf;
    hide Marked;
  }

  lemma MarkIsMarked(buf: seq<byte>)
    requires |buf| >= 4
    ensures Marked(Mark(buf))
  {}

  lemma NextSweep(c: Config, s0: State, s: State, s': State, j: nat, r: nat)
    requires ValidConfig(c) && j + 1 < |c.buckets| && AllIdle(c, s0, j) && s0.queues[0] != [] && 1 <= r < c.n
    requires SweptTo(c, s0, s, j, r) && Swept(c, s0, s, j)
    requires s.queues[r] != [] && Handled(c, s, s', r + 1, j)
    ensures SweptTo(c, s0, s', j, r + 1) && Swept(c, s0, s', j)
  {
    hide InfoOf;
    hide Marked;
    hide Mark;
    hide ReadFrom;
    hide ReadBuf;
    hide Views;
    MarkIsMarked(s.ranks[r].bufs[j % 2]);
  }

  lemma FirstSweep(c: Config, s0: State, s: State, j: nat)
    requires ValidConfig(c) && j + 1 < |c.buckets| && AllIdle(c, s0, j) && s0.queues[0] != []
    requires Handled(c, s0, s, 1, j)
    ensures SweptTo(c, s0, s, j, 1) && Swept(c, s0, s, j)
  {
    hide InfoOf;
    hide Marked;
    hide Mark;
    hide Views;
  }

  /** All receivers handle bucket j. */
  lemma Sweep(c: Config, s: State, j: nat, states: seq<State>, events: seq<Event>)
      returns (states': seq<State>, events': seq<Event>, s': State)
    requires ValidConfig(c) && j + 1 < |c.buckets| && EndsIn(c, states, events, s) && AllIdle(c, s, j)
    requires s.queues[0] != [] && s.queues[0][0] == InfoOf(c, j)
    ensures EndsIn(c, states', events', s') && AllIdle(c, s', j + 1) && Swept(c, s, s', j)
  {
    assert Idle(s.ranks[1], j) && (j >= 2 && 1 < c.n ==> Marked(s.ranks[1].bufs[j % 2]));
    hide *;
    states', events', s' := Solo(c, s, 1, j, states, events);
    FirstSweep(c, s, s', j);
    states', events', s' := SweepOn(c, s, s', j, 1, states', events');
    SweptIsIdle(c, s, s', j);
  }

  lemma SweptIsIdle(c: Config, s0: State, s: State, j: nat)
    requires WellFormed(c, s0) && SweptTo(c, s0, s, j, c.n)
    ensures AllIdle(c, s, j + 1)
  {}

  // ---------- The sender ----------

  /** A bucket written over the start of a buffer. */
  function Over(buf: seq<byte>, data: seq<byte>): (r: seq<byte>)
    ensures |r| == |buf|
  {
    if |data| <= |buf| then data + buf[|data|..] else buf
  }

  /** The sender with bucket k in its buffer. */
  function Full(c: Config, x: Rank): Rank
    requires WellFormedRank(c, x) && x.k < |c.buckets|
  {
    x.(bufs := x.bufs[Cur(x) := Over(x.bufs[Cur(x)], c.buckets[x.k].data)], pc := Sending)
  }

  function WithSender(s: State, x: Rank, q: seq<Info>): State
    requires s.ranks != [] && s.queues != []
  {
    State(s.ranks[0 := x], s.queues[0 := q])
  }

  lemma WithSenderFacts(c: Config, s: State, x: Rank, q: seq<Info>)
    requires WellFormed(c, s) && WellFormedRank(c, x)
    ensures WellFormed(c, WithSender(s, x, q)) && WithSender(s, s.ranks[0], s.queues[0]) == s
  {
    assert s.ranks[0 := s.ranks[0]] == s.ranks && s.queues[0 := s.queues[0]] == s.queues;
  }

  /** One step inside the sender. */
  lemma SenderStep(c: Config, s: State, x: Rank, q: seq<Info>, states: seq<State>, events: seq<Event>)
      returns (states': seq<State>, events': seq<Event>)
    requires WellFormed(c, s) && WellFormedRank(c, x) && EndsIn(c, states, events, WithSender(s, x, q))
    requires x.pc.Sending? || ((x.pc.AwaitAck? || x.pc.AwaitLast?) && Marked(x.bufs[Cur(x)]))
      || (x.pc.Filling? && x.pc.pos == |c.buckets[x.k].data|)
    requires WellFormedRank(c, StepSender(c, x, q).0)
    ensures var y := StepSender(c, x, q); EndsIn(c, states', events', WithSender(s, y.0, y.1))
  {
    hide EndsIn;
    hide StepSender;
    var t, y := WithSender(s, x, q), StepSender(c, x, q);
    WithSenderFacts(c, s, x, q);
    WithSenderFacts(c, s, y.0, y.1);
    assert Apply(c, t, Local(0)) == WithSender(s, y.0, y.1);
    states', events' := Then(c, states, events, t, Local(0));
  }

  lemma FillOnce(c: Config, s: State)
    requires ValidConfig(c) && WellFormed(c, s) && s.ranks[0].pc == Filling(0)
    ensures var x, d := s.ranks[0], c.buckets[s.ranks[0].k].data;
      var t := WithSender(s, Full(c, x).(pc := Filling(|d|)), s.queues[0]);
      && WellFormed(c, t)
      && if d == [] then t == s else Enabled(c, s, FillTo(|d|)) && Apply(c, s, FillTo(|d|)) == t
  {
    var x := s.ranks[0];
    ConfigBucket(c, x.k);
    var d, b := c.buckets[x.k].data, x.bufs[Cur(x)];
    WithSenderFacts(c, s, Full(c, x).(pc := Filling(|d|)), s.queues[0]);
    if d == [] {
      assert Over(b, d) == b;
      assert Full(c, x).bufs == x.bufs;
    } else {
      assert b[..0] + d[0..|d|] + b[|d|..] == Over(b, d);
    }
  }

  lemma FullFacts(c: Config, x: Rank, q: seq<Info>)
    requires ValidConfig(c) && WellFormedRank(c, x) && x.k < |c.buckets|
    ensures var y := Full(c, x); y.pc == Sending && y.k == x.k && WellFormedRank(c, y)
    ensures var n := |c.buckets[x.k].data|;
      var y := Full(c, x).(pc := Filling(n)); WellFormedRank(c, y) && StepSender(c, y, q) == (Full(c, x), q)
    ensures WellFormedRank(c, StepSender(c, Full(c, x), q).0)
  {}

  /** The sender fills its buffer with bucket k and sends the info. */
  lemma FillSend(c: Config, s: State, states: seq<State>, events: seq<Event>)
      returns (states': seq<State>, events': seq<Event>, s': State)
    requires ValidConfig(c) && EndsIn(c, states, events, s) && WellFormed(c, s) && s.ranks[0].pc == Filling(0)
    ensures var y := StepSender(c, Full(c, s.ranks[0]), s.queues[0]);
      EndsIn(c, states', events', s') && s' == WithSender(s, y.0, y.1) && WellFormed(c, s')
  {
    hide *;
    WellFormedFacts(c, s);
    var x, q := s.ranks[0], s.queues[0];
    var n := |c.buckets[x.k].data|;
    FillOnce(c, s);
    FullFacts(c, x, q);
    states', events' := states, events;
    if n > 0 { states', events' := Then(c, states, events, s, FillTo(n)); }
    states', events' := SenderStep(c, s, Full(c, x).(pc := Filling(n)), q, states', events');
    states', events' := SenderStep(c, s, Full(c, x), q, states', events');
    var y := StepSender(c, Full(c, x), q);
    s' := WithSender(s, y.0, y.1);
    WithSenderFacts(c, s, y.0, y.1);
  }

  lemma WellFormedFacts(c: Config, s: State)
    requires WellFormed(c, s)
    ensures |s.ranks| == c.n + 1 && |s.queues| == c.n && c.n >= 1 && WellFormedRank(c, s.ranks[0]) && c.size >= 4
    ensures |s.ranks[0].bufs| == 2 && |s.ranks[0].bufs[0]| == |s.ranks[0].bufs[1]| == c.size
    ensures s.ranks[0].pc.Filling? ==> s.ranks[0].k < |c.buckets|
  {}

  // ---------- How far the sender is ahead of the receivers ----------

  /** All receivers are in front of bucket j, the sender is at bucket k, and the infos in between are queued. */
  ghost predicate Ahead(c: Config, s: State, j: nat, k: nat, pc: Pc)
    requires ValidConfig(c)
  {
    && AllIdle(c, s, j) && j <= |c.buckets| && k < |c.buckets|
    && |s.ranks[1].out| == |Outs(c.buckets, c.size, j)|
    && s.ranks[0].pc == pc && s.ranks[0].k == k && s.ranks[0].shouldWait == (k > 0)
    && Queued(c, s.queues[0], j, if pc.AwaitLast? then k + 1 else k)
  }

  /** The infos of buckets j to k - 1. */
  ghost predicate Queued(c: Config, q: seq<Info>, j: nat, k: nat) {
    j + |q| == k <= |c.buckets| && forall i :: 0 <= i < |q| ==> q[i] == InfoOf0(c, j + i)
  }

  /** Where the sender stands after sending the info of bucket k. */
  function NextPc(c: Config, k: nat): Pc {
    if LastBucket(c, k) then AwaitLast else if k > 0 then AwaitAck else Filling(0)
  }

  function NextK(c: Config, k: nat): nat {
    if LastBucket(c, k) then k else k + 1
  }

  /** The sender's buffers after bucket k is placed. */
  function Loaded(c: Config, x: Rank, k: nat): seq<seq<byte>>
    requires WellFormedRank(c, x) && k < |c.buckets|
  {
    x.bufs[k % 2 := Over(x.bufs[k % 2], c.buckets[k].data)]
  }

  lemma IdleFrame(c: Config, s: State, x: Rank, q: seq<Info>, j: nat)
    requires AllIdle(c, s, j) && WellFormedRank(c, x)
    ensures AllIdle(c, WithSender(s, x, q), j)
  {
    WithSenderFacts(c, s, x, q);
    hide WellFormedRank;
    hide BothMarked;
    hide Idle;
  }

  lemma AheadFacts(c: Config, s: State, j: nat, k: nat, pc: Pc)
    requires ValidConfig(c) && Ahead(c, s, j, k, pc)
    ensures WellFormed(c, s) && AllIdle(c, s, j) && |s.ranks| == c.n + 1 && |s.queues| == c.n && c.n >= 1
    ensures WellFormedRank(c, s.ranks[0]) && |s.ranks[0].bufs| == 2 && s.ranks[0].pc == pc && s.ranks[0].k == k < |c.buckets|
    ensures s.ranks[1].k == j <= |c.buckets| && |s.ranks[1].out| == |Outs(c.buckets, c.size, j)|
  {}

  lemma Pushed(c: Config, s: State, j: nat, k: nat)
    requires ValidConfig(c) && Ahead(c, s, j, k, Filling(0)) && WellFormed(c, s)
    ensures var y := StepSender(c, Full(c, s.ranks[0]), s.queues[0]);
      var s' := WithSender(s, y.0, y.1);
      Ahead(c, s', j, NextK(c, k), NextPc(c, k)) && s'.ranks[0].bufs == Loaded(c, s.ranks[0], k)
  {
    var x, q := s.ranks[0], s.queues[0];
    var y := StepSender(c, Full(c, x), q);
    FullFacts(c, x, q);
    IdleFrame(c, s, y.0, y.1, j);
    hide AllIdle;
    hide Outs;
    hide Over;
  }

  /** The sender places and sends bucket k. */
  lemma Push(c: Config, s: State, j: nat, k: nat, states: seq<State>, events: seq<Event>)
      returns (states': seq<State>, events': seq<Event>, s': State)
    requires ValidConfig(c) && EndsIn(c, states, events, s) && Ahead(c, s, j, k, Filling(0)) && WellFormed(c, s)
    ensures EndsIn(c, states', events', s') && Ahead(c, s', j, NextK(c, k), NextPc(c, k)) && WellFormed(c, s')
    ensures s'.ranks[0].bufs == Loaded(c, s.ranks[0], k)
  {
    hide *;
    AheadFacts(c, s, j, k, Filling(0));
    states', events', s' := FillSend(c, s, states, events);
    Pushed(c, s, j, k);
  }

  lemma Gone(c: Config, s: State, j: nat, k: nat, pc: Pc)
    requires ValidConfig(c) && Ahead(c, s, j, k, pc) && WellFormed(c, s) && (pc.AwaitAck? || pc.AwaitLast?)
    ensures var y := StepSender(c, s.ranks[0], s.queues[0]);
      var s' := WithSender(s, y.0, y.1);
      && WellFormedRank(c, y.0) && WellFormed(c, s') && s'.ranks[0].bufs == s.ranks[0].bufs && s'.ranks[1] == s.ranks[1]
      && (if pc.AwaitAck? then Ahead(c, s', j, k, Filling(0)) else s'.ranks[0].pc == Done)
  {
    var x, q := s.ranks[0], s.queues[0];
    var y := StepSender(c, x, q);
    IdleFrame(c, s, y.0, y.1, j);
    hide Outs;
  }

  lemma CurIs(x: Rank)
    ensures Cur(x) == x.k % 2
  {}

  /** The sender's wait ends over a buffer that starts with the magic. */
  lemma Go(c: Config, s: State, j: nat, k: nat, pc: Pc, states: seq<State>, events: seq<Event>)
      returns (states': seq<State>, events': seq<Event>, s': State)
    requires ValidConfig(c) && EndsIn(c, states, events, s) && Ahead(c, s, j, k, pc) && WellFormed(c, s)
    requires (pc.AwaitAck? || pc.AwaitLast?) && Marked(s.ranks[0].bufs[k % 2])
    ensures EndsIn(c, states', events', s') && WellFormed(c, s') && s'.ranks[0].bufs == s.ranks[0].bufs && s'.ranks[1] == s.ranks[1]
    ensures if pc.AwaitAck? then Ahead(c, s', j, k, Filling(0)) else s'.ranks[0].pc == Done
  {
    hide *;
    AheadFacts(c, s, j, k, pc);
    var x, q := s.ranks[0], s.queues[0];
    Gone(c, s, j, k, pc);
    CurIs(x);
    WithSenderFacts(c, s, x, q);
    states', events' := SenderStep(c, s, x, q, states, events);
    var y := StepSender(c, x, q);
    s' := WithSender(s, y.0, y.1);
  }

  lemma Pulled(c: Config, s: State, s': State, j: nat, k: nat, pc: Pc)
    requires ValidConfig(c) && Ahead(c, s, j, k, pc) && WellFormed(c, s) && j + 1 < |c.buckets| && s.queues[0] != []
    requires AllIdle(c, s', j + 1) && Swept(c, s, s', j)
    ensures Ahead(c, s', j + 1, k, pc) && s'.ranks[0] == MarkedRank(s.ranks[0], j % 2)
    ensures s'.ranks[1].out == s.ranks[1].out + Views(c.buckets[j].metas, ReadFrom(c, j, s))
  {
    hide AllIdle;
    hide Views;
    hide ReadFrom;
    hide InfoOf0;
    assert AllIdle(c, s, j);
    var q, q' := s.queues[0], s'.queues[0];
    assert forall i :: 0 <= i < |q'| ==> q'[i] == q[i + 1];
    OutsStep(c, j);
    hide Outs;
  }

  lemma OutsStep(c: Config, j: nat)
    requires ValidConfig(c) && j < |c.buckets|
    ensures |Outs(c.buckets, c.size, j + 1)| == |Outs(c.buckets, c.size, j)| + |c.buckets[j].metas|
  {}

  lemma HeadInfo(c: Config, s: State, j: nat, k: nat, pc: Pc)
    requires ValidConfig(c) && Ahead(c, s, j, k, pc) && (j < k || (pc.AwaitLast? && j == k))
    ensures WellFormed(c, s) && j < |c.buckets| && s.queues[0] != [] && s.queues[0][0] == InfoOf(c, j)
  {
    assert s.queues[0][0] == InfoOf0(c, j);
  }

  /** The receivers take, yield and acknowledge bucket j. */
  lemma Pull(c: Config, s: State, j: nat, k: nat, pc: Pc, states: seq<State>, events: seq<Event>)
      returns (states': seq<State>, events': seq<Event>, s': State)
    requires ValidConfig(c) && EndsIn(c, states, events, s) && Ahead(c, s, j, k, pc) && WellFormed(c, s)
    requires j < k && j + 1 < |c.buckets|
    ensures EndsIn(c, states', events', s') && WellFormed(c, s') && Ahead(c, s', j + 1, k, pc)
    ensures s'.ranks[0] == MarkedRank(s.ranks[0], j % 2)
    ensures s'.ranks[1].out == s.ranks[1].out + Views(c.buckets[j].metas, ReadFrom(c, j, s))
  {
    hide *;
    AheadFacts(c, s, j, k, pc);
    HeadInfo(c, s, j, k, pc);
    WellFormedFacts(c, s);
    states', events', s' := Sweep(c, s, j, states, events);
    Pulled(c, s, s', j, k, pc);
    AheadFacts(c, s', j + 1, k, pc);
  }
}
