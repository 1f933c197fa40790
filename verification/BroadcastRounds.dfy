/** The NCCL and HCCL weight broadcast as a state machine: rank 0 fills two buffers alternately and
    broadcasts each full one; ranks 1..n receive into one buffer while they yield from the other.

    A broadcast operation runs beside the rank that started it. The metadata travels on a FIFO
    subscription; then the operation of a receiver copies the bytes of the sender's buffer in any
    order, and the sender's operation ends when every receiver has all bytes of the round. The k-th
    operations of all ranks belong together, as in any collective. With `sync` (HCCL) a rank does
    nothing else until its operation has ended; without it (NCCL) it goes on. */
module BroadcastRounds {
  import opened Buckets
  import opened Transfers
  import opened Streams

  datatype Config = Config(buckets: seq<Bucket>, size: nat, n: nat, sync: bool)

  ghost predicate ValidConfig(c: Config) {
    && c.n >= 1
    && ValidStream(c.buckets, c.size)
  }

  datatype Metadata = Metadata(metas: seq<Meta>, isLast: bool)

  datatype Op =
    | NoOp
    | Waiting(buf: bit)                                       // receiver: no metadata yet
    | Running(buf: bit, metadata: Metadata, missing: set<nat>)
    | Finished(metadata: Metadata)

  datatype Pc =
    | Filling(pos: nat)   // sender: bytes [0, pos) of bucket k are written
    | AwaitPrev           // sender: waits for the operation before, if any
    | Launching           // about to construct a BroadcastOperation
    | AwaitLast           // sender: waits for its last operation
    | FirstLaunch         // receiver: about to construct its first operation
    | AwaitFirst          // receiver: waits for its first operation
    | Yielding(j: nat)    // receiver: j views of bucket k are yielded
    | AwaitNext           // receiver: waits for the operation of bucket k + 1
    | Done
    | Failed

  /** `rounds` counts the operations this rank has started. */
  datatype Rank = Rank(
    pc: Pc, bufs: seq<seq<byte>>, send: bit, recv: bit, k: nat,
    metadata: Metadata, op: Op, rounds: nat, out: seq<Weight>)

  /** subs[r] is the subscription of rank r; subs[0] is unused. */
  datatype State = State(ranks: seq<Rank>, subs: seq<seq<Metadata>>)

  datatype Event = FillTo(g: nat) | Local(r: nat) | TakeMeta(r: nat) | Copy(r: nat, i: nat) | Finish(r: nat) | FinishSend

  const EMPTY := Metadata([], false)

  function InitRank(r: nat, mem: seq<seq<byte>>): Rank {
    Rank(if r == 0 then Filling(0) else FirstLaunch, mem, 0, 1, 0, EMPTY, NoOp, 0, [])
  }

  ghost predicate Init(c: Config, s: State) {
    && |s.ranks| == |s.subs| == c.n + 1
    && (forall r :: 0 <= r <= c.n ==>
          && |s.ranks[r].bufs| == 2
          && |s.ranks[r].bufs[0]| == |s.ranks[r].bufs[1]| == c.size
          && s.ranks[r] == InitRank(r, s.ranks[r].bufs))
    && (forall r :: 0 <= r <= c.n ==> s.subs[r] == [])
  }

  ghost predicate WellFormedRank(c: Config, x: Rank) {
    && |x.bufs| == 2 && |x.bufs[0]| == |x.bufs[1]| == c.size
    && x.k < |c.buckets|
    && (x.op.Running? ==> forall i <- x.op.missing :: i < c.size)
  }

  ghost predicate WellFormed(c: Config, s: State) {
    && |s.ranks| == |s.subs| == c.n + 1 && c.n >= 1
    && forall r :: 0 <= r <= c.n ==> WellFormedRank(c, s.ranks[r])
  }

  // ---------- Steps ----------

  predicate LastBucket(c: Config, k: nat) {
    k + 1 == |c.buckets|
  }

  predicate InFlight(x: Rank) {
    x.op.Waiting? || x.op.Running?
  }

  /** Rounds that rank x has completed. */
  function Completed(x: Rank): int {
    x.rounds - if InFlight(x) then 1 else 0
  }

  predicate CanStep(c: Config, x: Rank, r: nat)
    requires x.k < |c.buckets|
  {
    && (c.sync ==> !InFlight(x))
    && match x.pc
       case Filling(pos) => r == 0 && pos == |c.buckets[x.k].data|
       case AwaitPrev => r == 0 && !InFlight(x)
       case AwaitLast => r == 0 && !InFlight(x)
       case Launching => true
       case FirstLaunch => r > 0
       case AwaitFirst => r > 0 && x.op.Finished?
       case Yielding(_) => r > 0
       case AwaitNext => r > 0 && x.op.Finished?
       case Done => false
       case Failed => false
  }

  predicate Enabled(c: Config, s: State, e: Event)
    requires |s.ranks| == |s.subs| == c.n + 1 && c.n >= 1
    requires forall r :: 0 <= r <= c.n ==> s.ranks[r].k < |c.buckets|
  {
    match e
    case FillTo(g) =>
      var x := s.ranks[0];
      x.pc.Filling? && x.pc.pos < g <= |c.buckets[x.k].data| && (c.sync ==> !InFlight(x))
    case Local(r) => r <= c.n && CanStep(c, s.ranks[r], r)
    case TakeMeta(r) => 0 < r <= c.n && s.ranks[r].op.Waiting? && s.subs[r] != []
    case Copy(r, i) =>
      && 0 < r <= c.n && s.ranks[r].op.Running? && i in s.ranks[r].op.missing
      && s.ranks[0].op.Running? && s.ranks[0].rounds == s.ranks[r].rounds
    case Finish(r) => 0 < r <= c.n && s.ranks[r].op.Running? && s.ranks[r].op.missing == {}
    case FinishSend =>
      s.ranks[0].op.Running? && forall r :: 0 < r <= c.n ==> Completed(s.ranks[r]) >= s.ranks[0].rounds
  }

  function Swap(x: Rank): Rank {
    x.(send := x.recv, recv := x.send)
  }

  function Filled(c: Config, x: Rank, g: nat): Rank
    requires WellFormedRank(c, x) && x.pc.Filling? && x.pc.pos < g <= |c.buckets[x.k].data|
  {
    var b, d := x.bufs[x.send], c.buckets[x.k].data;
    if g <= |b| then
      x.(bufs := x.bufs[x.send := b[..x.pc.pos] + d[x.pc.pos..g] + b[g..]], pc := Filling(g))
    else x.(pc := Failed)
  }

  function MetadataOf(c: Config, k: nat): Metadata
    requires k < |c.buckets|
  {
    Metadata(c.buckets[k].metas, LastBucket(c, k))
  }

  function StepSender(c: Config, x: Rank): Rank
    requires x.k < |c.buckets|
  {
    match x.pc
    case Filling(_) => x.(pc := AwaitPrev)
    case AwaitPrev => x.(pc := Launching)
    case Launching =>
      var x' := x.(op := Running(x.send, MetadataOf(c, x.k), {}), rounds := x.rounds + 1);
      if LastBucket(c, x.k) then x'.(pc := AwaitLast) else Swap(x').(pc := Filling(0), k := x.k + 1)
    case AwaitLast => x.(pc := Done)
    case _ => x
  }

  /** The loop test of the receiver, on the metadata of the bucket in its send buffer. */
  function LoopHead(md: Metadata): Pc {
    if md.isLast then Yielding(0) else Launching
  }

  function StepReceiver(x: Rank): Rank
    requires |x.bufs| == 2
    requires x.pc.AwaitFirst? || x.pc.AwaitNext? ==> x.op.Finished?
  {
    match x.pc
    case FirstLaunch => x.(op := Waiting(x.recv), rounds := x.rounds + 1, pc := AwaitFirst)
    case AwaitFirst => Swap(x).(metadata := x.op.metadata, op := NoOp, pc := LoopHead(x.op.metadata))
    case Launching => x.(op := Waiting(x.recv), rounds := x.rounds + 1, pc := Yielding(0))
    case Yielding(j) =>
      var ms := x.metadata.metas;
      if j >= |ms| then x.(pc := if x.metadata.isLast then Done else AwaitNext)
      else if ms[j].offset + ms[j].size <= |x.bufs[x.send]| then
        x.(out := x.out + [View(ms[j], x.bufs[x.send])], pc := Yielding(j + 1))
      else x.(pc := Failed)
    case AwaitNext =>
      Swap(x).(metadata := x.op.metadata, op := NoOp, k := x.k + 1, pc := LoopHead(x.op.metadata))
    case _ => x
  }

  function Published(subs: seq<seq<Metadata>>, md: Metadata): (r: seq<seq<Metadata>>)
    ensures |r| == |subs| && forall i :: 0 <= i < |r| ==> r[i] == subs[i] + [md]
  {
    seq(|subs|, i requires 0 <= i < |subs| => subs[i] + [md])
  }

  function Copied(c: Config, p: Rank, x: Rank, i: nat): Rank
    requires WellFormedRank(c, p) && WellFormedRank(c, x) && p.op.Running? && x.op.Running? && i in x.op.missing
  {
    x.(bufs := x.bufs[x.op.buf := x.bufs[x.op.buf][i := p.bufs[p.op.buf][i]]],
       op := x.op.(missing := x.op.missing - {i}))
  }

  function Apply(c: Config, s: State, e: Event): State
    requires WellFormed(c, s) && Enabled(c, s, e)
  {
    match e
    case FillTo(g) => s.(ranks := s.ranks[0 := Filled(c, s.ranks[0], g)])
    case Local(r) =>
      var x := s.ranks[r];
      if r == 0 then
        State(s.ranks[0 := StepSender(c, x)],
              if x.pc.Launching? then Published(s.subs, MetadataOf(c, x.k)) else s.subs)
      else s.(ranks := s.ranks[r := StepReceiver(x)])
    case TakeMeta(r) =>
      var x := s.ranks[r];
      State(s.ranks[r := x.(op := Running(x.op.buf, s.subs[r][0], Positions(c.size)))], s.subs[r := s.subs[r][1..]])
    case Copy(r, i) => s.(ranks := s.ranks[r := Copied(c, s.ranks[0], s.ranks[r], i)])
    case Finish(r) => s.(ranks := s.ranks[r := s.ranks[r].(op := Finished(s.ranks[r].op.metadata))])
    case FinishSend => s.(ranks := s.ranks[0 := s.ranks[0].(op := Finished(s.ranks[0].op.metadata))])
  }

  // ---------- Runs ----------

  ghost predicate IsRun(c: Config, states: seq<State>, events: seq<Event>) {
    && |states| == |events| + 1
    && Init(c, states[0])
    && forall i :: 0 <= i < |events| ==> IsStep(c, states[i], events[i], states[i + 1])
  }

  ghost predicate IsStep(c: Config, s: State, e: Event, s': State) {
    WellFormed(c, s) && Enabled(c, s, e) && s' == Apply(c, s, e)
  }

  ghost predicate AllDone(c: Config, s: State) {
    |s.ranks| == c.n + 1 && forall r :: 0 <= r <= c.n ==> s.ranks[r].pc == Done
  }
}
