/** The Mooncake weight relay as a state machine: a chain of ranks with two buffers each, where the
    only acknowledgement of a bucket is a 4-byte magic that the reader writes over its start in the
    buffer of the rank it read from.

    A synchronous read copies single bytes in any order, interleaved with everything else; the 4-byte
    write is one step. Objects sent between neighbours form a reliable FIFO queue. */
module MooncakeChain {
  import opened Buckets
  import opened Transfers
  import opened Streams

  const MAGIC: seq<byte> := [0xAB, 0xDC, 0xEF, 0x88]

  datatype Config = Config(buckets: seq<Bucket>, size: nat, n: nat)

  ghost predicate ValidConfig(c: Config) {
    && c.n >= 1
    && c.size >= 4
    && ValidStream(c.buckets, c.size)
  }

  datatype Info = Info(metas: seq<Meta>, ptr: bit, len: nat, isLast: bool)

  datatype Pc =
    | Filling(pos: nat)            // sender: bytes [0, pos) of bucket k are written
    | Sending                      // sender: about to send the info of bucket k
    | AwaitAck                     // sender: waits for the magic in the buffer that bucket k will use
    | AwaitLast                    // sender: waits for the magic over the last bucket
    | Receiving                    // receiver: waits for the next info
    | AwaitDown                    // receiver: waits for the next rank's magic in the current buffer
    | Reading(missing: set<nat>)   // receiver: the read copies bytes into the current buffer
    | Forwarding                   // receiver: about to send the info on
    | Yielding(j: nat)             // receiver: j views are yielded
    | Acking                       // receiver: about to write the magic upstream
    | Done
    | Failed

  /** `k` is the bucket at hand (for a receiver its `idx`), `shouldWait` the sender's flag, `relayed`
      the history of what each completed read left in the current buffer. */
  datatype Rank = Rank(
    pc: Pc, bufs: seq<seq<byte>>, k: nat, shouldWait: bool,
    info: Info, relayed: seq<seq<byte>>, out: seq<Weight>)

  /** queues[i] carries the infos from rank i to rank i + 1. */
  datatype State = State(ranks: seq<Rank>, queues: seq<seq<Info>>)

  datatype Event = FillTo(g: nat) | Local(r: nat) | Copy(r: nat, i: nat)

  const NO_INFO := Info([], 0, 0, false)

  function InitRank(r: nat, mem: seq<seq<byte>>): Rank {
    Rank(if r == 0 then Filling(0) else Receiving, mem, 0, false, NO_INFO, [], [])
  }

  /** The buffers are uninitialised memory. */
  ghost predicate Init(c: Config, s: State) {
    && |s.ranks| == c.n + 1 && |s.queues| == c.n
    && (forall r :: 0 <= r <= c.n ==>
          && |s.ranks[r].bufs| == 2
          && |s.ranks[r].bufs[0]| == |s.ranks[r].bufs[1]| == c.size
          && s.ranks[r] == InitRank(r, s.ranks[r].bufs))
    && (forall i :: 0 <= i < c.n ==> s.queues[i] == [])
  }

  ghost predicate WellFormedRank(c: Config, x: Rank) {
    && |x.bufs| == 2 && |x.bufs[0]| == |x.bufs[1]| == c.size && c.size >= 4
    && x.k <= |c.buckets|
    && (x.pc.Filling? || x.pc.Sending? ==> x.k < |c.buckets|)
    && (x.pc.Reading? ==> forall i <- x.pc.missing :: i < c.size)
  }

  ghost predicate WellFormed(c: Config, s: State) {
    && |s.ranks| == c.n + 1 && |s.queues| == c.n && c.n >= 1
    && forall r :: 0 <= r <= c.n ==> WellFormedRank(c, s.ranks[r])
  }

  function Cur(x: Rank): bit {
    x.k % 2
  }

  /** `torch.equal(buf[:4], magic)` */
  predicate Marked(buf: seq<byte>) {
    |buf| >= 4 && buf[..4] == MAGIC
  }

  function Mark(buf: seq<byte>): seq<byte>
    requires |buf| >= 4
  {
    MAGIC + buf[4..]
  }

  predicate LastBucket(c: Config, k: nat) {
    k + 1 == |c.buckets|
  }

  // ---------- Steps ----------

  predicate CanStep(c: Config, s: State, r: nat)
    requires |s.ranks| == c.n + 1 && |s.queues| == c.n && c.n >= 1 && r <= c.n
    requires |s.ranks[r].bufs| == 2
    requires s.ranks[r].pc.Filling? || s.ranks[r].pc.Sending? ==> s.ranks[r].k < |c.buckets|
  {
    var x := s.ranks[r];
    match x.pc
    case Filling(pos) => r == 0 && pos == |c.buckets[x.k].data|
    case Sending => r == 0
    case AwaitAck => r == 0 && Marked(x.bufs[Cur(x)])
    case AwaitLast => r == 0 && Marked(x.bufs[Cur(x)])
    case Receiving => r > 0 && s.queues[r - 1] != []
    case AwaitDown => r > 0 && Marked(x.bufs[Cur(x)])
    case Reading(missing) => r > 0 && missing == {}
    case Forwarding => r > 0
    case Yielding(_) => r > 0
    case Acking => r > 0
    case Done => false
    case Failed => false
  }

  predicate Enabled(c: Config, s: State, e: Event)
    requires |s.ranks| == c.n + 1 && |s.queues| == c.n && c.n >= 1
    requires forall r :: 0 <= r <= c.n ==> |s.ranks[r].bufs| == 2
    requires forall r :: 0 <= r <= c.n && (s.ranks[r].pc.Filling? || s.ranks[r].pc.Sending?) ==> s.ranks[r].k < |c.buckets|
  {
    match e
    case FillTo(g) =>
      var x := s.ranks[0];
      x.pc.Filling? && x.pc.pos < g <= |c.buckets[x.k].data|
    case Local(r) => r <= c.n && CanStep(c, s, r)
    case Copy(r, i) => 0 < r <= c.n && s.ranks[r].pc.Reading? && i in s.ranks[r].pc.missing
  }

  /** The trainer copies the next bytes of bucket k into its current buffer. */
  function Filled(c: Config, x: Rank, g: nat): Rank
    requires WellFormedRank(c, x) && x.pc.Filling? && x.pc.pos < g <= |c.buckets[x.k].data|
  {
    var b, d := x.bufs[Cur(x)], c.buckets[x.k].data;
    if g <= |b| then
      x.(bufs := x.bufs[Cur(x) := b[..x.pc.pos] + d[x.pc.pos..g] + b[g..]], pc := Filling(g))
    else x.(pc := Failed)
  }

  function Copied(c: Config, p: Rank, x: Rank, i: nat): Rank
    requires WellFormedRank(c, p) && WellFormedRank(c, x) && x.pc.Reading? && i in x.pc.missing
  {
    x.(bufs := x.bufs[Cur(x) := x.bufs[Cur(x)][i := p.bufs[x.info.ptr][i]]], pc := Reading(x.pc.missing - {i}))
  }

  function StepSender(c: Config, x: Rank, q: seq<Info>): (Rank, seq<Info>)
    requires x.pc.Sending? ==> x.k < |c.buckets|
  {
    match x.pc
    case Filling(_) => (x.(pc := Sending), q)
    case Sending =>
      var b, last := c.buckets[x.k], LastBucket(c, x.k);
      var q' := q + [Info(b.metas, Cur(x), |b.data|, last)];
      if last then (x.(pc := AwaitLast), q')
      else (x.(k := x.k + 1, shouldWait := true, pc := if x.shouldWait then AwaitAck else Filling(0)), q')
    case AwaitAck => (x.(pc := Filling(0)), q)
    case AwaitLast => (x.(pc := Done), q)
    case _ => (x, q)
  }

  /** `transfer_sync_read` of the announced length. */
  function BeginRead(c: Config, x: Rank): Rank {
    if x.info.len <= c.size then x.(pc := Reading(Positions(x.info.len))) else x.(pc := Failed)
  }

  /** Receiver steps inside the rank, taking from the upstream queue. */
  function StepReceiver(c: Config, hasNext: bool, x: Rank, up: seq<Info>): (Rank, seq<Info>)
    requires WellFormedRank(c, x)
    requires x.pc.Receiving? ==> up != []
  {
    match x.pc
    case Receiving =>
      var x' := x.(info := up[0]);
      (if x.k >= 2 && hasNext then x'.(pc := AwaitDown) else BeginRead(c, x'), up[1..])
    case AwaitDown => (BeginRead(c, x), up)
    case Reading(_) =>
      if x.info.len <= c.size then
        (x.(pc := Forwarding, relayed := x.relayed + [x.bufs[Cur(x)][..x.info.len]]), up)
      else (x.(pc := Failed), up)
    case Yielding(j) =>
      var ms := x.info.metas;
      if j >= |ms| then (x.(pc := Acking), up)
      else if ms[j].offset + ms[j].size <= |x.bufs[Cur(x)]| then
        (x.(out := x.out + [View(ms[j], x.bufs[Cur(x)])], pc := Yielding(j + 1)), up)
      else (x.(pc := Failed), up)
    case _ => (x, up)
  }

  /** After the magic is written: swap the buffers, and leave the loop after the last bucket. */
  function AfterAck(c: Config, x: Rank): Rank {
    if x.k < |c.buckets| then x.(k := x.k + 1, pc := if x.info.isLast then Done else Receiving) else x.(pc := Failed)
  }

  function Apply(c: Config, s: State, e: Event): State
    requires WellFormed(c, s) && Enabled(c, s, e)
  {
    match e
    case FillTo(g) => s.(ranks := s.ranks[0 := Filled(c, s.ranks[0], g)])
    case Copy(r, i) => s.(ranks := s.ranks[r := Copied(c, s.ranks[r - 1], s.ranks[r], i)])
    case Local(r) =>
      var x := s.ranks[r];
      if r == 0 then
        var (x', q') := StepSender(c, x, s.queues[0]);
        State(s.ranks[0 := x'], s.queues[0 := q'])
      else if x.pc.Forwarding? then
        State(s.ranks[r := x.(pc := Yielding(0))],
              if r < c.n then s.queues[r := s.queues[r] + [x.info.(ptr := Cur(x))]] else s.queues)
      else if x.pc.Acking? then
        var p := s.ranks[r - 1];
        s.(ranks := s.ranks[r := AfterAck(c, x)][r - 1 := p.(bufs := p.bufs[x.info.ptr := Mark(p.bufs[x.info.ptr])])])
      else
        var (x', q') := StepReceiver(c, r < c.n, x, s.queues[r - 1]);
        State(s.ranks[r := x'], s.queues[r - 1 := q'])
  }

  // ---------- Runs ----------

  ghost predicate IsRun(c: Config, states: seq<State>, events: seq<Event>) {
    && |states| == |events| + 1
    && Init(c, states[0])
    && forall i :: 0 <= i < |events| ==> IsStep(c, states[i], events[i], states[i + 1])
  }

  ghost predicate IsStep(c: Config, s: State, e: Event, s': State) {
    WellFormed(c, s) && Enabled(c, s, e) && s' == Apply(c, s, e)
  }
}
