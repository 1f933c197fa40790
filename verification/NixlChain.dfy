/** The NIXL weight relay as a state machine: rank 0 (the trainer) fills buckets, and every rollout
    rank 1..n reads each bucket from its predecessor while it offers the previous one to its successor.

    A rank moves by its own program steps; an RDMA READ in flight copies single bytes in any order,
    interleaved with everything else, and its completion posts the notification. Messages and
    notifications are reliable FIFO queues per direction of a link. */
module NixlChain {
  import opened Buckets
  import opened Options
  import opened Transfers
  import opened Streams

  datatype Config = Config(buckets: seq<Bucket>, size: nat, n: nat)

  ghost predicate ValidConfig(c: Config) {
    && c.n >= 1
    && ValidStream(c.buckets, c.size)
  }

  // ---------- State ----------

  /** A notify key: unique over all ranks and all operations of a rank. */
  datatype Uuid = Uuid(rank: nat, count: nat)

  datatype Field = NotifyKey | RemoteDescs | BucketMeta | IsLast

  datatype Value = TheKey(key: Uuid) | TheDescs(desc: bit) | TheMetas(metas: seq<Meta>) | TheFlag(flag: bool)

  /** Messages and metadata are dicts with these fields. */
  type Dict = map<Field, Value>

  /** Neither of the two fields that an operation adds to its metadata. */
  predicate Clean(d: Dict) {
    NotifyKey !in d && RemoteDescs !in d
  }

  predicate HasMeta(d: Dict) {
    BucketMeta in d && d[BucketMeta].TheMetas? && IsLast in d && d[IsLast].TheFlag?
  }

  function Metas(d: Dict): seq<Meta> {
    if HasMeta(d) then d[BucketMeta].metas else []
  }

  function Last(d: Dict): bool {
    HasMeta(d) && d[IsLast].flag
  }

  function MetaDict(metas: seq<Meta>, isLast: bool): (d: Dict)
    ensures Clean(d) && HasMeta(d) && Metas(d) == metas && Last(d) == isLast
  {
    map[BucketMeta := TheMetas(metas), IsLast := TheFlag(isLast)]
  }

  predicate HasTransfer(d: Dict) {
    NotifyKey in d && d[NotifyKey].TheKey? && RemoteDescs in d && d[RemoteDescs].TheDescs?
  }

  function KeyOf(d: Dict): Uuid
    requires HasTransfer(d)
  {
    d[NotifyKey].key
  }

  function DescsOf(d: Dict): bit
    requires HasTransfer(d)
  {
    d[RemoteDescs].desc
  }

  /** The dict that an operation sends: fields of the metadata override its own. */
  function Message(key: Uuid, descs: bit, md: Dict): (m: Dict)
    ensures Clean(md) ==> HasTransfer(m) && KeyOf(m) == key && DescsOf(m) == descs && Stripped(m) == md
  {
    map[NotifyKey := TheKey(key), RemoteDescs := TheDescs(descs)] + md
  }

  /** What the two pops leave. */
  function Stripped(m: Dict): Dict {
    m - {RemoteDescs, NotifyKey}
  }

  /** `missing` are the byte positions that the READ has not copied yet. */
  datatype Read = Idle | Flying(src: bit, dst: bit, key: Uuid, missing: set<nat>) | Complete

  datatype Pc =
    | Filling(pos: nat)   // sender: bytes [0, pos) of the current bucket are written
    | AwaitPrev           // sender: waits for the previous bucket's notification
    | Offering            // about to construct a ReadableOperation
    | AwaitLast           // sender: waits for the last bucket's notification
    | FirstMeta           // receiver: waits for the first message
    | FirstRead           // receiver: waits for the first READ
    | NextMeta            // receiver: waits for the next message
    | Yielding(j: nat)    // receiver: j views of the current bucket are yielded
    | AwaitNext           // receiver: waits for the next rank's notification
    | AwaitRead           // receiver: waits for its own READ
    | Done
    | Failed              // an assertion of the program failed

  datatype Rank = Rank(
    id: nat,
    pc: Pc,
    bufs: seq<seq<byte>>,
    send: bit, recv: bit, sendDesc: bit, recvDesc: bit,
    k: nat,
    metadata: Dict, nextMetadata: Dict,
    offers: nat, pending: Option<Uuid>,
    read: Read,
    out: seq<Weight>)

  /** Link i joins rank i and rank i+1: messages downstream, notifications upstream. */
  datatype Link = Link(msgs: seq<Dict>, notes: seq<Uuid>)

  datatype State = State(ranks: seq<Rank>, links: seq<Link>)

  datatype Event = FillTo(g: nat) | Local(r: nat) | Copy(r: nat, i: nat) | Finish(r: nat)

  const EMPTY: Dict := map[]

  function InitRank(c: Config, r: nat, mem: seq<seq<byte>>): Rank {
    Rank(r, if r == 0 then Filling(0) else FirstMeta, mem, 0, 1, 0, 1, 0, EMPTY, EMPTY, 0, None, Idle, [])
  }

  /** Any contents of the two buffers are possible at the start. */
  ghost predicate Init(c: Config, s: State) {
    && |s.ranks| == c.n + 1 && |s.links| == c.n
    && (forall r :: 0 <= r <= c.n ==>
          && |s.ranks[r].bufs| == 2
          && |s.ranks[r].bufs[0]| == |s.ranks[r].bufs[1]| == c.size
          && s.ranks[r] == InitRank(c, r, s.ranks[r].bufs))
    && (forall i :: 0 <= i < c.n ==> s.links[i] == Link([], []))
  }

  ghost predicate WellFormed(c: Config, s: State) {
    && |s.ranks| == c.n + 1 && |s.links| == c.n && c.n >= 1
    && forall r :: 0 <= r <= c.n ==> WellFormedRank(c, s.ranks[r])
  }

  ghost predicate WellFormedRank(c: Config, x: Rank) {
    && |x.bufs| == 2 && |x.bufs[0]| == |x.bufs[1]| == c.size
    && x.k < |c.buckets|
    && (x.read.Flying? ==> forall i <- x.read.missing :: i < c.size)
  }

  // ---------- Steps ----------

  predicate LastBucket(c: Config, k: nat) {
    k + 1 == |c.buckets|
  }

  /** Whether the wait on `readable_op` can return. */
  predicate CanAwait(x: Rank, notes: seq<Uuid>) {
    x.pending == None || notes != []
  }

  predicate CanStep(c: Config, s: State, r: nat)
    requires |s.ranks| == c.n + 1 && |s.links| == c.n && c.n >= 1 && r <= c.n
    requires s.ranks[r].k < |c.buckets|
  {
    var x := s.ranks[r];
    match x.pc
    case Filling(pos) => r == 0 && pos == |c.buckets[x.k].data|
    case AwaitPrev => r == 0 && CanAwait(x, s.links[0].notes)
    case AwaitLast => r == 0 && CanAwait(x, s.links[0].notes)
    case Offering => true
    case FirstMeta => r > 0 && s.links[r - 1].msgs != []
    case NextMeta => r > 0 && s.links[r - 1].msgs != []
    case FirstRead => r > 0 && x.read == Complete
    case Yielding(_) => r > 0
    case AwaitNext => r > 0 && (r < c.n ==> CanAwait(x, s.links[r].notes)) && (r == c.n ==> x.pending == None)
    case AwaitRead => r > 0 && x.read == Complete
    case Done => false
    case Failed => false
  }

  predicate Enabled(c: Config, s: State, e: Event)
    requires |s.ranks| == c.n + 1 && |s.links| == c.n && c.n >= 1
    requires forall r :: 0 <= r <= c.n ==> s.ranks[r].k < |c.buckets|
  {
    match e
    case FillTo(g) =>
      var x := s.ranks[0];
      x.pc.Filling? && x.pc.pos < g <= |c.buckets[x.k].data|
    case Local(r) => r <= c.n && CanStep(c, s, r)
    case Copy(r, i) => 0 < r <= c.n && s.ranks[r].read.Flying? && i in s.ranks[r].read.missing
    case Finish(r) => 0 < r <= c.n && s.ranks[r].read.Flying? && s.ranks[r].read.missing == {}
  }

  function Swap(x: Rank): Rank {
    x.(send := x.recv, recv := x.send, sendDesc := x.recvDesc, recvDesc := x.sendDesc)
  }

  /** The notify key of the rank's next ReadableOperation. */
  function OwnKey(x: Rank): Uuid {
    Uuid(x.id, x.offers)
  }

  function MessageOf(x: Rank, md: Dict): Dict {
    Message(OwnKey(x), x.sendDesc, md)
  }

  /** `wait_for_complete` on a ReadableOperation: the popped notification must be its own key. */
  function AfterAwait(x: Rank, notes: seq<Uuid>, next: Pc): Rank
    requires CanAwait(x, notes)
  {
    if x.pending == None then x.(pc := next)
    else if x.pending == Some(notes[0]) then x.(pc := next)
    else x.(pc := Failed)
  }

  function PopIf(x: Rank, l: Link): Link
    requires CanAwait(x, l.notes)
  {
    if x.pending == None then l else l.(notes := l.notes[1..])
  }

  /** `read_metadata` followed by `begin_read` into the receive buffer. */
  function BeginRead(c: Config, x: Rank, m: Dict): Rank
    requires HasTransfer(m)
  {
    x.(read := Flying(DescsOf(m), x.recvDesc, KeyOf(m), Positions(c.size)))
  }

  /** The trainer copies the next bytes of the bucket into its send buffer. */
  function Filled(c: Config, x: Rank, g: nat): Rank
    requires WellFormedRank(c, x) && x.pc.Filling? && x.pc.pos < g <= |c.buckets[x.k].data|
  {
    var b, d := x.bufs[x.send], c.buckets[x.k].data;
    if g <= |b| then
      x.(bufs := x.bufs[x.send := b[..x.pc.pos] + d[x.pc.pos..g] + b[g..]], pc := Filling(g))
    else x.(pc := Failed)
  }

  /** The READ of rank x copies byte i from its predecessor p. */
  function Copied(c: Config, p: Rank, x: Rank, i: nat): Rank
    requires WellFormedRank(c, p) && WellFormedRank(c, x) && x.read.Flying? && i in x.read.missing
  {
    x.(bufs := x.bufs[x.read.dst := x.bufs[x.read.dst][i := p.bufs[x.read.src][i]]],
       read := x.read.(missing := x.read.missing - {i}))
  }

  function StepSender(c: Config, x: Rank, l: Link): (Rank, Link)
    requires x.k < |c.buckets|
    requires x.pc.AwaitPrev? || x.pc.AwaitLast? ==> CanAwait(x, l.notes)
  {
    match x.pc
    case Filling(_) => (x.(pc := AwaitPrev), l)
    case AwaitPrev => (AfterAwait(x, l.notes, Offering), PopIf(x, l))
    case Offering =>
      var last := LastBucket(c, x.k);
      var l' := l.(msgs := l.msgs + [MessageOf(x, MetaDict(c.buckets[x.k].metas, last))]);
      var x' := x.(offers := x.offers + 1, pending := Some(OwnKey(x)));
      (if last then x'.(pc := AwaitLast) else Swap(x').(pc := Filling(0), k := x.k + 1), l')
    case AwaitLast => (AfterAwait(x, l.notes, Done), PopIf(x, l))
    case _ => (x, l)
  }

  /** Receiver steps that only touch the upstream link. */
  function StepUpstream(c: Config, x: Rank, up: Link): (Rank, Link)
    requires |x.bufs| == 2
    requires x.pc.FirstMeta? || x.pc.NextMeta? ==> up.msgs != []
  {
    match x.pc
    case FirstMeta =>
      var m := up.msgs[0];
      if !HasTransfer(m) then (x.(pc := Failed), up)
      else (BeginRead(c, x, m).(metadata := Stripped(m), pc := FirstRead), up.(msgs := up.msgs[1..]))
    case NextMeta =>
      var m := up.msgs[0];
      if !HasTransfer(m) then (x.(pc := Failed), up)
      else (BeginRead(c, x, m).(nextMetadata := Stripped(m), pc := Yielding(0)), up.(msgs := up.msgs[1..]))
    case FirstRead => (Swap(x.(read := Idle)).(pc := Offering), up)
    case AwaitRead => (Swap(x.(read := Idle)).(metadata := x.nextMetadata, pc := Offering, k := x.k + 1), up)
    case Yielding(j) =>
      var ms := Metas(x.metadata);
      if !HasMeta(x.metadata) then (x.(pc := Failed), up)
      else if j >= |ms| then (x.(pc := AwaitNext), up)
      else if ms[j].offset + ms[j].size <= |x.bufs[x.send]| then
        (x.(out := x.out + [View(ms[j], x.bufs[x.send])], pc := Yielding(j + 1)), up)
      else (x.(pc := Failed), up)
    case _ => (x, up)
  }

  /** Receiver steps that touch the downstream link; the last rank has none (`down` is unused). */
  function StepDownstream(hasNext: bool, x: Rank, down: Link): (Rank, Link)
    requires x.pc.AwaitNext? && hasNext ==> CanAwait(x, down.notes)
    requires x.pc.AwaitNext? && !hasNext ==> x.pending == None
  {
    match x.pc
    case Offering =>
      var next := if !HasMeta(x.metadata) then Failed else if Last(x.metadata) then Yielding(0) else NextMeta;
      if hasNext then
        (x.(offers := x.offers + 1, pending := Some(OwnKey(x)), pc := next),
         down.(msgs := down.msgs + [MessageOf(x, x.metadata)]))
      else (x.(pending := None, pc := next), down)
    case AwaitNext =>
      var next := if Last(x.metadata) then Done else AwaitRead;
      if hasNext then (AfterAwait(x, down.notes, next), PopIf(x, down)) else (x.(pc := next), down)
    case _ => (x, down)
  }

  function Apply(c: Config, s: State, e: Event): State
    requires WellFormed(c, s) && Enabled(c, s, e)
  {
    match e
    case FillTo(g) => s.(ranks := s.ranks[0 := Filled(c, s.ranks[0], g)])
    case Local(r) =>
      var x := s.ranks[r];
      if r == 0 then
        var (x', l') := StepSender(c, x, s.links[0]);
        State(s.ranks[0 := x'], s.links[0 := l'])
      else if x.pc.Offering? || x.pc.AwaitNext? then
        if r < c.n then
          var (x', l') := StepDownstream(true, x, s.links[r]);
          State(s.ranks[r := x'], s.links[r := l'])
        else s.(ranks := s.ranks[r := StepDownstream(false, x, Link([], [])).0])
      else
        var (x', l') := StepUpstream(c, x, s.links[r - 1]);
        State(s.ranks[r := x'], s.links[r - 1 := l'])
    case Copy(r, i) => s.(ranks := s.ranks[r := Copied(c, s.ranks[r - 1], s.ranks[r], i)])
    case Finish(r) =>
      var x, l := s.ranks[r], s.links[r - 1];
      State(s.ranks[r := x.(read := Complete)], s.links[r - 1 := l.(notes := l.notes + [x.read.key])])
  }

  // ---------- Runs ----------

  /** `states` is a run when it starts in an initial state and every step is an enabled event. */
  ghost predicate IsRun(c: Config, states: seq<State>, events: seq<Event>) {
    && |states| == |events| + 1
    && Init(c, states[0])
    && forall i :: 0 <= i < |events| ==> IsStep(c, states[i], events[i], states[i + 1])
  }

  ghost predicate IsStep(c: Config, s: State, e: Event, s': State) {
    WellFormed(c, s) && Enabled(c, s, e) && s' == Apply(c, s, e)
  }

  ghost predicate AllDone(c: Config, s: State) {
    |s.ranks| == c.n + 1 && forall r :: 0 <= r <= c.n ==> s.ranks[r].pc == Done
  }
}
