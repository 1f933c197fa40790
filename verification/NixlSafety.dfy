/** The inductive invariant of the NIXL relay and its preservation by every step. */
module NixlSafety {
  import opened Options
  import opened Transfers
  import opened Streams
  import opened NixlChain

  /** The buffer that holds bucket m on rank r: the two buffers alternate, and the sender starts with
      the one that receivers use second. */
  function Slot(r: nat, m: nat): bit {
    if r == 0 then m % 2 else (m + 1) % 2
  }

  function MetadataOf(c: Config, m: nat): (d: Dict)
    requires m < |c.buckets|
    ensures Clean(d) && HasMeta(d) && Metas(d) == c.buckets[m].metas && Last(d) == LastBucket(c, m)
  {
    MetaDict(c.buckets[m].metas, LastBucket(c, m))
  }

  /** The message with which rank i offers bucket m. */
  function MessageFor(c: Config, i: nat, m: nat): (d: Dict)
    requires m < |c.buckets|
    ensures HasTransfer(d) && KeyOf(d) == Uuid(i, m) && DescsOf(d) == Slot(i, m) && Stripped(d) == MetadataOf(c, m)
  {
    Message(Uuid(i, m), Slot(i, m), MetadataOf(c, m))
  }

  // ---------- Progress counters, read off the control state ----------

  /** Messages this receiver has taken, which is the number of READs it has begun. */
  function Popped(x: Rank): nat {
    match x.pc
    case FirstMeta => 0
    case FirstRead => 1
    case Yielding(_) => if Last(x.metadata) then x.k + 1 else x.k + 2
    case AwaitNext => if Last(x.metadata) then x.k + 1 else x.k + 2
    case AwaitRead => x.k + 2
    case _ => x.k + 1
  }

  /** READs this receiver has finished. */
  function Completed(x: Rank): int {
    Popped(x) - if x.read.Flying? then 1 else 0
  }

  /** Offers of rank r whose notification it has taken. */
  function Acked(r: nat, x: Rank): nat {
    match x.pc
    case Filling(_) => if x.k == 0 then 0 else x.k - 1
    case AwaitPrev => if x.k == 0 then 0 else x.k - 1
    case FirstMeta => 0
    case FirstRead => 0
    case AwaitRead => x.k + 1
    case Done => x.k + 1
    case _ => x.k
  }

  // ---------- The invariant ----------

  ghost predicate RankInv(c: Config, r: nat, x: Rank)
    requires ValidConfig(c)
  {
    && WellFormedRank(c, x)
    && x.id == r && Clean(x.metadata) && Clean(x.nextMetadata)
    && x.sendDesc == x.send && x.recvDesc == x.recv && x.send != x.recv
    && if r == 0 then SenderInv(c, x) else ReceiverInv(c, r, x) && ReadInv(c, r, x)
  }

  ghost predicate SenderInv(c: Config, x: Rank)
    requires ValidConfig(c) && WellFormedRank(c, x)
  {
    var data := c.buckets[x.k].data;
    && x.read == Idle && x.out == []
    && x.send == Slot(0, x.k)
    && match x.pc
       case Filling(pos) =>
         && pos <= |data| && |data| <= c.size && x.bufs[x.send][..pos] == data[..pos]
         && x.offers == x.k && x.pending == if x.k == 0 then None else Some(Uuid(0, x.k - 1))
       case AwaitPrev =>
         && Holds(x.bufs[x.send], data)
         && x.offers == x.k && x.pending == if x.k == 0 then None else Some(Uuid(0, x.k - 1))
       case Offering => Holds(x.bufs[x.send], data) && x.offers == x.k
       case AwaitLast => LastBucket(c, x.k) && x.offers == x.k + 1 && x.pending == Some(Uuid(x.id, x.k))
       case Done => LastBucket(c, x.k) && x.offers == x.k + 1
       case _ => false
  }

  ghost predicate ReceiverInv(c: Config, r: nat, x: Rank)
    requires ValidConfig(c) && WellFormedRank(c, x)
  {
    match x.pc
    case FirstMeta => x.k == 0 && x.send == 0 && x.read == Idle && x.out == [] && x.offers == 0
    case FirstRead =>
      x.k == 0 && x.send == 0 && x.read != Idle && x.metadata == MetadataOf(c, 0) && x.out == [] && x.offers == 0
    case Offering =>
      OnBucket(c, r, x) && x.read == Idle && x.out == Outs(c.buckets, c.size, x.k) && x.offers == if r < c.n then x.k else 0
    case NextMeta =>
      OnBucket(c, r, x) && !LastBucket(c, x.k) && x.read == Idle && x.out == Outs(c.buckets, c.size, x.k) && Offered(c, r, x)
    case Yielding(j) =>
      && OnBucket(c, r, x) && Reading(c, x) && Offered(c, r, x)
      && j <= |Metas(x.metadata)|
      && x.out == Outs(c.buckets, c.size, x.k) + UnpackedBucket(c.buckets, c.size, x.k)[..j]
    case AwaitNext => OnBucket(c, r, x) && Reading(c, x) && Offered(c, r, x) && x.out == Outs(c.buckets, c.size, x.k + 1)
    case AwaitRead =>
      && OnBucket(c, r, x) && !LastBucket(c, x.k) && Reading(c, x) && x.out == Outs(c.buckets, c.size, x.k + 1)
      && x.offers == if r < c.n then x.k + 1 else 0
    case Done =>
      && OnBucket(c, r, x) && LastBucket(c, x.k) && x.read == Idle && x.out == Outs(c.buckets, c.size, x.k + 1)
      && x.offers == if r < c.n then x.k + 1 else 0
    case _ => false
  }

  ghost predicate OnBucket(c: Config, r: nat, x: Rank)
    requires WellFormedRank(c, x)
  {
    && x.send == Slot(r, x.k)
    && x.metadata == MetadataOf(c, x.k)
    && Holds(x.bufs[x.send], c.buckets[x.k].data)
  }

  /** Between `begin_read` and the swap: the next bucket is on its way, unless this is the last. */
  ghost predicate Reading(c: Config, x: Rank)
    requires x.k < |c.buckets|
  {
    if LastBucket(c, x.k) then x.read == Idle
    else x.read != Idle && x.nextMetadata == MetadataOf(c, x.k + 1)
  }

  ghost predicate Offered(c: Config, r: nat, x: Rank) {
    if r < c.n then x.offers == x.k + 1 && x.pending == Some(Uuid(x.id, x.k)) else x.offers == 0 && x.pending == None
  }

  /** The READ in flight fetches bucket Popped - 1 from the slot where rank r - 1 keeps it. */
  ghost predicate ReadInv(c: Config, r: nat, x: Rank)
    requires r > 0 && WellFormedRank(c, x)
  {
    var m := Popped(x) - 1;
    match x.read
    case Idle => true
    case Flying(src, dst, key, missing) =>
      && 0 <= m < |c.buckets|
      && src == Slot(r - 1, m) && dst == Slot(r, m) && key == Uuid(r - 1, m)
      && HoldsExcept(x.bufs[dst], c.buckets[m].data, missing)
    case Complete => 0 <= m < |c.buckets| && Holds(x.bufs[Slot(r, m)], c.buckets[m].data)
  }

  /** Rank i = a, its link, and rank i + 1 = b. */
  ghost predicate LinkInv(c: Config, i: nat, a: Rank, l: Link, b: Rank)
    requires WellFormedRank(c, a)
  {
    var acked := Acked(i, a);
    && acked <= Completed(b) <= Popped(b) <= a.offers <= acked + 1
    && a.offers <= |c.buckets|
    && l.msgs == (if Popped(b) < a.offers then [MessageFor(c, i, Popped(b))] else [])
    && l.notes == (if acked < Completed(b) then [Uuid(i, acked)] else [])
    && (acked < a.offers ==> Holds(a.bufs[Slot(i, acked)], c.buckets[acked].data))
  }

  ghost predicate Inv(c: Config, s: State)
    requires ValidConfig(c)
  {
    && |s.ranks| == c.n + 1 && |s.links| == c.n
    && (forall r :: 0 <= r <= c.n ==> RankInv(c, r, s.ranks[r]))
    && (forall i :: 0 <= i < c.n ==> LinkInv(c, i, s.ranks[i], s.links[i], s.ranks[i + 1]))
  }

  lemma InitInv(c: Config, s: State)
    requires ValidConfig(c) && Init(c, s)
    ensures Inv(c, s)
  {
    assert c.buckets[0] in c.buckets;
    forall i | 0 <= i < c.n ensures LinkInv(c, i, s.ranks[i], s.links[i], s.ranks[i + 1]) {
      assert s.ranks[i] == InitRank(c, i, s.ranks[i].bufs);
      assert s.ranks[i + 1] == InitRank(c, i + 1, s.ranks[i + 1].bufs);
    }
  }

  // ---------- Preservation ----------

  /** A step changes one rank and the links next to it. */
  lemma Reassemble(c: Config, s: State, s': State, r: nat)
    requires ValidConfig(c) && Inv(c, s) && r <= c.n
    requires |s'.ranks| == c.n + 1 && |s'.links| == c.n
    requires forall q :: 0 <= q <= c.n && q != r ==> s'.ranks[q] == s.ranks[q]
    requires forall i :: 0 <= i < c.n && i != r && i != r - 1 ==> s'.links[i] == s.links[i]
    requires RankInv(c, r, s'.ranks[r])
    requires r > 0 ==> LinkInv(c, r - 1, s'.ranks[r - 1], s'.links[r - 1], s'.ranks[r])
    requires r < c.n ==> LinkInv(c, r, s'.ranks[r], s'.links[r], s'.ranks[r + 1])
    ensures Inv(c, s')
  {
    hide RankInv;
    hide LinkInv;
  }

  lemma FillRank(c: Config, x: Rank, l: Link, b: Rank, g: nat)
    requires ValidConfig(c) && RankInv(c, 0, x) && LinkInv(c, 0, x, l, b)
    requires x.pc.Filling? && x.pc.pos < g <= |c.buckets[x.k].data|
    ensures var x' := Filled(c, x, g);
      RankInv(c, 0, x') && LinkInv(c, 0, x', l, b)
  {
    var d, x' := c.buckets[x.k].data, Filled(c, x, g);
    assert x'.bufs[x.send][..g] == x.bufs[x.send][..x.pc.pos] + d[x.pc.pos..g];
    assert d[..g] == d[..x.pc.pos] + d[x.pc.pos..g];
  }

  lemma SenderWaits(c: Config, x: Rank, l: Link, b: Rank)
    requires ValidConfig(c) && RankInv(c, 0, x) && LinkInv(c, 0, x, l, b)
    requires x.pc.AwaitPrev? || x.pc.AwaitLast?
    requires CanAwait(x, l.notes)
    ensures var (x', l') := StepSender(c, x, l);
      RankInv(c, 0, x') && LinkInv(c, 0, x', l', b)
  {}

  lemma SenderOffers(c: Config, x: Rank, l: Link, b: Rank)
    requires ValidConfig(c) && RankInv(c, 0, x) && LinkInv(c, 0, x, l, b)
    requires x.pc.Offering? || (x.pc.Filling? && x.pc.pos == |c.buckets[x.k].data|)
    ensures var (x', l') := StepSender(c, x, l);
      RankInv(c, 0, x') && LinkInv(c, 0, x', l', b)
  {
    if x.pc.Filling? {
      assert x.bufs[x.send][..|c.buckets[x.k].data|] == c.buckets[x.k].data;
    } else if !LastBucket(c, x.k) {
      assert c.buckets[x.k + 1] in c.buckets;
    }
  }

  lemma TakeRank(c: Config, r: nat, p: Rank, l: Link, x: Rank)
    requires ValidConfig(c) && 0 < r <= c.n && RankInv(c, r, x) && WellFormedRank(c, p) && LinkInv(c, r - 1, p, l, x)
    requires (x.pc.FirstMeta? || x.pc.NextMeta?) && l.msgs != []
    ensures var (x', l') := StepUpstream(c, x, l);
      RankInv(c, r, x') && LinkInv(c, r - 1, p, l', x')
  {
    TakeMessage(c, r, p, l, x);
    TakeSelf(c, r, x, l);
    TakeLink(c, r, p, l, x);
  }

  ghost predicate NextMessage(c: Config, r: nat, l: Link, x: Rank)
    requires r > 0
  {
    var m := Popped(x);
    m < |c.buckets| && l.msgs == [MessageFor(c, r - 1, m)]
  }

  lemma TakeMessage(c: Config, r: nat, p: Rank, l: Link, x: Rank)
    requires 0 < r <= c.n && WellFormedRank(c, p) && LinkInv(c, r - 1, p, l, x) && l.msgs != []
    ensures NextMessage(c, r, l, x)
  {}

  lemma TakeSelf(c: Config, r: nat, x: Rank, l: Link)
    requires ValidConfig(c) && 0 < r <= c.n && RankInv(c, r, x) && NextMessage(c, r, l, x)
    requires x.pc.FirstMeta? || x.pc.NextMeta?
    ensures RankInv(c, r, StepUpstream(c, x, l).0)
  {
    hide Message;
    hide HasMeta;
    hide HasTransfer;
    var m := Popped(x);
    assert c.buckets[m] in c.buckets;
    NothingArrived(x.bufs[x.recv], c.buckets[m].data);
    NothingYielded(c.buckets, c.size, x.k);
    hide Holds;
    hide HoldsExcept;
  }

  lemma TakeLink(c: Config, r: nat, p: Rank, l: Link, x: Rank)
    requires ValidConfig(c) && 0 < r <= c.n && RankInv(c, r, x) && WellFormedRank(c, p) && LinkInv(c, r - 1, p, l, x)
    requires (x.pc.FirstMeta? || x.pc.NextMeta?) && NextMessage(c, r, l, x)
    ensures var (x', l') := StepUpstream(c, x, l); LinkInv(c, r - 1, p, l', x')
  {
    hide Message;
    hide HasMeta;
    hide HasTransfer;
    hide Holds;
    hide HoldsExcept;
    hide Outs;
  }

  lemma SwapRank(c: Config, r: nat, p: Rank, l: Link, x: Rank)
    requires ValidConfig(c) && 0 < r <= c.n && RankInv(c, r, x) && WellFormedRank(c, p) && LinkInv(c, r - 1, p, l, x)
    requires (x.pc.FirstRead? || x.pc.AwaitRead?) && x.read == Complete
    ensures var (x', l') := StepUpstream(c, x, l);
      RankInv(c, r, x') && LinkInv(c, r - 1, p, l', x')
  {
    hide RankInv;
    hide LinkInv;
    SwapSelf(c, r, x, l);
    SwapLink(c, r, p, l, x);
  }

  lemma SwapSelf(c: Config, r: nat, x: Rank, l: Link)
    requires ValidConfig(c) && 0 < r <= c.n && RankInv(c, r, x)
    requires (x.pc.FirstRead? || x.pc.AwaitRead?) && x.read == Complete
    ensures RankInv(c, r, StepUpstream(c, x, l).0)
  {
    assert Outs(c.buckets, c.size, 0) == [];
    hide Message;
    hide HasMeta;
    hide HasTransfer;
    hide Holds;
    hide HoldsExcept;
    hide Outs;
  }

  lemma SwapLink(c: Config, r: nat, p: Rank, l: Link, x: Rank)
    requires ValidConfig(c) && 0 < r <= c.n && RankInv(c, r, x) && WellFormedRank(c, p) && LinkInv(c, r - 1, p, l, x)
    requires (x.pc.FirstRead? || x.pc.AwaitRead?) && x.read == Complete
    ensures var (x', l') := StepUpstream(c, x, l); LinkInv(c, r - 1, p, l', x')
  {
    hide Message;
    hide HasMeta;
    hide HasTransfer;
    hide Holds;
    hide HoldsExcept;
    hide Outs;
  }

  lemma UpstreamDown(c: Config, r: nat, p: Rank, l: Link, x: Rank, down: Link, nx: Rank)
    requires ValidConfig(c) && 0 < r < c.n && RankInv(c, r, x) && WellFormedRank(c, p) && LinkInv(c, r - 1, p, l, x)
    requires LinkInv(c, r, x, down, nx)
    requires x.pc.FirstMeta? || x.pc.NextMeta? || x.pc.FirstRead? || x.pc.AwaitRead?
    requires x.pc.FirstMeta? || x.pc.NextMeta? ==> l.msgs != []
    requires x.pc.FirstRead? || x.pc.AwaitRead? ==> x.read == Complete
    ensures var (x', _) := StepUpstream(c, x, l);
      WellFormedRank(c, x') && LinkInv(c, r, x', down, nx)
  {
    hide Message;
    hide Outs;
    hide HoldsExcept;
  }

  lemma YieldRank(c: Config, r: nat, p: Rank, l: Link, x: Rank)
    requires ValidConfig(c) && 0 < r <= c.n && RankInv(c, r, x) && WellFormedRank(c, p) && LinkInv(c, r - 1, p, l, x)
    requires x.pc.Yielding?
    ensures var (x', l') := StepUpstream(c, x, l);
      RankInv(c, r, x') && LinkInv(c, r - 1, p, l', x')
  {
    YieldSelf(c, r, x, l);
    NotFailed(c, r, StepUpstream(c, x, l).0);
    YieldLink(c, r, p, l, x);
  }

  lemma YieldSelf(c: Config, r: nat, x: Rank, l: Link)
    requires ValidConfig(c) && 0 < r <= c.n && RankInv(c, r, x) && x.pc.Yielding?
    ensures RankInv(c, r, StepUpstream(c, x, l).0)
  {
    BucketView(c.buckets, c.size, x.k, x.pc.j, x.bufs[x.send]);
    hide Holds;
    hide HoldsExcept;
  }

  lemma YieldLink(c: Config, r: nat, p: Rank, l: Link, x: Rank)
    requires 0 < r && WellFormedRank(c, p) && LinkInv(c, r - 1, p, l, x)
    requires |x.bufs| == 2 && x.pc.Yielding? && StepUpstream(c, x, l).0.pc != Failed
    ensures var (x', l') := StepUpstream(c, x, l); LinkInv(c, r - 1, p, l', x')
  {
    YieldCounts(c, x, l);
    hide *;
    LinkSame(c, r - 1, p, l, x, StepUpstream(c, x, l).0);
  }

  lemma YieldCounts(c: Config, x: Rank, l: Link)
    requires |x.bufs| == 2 && x.pc.Yielding? && StepUpstream(c, x, l).0.pc != Failed
    ensures var (x', l') := StepUpstream(c, x, l);
      l' == l && Popped(x') == Popped(x) && Completed(x') == Completed(x)
  {}

  /** A link depends on its reader only through what the reader has taken and finished. */
  lemma LinkSame(c: Config, i: nat, a: Rank, l: Link, b: Rank, b': Rank)
    requires WellFormedRank(c, a) && LinkInv(c, i, a, l, b)
    requires Popped(b') == Popped(b) && Completed(b') == Completed(b)
    ensures LinkInv(c, i, a, l, b')
  {}

  lemma NotFailed(c: Config, r: nat, x: Rank)
    requires ValidConfig(c) && r > 0 && RankInv(c, r, x)
    ensures x.pc != Failed
  {}

  lemma YieldDown(c: Config, r: nat, x: Rank, l: Link, down: Link, nx: Rank)
    requires ValidConfig(c) && 0 < r < c.n && RankInv(c, r, x) && LinkInv(c, r, x, down, nx)
    requires x.pc.Yielding?
    ensures var (x', _) := StepUpstream(c, x, l);
      WellFormedRank(c, x') && LinkInv(c, r, x', down, nx)
  {
    assert WellFormedRank(c, x);
    hide RankInv;
    hide Message;
    hide HasMeta;
    hide Metas;
    hide Holds;
  }

  lemma DownstreamRank(c: Config, r: nat, x: Rank, down: Link, nx: Rank)
    requires ValidConfig(c) && 0 < r < c.n && RankInv(c, r, x) && LinkInv(c, r, x, down, nx)
    requires x.pc.Offering? || x.pc.AwaitNext?
    requires x.pc.AwaitNext? ==> CanAwait(x, down.notes)
    ensures var (x', d') := StepDownstream(true, x, down);
      RankInv(c, r, x') && LinkInv(c, r, x', d', nx)
  {
    hide RankInv;
    hide LinkInv;
    OfferPending(c, r, x);
    if x.pc.AwaitNext? { NoteMatches(c, r, x, down, nx); }
    DownstreamSelf(c, r, x, down);
    DownstreamLink(c, r, x, down, nx);
  }

  lemma DownstreamSelf(c: Config, r: nat, x: Rank, down: Link)
    requires ValidConfig(c) && 0 < r < c.n && RankInv(c, r, x)
    requires x.pc.Offering? || x.pc.AwaitNext?
    requires x.pc.AwaitNext? ==> down.notes != [] && x.pending == Some(down.notes[0])
    ensures RankInv(c, r, StepDownstream(true, x, down).0)
  {
    NothingYielded(c.buckets, c.size, x.k);
    hide HoldsExcept;
    hide HasMeta;
    hide HasTransfer;
  }

  lemma DownstreamLink(c: Config, r: nat, x: Rank, down: Link, nx: Rank)
    requires ValidConfig(c) && 0 < r < c.n && RankInv(c, r, x) && LinkInv(c, r, x, down, nx)
    requires x.pc.Offering? || x.pc.AwaitNext?
    requires x.pc.AwaitNext? ==> CanAwait(x, down.notes)
    ensures var (x', d') := StepDownstream(true, x, down); WellFormedRank(c, x') && LinkInv(c, r, x', d', nx)
  {
    hide Outs;
    hide HoldsExcept;
    hide HasTransfer;
  }

  lemma DownstreamLast(c: Config, r: nat, x: Rank)
    requires ValidConfig(c) && r == c.n && RankInv(c, r, x)
    requires x.pc.Offering? || x.pc.AwaitNext?
    requires x.pc.AwaitNext? ==> x.pending == None
    ensures RankInv(c, r, StepDownstream(false, x, Link([], [])).0)
  {
    NothingYielded(c.buckets, c.size, x.k);
  }

  lemma DownstreamUp(c: Config, hasNext: bool, r: nat, p: Rank, l: Link, x: Rank, down: Link)
    requires ValidConfig(c) && 0 < r <= c.n && RankInv(c, r, x) && WellFormedRank(c, p) && LinkInv(c, r - 1, p, l, x)
    requires x.pc.Offering? || x.pc.AwaitNext?
    requires x.pc.AwaitNext? && hasNext ==> x.pending != None && down.notes != [] && Some(down.notes[0]) == x.pending
    requires x.pc.AwaitNext? && !hasNext ==> x.pending == None
    ensures var (x', _) := StepDownstream(hasNext, x, down);
      LinkInv(c, r - 1, p, l, x')
  {
    hide RankInv;
    hide Message;
  }

  /** What is being read cannot change under the READ: the predecessor has no notification yet. */
  lemma SourceHolds(c: Config, r: nat, p: Rank, l: Link, x: Rank)
    requires ValidConfig(c) && 0 < r <= c.n && RankInv(c, r, x) && WellFormedRank(c, p) && LinkInv(c, r - 1, p, l, x)
    requires x.read.Flying?
    ensures 0 < Popped(x) <= |c.buckets| && Holds(p.bufs[x.read.src], c.buckets[Popped(x) - 1].data)
  {}

  lemma CopyLocal(c: Config, r: nat, p: Rank, x: Rank, i: nat)
    requires ValidConfig(c) && 0 < r <= c.n && RankInv(c, r, x) && WellFormedRank(c, p)
    requires x.read.Flying? && i in x.read.missing
    requires 0 < Popped(x) <= |c.buckets| && Holds(p.bufs[x.read.src], c.buckets[Popped(x) - 1].data)
    ensures RankInv(c, r, Copied(c, p, x, i))
  {
    hide HoldsExcept;
    ArrivalStep(x.bufs[x.read.dst], c.buckets[Popped(x) - 1].data, x.read.missing, p.bufs[x.read.src], i);
  }

  lemma CopyUp(c: Config, r: nat, p: Rank, l: Link, x: Rank, i: nat)
    requires ValidConfig(c) && 0 < r <= c.n && WellFormedRank(c, x) && WellFormedRank(c, p)
    requires LinkInv(c, r - 1, p, l, x)
    requires x.read.Flying? && i in x.read.missing
    ensures LinkInv(c, r - 1, p, l, Copied(c, p, x, i))
  {
    hide Holds;
    hide Acked;
  }

  lemma CopyRank(c: Config, r: nat, p: Rank, l: Link, x: Rank, i: nat)
    requires ValidConfig(c) && 0 < r <= c.n && RankInv(c, r, x) && WellFormedRank(c, p) && LinkInv(c, r - 1, p, l, x)
    requires x.read.Flying? && i in x.read.missing
    ensures WellFormedRank(c, x)
    ensures var x' := Copied(c, p, x, i);
      RankInv(c, r, x') && LinkInv(c, r - 1, p, l, x')
  {
    hide RankInv;
    hide LinkInv;
    RankInvWellFormed(c, r, x);
    SourceHolds(c, r, p, l, x);
    CopyLocal(c, r, p, x, i);
    CopyUp(c, r, p, l, x, i);
  }

  lemma CopyDown(c: Config, r: nat, p: Rank, l: Link, x: Rank, i: nat, down: Link, nx: Rank)
    requires ValidConfig(c) && 0 < r < c.n && RankInv(c, r, x) && WellFormedRank(c, p) && LinkInv(c, r - 1, p, l, x)
    requires x.read.Flying? && i in x.read.missing && LinkInv(c, r, x, down, nx)
    ensures var x' := Copied(c, p, x, i);
      WellFormedRank(c, x') && LinkInv(c, r, x', down, nx)
  {}

  lemma FinishRank(c: Config, r: nat, p: Rank, l: Link, x: Rank)
    requires ValidConfig(c) && 0 < r <= c.n && RankInv(c, r, x) && WellFormedRank(c, p) && LinkInv(c, r - 1, p, l, x)
    requires x.read.Flying? && x.read.missing == {}
    ensures var x', l' := x.(read := Complete), l.(notes := l.notes + [x.read.key]);
      RankInv(c, r, x') && LinkInv(c, r - 1, p, l', x')
  {
    Arrived(x.bufs[x.read.dst], c.buckets[Popped(x) - 1].data);
  }

  lemma FinishDown(c: Config, r: nat, x: Rank, down: Link, nx: Rank)
    requires ValidConfig(c) && 0 < r < c.n && RankInv(c, r, x) && LinkInv(c, r, x, down, nx)
    ensures LinkInv(c, r, x.(read := Complete), down, nx)
  {}

  /** A rank whose wait can return is woken by the notification of its own offer. */
  lemma NoteMatches(c: Config, i: nat, a: Rank, l: Link, b: Rank)
    requires ValidConfig(c) && RankInv(c, i, a) && LinkInv(c, i, a, l, b) && i < c.n
    requires a.pc.AwaitPrev? || a.pc.AwaitLast? || a.pc.AwaitNext?
    requires CanAwait(a, l.notes) && a.pending != None
    ensures l.notes != [] && a.pending == Some(l.notes[0])
  {}

  lemma LocalKeeps(c: Config, s: State, r: nat)
    requires ValidConfig(c) && Inv(c, s) && WellFormed(c, s) && 0 < r <= c.n && Enabled(c, s, Local(r))
    ensures Inv(c, Apply(c, s, Local(r)))
  {
    hide RankInv;
    hide LinkInv;
    var s', x, p, up := Apply(c, s, Local(r)), s.ranks[r], s.ranks[r - 1], s.links[r - 1];
    assert WellFormedRank(c, p);
    if x.pc.Offering? || x.pc.AwaitNext? {
      if r < c.n {
        DownstreamRank(c, r, x, s.links[r], s.ranks[r + 1]);
        OfferPending(c, r, x);
        if x.pc.AwaitNext? { NoteMatches(c, r, x, s.links[r], s.ranks[r + 1]); }
        DownstreamUp(c, true, r, p, up, x, s.links[r]);
      } else {
        DownstreamLast(c, r, x);
        DownstreamUp(c, false, r, p, up, x, Link([], []));
      }
    } else if x.pc.Yielding? {
      YieldRank(c, r, p, up, x);
      if r < c.n { YieldDown(c, r, x, up, s.links[r], s.ranks[r + 1]); }
    } else {
      if x.pc.FirstMeta? || x.pc.NextMeta? { TakeRank(c, r, p, up, x); } else { SwapRank(c, r, p, up, x); }
      if r < c.n { UpstreamDown(c, r, p, up, x, s.links[r], s.ranks[r + 1]); }
    }
    Reassemble(c, s, s', r);
  }

  lemma OfferPending(c: Config, r: nat, x: Rank)
    requires ValidConfig(c) && 0 < r < c.n && RankInv(c, r, x)
    ensures x.pc.AwaitNext? ==> x.pending != None
  {}

  lemma RankInvWellFormed(c: Config, r: nat, x: Rank)
    requires ValidConfig(c) && RankInv(c, r, x)
    ensures WellFormedRank(c, x) && x.pc != Failed
  {}

  lemma InvWellFormed(c: Config, s: State)
    requires ValidConfig(c) && Inv(c, s)
    ensures WellFormed(c, s)
  {
    hide RankInv;
    hide LinkInv;
    forall r | 0 <= r <= c.n ensures WellFormedRank(c, s.ranks[r]) {
      RankInvWellFormed(c, r, s.ranks[r]);
    }
  }

  lemma SenderKeeps(c: Config, s: State)
    requires ValidConfig(c) && Inv(c, s) && WellFormed(c, s) && Enabled(c, s, Local(0))
    ensures Inv(c, Apply(c, s, Local(0)))
  {
    hide RankInv;
    hide LinkInv;
    var x := s.ranks[0];
    SenderPcs(c, x);
    if x.pc.Offering? || x.pc.Filling? { SenderOffers(c, x, s.links[0], s.ranks[1]); }
    else { SenderWaits(c, x, s.links[0], s.ranks[1]); }
    Reassemble(c, s, Apply(c, s, Local(0)), 0);
  }

  lemma CopyKeeps(c: Config, s: State, r: nat, i: nat)
    requires ValidConfig(c) && Inv(c, s) && WellFormed(c, s) && Enabled(c, s, Copy(r, i))
    ensures Inv(c, Apply(c, s, Copy(r, i)))
  {
    hide RankInv;
    hide LinkInv;
    CopyRank(c, r, s.ranks[r - 1], s.links[r - 1], s.ranks[r], i);
    if r < c.n {
      CopyDown(c, r, s.ranks[r - 1], s.links[r - 1], s.ranks[r], i, s.links[r], s.ranks[r + 1]);
    }
    Reassemble(c, s, Apply(c, s, Copy(r, i)), r);
  }

  lemma FinishKeeps(c: Config, s: State, r: nat)
    requires ValidConfig(c) && Inv(c, s) && WellFormed(c, s) && Enabled(c, s, Finish(r))
    ensures Inv(c, Apply(c, s, Finish(r)))
  {
    hide RankInv;
    hide LinkInv;
    FinishRank(c, r, s.ranks[r - 1], s.links[r - 1], s.ranks[r]);
    if r < c.n { FinishDown(c, r, s.ranks[r], s.links[r], s.ranks[r + 1]); }
    Reassemble(c, s, Apply(c, s, Finish(r)), r);
  }

  lemma FillKeeps(c: Config, s: State, g: nat)
    requires ValidConfig(c) && Inv(c, s) && WellFormed(c, s) && Enabled(c, s, FillTo(g))
    ensures Inv(c, Apply(c, s, FillTo(g)))
  {
    hide RankInv;
    hide LinkInv;
    FillRank(c, s.ranks[0], s.links[0], s.ranks[1], g);
    Reassemble(c, s, Apply(c, s, FillTo(g)), 0);
  }

  /** Every step keeps the invariant. */
  lemma StepKeeps(c: Config, s: State, e: Event)
    requires ValidConfig(c) && Inv(c, s) && WellFormed(c, s) && Enabled(c, s, e)
    ensures Inv(c, Apply(c, s, e))
  {
    hide *;
    match e
    case FillTo(g) => FillKeeps(c, s, g);
    case Local(r) =>
      if r == 0 {
        SenderKeeps(c, s);
      } else {
        LocalStep(c, s, r);
      }
    case Copy(r, i) => CopyKeeps(c, s, r, i);
    case Finish(r) => FinishKeeps(c, s, r);
  }

  lemma LocalStep(c: Config, s: State, r: nat)
    requires ValidConfig(c) && Inv(c, s) && WellFormed(c, s) && Enabled(c, s, Local(r)) && r > 0
    ensures Inv(c, Apply(c, s, Local(r)))
  {
    hide RankInv;
    hide LinkInv;
    LocalKeeps(c, s, r);
  }

  lemma SenderPcs(c: Config, x: Rank)
    requires ValidConfig(c) && RankInv(c, 0, x)
    ensures x.pc.Filling? || x.pc.AwaitPrev? || x.pc.Offering? || x.pc.AwaitLast? || x.pc.Done?
  {}

  /** Every state of every run satisfies the invariant. */
  lemma {:induction false} RunInv(c: Config, states: seq<State>, events: seq<Event>, i: nat)
    requires ValidConfig(c) && IsRun(c, states, events) && i <= |events|
    ensures Inv(c, states[i])
  {
    if i == 0 {
      InitInv(c, states[0]);
    } else {
      RunInv(c, states, events, i - 1);
      assert IsStep(c, states[i - 1], events[i - 1], states[i]);
      StepKeeps(c, states[i - 1], events[i - 1]);
    }
  }
}
