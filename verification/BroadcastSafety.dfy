/** The inductive invariant of the broadcast rounds and its preservation by every step. */
module BroadcastSafety {
  import opened Transfers
  import opened Streams
  import opened BroadcastRounds

  /** The buffer of bucket m on rank r. */
  function Slot(r: nat, m: nat): bit {
    if r == 0 then m % 2 else (m + 1) % 2
  }

  // ---------- The invariant ----------

  ghost predicate SenderInv(c: Config, x: Rank)
    requires WellFormedRank(c, x)
  {
    var data := c.buckets[x.k].data;
    && x.send == Slot(0, x.k) && x.recv != x.send && x.out == []
    && |data| <= c.size
    && !x.op.Waiting?
    && (x.op.Running? ==>
          && 0 < x.rounds <= |c.buckets| && x.op.buf == Slot(0, x.rounds - 1)
          && Holds(x.bufs[x.op.buf], c.buckets[x.rounds - 1].data))
    && match x.pc
       case Filling(pos) => pos <= |data| && x.bufs[x.send][..pos] == data[..pos] && x.rounds == x.k
       case AwaitPrev => Holds(x.bufs[x.send], data) && x.rounds == x.k
       case Launching => Holds(x.bufs[x.send], data) && x.rounds == x.k && !x.op.Running?
       case AwaitLast => LastBucket(c, x.k) && x.rounds == x.k + 1
       case Done => LastBucket(c, x.k) && x.rounds == x.k + 1 && !x.op.Running?
       case _ => false
  }

  /** The operation of a receiver is the one of round `rounds - 1`. */
  ghost predicate OpInv(c: Config, r: nat, x: Rank)
    requires WellFormedRank(c, x)
  {
    var m := x.rounds - 1;
    match x.op
    case NoOp => true
    case Waiting(buf) => 0 <= m < |c.buckets| && buf == Slot(r, m)
    case Running(buf, md, missing) =>
      && 0 <= m < |c.buckets| && buf == Slot(r, m) && md == MetadataOf(c, m)
      && HoldsExcept(x.bufs[buf], c.buckets[m].data, missing)
    case Finished(md) =>
      0 <= m < |c.buckets| && md == MetadataOf(c, m) && Holds(x.bufs[Slot(r, m)], c.buckets[m].data)
  }

  ghost predicate OnBucket(c: Config, r: nat, x: Rank)
    requires WellFormedRank(c, x)
  {
    && x.send == Slot(r, x.k)
    && x.metadata == MetadataOf(c, x.k)
    && Holds(x.bufs[x.send], c.buckets[x.k].data)
  }

  ghost predicate ReceiverInv(c: Config, r: nat, x: Rank)
    requires ValidConfig(c) && WellFormedRank(c, x)
  {
    && x.recv != x.send
    && OpInv(c, r, x)
    && match x.pc
       case FirstLaunch => x.k == 0 && x.send == 0 && x.op == NoOp && x.rounds == 0 && x.out == []
       case AwaitFirst => x.k == 0 && x.send == 0 && x.op != NoOp && x.rounds == 1 && x.out == []
       case Launching =>
         OnBucket(c, r, x) && !LastBucket(c, x.k) && x.op == NoOp && x.rounds == x.k + 1 && x.out == Outs(c.buckets, c.size, x.k)
       case Yielding(j) =>
         && OnBucket(c, r, x) && NextOp(c, x) && j <= |x.metadata.metas|
         && x.out == Outs(c.buckets, c.size, x.k) + UnpackedBucket(c.buckets, c.size, x.k)[..j]
       case AwaitNext => OnBucket(c, r, x) && !LastBucket(c, x.k) && NextOp(c, x) && x.out == Outs(c.buckets, c.size, x.k + 1)
       case Done => OnBucket(c, r, x) && LastBucket(c, x.k) && NextOp(c, x) && x.out == Outs(c.buckets, c.size, x.k + 1)
       case _ => false
  }

  /** While bucket k is yielded, the operation of bucket k + 1 is under way, if there is one. */
  ghost predicate NextOp(c: Config, x: Rank) {
    if LastBucket(c, x.k) then x.op == NoOp && x.rounds == x.k + 1 else x.op != NoOp && x.rounds == x.k + 2
  }

  /** Rank 0 = p, rank r = x and the subscription of x. */
  ghost predicate PairInv(c: Config, p: Rank, x: Rank, sub: seq<Metadata>) {
    var taken := x.rounds - if x.op.Waiting? then 1 else 0;
    && (if p.op.Running? then p.rounds - 1 else p.rounds) <= Completed(x)
    && 0 <= taken <= p.rounds <= taken + 1 && p.rounds <= |c.buckets|
    && sub == if taken < p.rounds then [MetadataOf(c, taken)] else []
  }

  ghost predicate RankInv(c: Config, r: nat, x: Rank)
    requires ValidConfig(c)
  {
    WellFormedRank(c, x) && if r == 0 then SenderInv(c, x) else ReceiverInv(c, r, x)
  }

  ghost predicate Inv(c: Config, s: State)
    requires ValidConfig(c)
  {
    && |s.ranks| == |s.subs| == c.n + 1
    && (forall r :: 0 <= r <= c.n ==> RankInv(c, r, s.ranks[r]))
    && (forall r :: 0 < r <= c.n ==> PairInv(c, s.ranks[0], s.ranks[r], s.subs[r]))
  }

  lemma InitInv(c: Config, s: State)
    requires ValidConfig(c) && Init(c, s)
    ensures Inv(c, s)
  {
    assert c.buckets[0] in c.buckets;
    assert s.ranks[0] == InitRank(0, s.ranks[0].bufs);
    forall r | 0 < r <= c.n ensures RankInv(c, r, s.ranks[r]) && PairInv(c, s.ranks[0], s.ranks[r], s.subs[r]) {
      assert s.ranks[r] == InitRank(r, s.ranks[r].bufs);
    }
  }

  // ---------- Preservation, one rank at a time ----------

  lemma FillRank(c: Config, p: Rank, g: nat)
    requires ValidConfig(c) && RankInv(c, 0, p) && p.pc.Filling? && p.pc.pos < g <= |c.buckets[p.k].data|
    ensures RankInv(c, 0, Filled(c, p, g))
  {
    var d, p' := c.buckets[p.k].data, Filled(c, p, g);
    assert p'.bufs[p.send][..g] == p.bufs[p.send][..p.pc.pos] + d[p.pc.pos..g];
    assert d[..g] == d[..p.pc.pos] + d[p.pc.pos..g];
  }

  lemma SenderRank(c: Config, p: Rank)
    requires ValidConfig(c) && RankInv(c, 0, p) && CanStep(c, p, 0)
    ensures RankInv(c, 0, StepSender(c, p))
  {
    assert c.buckets[p.k] in c.buckets;
    if p.pc.Filling? {
      assert p.bufs[p.send][..|c.buckets[p.k].data|] == c.buckets[p.k].data;
    } else if p.pc.Launching? && !LastBucket(c, p.k) {
      assert c.buckets[p.k + 1] in c.buckets;
    }
  }

  lemma SenderPair(c: Config, p: Rank, r: nat, x: Rank, sub: seq<Metadata>)
    requires ValidConfig(c) && RankInv(c, 0, p) && CanStep(c, p, 0)
    requires r > 0 && RankInv(c, r, x) && PairInv(c, p, x, sub)
    ensures PairInv(c, StepSender(c, p), x, if p.pc.Launching? then sub + [MetadataOf(c, p.k)] else sub)
  {}

  lemma ReceiverRank(c: Config, r: nat, x: Rank)
    requires ValidConfig(c) && 0 < r <= c.n && RankInv(c, r, x) && CanStep(c, x, r) && !x.pc.Yielding?
    ensures RankInv(c, r, StepReceiver(x))
  {
    hide HoldsExcept;
    NothingYielded(c.buckets, c.size, x.k);
    if x.pc.AwaitNext? { NothingYielded(c.buckets, c.size, x.k + 1); }
  }

  lemma ReceiverPair(c: Config, p: Rank, r: nat, x: Rank, sub: seq<Metadata>)
    requires ValidConfig(c) && 0 < r <= c.n && RankInv(c, r, x) && CanStep(c, x, r) && PairInv(c, p, x, sub)
    ensures PairInv(c, p, StepReceiver(x), sub)
  {}

  lemma YieldRank(c: Config, r: nat, x: Rank)
    requires ValidConfig(c) && 0 < r <= c.n && RankInv(c, r, x) && x.pc.Yielding?
    ensures RankInv(c, r, StepReceiver(x))
  {
    hide HoldsExcept;
    BucketView(c.buckets, c.size, x.k, x.pc.j, x.bufs[x.send]);
  }

  lemma TakeRank(c: Config, p: Rank, r: nat, x: Rank, sub: seq<Metadata>)
    requires ValidConfig(c) && 0 < r <= c.n && RankInv(c, r, x) && PairInv(c, p, x, sub)
    requires x.op.Waiting? && sub != []
    ensures var x' := x.(op := Running(x.op.buf, sub[0], Positions(c.size)));
      RankInv(c, r, x') && PairInv(c, p, x', sub[1..])
  {
    assert c.buckets[x.rounds - 1] in c.buckets;
    NothingArrived(x.bufs[x.op.buf], c.buckets[x.rounds - 1].data);
  }

  lemma CopyRank(c: Config, p: Rank, r: nat, x: Rank, i: nat)
    requires ValidConfig(c) && 0 < r <= c.n && RankInv(c, r, x) && RankInv(c, 0, p)
    requires p.op.Running? && x.op.Running? && i in x.op.missing && p.rounds == x.rounds
    ensures RankInv(c, r, Copied(c, p, x, i))
  {
    hide HoldsExcept;
    ArrivalStep(x.bufs[x.op.buf], c.buckets[x.rounds - 1].data, x.op.missing, p.bufs[p.op.buf], i);
  }

  lemma FinishRank(c: Config, r: nat, x: Rank)
    requires ValidConfig(c) && 0 < r <= c.n && RankInv(c, r, x) && x.op.Running? && x.op.missing == {}
    ensures RankInv(c, r, x.(op := Finished(x.op.metadata)))
  {
    Arrived(x.bufs[x.op.buf], c.buckets[x.rounds - 1].data);
  }

  lemma FinishSendRank(c: Config, p: Rank)
    requires ValidConfig(c) && RankInv(c, 0, p) && p.op.Running?
    ensures RankInv(c, 0, p.(op := Finished(p.op.metadata)))
  {}

  /** Copying and finishing leave the counters of the pair in place, or raise the completed ones. */
  lemma PairKept(c: Config, p: Rank, p': Rank, x: Rank, x': Rank, sub: seq<Metadata>)
    requires PairInv(c, p, x, sub)
    requires p'.rounds == p.rounds && x'.rounds == x.rounds && x'.op.Waiting? == x.op.Waiting?
    requires (p.op.Running? && !p'.op.Running?) ==> Completed(x') >= p.rounds
    requires p'.op.Running? ==> p.op.Running?
    requires Completed(x') >= Completed(x)
    ensures PairInv(c, p', x', sub)
  {}

  // ---------- Preservation, on states ----------

  lemma Reassemble(c: Config, s: State, s': State, r: nat)
    requires ValidConfig(c) && Inv(c, s) && 0 < r <= c.n
    requires |s'.ranks| == |s'.subs| == c.n + 1
    requires forall q :: 0 <= q <= c.n && q != r ==> s'.ranks[q] == s.ranks[q] && s'.subs[q] == s.subs[q]
    requires RankInv(c, r, s'.ranks[r]) && PairInv(c, s.ranks[0], s'.ranks[r], s'.subs[r])
    ensures Inv(c, s')
  {
    hide RankInv;
    hide PairInv;
  }

  lemma SenderReassemble(c: Config, s: State, s': State)
    requires ValidConfig(c) && Inv(c, s)
    requires |s'.ranks| == |s'.subs| == c.n + 1 && RankInv(c, 0, s'.ranks[0])
    requires forall q :: 0 < q <= c.n ==> s'.ranks[q] == s.ranks[q]
    requires forall q :: 0 < q <= c.n ==> PairInv(c, s'.ranks[0], s.ranks[q], s'.subs[q])
    ensures Inv(c, s')
  {
    hide RankInv;
    hide PairInv;
  }

  lemma RankInvWellFormed(c: Config, r: nat, x: Rank)
    requires ValidConfig(c) && RankInv(c, r, x)
    ensures WellFormedRank(c, x) && x.pc != Failed
  {}

  lemma InvWellFormed(c: Config, s: State)
    requires ValidConfig(c) && Inv(c, s)
    ensures WellFormed(c, s)
  {
    hide RankInv;
    hide PairInv;
    forall r | 0 <= r <= c.n ensures WellFormedRank(c, s.ranks[r]) {
      RankInvWellFormed(c, r, s.ranks[r]);
    }
  }

  lemma SenderKeeps(c: Config, s: State, e: Event)
    requires ValidConfig(c) && Inv(c, s) && WellFormed(c, s) && Enabled(c, s, e)
    requires e.FillTo? || e.FinishSend? || e == Local(0)
    ensures Inv(c, Apply(c, s, e))
  {
    hide RankInv;
    hide PairInv;
    var s', p := Apply(c, s, e), s.ranks[0];
    match e {
      case FillTo(g) => FillRank(c, p, g);
      case FinishSend => FinishSendRank(c, p);
      case _ => SenderRank(c, p);
    }
    forall q | 0 < q <= c.n ensures PairInv(c, s'.ranks[0], s.ranks[q], s'.subs[q]) {
      var x, sub := s.ranks[q], s.subs[q];
      if e == Local(0) { SenderPair(c, p, q, x, sub); }
      else { PairKept(c, p, s'.ranks[0], x, x, sub); }
    }
    SenderReassemble(c, s, s');
  }

  lemma ReceiverKeeps(c: Config, s: State, e: Event, r: nat)
    requires ValidConfig(c) && Inv(c, s) && WellFormed(c, s) && Enabled(c, s, e)
    requires r > 0 && (e == Local(r) || e == TakeMeta(r) || (e.Copy? && e.r == r) || e == Finish(r))
    ensures Inv(c, Apply(c, s, e))
  {
    hide RankInv;
    hide PairInv;
    var s', p, x, sub := Apply(c, s, e), s.ranks[0], s.ranks[r], s.subs[r];
    match e {
      case Local(_) =>
        if x.pc.Yielding? { YieldRank(c, r, x); } else { ReceiverRank(c, r, x); }
        ReceiverPair(c, p, r, x, sub);
      case TakeMeta(_) => TakeRank(c, p, r, x, sub);
      case Copy(_, i) =>
        CopyRank(c, p, r, x, i);
        PairKept(c, p, p, x, s'.ranks[r], sub);
      case Finish(_) =>
        FinishRank(c, r, x);
        PairKept(c, p, p, x, s'.ranks[r], sub);
    }
    Reassemble(c, s, s', r);
  }

  lemma StepKeeps(c: Config, s: State, e: Event)
    requires ValidConfig(c) && Inv(c, s) && WellFormed(c, s) && Enabled(c, s, e)
    ensures Inv(c, Apply(c, s, e))
  {
    if e.FillTo? || e.FinishSend? || e == Local(0) {
      SenderKeeps(c, s, e);
    } else {
      ReceiverKeeps(c, s, e, e.r);
    }
  }

  lemma {:induction false} RunInv(c: Config, states: seq<State>, events: seq<Event>, i: nat)
    requires ValidConfig(c) && IsRun(c, states, events) && i <= |events|
    ensures Inv(c, states[i]) && WellFormed(c, states[i])
  {
    if i == 0 {
      InitInv(c, states[0]);
    } else {
      RunInv(c, states, events, i - 1);
      assert IsStep(c, states[i - 1], events[i - 1], states[i]);
      StepKeeps(c, states[i - 1], events[i - 1]);
    }
    InvWellFormed(c, states[i]);
  }
}
