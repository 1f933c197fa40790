/** What every run of the broadcast engines guarantees: the same rounds everywhere, intact delivery,
    buffer exclusivity and progress, with and without the synchronous operations of HCCL. */
module BroadcastResults {
  import opened Sums
  import opened Buckets
  import opened Transfers
  import opened Streams
  import opened BroadcastRounds
  import opened BroadcastSafety
  import Packing

  // ---------- Delivery and rounds ----------

  lemma RankDelivers(c: Config, r: nat, x: Rank)
    requires ValidConfig(c) && 0 < r <= c.n && RankInv(c, r, x)
    ensures x.out <= Outs(c.buckets, c.size, |c.buckets|)
    ensures x.pc == Done ==> x.out == Outs(c.buckets, c.size, |c.buckets|)
  {
    hide OpInv;
    var k := if x.pc.Launching? || x.pc.FirstLaunch? || x.pc.AwaitFirst? then x.k else x.k + 1;
    OutsGrow(c.buckets, c.size, k, |c.buckets|);
    if x.pc.Yielding? { YieldedPrefix(c.buckets, c.size, x.k, x.pc.j); }
  }

  /** In every run, under every interleaving: no assertion fails, each receiver has yielded a prefix of
      the sender's (name, bytes) sequence, and all of it when it returns. */
  lemma Delivery(c: Config, states: seq<State>, events: seq<Event>, i: nat, r: nat)
    requires ValidConfig(c) && IsRun(c, states, events) && i <= |events| && r <= c.n
    ensures |states[i].ranks| == c.n + 1 && states[i].ranks[r].pc != Failed
    ensures Packing.Decodable(c.buckets)
    ensures r > 0 ==> states[i].ranks[r].out <= Packing.Decode(c.buckets)
    ensures r > 0 && states[i].ranks[r].pc == Done ==> states[i].ranks[r].out == Packing.Decode(c.buckets)
  {
    RunInv(c, states, events, i);
    AllOuts(c.buckets, c.size);
    RankInvWellFormed(c, r, states[i].ranks[r]);
    if r > 0 { RankDelivers(c, r, states[i].ranks[r]); }
  }

  lemma StreamDelivered(
      ws: seq<Weight>, size: nat, n: nat, sync: bool, states: seq<State>, events: seq<Event>, i: nat, r: nat)
    requires n >= 1 && Packing.AllFit(ws, size) && DistinctNames(ws)
    requires IsRun(Config(Packing.Encode(ws, size), size, n, sync), states, events) && i <= |events|
    requires 0 < r <= n && |states[i].ranks| == n + 1 && states[i].ranks[r].pc == Done
    ensures states[i].ranks[r].out == ws
  {
    Packing.EncodeDecode(ws, size);
    Delivery(Config(Packing.Encode(ws, size), size, n, sync), states, events, i, r);
  }

  /** At most one round separates the sender and a receiver; the operation of round k leaves bucket k in
      the receiver's buffer; and a rank that returns has taken part in one round per bucket. */
  lemma SameRounds(c: Config, states: seq<State>, events: seq<Event>, i: nat, r: nat)
    requires ValidConfig(c) && IsRun(c, states, events) && i <= |events| && 0 < r <= c.n
    ensures |states[i].ranks| == c.n + 1
    ensures var p, x := states[i].ranks[0], states[i].ranks[r];
      && |x.bufs| == 2
      && Completed(p) <= Completed(x) <= p.rounds <= x.rounds + 1 <= p.rounds + 2
      && (x.op.Finished? ==>
            && 0 < x.rounds <= |c.buckets|
            && Holds(x.bufs[Slot(r, x.rounds - 1)], c.buckets[x.rounds - 1].data))
      && (x.pc == Done ==> x.rounds == Completed(x) == |c.buckets|)
      && (p.pc == Done ==> p.rounds == Completed(p) == |c.buckets| && Completed(x) == |c.buckets|)
  {
    RunInv(c, states, events, i);
    var p, x := states[i].ranks[0], states[i].ranks[r];
    assert RankInv(c, 0, p) && RankInv(c, r, x) && PairInv(c, p, x, states[i].subs[r]);
  }

  // ---------- Exclusivity ----------

  /** The sender never fills the buffer it broadcasts, which keeps the bucket of its round; a receiver
      never receives into the buffer it yields from, which keeps the bucket it yields. */
  lemma Exclusivity(c: Config, states: seq<State>, events: seq<Event>, i: nat, r: nat)
    requires ValidConfig(c) && IsRun(c, states, events) && i <= |events| && r <= c.n
    ensures |states[i].ranks| == c.n + 1
    ensures var x := states[i].ranks[r];
      && WellFormedRank(c, x)
      && (r == 0 && x.op.Running? ==>
            && 0 < x.rounds <= |c.buckets|
            && Holds(x.bufs[x.op.buf], c.buckets[x.rounds - 1].data)
            && (x.pc.Filling? ==> x.send != x.op.buf))
      && (r > 0 && x.pc.Yielding? ==>
            && Holds(x.bufs[x.send], c.buckets[x.k].data)
            && (InFlight(x) ==> x.send != x.op.buf))
  {
    RunInv(c, states, events, i);
    assert RankInv(c, r, states[i].ranks[r]);
  }

  // ---------- Progress ----------

  function OpWork(c: Config, x: Rank): nat {
    match x.op
    case NoOp => 0
    case Waiting(_) => c.size + 3
    case Running(_, _, missing) => |missing| + 2
    case Finished(_) => 0
  }

  /** An upper bound on the steps rank x and its operation still take. */
  function Work(c: Config, r: nat, x: Rank): nat
    requires x.k < |c.buckets|
  {
    var b, rest := c.buckets[x.k], Rest(c.buckets, c.size, x.k + 1);
    OpWork(c, x) +
    match x.pc
    case Filling(pos) => rest + Minus(|b.data|, pos) + 8
    case AwaitPrev => rest + 7
    case Launching => if r == 0 then rest + 6 else rest + |b.metas| + c.size + 10
    case AwaitLast => 1
    case FirstLaunch => Rest(c.buckets, c.size, 0) + c.size + 10
    case AwaitFirst => Rest(c.buckets, c.size, 0) + 1
    case Yielding(j) => rest + Minus(|b.metas|, j) + 3
    case AwaitNext => rest + 2
    case Done => 0
    case Failed => 0
  }

  function Works(c: Config, ranks: seq<Rank>): seq<nat>
    requires forall r :: 0 <= r < |ranks| ==> ranks[r].k < |c.buckets|
  {
    seq(|ranks|, r requires 0 <= r < |ranks| => Work(c, r, ranks[r]))
  }

  function Measure(c: Config, s: State): nat
    requires WellFormed(c, s)
  {
    Sum(Works(c, s.ranks))
  }

  lemma MeasureDrops(c: Config, s: State, s': State, r: nat)
    requires WellFormed(c, s) && WellFormed(c, s') && r <= c.n
    requires forall q :: 0 <= q <= c.n && q != r ==> s'.ranks[q] == s.ranks[q]
    requires Work(c, r, s'.ranks[r]) < Work(c, r, s.ranks[r])
    ensures Measure(c, s') < Measure(c, s)
  {
    hide Work;
    var w, w' := Works(c, s.ranks), Works(c, s'.ranks);
    assert w' == w[r := w'[r]];
    SumUpdate(w, r, w'[r]);
  }

  lemma FillWork(c: Config, p: Rank, g: nat)
    requires ValidConfig(c) && RankInv(c, 0, p) && p.pc.Filling? && p.pc.pos < g <= |c.buckets[p.k].data|
    ensures Work(c, 0, Filled(c, p, g)) < Work(c, 0, p)
  {}

  lemma SenderWork(c: Config, p: Rank)
    requires ValidConfig(c) && RankInv(c, 0, p) && CanStep(c, p, 0)
    ensures StepSender(c, p).k < |c.buckets| && Work(c, 0, StepSender(c, p)) < Work(c, 0, p)
  {
    if p.pc.Launching? && !LastBucket(c, p.k) { RestUnfolds(c.buckets, c.size, p.k + 1); }
  }

  lemma ReceiverWork(c: Config, r: nat, x: Rank)
    requires ValidConfig(c) && 0 < r <= c.n && RankInv(c, r, x) && CanStep(c, x, r)
    ensures StepReceiver(x).k < |c.buckets| && Work(c, r, StepReceiver(x)) < Work(c, r, x)
  {
    hide HoldsExcept;
    hide Outs;
    RestUnfolds(c.buckets, c.size, 0);
    if x.pc.Yielding? { BucketView(c.buckets, c.size, x.k, x.pc.j, x.bufs[x.send]); }
    if x.pc.AwaitNext? { RestUnfolds(c.buckets, c.size, x.k + 1); }
  }

  lemma OpOnly(c: Config, r: nat, x: Rank, x': Rank)
    requires x.k < |c.buckets| && x'.k == x.k && x'.pc == x.pc && OpWork(c, x') < OpWork(c, x)
    ensures Work(c, r, x') < Work(c, r, x)
  {
    hide Rest;
    hide OpWork;
  }

  lemma TakeWork(c: Config, r: nat, x: Rank, md: Metadata)
    requires x.k < |c.buckets| && x.op.Waiting?
    ensures Work(c, r, x.(op := Running(x.op.buf, md, Positions(c.size)))) < Work(c, r, x)
  {
    hide Work;
    OpOnly(c, r, x, x.(op := Running(x.op.buf, md, Positions(c.size))));
  }

  lemma CopyWork(c: Config, r: nat, p: Rank, x: Rank, i: nat)
    requires WellFormedRank(c, x) && WellFormedRank(c, p) && x.op.Running? && p.op.Running? && i in x.op.missing
    ensures Copied(c, p, x, i).k < |c.buckets| && Work(c, r, Copied(c, p, x, i)) < Work(c, r, x)
  {
    hide Work;
    assert x.op.missing == (x.op.missing - {i}) + {i};
    OpOnly(c, r, x, Copied(c, p, x, i));
  }

  lemma FinishWork(c: Config, r: nat, x: Rank)
    requires x.k < |c.buckets| && x.op.Running?
    ensures Work(c, r, x.(op := Finished(x.op.metadata))) < Work(c, r, x)
  {
    hide Work;
    OpOnly(c, r, x, x.(op := Finished(x.op.metadata)));
  }

  function RankOf(e: Event): nat {
    match e
    case FillTo(_) => 0
    case Local(r) => r
    case TakeMeta(r) => r
    case Copy(r, _) => r
    case Finish(r) => r
    case FinishSend => 0
  }

  /** Every step of a reachable state lowers the measure. */
  lemma StepWork(c: Config, s: State, e: Event)
    requires ValidConfig(c) && Inv(c, s) && WellFormed(c, s) && Enabled(c, s, e)
    ensures WellFormed(c, Apply(c, s, e)) && Measure(c, Apply(c, s, e)) < Measure(c, s)
  {
    hide RankInv;
    hide PairInv;
    hide Work;
    hide Measure;
    hide StepReceiver;
    hide StepSender;
    var r := RankOf(e);
    var x, p := s.ranks[r], s.ranks[0];
    StepKeeps(c, s, e);
    InvWellFormed(c, Apply(c, s, e));
    match e {
      case FillTo(g) => FillWork(c, x, g);
      case Local(_) => if r == 0 { SenderWork(c, x); } else { ReceiverWork(c, r, x); }
      case TakeMeta(_) => TakeWork(c, r, x, s.subs[r][0]);
      case Copy(_, i) => CopyWork(c, r, p, x, i);
      case Finish(_) => FinishWork(c, r, x);
      case FinishSend => FinishWork(c, r, x);
    }
    MeasureDrops(c, s, Apply(c, s, e), r);
  }

  /** A receiver that has not completed the sender's round can move. */
  lemma ReceiverMoves(c: Config, s: State, r: nat) returns (e: Event)
    requires ValidConfig(c) && Inv(c, s) && WellFormed(c, s) && 0 < r <= c.n && s.ranks[r].pc != Done
    requires s.ranks[0].op.Running? ==> Completed(s.ranks[r]) < s.ranks[0].rounds
    requires s.ranks[0].op.Running? || s.ranks[0].pc == Done
    ensures Enabled(c, s, e)
  {
    var p, x := s.ranks[0], s.ranks[r];
    assert RankInv(c, 0, p) && RankInv(c, r, x) && PairInv(c, p, x, s.subs[r]);
    if x.op.Waiting? {
      e := TakeMeta(r);
    } else if x.op.Running? {
      if x.op.missing == {} {
        e := Finish(r);
      } else {
        var i :| i in x.op.missing;
        e := Copy(r, i);
      }
    } else {
      e := Local(r);
    }
  }

  lemma SenderMoves(c: Config, s: State) returns (e: Event)
    requires ValidConfig(c) && Inv(c, s) && WellFormed(c, s)
    requires !s.ranks[0].op.Running? && s.ranks[0].pc != Done
    ensures Enabled(c, s, e)
  {
    var p := s.ranks[0];
    assert RankInv(c, 0, p);
    e := if p.pc.Filling? && p.pc.pos < |c.buckets[p.k].data| then FillTo(p.pc.pos + 1) else Local(0);
  }

  lemma BehindIsNotDone(c: Config, p: Rank, r: nat, x: Rank, sub: seq<Metadata>)
    requires ValidConfig(c) && r > 0 && RankInv(c, 0, p) && RankInv(c, r, x) && PairInv(c, p, x, sub)
    requires p.op.Running? && Completed(x) < p.rounds
    ensures x.pc != Done
  {}

  /** No reachable state is stuck before every rank has returned, and every step lowers the measure:
      each run ends, with every rank returned. It holds for the asynchronous and the synchronous engine. */
  lemma Progress(c: Config, states: seq<State>, events: seq<Event>, i: nat)
    requires ValidConfig(c) && IsRun(c, states, events) && i <= |events|
    ensures WellFormed(c, states[i])
    ensures !AllDone(c, states[i]) ==> exists e :: Enabled(c, states[i], e)
    ensures forall e :: Enabled(c, states[i], e) ==>
      WellFormed(c, Apply(c, states[i], e)) && Measure(c, Apply(c, states[i], e)) < Measure(c, states[i])
  {
    var s := states[i];
    RunInv(c, states, events, i);
    if !AllDone(c, s) {
      var e := SomeMove(c, s);
    }
    forall e | Enabled(c, s, e)
      ensures WellFormed(c, Apply(c, s, e)) && Measure(c, Apply(c, s, e)) < Measure(c, s)
    {
      StepWork(c, s, e);
    }
  }

  lemma SomeMove(c: Config, s: State) returns (e: Event)
    requires ValidConfig(c) && Inv(c, s) && WellFormed(c, s) && !AllDone(c, s)
    ensures Enabled(c, s, e)
  {
    hide RankInv;
    hide PairInv;
    var p := s.ranks[0];
    if p.op.Running? {
      if r :| 0 < r <= c.n && Completed(s.ranks[r]) < p.rounds {
        BehindIsNotDone(c, p, r, s.ranks[r], s.subs[r]);
        e := ReceiverMoves(c, s, r);
      } else {
        e := FinishSend;
      }
    } else if p.pc != Done {
      e := SenderMoves(c, s);
    } else {
      var r :| 0 <= r <= c.n && s.ranks[r].pc != Done;
      e := ReceiverMoves(c, s, r);
    }
  }

  lemma ExtendRun(c: Config, states: seq<State>, events: seq<Event>, e: Event)
    requires IsRun(c, states, events)
    requires WellFormed(c, states[|events|]) && Enabled(c, states[|events|], e)
    ensures IsRun(c, states + [Apply(c, states[|events|], e)], events + [e])
  {
    var s' := Apply(c, states[|events|], e);
    var states', events' := states + [s'], events + [e];
    forall i | 0 <= i < |events'| ensures IsStep(c, states'[i], events'[i], states'[i + 1]) {
      if i < |events| { assert IsStep(c, states[i], events[i], states[i + 1]); }
    }
  }

  /** Every run can be completed: from wherever it stands, some continuation returns every rank. */
  lemma {:induction false} Completes(c: Config, states: seq<State>, events: seq<Event>)
      returns (states': seq<State>, events': seq<Event>)
    requires ValidConfig(c) && IsRun(c, states, events)
    ensures IsRun(c, states', events') && states <= states' && events <= events'
    ensures AllDone(c, states'[|events'|])
    decreases var s := states[|events|]; if WellFormed(c, s) then Measure(c, s) else 0
  {
    hide *;
    RunLength(c, states, events);
    Progress(c, states, events, |events|);
    var s := states[|events|];
    if AllDone(c, s) {
      states', events' := states, events;
    } else {
      var e := SomeEvent(c, s);
      ExtendRun(c, states, events, e);
      RunLength(c, states + [Apply(c, s, e)], events + [e]);
      Progress(c, states + [Apply(c, s, e)], events + [e], |events| + 1);
      states', events' := Completes(c, states + [Apply(c, s, e)], events + [e]);
    }
  }

  lemma SomeEvent(c: Config, s: State) returns (e: Event)
    requires WellFormed(c, s) && exists e :: Enabled(c, s, e)
    ensures Enabled(c, s, e)
  {
    e :| Enabled(c, s, e);
  }

  lemma RunLength(c: Config, states: seq<State>, events: seq<Event>)
    requires IsRun(c, states, events)
    ensures |states| == |events| + 1
  {}

  /** There is a run, whatever the uninitialised buffers hold. */
  lemma FirstRun(c: Config, mem: seq<seq<seq<byte>>>) returns (s: State)
    requires ValidConfig(c) && |mem| == c.n + 1
    requires forall bufs <- mem :: |bufs| == 2 && |bufs[0]| == |bufs[1]| == c.size
    ensures IsRun(c, [s], []) && Init(c, s) && forall r :: 0 <= r <= c.n ==> s.ranks[r].bufs == mem[r]
  {
    s := State(seq(c.n + 1, r requires 0 <= r <= c.n => InitRank(r, mem[r])), seq(c.n + 1, _ => []));
  }
}
