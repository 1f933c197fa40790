/** Progress of the Mooncake relay: every step lowers a measure, no reachable state is stuck, and every run can
    be completed. */
module MooncakeProgress {
  import opened Sums
  import opened Buckets
  import opened Transfers
  import opened Streams
  import opened MooncakeChain
  import opened MooncakeSafety

  // ---------- A measure that every step lowers ----------

  function Work(c: Config, r: nat, x: Rank): nat {
    if x.k >= |c.buckets| then 0
    else
      var b, rest := c.buckets[x.k], Rest(c.buckets, c.size, x.k + 1);
      match x.pc
      case Filling(pos) => rest + Minus(|b.data|, pos) + 4
      case Sending => rest + 3
      case AwaitAck => Rest(c.buckets, c.size, x.k) + 2
      case AwaitLast => 1
      case Receiving => Rest(c.buckets, c.size, x.k) + 1
      case AwaitDown => rest + c.size + |b.metas| + 8
      case Reading(missing) => rest + |missing| + |b.metas| + 6
      case Forwarding => rest + |b.metas| + 5
      case Yielding(j) => rest + Minus(|b.metas|, j) + 3
      case Acking => rest + 2
      case Done => 0
      case Failed => 0
  }

  function Works(c: Config, ranks: seq<Rank>): seq<nat> {
    seq(|ranks|, r requires 0 <= r < |ranks| => Work(c, r, ranks[r]))
  }

  function Measure(c: Config, s: State): nat {
    Sum(Works(c, s.ranks))
  }

  lemma MeasureDrops(c: Config, s: State, s': State, r: nat)
    requires |s.ranks| == |s'.ranks| && r < |s.ranks|
    requires forall q :: 0 <= q < |s.ranks| && q != r ==> Work(c, q, s'.ranks[q]) == Work(c, q, s.ranks[q])
    requires Work(c, r, s'.ranks[r]) < Work(c, r, s.ranks[r])
    ensures Measure(c, s') < Measure(c, s)
  {
    hide Work;
    var w, w' := Works(c, s.ranks), Works(c, s'.ranks);
    assert w' == w[r := w'[r]];
    SumUpdate(w, r, w'[r]);
  }

  lemma SenderWork(c: Config, x: Rank, q: seq<Info>)
    requires ValidConfig(c) && RankInv(c, 0, x) && x.pc != Done
    ensures x.k < |c.buckets|
    ensures x.pc.Filling? ==> forall g :: x.pc.pos < g <= |c.buckets[x.k].data| ==> Work(c, 0, Filled(c, x, g)) < Work(c, 0, x)
    ensures Work(c, 0, StepSender(c, x, q).0) < Work(c, 0, x)
  {
    assert Rest(c.buckets, c.size, x.k) == Rest(c.buckets, c.size, x.k);
    if x.k + 1 < |c.buckets| { assert Rest(c.buckets, c.size, x.k + 1) >= |c.buckets[x.k + 1].data| + 12; }
  }

  lemma ReadingWork(c: Config, r: nat, x: Rank)
    requires x.k < |c.buckets| && x.info == InfoOf(c, x.k) && |c.buckets[x.k].data| <= c.size
    ensures Work(c, r, BeginRead(c, x)) ==
      Rest(c.buckets, c.size, x.k + 1) + |c.buckets[x.k].data| + |c.buckets[x.k].metas| + 6
  {
    hide Rest;
  }

  lemma BeginWork(c: Config, r: nat, x: Rank, up: seq<Info>)
    requires WellFormedRank(c, x) && ReceiverInv(c, r, x) && x.k < |c.buckets| && |c.buckets[x.k].data| <= c.size
    requires x.pc.Receiving? || x.pc.AwaitDown?
    requires x.pc.Receiving? ==> up != [] && up[0] == InfoOf(c, x.k)
    ensures Work(c, r, StepReceiver(c, r < c.n, x, up).0) < Work(c, r, x)
  {
    hide ReceiverInv;
    hide Rest;
    hide Positions;
    RestUnfolds(c.buckets, c.size, x.k);
    if x.pc.AwaitDown? {
      InfoKnown(c, r, x);
      ReadingWork(c, r, x);
    } else {
      ReadingWork(c, r, x.(info := up[0]));
    }
  }

  lemma InfoKnown(c: Config, r: nat, x: Rank)
    requires WellFormedRank(c, x) && ReceiverInv(c, r, x) && x.k < |c.buckets| && !x.pc.Receiving?
    ensures x.info == InfoOf(c, x.k)
  {}

  lemma ReadWork(c: Config, r: nat, x: Rank, up: seq<Info>)
    requires WellFormedRank(c, x) && x.k < |c.buckets| && x.pc.Reading? && x.info == InfoOf(c, x.k)
    ensures Work(c, r, StepReceiver(c, r < c.n, x, up).0) < Work(c, r, x)
  {}

  lemma YieldWork(c: Config, r: nat, x: Rank, up: seq<Info>)
    requires ValidConfig(c) && 0 < r <= c.n && RankInv(c, r, x) && x.k < |c.buckets|
    requires x.pc.Yielding?
    ensures Work(c, r, StepReceiver(c, r < c.n, x, up).0) < Work(c, r, x)
  {
    hide LastRankInv;
    var b := c.buckets[x.k];
    assert b in c.buckets;
    if x.pc.j < |b.metas| { assert b.metas[x.pc.j] in b.metas; }
  }

  lemma AckWork(c: Config, r: nat, x: Rank)
    requires ValidConfig(c) && 0 < r <= c.n && RankInv(c, r, x) && x.k < |c.buckets|
    ensures x.pc.Forwarding? ==> Work(c, r, x.(pc := Yielding(0))) < Work(c, r, x)
    ensures x.pc.Acking? ==> Work(c, r, AfterAck(c, x)) < Work(c, r, x)
  {
    hide LastRankInv;
  }

  lemma CopyWork(c: Config, r: nat, p: Rank, x: Rank, i: nat)
    requires ValidConfig(c) && 0 < r <= c.n && RankInv(c, r, x) && WellFormedRank(c, p)
    requires x.pc.Reading? && i in x.pc.missing
    ensures Work(c, r, Copied(c, p, x, i)) < Work(c, r, x)
  {
    assert x.pc.missing == (x.pc.missing - {i}) + {i};
  }

  function RankOf(e: Event): nat {
    match e case FillTo(_) => 0 case Local(r) => r case Copy(r, _) => r
  }

  lemma NotFinished(c: Config, s: State, e: Event)
    requires ValidConfig(c) && Inv(c, s) && WellFormed(c, s) && Enabled(c, s, e)
    ensures RankOf(e) <= c.n && s.ranks[RankOf(e)].pc != Done && s.ranks[RankOf(e)].k < |c.buckets|
    ensures var r := RankOf(e); r > 0 && s.ranks[r].pc.Receiving? ==>
      s.queues[r - 1] != [] && s.queues[r - 1][0] == InfoOf(c, s.ranks[r].k)
  {
    var r := RankOf(e);
    assert RankInv(c, r, s.ranks[r]);
    if r > 0 { assert LinkInv(c, r - 1, s.ranks[r - 1], s.queues[r - 1], s.ranks[r]); }
  }

  lemma ReceiverPcs(c: Config, r: nat, x: Rank)
    requires ValidConfig(c) && 0 < r <= c.n && RankInv(c, r, x) && x.k < |c.buckets|
    ensures x.pc.Receiving? || x.pc.AwaitDown? || x.pc.Reading? || x.pc.Forwarding? || x.pc.Yielding? || x.pc.Acking?
    ensures WellFormedRank(c, x) && ReceiverInv(c, r, x) && |c.buckets[x.k].data| <= c.size
    ensures !x.pc.Receiving? ==> x.info == InfoOf(c, x.k)
  {
    hide LastRankInv;
    assert c.buckets[x.k] in c.buckets;
  }

  lemma MarkedWork(c: Config, r: nat, p: Rank, ptr: bit)
    requires |p.bufs| == 2 && |p.bufs[ptr]| >= 4
    ensures Work(c, r, MarkedRank(p, ptr)) == Work(c, r, p)
  {}

  lemma LocalWork(c: Config, r: nat, x: Rank, up: seq<Info>)
    requires ValidConfig(c) && 0 < r <= c.n && RankInv(c, r, x) && WellFormedRank(c, x) && x.k < |c.buckets|
    requires x.pc.Receiving? ==> up != [] && up[0] == InfoOf(c, x.k)
    ensures x.pc.Forwarding? ==> Work(c, r, x.(pc := Yielding(0))) < Work(c, r, x)
    ensures x.pc.Acking? ==> Work(c, r, AfterAck(c, x)) < Work(c, r, x)
    ensures !x.pc.Forwarding? && !x.pc.Acking? ==> Work(c, r, StepReceiver(c, r < c.n, x, up).0) < Work(c, r, x)
  {
    ReceiverPcs(c, r, x);
    hide RankInv;
    hide ReceiverInv;
    hide Work;
    hide StepReceiver;
    hide AfterAck;
    if x.pc.Forwarding? || x.pc.Acking? { AckWork(c, r, x); }
    else if x.pc.Yielding? { YieldWork(c, r, x, up); }
    else if x.pc.Reading? { ReadWork(c, r, x, up); }
    else { BeginWork(c, r, x, up); }
  }

  /** What an event does to the ranks. */
  lemma StepRanks(c: Config, s: State, e: Event)
    requires WellFormed(c, s) && Enabled(c, s, e)
    ensures var s', r := Apply(c, s, e), RankOf(e);
      && |s'.ranks| == c.n + 1 && r <= c.n
      && (forall q :: 0 <= q <= c.n && q != r && q != r - 1 ==> s'.ranks[q] == s.ranks[q])
      && (r > 0 && !(e.Local? && s.ranks[r].pc.Acking?) ==> s'.ranks[r - 1] == s.ranks[r - 1])
      && var x, x' := s.ranks[r], s'.ranks[r];
      && (e.FillTo? ==> x' == Filled(c, x, e.g))
      && (e.Copy? ==> x' == Copied(c, s.ranks[r - 1], x, e.i))
      && (e.Local? && r == 0 ==> x' == StepSender(c, x, s.queues[0]).0)
      && (e.Local? && r > 0 ==>
            if x.pc.Forwarding? then x' == x.(pc := Yielding(0))
            else if x.pc.Acking? then x' == AfterAck(c, x) && s'.ranks[r - 1] == MarkedRank(s.ranks[r - 1], x.info.ptr)
            else x' == StepReceiver(c, r < c.n, x, s.queues[r - 1]).0)
  {
    hide StepReceiver;
    hide StepSender;
    hide AfterAck;
    hide Copied;
    hide Filled;
  }

  lemma StepWork(c: Config, s: State, e: Event)
    requires ValidConfig(c) && Inv(c, s) && WellFormed(c, s) && Enabled(c, s, e)
    ensures Measure(c, Apply(c, s, e)) < Measure(c, s)
  {
    NotFinished(c, s, e);
    StepRanks(c, s, e);
    var s', r := Apply(c, s, e), RankOf(e);
    assert |s.ranks| == c.n + 1 && RankInv(c, r, s.ranks[r]) && WellFormedRank(c, s.ranks[r]);
    hide *;
    RankWorkFalls(c, s, e);
    forall q | 0 <= q < |s.ranks| && q != r ensures Work(c, q, s'.ranks[q]) == Work(c, q, s.ranks[q]) {
      if q + 1 == r { UpWork(c, s, e); }
    }
    MeasureDrops(c, s, s', r);
  }

  lemma RankWorkFalls(c: Config, s: State, e: Event)
    requires ValidConfig(c) && Inv(c, s) && WellFormed(c, s) && Enabled(c, s, e)
    ensures var r := RankOf(e);
      && r < |s.ranks| && |Apply(c, s, e).ranks| == |s.ranks|
      && Work(c, r, Apply(c, s, e).ranks[r]) < Work(c, r, s.ranks[r])
  {
    NotFinished(c, s, e);
    StepRanks(c, s, e);
    var r := RankOf(e);
    var x := s.ranks[r];
    assert RankInv(c, r, x) && WellFormedRank(c, x);
    assert e.Copy? ==> WellFormedRank(c, s.ranks[r - 1]);
    hide RankInv;
    hide LinkInv;
    hide WellFormedRank;
    hide Work;
    hide Apply;
    hide StepReceiver;
    hide StepSender;
    hide AfterAck;
    hide Copied;
    hide Filled;
    if r == 0 {
      SenderWork(c, x, s.queues[0]);
    } else if e.Copy? {
      CopyWork(c, r, s.ranks[r - 1], x, e.i);
    } else {
      LocalWork(c, r, x, s.queues[r - 1]);
    }
  }

  /** A mark does not change what the marked rank still has to do. */
  lemma UpWork(c: Config, s: State, e: Event)
    requires WellFormed(c, s) && Enabled(c, s, e) && RankOf(e) > 0
    ensures var r := RankOf(e);
      && r < |s.ranks| && |Apply(c, s, e).ranks| == |s.ranks|
      && Work(c, r - 1, Apply(c, s, e).ranks[r - 1]) == Work(c, r - 1, s.ranks[r - 1])
  {
    StepRanks(c, s, e);
    var r := RankOf(e);
    var x, p := s.ranks[r], s.ranks[r - 1];
    assert WellFormedRank(c, p);
    if x.pc.Acking? { MarkedWork(c, r - 1, p, x.info.ptr); }
    hide *;
  }

  // ---------- Progress ----------

  /** Rank r has something to do here: it is neither finished nor waiting for an info. */
  predicate Busy(s: State, r: nat)
    requires 0 < r < |s.ranks| && |s.queues| == |s.ranks| - 1
  {
    s.ranks[r].pc != Done && (s.ranks[r].pc.Receiving? ==> s.queues[r - 1] != [])
  }

  /** Over an acknowledged bucket a wait returns; over any other, the next rank is still busy. */
  lemma WaitOrBusy(c: Config, i: nat, a: Rank, q: seq<Info>, b: Rank)
    requires ValidConfig(c) && i < c.n && RankInv(c, i, a) && RankInv(c, i + 1, b) && LinkInv(c, i, a, q, b)
    requires a.pc.AwaitAck? || a.pc.AwaitDown? || a.pc.AwaitLast?
    ensures Marked(a.bufs[Cur(a)]) || (b.pc != Done && (b.pc.Receiving? ==> q != []))
    ensures !Marked(a.bufs[Cur(a)]) && !a.pc.AwaitLast? ==> b.k + 2 <= a.k
  {}

  lemma {:induction false} DownMoves(c: Config, s: State, r: nat) returns (e: Event)
    requires ValidConfig(c) && Inv(c, s) && WellFormed(c, s) && 0 < r <= c.n && Busy(s, r)
    ensures Enabled(c, s, e) && RankOf(e) >= r
    decreases c.n - r
  {
    var x := s.ranks[r];
    assert RankInv(c, r, x);
    if x.pc.Reading? && x.pc.missing != {} {
      var i :| i in x.pc.missing;
      e := Copy(r, i);
    } else if x.pc.AwaitDown? && !Marked(x.bufs[Cur(x)]) {
      WaitOrBusy(c, r, x, s.queues[r], s.ranks[r + 1]);
      e := DownMoves(c, s, r + 1);
    } else {
      e := Local(r);
    }
  }

  lemma {:induction false} RankMoves(c: Config, s: State, r: nat) returns (e: Event)
    requires ValidConfig(c) && Inv(c, s) && WellFormed(c, s) && r <= c.n && s.ranks[r].pc != Done
    ensures Enabled(c, s, e)
  {
    var x := s.ranks[r];
    assert RankInv(c, r, x);
    if r > 0 {
      if x.pc.Receiving? && s.queues[r - 1] == [] {
        assert RankInv(c, r - 1, s.ranks[r - 1]);
        assert LinkInv(c, r - 1, s.ranks[r - 1], s.queues[r - 1], x);
        e := RankMoves(c, s, r - 1);
      } else {
        e := DownMoves(c, s, r);
      }
    } else if x.pc.Filling? && x.pc.pos < |c.buckets[x.k].data| {
      e := FillTo(x.pc.pos + 1);
    } else if (x.pc.AwaitAck? || x.pc.AwaitLast?) && !Marked(x.bufs[Cur(x)]) {
      WaitOrBusy(c, 0, x, s.queues[0], s.ranks[1]);
      e := DownMoves(c, s, 1);
    } else {
      e := Local(0);
    }
  }

  ghost predicate AllDone(c: Config, s: State) {
    |s.ranks| == c.n + 1 && forall r :: 0 <= r <= c.n ==> s.ranks[r].pc == Done
  }

  /** No reachable state is stuck before every rank has returned, and every step lowers the measure. */
  lemma Progress(c: Config, states: seq<State>, events: seq<Event>, i: nat)
    requires ValidConfig(c) && SafeStream(c) && IsRun(c, states, events) && i <= |events|
    ensures WellFormed(c, states[i])
    ensures !AllDone(c, states[i]) ==> exists e :: Enabled(c, states[i], e)
    ensures forall e :: Enabled(c, states[i], e) ==> Measure(c, Apply(c, states[i], e)) < Measure(c, states[i])
  {
    var s := states[i];
    RunInv(c, states, events, i);
    if !AllDone(c, s) {
      var r :| 0 <= r <= c.n && s.ranks[r].pc != Done;
      var e := RankMoves(c, s, r);
    }
    forall e | Enabled(c, s, e) ensures Measure(c, Apply(c, s, e)) < Measure(c, s) {
      StepWork(c, s, e);
    }
  }

  // ---------- Runs ----------

  lemma ExtendRun(c: Config, states: seq<State>, events: seq<Event>, e: Event)
    requires IsRun(c, states, events)
    requires WellFormed(c, states[|events|]) && Enabled(c, states[|events|], e)
    ensures IsRun(c, states + [Apply(c, states[|events|], e)], events + [e])
  {
    var s' := Apply(c, states[|events|], e);
    var states', events' := states + [s'], events + [e];
    forall i | 0 <= i < |events'| ensures IsStep(c, states'[i], events'[i], states'[i + 1]) {
      if i < |events| { assert IsStep(c, states[i], events[i], states[i + 1]); }
    }
  }

  /** Every run can be completed: from wherever it stands, some continuation returns every rank. */
  lemma {:induction false} Completes(c: Config, states: seq<State>, events: seq<Event>)
      returns (states': seq<State>, events': seq<Event>)
    requires ValidConfig(c) && SafeStream(c) && IsRun(c, states, events)
    ensures IsRun(c, states', events') && states <= states' && events <= events'
    ensures AllDone(c, states'[|events'|])
    decreases var s := states[|events|]; if WellFormed(c, s) then Measure(c, s) else 0
  {
    hide *;
    RunLength(c, states, events);
    Progress(c, states, events, |events|);
    var s := states[|events|];
    if AllDone(c, s) {
      states', events' := states, events;
    } else {
      var e := SomeEvent(c, s);
      ExtendRun(c, states, events, e);
      RunLength(c, states + [Apply(c, s, e)], events + [e]);
      Progress(c, states + [Apply(c, s, e)], events + [e], |events| + 1);
      states', events' := Completes(c, states + [Apply(c, s, e)], events + [e]);
    }
  }

  lemma SomeEvent(c: Config, s: State) returns (e: Event)
    requires WellFormed(c, s) && exists e :: Enabled(c, s, e)
    ensures Enabled(c, s, e)
  {
    e :| Enabled(c, s, e);
  }

  lemma RunLength(c: Config, states: seq<State>, events: seq<Event>)
    requires IsRun(c, states, events)
    ensures |states| == |events| + 1
  {}

  /** There is a run, whatever the uninitialised buffers hold. */
  lemma FirstRun(c: Config, mem: seq<seq<seq<byte>>>) returns (s: State)
    requires ValidConfig(c) && |mem| == c.n + 1
    requires forall bufs <- mem :: |bufs| == 2 && |bufs[0]| == |bufs[1]| == c.size
    ensures IsRun(c, [s], []) && Init(c, s) && forall r :: 0 <= r <= c.n ==> s.ranks[r].bufs == mem[r]
  {
    s := State(seq(c.n + 1, r requires 0 <= r <= c.n => InitRank(r, mem[r])), seq(c.n, _ => []));
  }
}
