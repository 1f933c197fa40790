/** What every run of the NIXL relay guarantees: delivery, buffer exclusivity and progress. */
module NixlResults {
  import opened Sums
  import opened Buckets
  import opened Options
  import opened Transfers
  import opened Streams
  import opened NixlChain
  import opened NixlSafety
  import Packing

  // ---------- Delivery ----------

  lemma RankDelivers(c: Config, r: nat, x: Rank)
    requires ValidConfig(c) && 0 < r <= c.n && RankInv(c, r, x)
    ensures x.out <= Outs(c.buckets, c.size, |c.buckets|)
    ensures x.pc == Done ==> x.out == Outs(c.buckets, c.size, |c.buckets|)
  {
    var k := if x.pc.Offering? || x.pc.NextMeta? || x.pc.FirstMeta? || x.pc.FirstRead? then x.k else x.k + 1;
    OutsGrow(c.buckets, c.size, k, |c.buckets|);
    assert x.out <= Outs(c.buckets, c.size, k) by {
      if x.pc.Yielding? { YieldedPrefix(c.buckets, c.size, x.k, x.pc.j); }
    }
  }

  /** In every run, under every interleaving: no assertion fails (in particular each popped
      notification is the key of the operation that waits for it), every rollout rank has yielded a
      prefix of the sender's (name, bytes) sequence, and all of it when it returns. */
  lemma Delivery(c: Config, states: seq<State>, events: seq<Event>, i: nat, r: nat)
    requires ValidConfig(c) && IsRun(c, states, events) && i <= |events| && r <= c.n
    ensures |states[i].ranks| == c.n + 1 && states[i].ranks[r].pc != Failed
    ensures Packing.Decodable(c.buckets)
    ensures r > 0 ==> states[i].ranks[r].out <= Packing.Decode(c.buckets)
    ensures r > 0 && states[i].ranks[r].pc == Done ==> states[i].ranks[r].out == Packing.Decode(c.buckets)
  {
    RunInv(c, states, events, i);
    AllOuts(c.buckets, c.size);
    RankInvWellFormed(c, r, states[i].ranks[r]);
    if r > 0 { RankDelivers(c, r, states[i].ranks[r]); }
  }

  /** End to end: with the buckets that the sender's loop packs from a stream whose weights fit and
      whose names differ, every rank that returns has yielded exactly that stream. */
  lemma StreamDelivered(
      ws: seq<Weight>, size: nat, n: nat, states: seq<State>, events: seq<Event>, i: nat, r: nat)
    requires n >= 1 && Packing.AllFit(ws, size) && DistinctNames(ws)
    requires IsRun(Config(Packing.Encode(ws, size), size, n), states, events) && i <= |events|
    requires 0 < r <= n && |states[i].ranks| == n + 1 && states[i].ranks[r].pc == Done
    ensures states[i].ranks[r].out == ws
  {
    Packing.EncodeDecode(ws, size);
    Delivery(Config(Packing.Encode(ws, size), size, n), states, events, i, r);
  }

  // ---------- The merge of a message ----------

  /** Fields of the metadata win over those of the operation: the rank's wait succeeds on the notification
      that its message asks for exactly when the metadata holds no other notify key. */
  lemma OwnKeyIff(x: Rank, md: Dict, next: Pc)
    requires NotifyKey in md ==> md[NotifyKey].TheKey?
    requires RemoteDescs in md ==> md[RemoteDescs].TheDescs?
    requires next != Failed
    ensures var m := MessageOf(x, md);
      && HasTransfer(m)
      && var waited := AfterAwait(x.(pending := Some(OwnKey(x))), [KeyOf(m)], next);
      waited.pc != Failed <==> (NotifyKey in md ==> md[NotifyKey].key == OwnKey(x))
  {}

  /** Without the two pops a forwarded bucket would carry the previous rank's key, and the wait would fail. */
  lemma UnpoppedKeyFails(c: Config, r: nat, x: Rank, next: Pc)
    requires ValidConfig(c) && 0 < r <= c.n && RankInv(c, r, x) && x.pc.Offering? && next != Failed
    ensures var received := MessageFor(c, r - 1, x.k); var m := MessageOf(x, received);
      HasTransfer(m) && AfterAwait(x.(pending := Some(OwnKey(x))), [KeyOf(m)], next).pc == Failed
  {
    OwnKeyIff(x, MessageFor(c, r - 1, x.k), next);
  }

  // ---------- Exclusivity ----------

  /** A buffer of rank a is being written: by the trainer's copy or by a READ in flight. */
  ghost predicate Written(a: Rank, buf: bit) {
    (a.pc.Filling? && a.send == buf) || (a.read.Flying? && a.read.dst == buf)
  }

  /** The next rank reads buffer `buf` of this rank, or has been told that it may. */
  ghost predicate Readable(l: Link, b: Rank, buf: bit) {
    (b.read.Flying? && b.read.src == buf) || exists m <- l.msgs :: HasTransfer(m) && DescsOf(m) == buf
  }

  /** A buffer that is written will hold the next bucket to offer. */
  lemma WritesNext(c: Config, i: nat, a: Rank, buf: bit)
    requires ValidConfig(c) && i < c.n && RankInv(c, i, a) && Written(a, buf)
    ensures buf == Slot(i, a.offers)
  {
    hide Holds;
    hide HoldsExcept;
    hide Outs;
    hide UnpackedBucket;
  }

  /** A buffer that the next rank may read holds the bucket offered last. */
  lemma ReadsOffered(c: Config, i: nat, a: Rank, l: Link, b: Rank, buf: bit)
    requires ValidConfig(c) && i < c.n && WellFormedRank(c, a) && LinkInv(c, i, a, l, b)
    requires WellFormedRank(c, b) && ReadInv(c, i + 1, b) && Readable(l, b, buf)
    ensures a.offers > 0 && buf == Slot(i, a.offers - 1)
  {
    hide Holds;
    hide HoldsExcept;
    if !b.read.Flying? {
      assert l.msgs == [MessageFor(c, i, Popped(b))];
    }
  }

  lemma LinkExclusive(c: Config, i: nat, a: Rank, l: Link, b: Rank, buf: bit)
    requires ValidConfig(c) && i < c.n && RankInv(c, i, a) && RankInv(c, i + 1, b) && LinkInv(c, i, a, l, b)
    ensures !(Written(a, buf) && Readable(l, b, buf))
  {
    hide LinkInv;
    if Written(a, buf) && Readable(l, b, buf) {
      WritesNext(c, i, a, buf);
      ReadsOffered(c, i, a, l, b, buf);
    }
  }

  lemma ViewsExclusive(c: Config, r: nat, x: Rank)
    requires ValidConfig(c) && r <= c.n && RankInv(c, r, x)
    ensures x.pc.Yielding? ==> !Written(x, x.send) && Holds(x.bufs[x.send], c.buckets[x.k].data)
    ensures x.sendDesc == x.send && x.recvDesc == x.recv && x.send != x.recv
  {}

  /** In every reachable state: no buffer is being filled or is the target of a READ while the next
      rank may read it; nor while views into it are being yielded, and those views see the sender's
      bytes; and each descriptor names the buffer it was swapped with. */
  lemma Exclusivity(c: Config, states: seq<State>, events: seq<Event>, i: nat, r: nat, buf: bit)
    requires ValidConfig(c) && IsRun(c, states, events) && i <= |events| && r <= c.n
    ensures |states[i].ranks| == c.n + 1 && |states[i].links| == c.n
    ensures r < c.n ==> !(Written(states[i].ranks[r], buf) && Readable(states[i].links[r], states[i].ranks[r + 1], buf))
    ensures var x := states[i].ranks[r];
      && WellFormedRank(c, x)
      && (x.pc.Yielding? ==> !Written(x, x.send) && Holds(x.bufs[x.send], c.buckets[x.k].data))
      && x.sendDesc == x.send && x.recvDesc == x.recv && x.send != x.recv
  {
    RunInv(c, states, events, i);
    var s := states[i];
    ViewsExclusive(c, r, s.ranks[r]);
    if r < c.n { LinkExclusive(c, r, s.ranks[r], s.links[r], s.ranks[r + 1], buf); }
  }

  /** A rank returns only after the next rank has completed the READ of its last bucket. */
  lemma ReturnsAfterNext(c: Config, states: seq<State>, events: seq<Event>, i: nat, r: nat)
    requires ValidConfig(c) && IsRun(c, states, events) && i <= |events| && r < c.n
    ensures |states[i].ranks| == c.n + 1
    ensures states[i].ranks[r].pc == Done ==> Completed(states[i].ranks[r + 1]) == |c.buckets|
  {
    RunInv(c, states, events, i);
    var s := states[i];
    assert RankInv(c, r, s.ranks[r]);
    assert LinkInv(c, r, s.ranks[r], s.links[r], s.ranks[r + 1]);
  }

  // ---------- Progress ----------

  function ReadWork(x: Rank): nat {
    if x.read.Flying? then |x.read.missing| + 1 else 0
  }

  /** An upper bound on the steps rank x still takes. */
  function Work(c: Config, r: nat, x: Rank): nat
    requires x.k < |c.buckets|
  {
    var b, rest := c.buckets[x.k], Rest(c.buckets, c.size, x.k + 1);
    match x.pc
    case Filling(pos) => rest + Minus(|b.data|, pos) + 4
    case AwaitPrev => rest + 3
    case Offering => if r == 0 then rest + 2 else rest + |b.metas| + c.size + 8
    case AwaitLast => 1
    case FirstMeta => Rest(c.buckets, c.size, 0) + c.size + 10
    case FirstRead => Rest(c.buckets, c.size, 0) + ReadWork(x)
    case NextMeta => rest + |b.metas| + c.size + 7
    case Yielding(j) => rest + ReadWork(x) + Minus(|b.metas|, j) + 4
    case AwaitNext => rest + ReadWork(x) + 3
    case AwaitRead => rest + ReadWork(x)
    case Done => 0
    case Failed => 0
  }

  function Works(c: Config, ranks: seq<Rank>): seq<nat>
    requires forall r :: 0 <= r < |ranks| ==> ranks[r].k < |c.buckets|
  {
    seq(|ranks|, r requires 0 <= r < |ranks| => Work(c, r, ranks[r]))
  }

  function Measure(c: Config, s: State): nat
    requires WellFormed(c, s)
  {
    Sum(Works(c, s.ranks))
  }

  lemma FillWork(c: Config, x: Rank, g: nat)
    requires ValidConfig(c) && RankInv(c, 0, x) && x.pc.Filling? && x.pc.pos < g <= |c.buckets[x.k].data|
    ensures Filled(c, x, g).k < |c.buckets| && Work(c, 0, Filled(c, x, g)) < Work(c, 0, x)
  {}

  lemma SenderWork(c: Config, x: Rank, l: Link, b: Rank)
    requires ValidConfig(c) && RankInv(c, 0, x) && LinkInv(c, 0, x, l, b)
    requires x.pc.AwaitPrev? || x.pc.AwaitLast? ==> CanAwait(x, l.notes)
    requires x.pc.Filling? ==> x.pc.pos == |c.buckets[x.k].data|
    requires !x.pc.Done?
    ensures var (x', _) := StepSender(c, x, l);
      x'.k < |c.buckets| && Work(c, 0, x') < Work(c, 0, x)
  {}

  lemma TakeWork(c: Config, r: nat, x: Rank, l: Link)
    requires ValidConfig(c) && x.k < |c.buckets| && |x.bufs| == 2 && l.msgs != []
    requires x.pc.FirstMeta? ==> x.k == 0 && x.read == Idle
    requires x.pc.NextMeta? ==> x.read == Idle && Metas(x.metadata) == c.buckets[x.k].metas
    requires x.pc.FirstMeta? || x.pc.NextMeta?
    ensures var (x', _) := StepUpstream(c, x, l);
      x'.k < |c.buckets| && Work(c, r, x') < Work(c, r, x)
  {
    hide Rest;
    hide Metas;
    RestUnfolds(c.buckets, c.size, 0);
  }

  lemma SwapWork(c: Config, r: nat, x: Rank, l: Link)
    requires ValidConfig(c) && x.k < |c.buckets| && |x.bufs| == 2 && r > 0 && x.read == Complete
    requires x.pc.FirstRead? ==> x.k == 0
    requires x.pc.AwaitRead? ==> !LastBucket(c, x.k)
    requires x.pc.FirstRead? || x.pc.AwaitRead?
    ensures var (x', _) := StepUpstream(c, x, l);
      x'.k < |c.buckets| && Work(c, r, x') < Work(c, r, x)
  {
    hide Rest;
    RestUnfolds(c.buckets, c.size, 0);
    if x.pc.AwaitRead? { RestUnfolds(c.buckets, c.size, x.k + 1); }
  }

  lemma YieldWork(c: Config, r: nat, x: Rank, l: Link)
    requires ValidConfig(c) && x.k < |c.buckets| && |x.bufs| == 2 && x.pc.Yielding?
    requires Metas(x.metadata) == c.buckets[x.k].metas
    ensures var (x', _) := StepUpstream(c, x, l);
      x'.k < |c.buckets| && Work(c, r, x') < Work(c, r, x)
  {
    hide Rest;
    hide Metas;
  }

  lemma UpstreamWork(c: Config, r: nat, x: Rank, l: Link)
    requires ValidConfig(c) && 0 < r <= c.n && RankInv(c, r, x)
    requires x.pc.FirstMeta? || x.pc.NextMeta? ==> l.msgs != []
    requires x.pc.FirstRead? || x.pc.AwaitRead? ==> x.read == Complete
    requires !x.pc.Offering? && !x.pc.AwaitNext? && !x.pc.Done?
    ensures var (x', _) := StepUpstream(c, x, l);
      x'.k < |c.buckets| && Work(c, r, x') < Work(c, r, x)
  {
    hide Holds;
    hide HoldsExcept;
    hide Outs;
    hide UnpackedBucket;
    hide Work;
    hide StepUpstream;
    hide Metas;
    if x.pc.FirstMeta? || x.pc.NextMeta? {
      TakeWork(c, r, x, l);
    } else if x.pc.Yielding? {
      YieldWork(c, r, x, l);
    } else {
      SwapWork(c, r, x, l);
    }
  }

  lemma DownstreamWork(c: Config, hasNext: bool, r: nat, x: Rank, l: Link)
    requires ValidConfig(c) && 0 < r <= c.n && RankInv(c, r, x)
    requires x.pc.Offering? || x.pc.AwaitNext?
    requires x.pc.AwaitNext? && hasNext ==> CanAwait(x, l.notes)
    requires x.pc.AwaitNext? && !hasNext ==> x.pending == None
    ensures var (x', _) := StepDownstream(hasNext, x, l);
      x'.k < |c.buckets| && Work(c, r, x') < Work(c, r, x)
  {}

  lemma ReadWorkFalls(c: Config, r: nat, p: Rank, x: Rank, i: nat)
    requires ValidConfig(c) && 0 < r <= c.n && RankInv(c, r, x) && WellFormedRank(c, p) && x.read.Flying?
    ensures i in x.read.missing ==>
      Copied(c, p, x, i).k < |c.buckets| && Work(c, r, Copied(c, p, x, i)) < Work(c, r, x)
    ensures Work(c, r, x.(read := Complete)) < Work(c, r, x)
  {
    FlyingPc(c, r, x);
    hide RankInv;
    if i in x.read.missing {
      assert x.read.missing == (x.read.missing - {i}) + {i};
    }
  }

  lemma FlyingPc(c: Config, r: nat, x: Rank)
    requires ValidConfig(c) && 0 < r <= c.n && RankInv(c, r, x) && x.read.Flying?
    ensures WellFormedRank(c, x) && (x.pc.FirstRead? || x.pc.Yielding? || x.pc.AwaitNext? || x.pc.AwaitRead?)
  {}

  /** Every step of a reachable state lowers the measure. */
  lemma StepWork(c: Config, s: State, e: Event)
    requires ValidConfig(c) && Inv(c, s) && WellFormed(c, s) && Enabled(c, s, e)
    ensures WellFormed(c, Apply(c, s, e)) && Measure(c, Apply(c, s, e)) < Measure(c, s)
  {
    hide RankInv;
    hide LinkInv;
    hide Work;
    hide Measure;
    var s' := Apply(c, s, e);
    StepKeeps(c, s, e);
    InvWellFormed(c, s');
    var r := match e case FillTo(_) => 0 case Local(q) => q case Copy(q, _) => q case Finish(q) => q;
    var x := s.ranks[r];
    match e {
      case FillTo(g) => FillWork(c, x, g);
      case Local(_) =>
        if r == 0 {
          SenderPcs(c, x);
          SenderWork(c, x, s.links[0], s.ranks[1]);
        } else if x.pc.Offering? || x.pc.AwaitNext? {
          DownstreamWork(c, r < c.n, r, x, if r < c.n then s.links[r] else Link([], []));
        } else {
          UpstreamWork(c, r, x, s.links[r - 1]);
        }
      case Copy(_, i) => ReadWorkFalls(c, r, s.ranks[r - 1], x, i);
      case Finish(_) => ReadWorkFalls(c, r, s.ranks[r - 1], x, 0);
    }
    MeasureDrops(c, s, s', r);
  }

  lemma MeasureDrops(c: Config, s: State, s': State, r: nat)
    requires WellFormed(c, s) && WellFormed(c, s') && r <= c.n
    requires forall q :: 0 <= q <= c.n && q != r ==> s'.ranks[q] == s.ranks[q]
    requires Work(c, r, s'.ranks[r]) < Work(c, r, s.ranks[r])
    ensures Measure(c, s') < Measure(c, s)
  {
    hide Work;
    var w, w' := Works(c, s.ranks), Works(c, s'.ranks);
    assert w' == w[r := w'[r]];
    SumUpdate(w, r, w'[r]);
  }

  /** A rank whose READ is in flight can move: a byte arrives, or the READ completes. */
  lemma ReaderMoves(c: Config, s: State, r: nat) returns (e: Event)
    requires WellFormed(c, s) && 0 < r <= c.n && s.ranks[r].read.Flying?
    ensures Enabled(c, s, e)
  {
    if s.ranks[r].read.missing == {} {
      e := Finish(r);
    } else {
      var i :| i in s.ranks[r].read.missing;
      e := Copy(r, i);
    }
  }

  lemma NextReady(c: Config, i: nat, a: Rank, l: Link, b: Rank)
    requires ValidConfig(c) && i < c.n && RankInv(c, i, a) && RankInv(c, i + 1, b) && LinkInv(c, i, a, l, b)
    requires a.pc.AwaitPrev? || a.pc.AwaitLast? || a.pc.AwaitNext?
    requires !CanAwait(a, l.notes)
    ensures !b.read.Flying? ==>
      || ((b.pc.FirstMeta? || b.pc.NextMeta?) && l.msgs != [])
      || b.pc.Offering? || b.pc.Yielding?
      || (b.pc.AwaitNext? && (i + 1 == c.n ==> b.pending == None))
      || ((b.pc.FirstRead? || b.pc.AwaitRead?) && b.read == Complete)
  {}

  /** While rank i waits for a notification that has not arrived, some later rank can move. */
  lemma {:induction false} NextMoves(c: Config, s: State, i: nat) returns (e: Event)
    requires ValidConfig(c) && WellFormed(c, s) && Inv(c, s) && i < c.n
    requires s.ranks[i].pc.AwaitPrev? || s.ranks[i].pc.AwaitLast? || s.ranks[i].pc.AwaitNext?
    requires !CanAwait(s.ranks[i], s.links[i].notes)
    ensures Enabled(c, s, e)
    decreases c.n - i
  {
    hide RankInv;
    hide LinkInv;
    var b := s.ranks[i + 1];
    NextReady(c, i, s.ranks[i], s.links[i], b);
    if b.read.Flying? {
      e := ReaderMoves(c, s, i + 1);
    } else if b.pc.AwaitNext? && i + 1 < c.n && !CanAwait(b, s.links[i + 1].notes) {
      e := NextMoves(c, s, i + 1);
    } else {
      e := Local(i + 1);
    }
  }

  lemma SenderMoves(c: Config, s: State) returns (e: Event)
    requires ValidConfig(c) && WellFormed(c, s) && Inv(c, s) && s.ranks[0].pc != Done
    ensures Enabled(c, s, e)
  {
    var x := s.ranks[0];
    assert RankInv(c, 0, x);
    hide LinkInv;
    if x.pc.Filling? && x.pc.pos < |c.buckets[x.k].data| {
      e := FillTo(x.pc.pos + 1);
    } else if x.pc.Filling? || x.pc.Offering? || CanAwait(x, s.links[0].notes) {
      e := Local(0);
    } else {
      e := NextMoves(c, s, 0);
    }
  }

  /** A rank that has not returned can move, or some other rank can. */
  lemma {:induction false} RankMoves(c: Config, s: State, r: nat) returns (e: Event)
    requires ValidConfig(c) && WellFormed(c, s) && Inv(c, s) && r <= c.n && s.ranks[r].pc != Done
    ensures Enabled(c, s, e)
    decreases r
  {
    hide RankInv;
    hide LinkInv;
    hide CanStep;
    var x := s.ranks[r];
    if r == 0 {
      e := SenderMoves(c, s);
    } else if x.read.Flying? {
      e := ReaderMoves(c, s, r);
    } else if (x.pc.FirstMeta? || x.pc.NextMeta?) && s.links[r - 1].msgs == [] {
      WaitingForMessage(c, r, s.ranks[r - 1], s.links[r - 1], x);
      e := RankMoves(c, s, r - 1);
    } else if x.pc.AwaitNext? && r < c.n && !CanAwait(x, s.links[r].notes) {
      e := NextMoves(c, s, r);
    } else {
      ReceiverReady(c, s, r);
      e := Local(r);
    }
  }

  lemma ReceiverReady(c: Config, s: State, r: nat)
    requires ValidConfig(c) && WellFormed(c, s) && Inv(c, s) && 0 < r <= c.n
    requires var x := s.ranks[r];
      && x.pc != Done && !x.read.Flying?
      && (x.pc.FirstMeta? || x.pc.NextMeta? ==> s.links[r - 1].msgs != [])
      && (x.pc.AwaitNext? && r < c.n ==> CanAwait(x, s.links[r].notes))
    ensures CanStep(c, s, r)
  {
    assert RankInv(c, r, s.ranks[r]);
    hide LinkInv;
    hide Holds;
    hide HoldsExcept;
    hide Outs;
  }

  lemma WaitingForMessage(c: Config, r: nat, p: Rank, l: Link, x: Rank)
    requires ValidConfig(c) && 0 < r <= c.n
    requires RankInv(c, r - 1, p) && RankInv(c, r, x) && LinkInv(c, r - 1, p, l, x)
    requires (x.pc.FirstMeta? || x.pc.NextMeta?) && l.msgs == []
    ensures p.pc != Done
  {}

  /** No reachable state in which some rank has not returned is stuck, and every step that is possible
      lowers the measure: each run ends, and it ends with every rank returned. */
  lemma Progress(c: Config, states: seq<State>, events: seq<Event>, i: nat)
    requires ValidConfig(c) && IsRun(c, states, events) && i <= |events|
    ensures WellFormed(c, states[i])
    ensures !AllDone(c, states[i]) ==> exists e :: Enabled(c, states[i], e)
    ensures forall e :: Enabled(c, states[i], e) ==>
      WellFormed(c, Apply(c, states[i], e)) && Measure(c, Apply(c, states[i], e)) < Measure(c, states[i])
    ensures AllDone(c, states[i]) ==> forall e :: !Enabled(c, states[i], e)
  {
    var s := states[i];
    RunInv(c, states, events, i);
    InvWellFormed(c, s);
    if !AllDone(c, s) {
      var r :| 0 <= r <= c.n && s.ranks[r].pc != Done;
      var e := RankMoves(c, s, r);
    }
    forall e | Enabled(c, s, e)
      ensures WellFormed(c, Apply(c, s, e)) && Measure(c, Apply(c, s, e)) < Measure(c, s)
    {
      StepWork(c, s, e);
    }
    if AllDone(c, s) {
      forall e ensures !Enabled(c, s, e) {
        DoneIsQuiet(c, s, e);
      }
    }
  }

  lemma DoneIsQuiet(c: Config, s: State, e: Event)
    requires ValidConfig(c) && WellFormed(c, s) && Inv(c, s) && AllDone(c, s)
    ensures !Enabled(c, s, e)
  {
    var r := match e case FillTo(_) => 0 case Local(q) => q case Copy(q, _) => q case Finish(q) => q;
    if r <= c.n { assert s.ranks[r].pc == Done; assert RankInv(c, r, s.ranks[r]); }
  }

  /** A run is never longer than the measure of its first state. */
  lemma {:induction false} RunBounded(c: Config, states: seq<State>, events: seq<Event>, i: nat)
    requires ValidConfig(c) && IsRun(c, states, events) && i <= |events|
    ensures WellFormed(c, states[0]) && WellFormed(c, states[i])
    ensures Measure(c, states[i]) + i <= Measure(c, states[0])
  {
    hide *;
    Progress(c, states, events, i);
    if i > 0 {
      RunBounded(c, states, events, i - 1);
      Progress(c, states, events, i - 1);
      StepAt(c, states, events, i - 1);
      StepFalls(c, states[i - 1], events[i - 1], states[i]);
    }
  }

  lemma StepAt(c: Config, states: seq<State>, events: seq<Event>, i: nat)
    requires IsRun(c, states, events) && i < |events|
    ensures |states| == |events| + 1 && IsStep(c, states[i], events[i], states[i + 1])
    ensures WellFormed(c, states[i]) && Enabled(c, states[i], events[i])
  {}

  lemma StepFalls(c: Config, s: State, e: Event, s': State)
    requires ValidConfig(c) && IsStep(c, s, e, s') && WellFormed(c, s) && WellFormed(c, s')
    requires Enabled(c, s, e) ==>
      WellFormed(c, Apply(c, s, e)) && Measure(c, Apply(c, s, e)) < Measure(c, s)
    ensures Measure(c, s') < Measure(c, s)
  {}

  /** A run that cannot be extended has every rank returned and every rollout rank served in full. */
  lemma Outcome(c: Config, states: seq<State>, events: seq<Event>)
    requires ValidConfig(c) && IsRun(c, states, events)
    requires WellFormed(c, states[|events|]) && forall e :: !Enabled(c, states[|events|], e)
    ensures AllDone(c, states[|events|]) && Packing.Decodable(c.buckets)
    ensures forall r :: 0 < r <= c.n ==> states[|events|].ranks[r].out == Packing.Decode(c.buckets)
  {
    Progress(c, states, events, |events|);
    Delivery(c, states, events, |events|, 0);
    forall r | 0 < r <= c.n ensures states[|events|].ranks[r].out == Packing.Decode(c.buckets) {
      Delivery(c, states, events, |events|, r);
    }
  }

  lemma ExtendRun(c: Config, states: seq<State>, events: seq<Event>, e: Event)
    requires IsRun(c, states, events)
    requires WellFormed(c, states[|events|]) && Enabled(c, states[|events|], e)
    ensures IsRun(c, states + [Apply(c, states[|events|], e)], events + [e])
  {
    var s' := Apply(c, states[|events|], e);
    var states', events' := states + [s'], events + [e];
    forall i | 0 <= i < |events'| ensures IsStep(c, states'[i], events'[i], states'[i + 1]) {
      if i < |events| { assert IsStep(c, states[i], events[i], states[i + 1]); }
    }
  }

  /** Every run can be completed: from wherever it stands, some continuation returns every rank. */
  lemma {:induction false} Completes(c: Config, states: seq<State>, events: seq<Event>)
      returns (states': seq<State>, events': seq<Event>)
    requires ValidConfig(c) && IsRun(c, states, events)
    ensures IsRun(c, states', events') && states <= states' && events <= events'
    ensures AllDone(c, states'[|events'|])
    decreases var s := states[|events|]; if WellFormed(c, s) then Measure(c, s) else 0
  {
    hide *;
    RunLength(c, states, events);
    Progress(c, states, events, |events|);
    var s := states[|events|];
    if AllDone(c, s) {
      states', events' := states, events;
    } else {
      var e := SomeEvent(c, s);
      ExtendRun(c, states, events, e);
      RunLength(c, states + [Apply(c, s, e)], events + [e]);
      Progress(c, states + [Apply(c, s, e)], events + [e], |events| + 1);
      states', events' := Completes(c, states + [Apply(c, s, e)], events + [e]);
    }
  }

  lemma SomeEvent(c: Config, s: State) returns (e: Event)
    requires WellFormed(c, s) && exists e :: Enabled(c, s, e)
    ensures Enabled(c, s, e)
  {
    e :| Enabled(c, s, e);
  }

  lemma RunLength(c: Config, states: seq<State>, events: seq<Event>)
    requires IsRun(c, states, events)
    ensures |states| == |events| + 1
  {}

  /** There is a run, whatever the uninitialised buffers hold. */
  lemma FirstRun(c: Config, mem: seq<seq<seq<byte>>>) returns (s: State)
    requires ValidConfig(c) && |mem| == c.n + 1
    requires forall bufs <- mem :: |bufs| == 2 && |bufs[0]| == |bufs[1]| == c.size
    ensures IsRun(c, [s], []) && Init(c, s) && forall r :: 0 <= r <= c.n ==> s.ranks[r].bufs == mem[r]
  {
    s := State(seq(c.n + 1, r requires 0 <= r <= c.n => InitRank(c, r, mem[r])), seq(c.n, _ => Link([], [])));
  }
}
