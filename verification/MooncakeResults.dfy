/** What the runs of the Mooncake relay guarantee, and exactly when its acknowledgements can be trusted. */
module MooncakeResults {
  import opened Buckets
  import opened Transfers
  import opened Streams
  import opened MooncakeChain
  import opened MooncakeSafety
  import Packing

  // ---------- Integrity of what is relayed ----------

  /** If every bucket whose buffer is used again is distinguishable from the magic, then in every run
      each completed read left the sender's bytes of its bucket in the reader's buffer, in order; a
      rank that returns has read them all; and no assertion fails. */
  lemma RelayIntegrity(c: Config, states: seq<State>, events: seq<Event>, i: nat, r: nat)
    requires ValidConfig(c) && SafeStream(c) && IsRun(c, states, events) && i <= |events| && 0 < r <= c.n
    ensures |states[i].ranks| == c.n + 1
    ensures var x := states[i].ranks[r];
      && x.pc != Failed
      && |x.relayed| <= |c.buckets|
      && (forall m :: 0 <= m < |x.relayed| ==> x.relayed[m] == c.buckets[m].data)
      && (x.pc == Done ==> |x.relayed| == |c.buckets|)
  {
    RunInv(c, states, events, i);
    assert RankInv(c, r, states[i].ranks[r]);
  }

  /** No buffer is refilled before the next rank has acknowledged the bucket it held. */
  lemma NoEarlyRefill(c: Config, states: seq<State>, events: seq<Event>, i: nat)
    requires ValidConfig(c) && SafeStream(c) && IsRun(c, states, events) && i <= |events|
    ensures |states[i].ranks| == c.n + 1 && !EarlyRefill(c, states[i])
  {
    RunInv(c, states, events, i);
    forall j | 0 <= j < c.n ensures !RefillsEarly(j, states[i].ranks[j], states[i].ranks[j + 1]) {
      assert LinkInv(c, j, states[i].ranks[j], states[i].queues[j], states[i].ranks[j + 1]);
    }
  }

  /** Rank a writes over bucket Placed - 2, which rank b has not acknowledged. */
  ghost predicate RefillsEarly(i: nat, a: Rank, b: Rank) {
    Overwriting(a) && Placed(i, a) >= b.k + 2
  }

  ghost predicate EarlyRefill(c: Config, s: State) {
    |s.ranks| == c.n + 1 && exists j :: 0 <= j < c.n && RefillsEarly(j, s.ranks[j], s.ranks[j + 1])
  }

  // ---------- What the local consumers see ----------

  /** The buffer from which rank r is yielding holds the sender's bucket exactly as long as the next
      rank has not acknowledged it: afterwards its first four bytes are the magic. */
  lemma YieldedBytes(c: Config, states: seq<State>, events: seq<Event>, i: nat, r: nat)
    requires ValidConfig(c) && SafeStream(c) && IsRun(c, states, events) && i <= |events| && 0 < r <= c.n
    requires |states[i].ranks| == c.n + 1 && states[i].ranks[r].pc.Yielding?
    ensures var x := states[i].ranks[r];
      && x.k < |c.buckets| && |x.bufs| == 2
      && var acked := r < c.n && states[i].ranks[r + 1].k > x.k;
      && Content(x.bufs[Cur(x)], c.buckets[x.k].data, acked)
      && (Distinguishable(c.buckets[x.k].data) ==> (Holds(x.bufs[Cur(x)], c.buckets[x.k].data) <==> !acked))
  {
    RunInv(c, states, events, i);
    var s := states[i];
    var x := s.ranks[r];
    assert RankInv(c, r, x);
    if r < c.n { assert LinkInv(c, r, x, s.queues[r], s.ranks[r + 1]); }
    MarkedIsNotHeld(x.bufs[Cur(x)], c.buckets[x.k].data);
  }

  lemma MarkedIsNotHeld(buf: seq<byte>, data: seq<byte>)
    ensures Marked(buf) && Distinguishable(data) ==> !Holds(buf, data)
  {
    var n := if |data| < 4 then |data| else 4;
    if Marked(buf) && Holds(buf, data) {
      assert data[..n] == buf[..4][..n];
    }
  }

  /** The last rank, which nobody marks, yields exactly the sender's (name, bytes) sequence. */
  lemma LastRankDelivers(c: Config, states: seq<State>, events: seq<Event>, i: nat)
    requires ValidConfig(c) && SafeStream(c) && IsRun(c, states, events) && i <= |events|
    ensures |states[i].ranks| == c.n + 1 && Packing.Decodable(c.buckets)
    ensures states[i].ranks[c.n].out <= Packing.Decode(c.buckets)
    ensures states[i].ranks[c.n].pc == Done ==> states[i].ranks[c.n].out == Packing.Decode(c.buckets)
  {
    RunInv(c, states, events, i);
    var x := states[i].ranks[c.n];
    assert RankInv(c, c.n, x);
    AllOuts(c.buckets, c.size);
    OutsGrow(c.buckets, c.size, x.k, |c.buckets|);
    if x.k < |c.buckets| {
      OutsGrow(c.buckets, c.size, x.k + 1, |c.buckets|);
      if x.pc.Yielding? {
        YieldedPrefix(c.buckets, c.size, x.k, x.pc.j);
      }
    }
  }

  /** End to end: with the buckets that greedy filling packs from a stream whose weights fit and whose names
      differ, the last rank yields exactly that stream. */
  lemma StreamDelivered(ws: seq<Weight>, size: nat, n: nat, states: seq<State>, events: seq<Event>, i: nat)
    requires n >= 1 && size >= 4 && Packing.AllFit(ws, size) && DistinctNames(ws)
    requires SafeStream(Config(Packing.Encode(ws, size), size, n))
    requires IsRun(Config(Packing.Encode(ws, size), size, n), states, events) && i <= |events|
    requires |states[i].ranks| == n + 1 && states[i].ranks[n].pc == Done
    ensures states[i].ranks[n].out == ws
  {
    Packing.EncodeDecode(ws, size);
    LastRankDelivers(Config(Packing.Encode(ws, size), size, n), states, events, i);
  }
}
