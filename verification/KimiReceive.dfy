/** How a Kimi rank receives the buckets: it stages its own, takes part in every broadcast of the
    schedule, and yields one half of its buffer while the next broadcast fills the other. */
module KimiReceive {
  import opened Buckets
  import opened Options
  import opened KimiSchedule

  /** The environment of one rank: what each broadcast of another rank delivers to it, and which byte
      positions of broadcast g have landed by the time item j of the previous bucket is yielded. */
  datatype Wire = Wire(delivers: nat -> seq<byte>, landed: (nat, nat) -> set<nat>)

  /** What broadcast g of the slots leaves on this rank. */
  function Got(e: Entry, g: nat, rank: int, wire: Wire): seq<byte> {
    if e.receiver == rank then e.bucket.data else wire.delivers(g)
  }

  /** Buckets fit the buffer halves and the peers of a broadcast agree on its length. */
  ghost predicate Matched(slots: seq<Entry>, size: nat, rank: int, wire: Wire) {
    forall g :: 0 <= g < |slots| ==>
      slots[g].bucket.Valid(size) && |Got(slots[g], g, rank, wire)| == |slots[g].bucket.data|
  }

  /** What a rank yields for the first k slots. */
  function Received(slots: seq<Entry>, k: nat, size: nat, rank: int, wire: Wire): seq<Weight>
    requires Matched(slots, size, rank, wire) && k <= |slots|
  {
    if k == 0 then []
    else
      Received(slots, k - 1, size, rank, wire) +
      Views(slots[k - 1].bucket.metas, Got(slots[k - 1], k - 1, rank, wire))
  }

  lemma {:induction false} ReceivedPrefix(a: seq<Entry>, b: seq<Entry>, k: nat, size: nat, rank: int, wire: Wire)
    requires Matched(b, size, rank, wire) && a <= b && k <= |a|
    ensures Matched(a, size, rank, wire)
    ensures Received(a, k, size, rank, wire) == Received(b, k, size, rank, wire)
  {
    assert forall g :: 0 <= g < |a| ==> a[g] == b[g];
    if k > 0 { ReceivedPrefix(a, b, k - 1, size, rank, wire); }
  }

  /** The bytes from `start` on are `data`. */
  ghost predicate HasAt(buf: seq<byte>, start: nat, data: seq<byte>) {
    start + |data| <= |buf| && buf[start..start + |data|] == data
  }

  /** Nothing but the `n` bytes from `start` on differs. */
  ghost predicate SameOutside(before: seq<byte>, after: seq<byte>, start: nat, n: nat) {
    && |before| == |after|
    && forall k :: 0 <= k < |before| && (k < start || start + n <= k) ==> after[k] == before[k]
  }

  lemma KeepsOther(before: seq<byte>, after: seq<byte>, start: nat, n: nat, base: nat, data: seq<byte>)
    requires SameOutside(before, after, start, n) && HasAt(before, base, data)
    requires start + n <= base || base + |data| <= start
    ensures HasAt(after, base, data)
  {}

  lemma SameTwice(a: seq<byte>, b: seq<byte>, c: seq<byte>, start: nat, n: nat)
    requires SameOutside(a, b, start, n) && SameOutside(b, c, start, n)
    ensures SameOutside(a, c, start, n)
  {}

  /** Sequential copy into a part of a buffer. */
  method CopyInto(buffer: array<byte>, start: nat, data: seq<byte>)
    requires start + |data| <= buffer.Length
    modifies buffer
    ensures HasAt(buffer[..], start, data) && SameOutside(old(buffer[..]), buffer[..], start, |data|)
  {
    for i := 0 to |data|
      invariant forall k :: 0 <= k < i ==> buffer[start + k] == data[k]
      invariant forall k :: 0 <= k < start || start + i <= k < buffer.Length ==> buffer[k] == old(buffer[k])
    {
      buffer[start + i] := data[i];
    }
  }

  /** Some bytes of a running broadcast land. */
  method Land(buffer: array<byte>, start: nat, data: seq<byte>, positions: set<nat>)
    requires start + |data| <= buffer.Length
    modifies buffer
    ensures SameOutside(old(buffer[..]), buffer[..], start, |data|)
  {
    for i := 0 to |data|
      invariant SameOutside(old(buffer[..]), buffer[..], start, |data|)
    {
      if i in positions { buffer[start + i] := data[i]; }
    }
  }

  lemma ViewAt(buf: seq<byte>, base: nat, data: seq<byte>, m: Meta)
    requires HasAt(buf, base, data) && m.offset + m.size <= |data|
    ensures Weight(m.name, buf[base + m.offset..base + m.offset + m.size]) == View(m, data)
  {
    var x, y := buf[base + m.offset..base + m.offset + m.size], data[m.offset..m.offset + m.size];
    assert |x| == |y| == m.size;
    forall i | 0 <= i < m.size ensures x[i] == y[i] {
      assert buf[base..base + |data|][m.offset + i] == buf[base + (m.offset + i)];
    }
  }

  /** Yield the views of one half while a broadcast, if this rank is not its source, lands elsewhere. */
  method YieldWhileLanding(buffer: array<byte>, base: nat, metas: seq<Meta>, ghost data: seq<byte>,
                           start: nat, incoming: seq<byte>, landed: nat -> set<nat>)
      returns (items: seq<Weight>)
    requires HasAt(buffer[..], base, data)
    requires start + |incoming| <= buffer.Length && (start + |incoming| <= base || base + |data| <= start)
    requires forall m <- metas :: m.offset + m.size <= |data|
    modifies buffer
    ensures items == Views(metas, data)
    ensures SameOutside(old(buffer[..]), buffer[..], start, |incoming|)
  {
    hide SameOutside;
    hide HasAt;
    items := [];
    assert SameOutside(buffer[..], buffer[..], start, |incoming|) by { SameAsItself(buffer[..], start, |incoming|); }
    for j := 0 to |metas|
      invariant items == Views(metas, data)[..j]
      invariant SameOutside(old(buffer[..]), buffer[..], start, |incoming|) && HasAt(buffer[..], base, data)
    {
      ghost var before := buffer[..];
      Land(buffer, start, incoming, landed(j));
      SameTwice(old(buffer[..]), before, buffer[..], start, |incoming|);
      KeepsOther(before, buffer[..], start, |incoming|, base, data);
      var m := metas[j];
      assert m in metas;
      HasBounds(buffer[..], base, data);
      ViewAt(buffer[..], base, data, m);
      items := items + [Weight(m.name, buffer[base + m.offset..base + m.offset + m.size])];
    }
  }

  lemma SameAsItself(buf: seq<byte>, start: nat, n: nat)
    ensures SameOutside(buf, buf, start, n)
  {}

  lemma HasBounds(buf: seq<byte>, start: nat, data: seq<byte>)
    requires HasAt(buf, start, data)
    ensures start + |data| <= |buf| && buf[start..start + |data|] == data
  {}

  /** Where broadcast g lands. */
  function Half(g: nat, size: nat): (start: nat)
    ensures start == if g % 2 == 0 then 0 else size
  {
    g % 2 * size
  }

  /** Half g mod 2 holds the bytes of broadcast g, described by `metas`. */
  ghost predicate Holding(buf: seq<byte>, g: nat, size: nat, metas: seq<Meta>, data: seq<byte>) {
    && |data| <= size
    && HasAt(buf, Half(g, size), data)
    && forall m <- metas :: m.offset + m.size <= |data|
  }

  /** One broadcast. The rank's own bucket comes from the staging buffer, or straight from its store if
      staging is off; meanwhile the previous bucket is yielded from the other half. */
  method Round(buffer: array<byte>, h2d: array<byte>, e: Entry, g: nat, size: nat, rank: int, disableH2d: bool,
               wire: Wire, previous: seq<Meta>, ghost held: seq<byte>)
      returns (items: seq<Weight>, sent: Option<seq<byte>>)
    requires buffer.Length == 2 * size && h2d != buffer
    requires e.bucket.Valid(size) && |Got(e, g, rank, wire)| == |e.bucket.data|
    requires e.receiver == rank && !disableH2d ==> HasAt(h2d[..], 0, e.bucket.data)
    requires g > 0 ==> Holding(buffer[..], g - 1, size, previous, held)
    modifies buffer
    ensures items == if g == 0 then [] else Views(previous, held)
    ensures Holding(buffer[..], g, size, e.bucket.metas, Got(e, g, rank, wire))
    ensures sent == if e.receiver == rank then Some(e.bucket.data) else None
  {
    hide Half;
    hide Views;
    hide SameOutside;
    hide HasAt;
    var start, len := Half(g, size), |e.bucket.data|;
    sent, items := None, [];
    if e.receiver == rank {
      ghost var before := buffer[..];
      if disableH2d {
        CopyInto(buffer, start, e.bucket.data);
      } else {
        HasBounds(h2d[..], 0, e.bucket.data);
        CopyInto(buffer, start, h2d[..len]);
      }
      HasBounds(buffer[..], start, e.bucket.data);
      sent := Some(buffer[start..start + len]);
      if g > 0 {
        KeepsOther(before, buffer[..], start, len, Half(g - 1, size), held);
        ghost var mid := buffer[..];
        items := YieldWhileLanding(buffer, Half(g - 1, size), previous, held, 0, [], j => wire.landed(g, j));
        SameEverywhere(mid, buffer[..]);
      }
    } else {
      if g > 0 {
        items := YieldWhileLanding(buffer, Half(g - 1, size), previous, held, start, wire.delivers(g),
          j => wire.landed(g, j));
      }
      CopyInto(buffer, start, wire.delivers(g));
    }
  }

  lemma SameEverywhere(a: seq<byte>, b: seq<byte>)
    requires SameOutside(a, b, 0, 0)
    ensures a == b
  {}

  method OwnBuckets(es: seq<Entry>, rank: int) returns (owned: seq<Entry>)
    ensures owned == OfReceiver(es, rank)
  {
    owned := [];
    for i := 0 to |es|
      invariant owned == OfReceiver(es[..i], rank)
    {
      assert es[..i + 1] == es[..i] + [es[i]];
      OfReceiverSnoc(es[..i], es[i], rank);
      if es[i].receiver == rank {
        owned := owned + [es[i]];
      }
    }
    assert es[..|es|] == es;
  }

  method BucketsByReceiver(es: seq<Entry>) returns (d: seq<Queue>, maxLen: nat)
    ensures d == Grouped(es) && maxLen == Longest(d)
  {
    d, maxLen := [], 0;
    for i := 0 to |es|
      invariant d == Grouped(es[..i]) && maxLen == Longest(d)
    {
      assert es[..i + 1] == es[..i] + [es[i]];
      hide *;
      GroupedSnoc(es[..i], es[i]);
      EnqueueExact(d, es[i], es[i].receiver);
      d := Enqueue(d, es[i]);
      if |QueueOf(d, es[i].receiver)| > maxLen {
        maxLen := |QueueOf(d, es[i].receiver)|;
      }
    }
    assert es[..|es|] == es;
  }

  /** This rank has been the source of exactly the broadcasts of its own buckets, with their bytes. */
  ghost predicate Broadcasts(sent: seq<Option<seq<byte>>>, slots: seq<Entry>, rank: int) {
    && |sent| == |slots|
    && forall g :: 0 <= g < |sent| ==>
      sent[g] == if slots[g].receiver == rank then Some(slots[g].bucket.data) else None
  }

  /** The generator after the broadcasts of `slots`: every bucket but the last has been yielded, and the
      last lies in its half. */
  ghost predicate Between(slots: seq<Entry>, size: nat, rank: int, wire: Wire, buf: seq<byte>, metadata: seq<Meta>,
                          out: seq<Weight>, sent: seq<Option<seq<byte>>>)
  {
    && Matched(slots, size, rank, wire) && Broadcasts(sent, slots, rank)
    && if slots == [] then out == []
       else
         var g := |slots| - 1;
         && out == Received(slots, g, size, rank, wire)
         && metadata == slots[g].bucket.metas
         && Holding(buf, g, size, metadata, Got(slots[g], g, rank, wire))
  }

  lemma BetweenNext(slots: seq<Entry>, e: Entry, size: nat, rank: int, wire: Wire, before: seq<byte>, after: seq<byte>,
                    metadata: seq<Meta>, out: seq<Weight>, items: seq<Weight>, sent: seq<Option<seq<byte>>>)
    requires Between(slots, size, rank, wire, before, metadata, out, sent)
    requires Matched(slots + [e], size, rank, wire)
    requires Holding(after, |slots|, size, e.bucket.metas, Got(e, |slots|, rank, wire))
    requires items == if slots == [] then [] else
      var g := |slots| - 1; Views(metadata, Got(slots[g], g, rank, wire))
    ensures Between(slots + [e], size, rank, wire, after, e.bucket.metas, out + items,
      sent + [if e.receiver == rank then Some(e.bucket.data) else None])
  {
    hide Views;
    hide Holding;
    hide Got;
    ReceivedPrefix(slots, slots + [e], |slots|, size, rank, wire);
    if slots != [] {
      ReceivedPrefix(slots, slots + [e], |slots| - 1, size, rank, wire);
    }
  }

  lemma OwnedFits(es: seq<Entry>, i: nat, size: nat, rank: int, wire: Wire)
    requires Matched(Schedule(es), size, rank, wire) && i < |OfReceiver(es, rank)|
    ensures OfReceiver(es, rank)[i].bucket.Valid(size)
  {
    var e := OfReceiver(es, rank)[i];
    ScheduleExact(es);
    OfReceiverIn(es, rank, i);
    assert e in multiset(es);
    assert e in Schedule(es);
  }

  lemma {:induction false} OfReceiverIn(es: seq<Entry>, r: int, i: nat)
    requires i < |OfReceiver(es, r)|
    ensures OfReceiver(es, r)[i] in es && OfReceiver(es, r)[i].receiver == r
  {
    if es != [] && i < |OfReceiver(es[..|es| - 1], r)| { OfReceiverIn(es[..|es| - 1], r, i); }
  }

  /** The slots before receiver j of pass i. */
  ghost function Slots(d: seq<Queue>, i: nat, j: nat): seq<Entry>
    requires j <= |d|
  {
    Rows(d, i) + Row(d, i, j)
  }

  lemma NextSlot(es: seq<Entry>, i: nat, j: nat, size: nat, rank: int, wire: Wire)
    requires Matched(Schedule(es), size, rank, wire)
    requires i < Longest(Grouped(es)) && j < |Grouped(es)|
    ensures var d := Grouped(es); var entries := d[j].entries;
      if i < |entries| then
        && Slots(d, i, j + 1) == Slots(d, i, j) + [entries[i]]
        && Matched(Slots(d, i, j) + [entries[i]], size, rank, wire)
        && (entries[i].receiver == rank ==>
              i < |OfReceiver(es, rank)| && OfReceiver(es, rank)[i] == entries[i])
      else Slots(d, i, j + 1) == Slots(d, i, j)
  {
    var d := Grouped(es);
    var q := d[j];
    if i < |q.entries| {
      assert Slots(d, i, j + 1) == Slots(d, i, j) + [q.entries[i]];
      SoFar(d, i, j + 1, Longest(d));
      ReceivedPrefix(Slots(d, i, j + 1), Schedule(es), 0, size, rank, wire);
      GroupedExact(es, rank);
      assert q in d && q.entries[i] in q.entries;
      QueueAt(d, j);
    }
  }

  lemma SlotsEdges(es: seq<Entry>, i: nat)
    ensures var d := Grouped(es);
      && Slots(d, 0, 0) == [] && Slots(d, i, |d|) == Slots(d, i + 1, 0)
      && Slots(d, Longest(d), 0) == Schedule(es)
      && (es != [] ==> Schedule(es) != [])
  {
    ScheduleExact(es);
    if es != [] { assert es[0] in multiset(es); }
  }

  lemma BetweenBounds(slots: seq<Entry>, size: nat, rank: int, wire: Wire, buf: seq<byte>, metadata: seq<Meta>,
                      out: seq<Weight>, sent: seq<Option<seq<byte>>>)
    requires Between(slots, size, rank, wire, buf, metadata, out, sent) && slots != []
    ensures var g := |slots| - 1; var data := Got(slots[g], g, rank, wire);
      && Holding(buf, g, size, metadata, data)
      && HasAt(buf, Half(g, size), data) && (forall m <- metadata :: m.offset + m.size <= |data|)
      && Received(slots, |slots|, size, rank, wire) == out + Views(metadata, data)
      && Broadcasts(sent, slots, rank)
  {}

  lemma BetweenNothing(size: nat, rank: int, wire: Wire, buf: seq<byte>)
    ensures Between([], size, rank, wire, buf, [], [], [])
  {}

  /** The generator: what it yields, and what it broadcasts as a source. */
  method ReceiveTensor(rank: int, es: seq<Entry>, size: nat, disableH2d: bool, wire: Wire)
      returns (out: seq<Weight>, sent: seq<Option<seq<byte>>>)
    requires es != [] && Matched(Schedule(es), size, rank, wire)
    ensures out == Received(Schedule(es), |Schedule(es)|, size, rank, wire)
    ensures Broadcasts(sent, Schedule(es), rank)
  {
    hide *;
    var h2d := new byte[if disableH2d then 0 else size];
    var owned := OwnBuckets(es, rank);
    var buffer := new byte[2 * size];
    var d, maxLen := BucketsByReceiver(es);
    var gidx, metadata: seq<Meta> := 0, [];
    out, sent := [], [];
    ghost var slots := [];
    SlotsEdges(es, 0);
    BetweenNothing(size, rank, wire, buffer[..]);
    for i := 0 to maxLen
      invariant slots == Slots(d, i, 0) && gidx == |slots|
      invariant Between(slots, size, rank, wire, buffer[..], metadata, out, sent)
    {
      SlotsEdges(es, i);
      if i < |owned| && !disableH2d {
        assert |owned[i].bucket.data| <= size by { OwnedFits(es, i, size, rank, wire); }
        CopyInto(h2d, 0, owned[i].bucket.data);
      }
      for j := 0 to |d|
        invariant slots == Slots(d, i, j) && gidx == |slots|
        invariant Between(slots, size, rank, wire, buffer[..], metadata, out, sent)
        invariant i < |owned| && !disableH2d ==> HasAt(h2d[..], 0, owned[i].bucket.data)
      {
        NextSlot(es, i, j, size, rank, wire);
        if i < |d[j].entries| {
          var e := d[j].entries[i];
          metadata, out, sent := Step(buffer, h2d, e, gidx, size, rank, disableH2d, wire, metadata, out, sent, slots);
          slots := slots + [e];
          gidx := gidx + 1;
        }
      }
    }
    SlotsEdges(es, maxLen);
    BetweenBounds(slots, size, rank, wire, buffer[..], metadata, out, sent);
    var items := YieldWhileLanding(buffer, Half(gidx - 1, size), metadata, Got(slots[gidx - 1], gidx - 1, rank, wire),
      0, [], j => {});
    out := out + items;
  }

  /** The loop body for one bucket. */
  method Step(buffer: array<byte>, h2d: array<byte>, e: Entry, gidx: nat, size: nat, rank: int, disableH2d: bool,
              wire: Wire, metadata: seq<Meta>, out: seq<Weight>, sent: seq<Option<seq<byte>>>, ghost slots: seq<Entry>)
      returns (metadata': seq<Meta>, out': seq<Weight>, sent': seq<Option<seq<byte>>>)
    requires buffer.Length == 2 * size && h2d != buffer && gidx == |slots|
    requires e.receiver == rank && !disableH2d ==> HasAt(h2d[..], 0, e.bucket.data)
    requires Between(slots, size, rank, wire, buffer[..], metadata, out, sent)
    requires Matched(slots + [e], size, rank, wire)
    modifies buffer
    ensures Between(slots + [e], size, rank, wire, buffer[..], metadata', out', sent')
  {
    hide Views;
    hide Holding;
    hide Got;
    ghost var before := buffer[..];
    assert (slots + [e])[gidx] == e;
    ghost var held := if gidx > 0 then Got(slots[gidx - 1], gidx - 1, rank, wire) else [];
    if gidx > 0 {
      BetweenBounds(slots, size, rank, wire, before, metadata, out, sent);
    }
    var items, mine := Round(buffer, h2d, e, gidx, size, rank, disableH2d, wire, metadata, held);
    BetweenNext(slots, e, size, rank, wire, before, buffer[..], metadata, out, items, sent);
    metadata', out', sent' := e.bucket.metas, out + items, sent + [mine];
  }
}
