/** The schedule of broadcasts that all Kimi ranks derive from the same list of buckets. */
module KimiSchedule {
  import opened Buckets

  /** A bucket to broadcast: `receiver` fetches it from `owner` and is the source of its broadcast. */
  datatype Entry = Entry(receiver: int, owner: int, bucket: Bucket)

  /** The entries of one receiver, under its key in `buckets_by_receiver_rank`. */
  datatype Queue = Queue(receiver: int, entries: seq<Entry>)

  /** Append to the list under a key of an insertion-ordered defaultdict. */
  function Enqueue(d: seq<Queue>, e: Entry): seq<Queue> {
    if d == [] then [Queue(e.receiver, [e])]
    else if d[0].receiver == e.receiver then [Queue(e.receiver, d[0].entries + [e])] + d[1..]
    else [d[0]] + Enqueue(d[1..], e)
  }

  function Grouped(es: seq<Entry>): seq<Queue> {
    if es == [] then [] else Enqueue(Grouped(es[..|es| - 1]), es[|es| - 1])
  }

  function QueueOf(d: seq<Queue>, receiver: int): seq<Entry> {
    if d == [] then [] else if d[0].receiver == receiver then d[0].entries else QueueOf(d[1..], receiver)
  }

  function OfReceiver(es: seq<Entry>, receiver: int): seq<Entry> {
    if es == [] then []
    else
      OfReceiver(es[..|es| - 1], receiver) +
      if es[|es| - 1].receiver == receiver then [es[|es| - 1]] else []
  }

  /** The i-th entry, if there is one. */
  function At(es: seq<Entry>, i: nat): seq<Entry> {
    if i < |es| then [es[i]] else []
  }

  /** The broadcasts of pass i over the first j receivers. */
  function Row(d: seq<Queue>, i: nat, j: nat): seq<Entry>
    requires j <= |d|
  {
    if j == 0 then []
    else Row(d, i, j - 1) + At(d[j - 1].entries, i)
  }

  /** The broadcasts of the first n passes. */
  function Rows(d: seq<Queue>, n: nat): seq<Entry> {
    if n == 0 then [] else Rows(d, n - 1) + Row(d, n - 1, |d|)
  }

  function Longest(d: seq<Queue>): (n: nat)
    ensures forall q <- d :: |q.entries| <= n
  {
    if d == [] then 0
    else
      var n := Longest(d[1..]);
      if |d[0].entries| > n then |d[0].entries| else n
  }

  /** The order in which every rank takes part in the broadcasts. */
  function Schedule(es: seq<Entry>): seq<Entry> {
    Rows(Grouped(es), Longest(Grouped(es)))
  }

  // ---------- The schedule visits every bucket once, per receiver in list order ----------

  ghost predicate Queues(d: seq<Queue>) {
    && (forall i, j :: 0 <= i < j < |d| ==> d[i].receiver != d[j].receiver)
    && (forall q <- d :: q.entries != [] && forall e <- q.entries :: e.receiver == q.receiver)
  }

  function Receivers(d: seq<Queue>): set<int> {
    set q <- d :: q.receiver
  }

  lemma QueuesTail(d: seq<Queue>)
    requires Queues(d) && d != []
    ensures Queues(d[1..]) && d[0].receiver !in Receivers(d[1..])
    ensures Receivers(d) == {d[0].receiver} + Receivers(d[1..])
  {
    var t := d[1..];
    assert forall i :: 0 <= i < |t| ==> t[i] == d[i + 1];
    assert d == [d[0]] + t;
  }

  lemma QueuesCons(q: Queue, t: seq<Queue>)
    requires Queues(t) && q.receiver !in Receivers(t)
    requires q.entries != [] && forall e <- q.entries :: e.receiver == q.receiver
    ensures Queues([q] + t) && Receivers([q] + t) == {q.receiver} + Receivers(t)
  {
    assert forall i :: 0 <= i < |t| ==> t[i].receiver in Receivers(t);
  }

  lemma {:induction false} EnqueueQueues(d: seq<Queue>, e: Entry)
    requires Queues(d)
    ensures Queues(Enqueue(d, e)) && Receivers(Enqueue(d, e)) == Receivers(d) + {e.receiver}
  {
    if d == [] {
      QueuesCons(Queue(e.receiver, [e]), []);
      assert [Queue(e.receiver, [e])] + [] == [Queue(e.receiver, [e])];
    } else {
      QueuesTail(d);
      assert d[0] in d;
      if d[0].receiver == e.receiver {
        QueuesCons(Queue(e.receiver, d[0].entries + [e]), d[1..]);
      } else {
        EnqueueQueues(d[1..], e);
        hide Queues;
        QueuesCons(d[0], Enqueue(d[1..], e));
      }
    }
  }

  /** Appending changes the list of one receiver and the longest length. */
  lemma {:induction false} EnqueueExact(d: seq<Queue>, e: Entry, r: int)
    ensures QueueOf(Enqueue(d, e), r) == QueueOf(d, r) + if e.receiver == r then [e] else []
    ensures Longest(Enqueue(d, e)) ==
      var n := |QueueOf(d, e.receiver)| + 1; if n > Longest(d) then n else Longest(d)
  {
    if d != [] {
      EnqueueExact(d[1..], e, r);
    }
  }

  lemma {:induction false} GroupedExact(es: seq<Entry>, r: int)
    ensures Queues(Grouped(es)) && QueueOf(Grouped(es), r) == OfReceiver(es, r)
  {
    if es != [] {
      var init := es[..|es| - 1];
      GroupedExact(init, r);
      hide *;
      GroupedSnoc(init, es[|es| - 1]);
      OfReceiverSnoc(init, es[|es| - 1], r);
      assert es == init + [es[|es| - 1]];
      EnqueueExact(Grouped(init), es[|es| - 1], r);
      EnqueueQueues(Grouped(init), es[|es| - 1]);
    }
  }

  lemma GroupedSnoc(es: seq<Entry>, e: Entry)
    ensures Grouped(es + [e]) == Enqueue(Grouped(es), e)
  {
    assert (es + [e])[..|es|] == es;
  }

  lemma OfReceiverSnoc(es: seq<Entry>, e: Entry, r: int)
    ensures OfReceiver(es + [e], r) == OfReceiver(es, r) + if e.receiver == r then [e] else []
  {
    assert (es + [e])[..|es|] == es;
  }

  lemma {:induction false} OfReceiverAppend(a: seq<Entry>, b: seq<Entry>, r: int)
    ensures OfReceiver(a + b, r) == OfReceiver(a, r) + OfReceiver(b, r)
  {
    if b == [] {
      assert a + b == a;
    } else {
      var init, e := b[..|b| - 1], b[|b| - 1];
      assert b == init + [e] && a + b == (a + init) + [e];
      OfReceiverAppend(a, init, r);
      hide *;
      OfReceiverSnoc(a + init, e, r);
      OfReceiverSnoc(init, e, r);
    }
  }

  lemma {:induction false} QueueAt(d: seq<Queue>, k: nat)
    requires Queues(d) && k < |d|
    ensures QueueOf(d, d[k].receiver) == d[k].entries
  {
    if k > 0 {
      assert forall i :: 0 <= i < |d[1..]| ==> d[1..][i] == d[i + 1];
      QueueAt(d[1..], k - 1);
    }
  }

  lemma {:induction false} QueueMissing(d: seq<Queue>, r: int)
    requires r !in Receivers(d)
    ensures QueueOf(d, r) == []
  {
    if d != [] {
      assert d[0].receiver in Receivers(d);
      assert forall q <- d[1..] :: q.receiver in Receivers(d);
      QueueMissing(d[1..], r);
    }
  }

  ghost predicate Served(d: seq<Queue>, j: nat, r: int)
    requires j <= |d|
  {
    exists k :: 0 <= k < j && d[k].receiver == r
  }

  lemma ServedSnoc(d: seq<Queue>, j: nat, r: int)
    requires Queues(d) && 0 < j <= |d|
    ensures Served(d, j, r) <==> Served(d, j - 1, r) || d[j - 1].receiver == r
    ensures d[j - 1].receiver == r ==> !Served(d, j - 1, r)
  {}

  lemma AtOf(q: Queue, i: nat, r: int)
    requires forall e <- q.entries :: e.receiver == q.receiver
    ensures OfReceiver(At(q.entries, i), r) == if q.receiver == r then At(q.entries, i) else []
  {
    if i < |q.entries| {
      assert q.entries[i] in q.entries;
      OfReceiverSnoc([], q.entries[i], r);
      assert [] + [q.entries[i]] == [q.entries[i]];
    }
  }

  /** One pass serves receiver r at most once, with the i-th entry of its queue. */
  lemma {:induction false} RowOf(d: seq<Queue>, i: nat, j: nat, r: int)
    requires Queues(d) && j <= |d|
    ensures OfReceiver(Row(d, i, j), r) == if Served(d, j, r) then At(QueueOf(d, r), i) else []
  {
    if j > 0 {
      RowOf(d, i, j - 1, r);
      var q := d[j - 1];
      assert q in d;
      AtOf(q, i, r);
      ServedSnoc(d, j, r);
      QueueAt(d, j - 1);
      hide *;
      OfReceiverAppend(Row(d, i, j - 1), At(q.entries, i), r);
    }
  }

  function Take(es: seq<Entry>, n: nat): seq<Entry> {
    if n <= |es| then es[..n] else es
  }

  lemma TakeNext(es: seq<Entry>, n: nat)
    ensures Take(es, n) + At(es, n) == Take(es, n + 1)
  {}

  lemma {:induction false} RowsOf(d: seq<Queue>, n: nat, r: int)
    requires Queues(d)
    ensures OfReceiver(Rows(d, n), r) == Take(QueueOf(d, r), n)
  {
    hide Queues;
    hide QueueOf;
    hide Row;
    hide Take;
    if n == 0 {
      assert Take(QueueOf(d, r), 0) == [] by { TakeNothing(QueueOf(d, r)); }
    } else {
      RowsOf(d, n - 1, r);
      RowOf(d, n - 1, |d|, r);
      if !Served(d, |d|, r) {
        QueueMissing(d, r);
      }
      TakeNext(QueueOf(d, r), n - 1);
      hide OfReceiver;
      OfReceiverAppend(Rows(d, n - 1), Row(d, n - 1, |d|), r);
    }
  }

  lemma TakeNothing(es: seq<Entry>)
    ensures Take(es, 0) == []
  {}

  lemma {:induction false} QueueFits(d: seq<Queue>, r: int)
    ensures |QueueOf(d, r)| <= Longest(d)
  {
    if d != [] { QueueFits(d[1..], r); }
  }

  /** The schedule keeps each receiver's entries in list order and takes every entry exactly once. */
  lemma ScheduleExact(es: seq<Entry>)
    ensures forall r :: OfReceiver(Schedule(es), r) == OfReceiver(es, r)
    ensures multiset(Schedule(es)) == multiset(es)
  {
    forall r ensures OfReceiver(Schedule(es), r) == OfReceiver(es, r) {
      GroupedExact(es, r);
      RowsOf(Grouped(es), Longest(Grouped(es)), r);
      QueueFits(Grouped(es), r);
    }
    forall e ensures multiset(Schedule(es))[e] == multiset(es)[e] {
      CountOf(Schedule(es), e);
      CountOf(es, e);
    }
  }

  lemma {:induction false} CountOf(es: seq<Entry>, e: Entry)
    ensures multiset(es)[e] == multiset(OfReceiver(es, e.receiver))[e]
  {
    if es != [] {
      CountOf(es[..|es| - 1], e);
      assert es == es[..|es| - 1] + [es[|es| - 1]];
    }
  }

  lemma {:induction false} RowsGrow(d: seq<Queue>, i: nat, n: nat)
    requires i <= n
    ensures Rows(d, i) <= Rows(d, n)
  {
    if i < n { RowsGrow(d, i, n - 1); }
  }

  lemma {:induction false} RowGrow(d: seq<Queue>, i: nat, j: nat, m: nat)
    requires j <= m <= |d|
    ensures Row(d, i, j) <= Row(d, i, m)
  {
    if j < m { RowGrow(d, i, j, m - 1); }
  }

  /** What has been broadcast when pass i reaches receiver j is a prefix of all rows. */
  lemma SoFar(d: seq<Queue>, i: nat, j: nat, n: nat)
    requires i < n && j <= |d|
    ensures Rows(d, i) + Row(d, i, j) <= Rows(d, n)
  {
    RowsGrow(d, i + 1, n);
    RowGrow(d, i, j, |d|);
  }

  // ---------- The order of the schedule ----------

  /** A new receiver comes behind the others; a known one keeps its place. */
  lemma {:induction false} EnqueuePlaces(d: seq<Queue>, e: Entry)
    ensures var r := Enqueue(d, e);
      && |d| <= |r| && (forall a :: 0 <= a < |d| ==> r[a].receiver == d[a].receiver)
      && (if e.receiver in Receivers(d) then |r| == |d| else |r| == |d| + 1 && r[|d|].receiver == e.receiver)
  {
    if d != [] {
      assert Receivers(d) == {d[0].receiver} + Receivers(d[1..]) by { assert d == [d[0]] + d[1..]; }
      if d[0].receiver != e.receiver {
        EnqueuePlaces(d[1..], e);
        forall a | 0 <= a < |d| ensures Enqueue(d, e)[a].receiver == d[a].receiver {
          if a > 0 { assert d[a] == d[1..][a - 1]; }
        }
      }
    }
  }

  lemma {:induction false} ReceiversOf(es: seq<Entry>)
    ensures Receivers(Grouped(es)) == (set e <- es :: e.receiver)
  {
    if es != [] {
      var init, e := es[..|es| - 1], es[|es| - 1];
      assert es == init + [e];
      ReceiversOf(init);
      GroupedExact(init, e.receiver);
      EnqueueQueues(Grouped(init), e);
    }
  }

  /** The receivers are listed in the order in which the list of buckets first names them. */
  lemma {:induction false} ReceiversInOrder(es: seq<Entry>, a: nat, b: nat) returns (i: nat)
    requires a < b < |Grouped(es)|
    ensures i < |es| && es[i].receiver == Grouped(es)[a].receiver
    ensures forall j :: 0 <= j <= i ==> es[j].receiver != Grouped(es)[b].receiver
  {
    var init, e := es[..|es| - 1], es[|es| - 1];
    assert es == init + [e];
    var d := Grouped(init);
    GroupedSnoc(init, e);
    EnqueuePlaces(d, e);
    ReceiversOf(init);
    hide Enqueue;
    hide Grouped;
    if b < |d| {
      i := ReceiversInOrder(init, a, b);
    } else {
      assert d[a].receiver in Receivers(d);
      i :| i < |init| && init[i].receiver == d[a].receiver;
      forall j | 0 <= j <= i ensures es[j].receiver != e.receiver {
        assert init[j] in init && init[j].receiver in Receivers(d);
      }
    }
  }

  lemma SlotOf(d: seq<Queue>, i: nat, a: nat, n: nat)
    requires a < |d| && i < |d[a].entries| && i < n
    ensures var p := |Rows(d, i)| + |Row(d, i, a)|; p < |Rows(d, n)| && Rows(d, n)[p] == d[a].entries[i]
    ensures |Rows(d, i)| + |Row(d, i, a)| < |Rows(d, i)| + |Row(d, i, a + 1)| <= |Rows(d, i + 1)|
  {
    SoFar(d, i, a + 1, n);
    RowGrow(d, i, a + 1, |d|);
    var so := Rows(d, i) + Row(d, i, a + 1);
    assert so[|Rows(d, i)| + |Row(d, i, a)|] == d[a].entries[i];
  }

  /** An earlier pass comes first, and within a pass the receivers come in their order. */
  lemma ScheduleOrder(es: seq<Entry>, i: nat, a: nat, k: nat, b: nat) returns (p: nat, q: nat)
    requires var d := Grouped(es); a < |d| && b < |d| && i < |d[a].entries| && k < |d[b].entries|
    requires i < k || (i == k && a < b)
    ensures var d, s := Grouped(es), Schedule(es);
      p < q < |s| && s[p] == d[a].entries[i] && s[q] == d[b].entries[k]
  {
    hide *;
    var d := Grouped(es);
    var n := Longest(d);
    FitsLongest(d, a);
    FitsLongest(d, b);
    ScheduleIs(es);
    SlotOf(d, i, a, n);
    SlotOf(d, k, b, n);
    p, q := |Rows(d, i)| + |Row(d, i, a)|, |Rows(d, k)| + |Row(d, k, b)|;
    if i < k { RowsGrow(d, i + 1, k); } else { RowGrow(d, i, a + 1, b); }
  }

  lemma FitsLongest(d: seq<Queue>, a: nat)
    requires a < |d|
    ensures |d[a].entries| <= Longest(d)
  {
    assert d[a] in d;
  }

  lemma ScheduleIs(es: seq<Entry>)
    ensures Schedule(es) == Rows(Grouped(es), Longest(Grouped(es)))
  {}
}
