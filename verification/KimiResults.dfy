/** What all Kimi ranks together receive. */
module KimiResults {
  import opened Buckets
  import opened Options
  import opened KimiSchedule
  import opened KimiReceive

  ghost predicate AllValid(es: seq<Entry>, size: nat) {
    forall e <- es :: e.bucket.Valid(size)
  }

  /** The items of a list of buckets, bucket after bucket. */
  function Items(es: seq<Entry>, size: nat): seq<Weight>
    requires AllValid(es, size)
  {
    if es == [] then []
    else
      assert es[|es| - 1].bucket.Valid(size);
      Items(es[..|es| - 1], size) + Unpacked(es[|es| - 1].bucket)
  }

  /** Every broadcast delivers to this rank what its source has sent. */
  ghost predicate Delivers(wire: Wire, rank: int, slots: seq<Entry>, sent: int -> seq<Option<seq<byte>>>) {
    forall g :: 0 <= g < |slots| && slots[g].receiver != rank ==>
      |sent(slots[g].receiver)| > g && sent(slots[g].receiver)[g] == Some(wire.delivers(g))
  }

  lemma DeliversData(wire: Wire, rank: int, slots: seq<Entry>, sent: int -> seq<Option<seq<byte>>>, g: nat)
    requires Delivers(wire, rank, slots, sent) && g < |slots|
    requires forall e <- slots :: Broadcasts(sent(e.receiver), slots, e.receiver)
    ensures Got(slots[g], g, rank, wire) == slots[g].bucket.data
  {
    assert slots[g] in slots;
  }

  lemma {:induction false} ReceivedItems(slots: seq<Entry>, k: nat, size: nat, rank: int, wire: Wire)
    requires AllValid(slots, size) && Matched(slots, size, rank, wire) && k <= |slots|
    requires forall g :: 0 <= g < |slots| ==> Got(slots[g], g, rank, wire) == slots[g].bucket.data
    ensures AllValid(slots[..k], size) && Received(slots, k, size, rank, wire) == Items(slots[..k], size)
  {
    if k > 0 {
      ReceivedItems(slots, k - 1, size, rank, wire);
      assert slots[..k][..k - 1] == slots[..k - 1];
      assert slots[k - 1] in slots;
    }
  }

  lemma FrontValid(es: seq<Entry>, size: nat)
    requires AllValid(es, size) && es != []
    ensures AllValid(es[..|es| - 1], size) && es[|es| - 1].bucket.Valid(size)
  {
    assert es[|es| - 1] in es;
  }

  lemma ItemsSnoc(es: seq<Entry>, e: Entry, size: nat)
    requires AllValid(es, size) && e.bucket.Valid(size)
    ensures AllValid(es + [e], size) && Items(es + [e], size) == Items(es, size) + Unpacked(e.bucket)
  {
    assert (es + [e])[..|es|] == es;
  }

  lemma {:induction false} ItemsAppend(a: seq<Entry>, b: seq<Entry>, size: nat)
    requires AllValid(a, size) && AllValid(b, size)
    ensures AllValid(a + b, size) && Items(a + b, size) == Items(a, size) + Items(b, size)
  {
    if b == [] {
      assert a + b == a;
    } else {
      var init, e := b[..|b| - 1], b[|b| - 1];
      FrontValid(b, size);
      hide *;
      ItemsAppend(a, init, size);
      ItemsSnoc(a + init, e, size);
      ItemsSnoc(init, e, size);
      assert b == init + [e] && a + b == (a + init) + [e];
    }
  }

  lemma SplitAt(es: seq<Entry>, i: nat, size: nat)
    requires i < |es| && AllValid(es, size)
    ensures AllValid(es[..i], size) && AllValid(es[i + 1..], size) && es[i].bucket.Valid(size)
    ensures Items(es, size) == Items(es[..i], size) + Unpacked(es[i].bucket) + Items(es[i + 1..], size)
  {
    assert es == es[..i + 1] + es[i + 1..];
    ItemsAppend(es[..i + 1], es[i + 1..], size);
    assert es[..i + 1][..i] == es[..i];
  }

  /** Taking one bucket out takes its items out. */
  lemma RemoveAt(es: seq<Entry>, i: nat, size: nat)
    requires i < |es| && AllValid(es, size)
    ensures es[i].bucket.Valid(size) && AllValid(es[..i] + es[i + 1..], size)
    ensures multiset(Items(es, size)) ==
      multiset(Items(es[..i] + es[i + 1..], size)) + multiset(Unpacked(es[i].bucket))
    ensures multiset(es) == multiset(es[..i] + es[i + 1..]) + multiset{es[i]}
  {
    SplitAt(es, i, size);
    hide *;
    ItemsAppend(es[..i], es[i + 1..], size);
    Aside(Items(es[..i], size), Unpacked(es[i].bucket), Items(es[i + 1..], size));
    TakeOut(es, i);
  }

  lemma TakeOut<T>(xs: seq<T>, i: nat)
    requires i < |xs|
    ensures multiset(xs) == multiset(xs[..i] + xs[i + 1..]) + multiset{xs[i]}
  {
    assert xs == xs[..i] + [xs[i]] + xs[i + 1..];
  }

  lemma Aside<T>(x: seq<T>, y: seq<T>, z: seq<T>)
    ensures multiset(x + y + z) == multiset(x + z) + multiset(y)
  {}

  lemma CancelOne(m: multiset<Entry>, n: multiset<Entry>, e: Entry)
    requires m + multiset{e} == n + multiset{e}
    ensures m == n
  {
    assert m == (m + multiset{e}) - multiset{e} && n == (n + multiset{e}) - multiset{e};
  }

  lemma SameValid(a: seq<Entry>, b: seq<Entry>, size: nat)
    requires AllValid(a, size) && multiset(a) == multiset(b)
    ensures AllValid(b, size) && |a| == |b|
    ensures a != [] ==> exists i: nat :: i < |b| && b[i] == a[|a| - 1]
  {
    forall e | e in b ensures e.bucket.Valid(size) { assert e in multiset(a); }
    assert |multiset(a)| == |multiset(b)|;
    if a != [] { assert a[|a| - 1] in multiset(b); }
  }

  /** Reordering the buckets reorders the items and nothing else. */
  lemma {:induction false} ItemsPermuted(a: seq<Entry>, b: seq<Entry>, size: nat)
    requires AllValid(a, size) && multiset(a) == multiset(b)
    ensures AllValid(b, size) && multiset(Items(a, size)) == multiset(Items(b, size))
  {
    hide *;
    SameValid(a, b, size);
    if a != [] {
      var last := |a| - 1;
      var i: nat :| i < |b| && b[i] == a[last];
      RemoveAt(a, last, size);
      RemoveAt(b, i, size);
      assert a[..last] + a[last + 1..] == a[..last];
      CancelOne(multiset(a[..last]), multiset(b[..i] + b[i + 1..]), b[i]);
      ItemsPermuted(a[..last], b[..i] + b[i + 1..], size);
    } else {
      assert a == b;
    }
  }

  /** In a group of ranks where every broadcast delivers what its source has sent, every rank yields the
      same sequence: the items of the scheduled buckets. It holds every item of every bucket exactly once. */
  lemma EveryRankReceives(es: seq<Entry>, size: nat, rank: int, wire: Wire, sent: int -> seq<Option<seq<byte>>>)
    requires Matched(Schedule(es), size, rank, wire)
    requires Delivers(wire, rank, Schedule(es), sent)
    requires forall e <- es :: Broadcasts(sent(e.receiver), Schedule(es), e.receiver)
    ensures AllValid(Schedule(es), size) && AllValid(es, size)
    ensures Received(Schedule(es), |Schedule(es)|, size, rank, wire) == Items(Schedule(es), size)
    ensures multiset(Items(Schedule(es), size)) == multiset(Items(es, size))
  {
    var slots := Schedule(es);
    ScheduleExact(es);
    forall e | e in slots ensures e.bucket.Valid(size) && e in es { assert e in multiset(es); }
    forall g | 0 <= g < |slots| ensures Got(slots[g], g, rank, wire) == slots[g].bucket.data {
      DeliversData(wire, rank, slots, sent, g);
    }
    ReceivedItems(slots, |slots|, size, rank, wire);
    assert slots[..|slots|] == slots;
    ItemsPermuted(slots, es, size);
  }

  /** The items of buckets that were built from groups of distinctly named weights are those weights. */
  lemma {:induction false} ItemsOfGroups(es: seq<Entry>, groups: seq<seq<Weight>>, size: nat)
    requires |es| == |groups| && AllValid(es, size)
    requires forall i :: 0 <= i < |es| ==> es[i].bucket == BucketOf(groups[i]) && DistinctNames(groups[i])
    ensures Items(es, size) == Flatten(groups)
  {
    if es != [] {
      var init, last := groups[..|groups| - 1], groups[|groups| - 1];
      var front, e := es[..|es| - 1], es[|es| - 1];
      assert es == front + [e] && groups == init + [last] && e in es;
      UnpackIffDistinct(last);
      FrontValid(es, size);
      hide *;
      ItemsOfGroups(front, init, size);
      ItemsSnoc(front, e, size);
      FlattenSnoc(init, last);
    } else {
      assert groups == [];
    }
  }
}
