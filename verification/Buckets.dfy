/** The named byte tensors that the checkpoint engines stream, the buckets they travel in,
    and the `bucket_meta` dictionary that tells a receiver where each tensor lies. */
module Buckets {

  type byte = b: int | 0 <= b < 256

  datatype Weight = Weight(name: string, bytes: seq<byte>)

  /** One entry of `bucket_meta`; dtype and shape enter only through the byte size they determine. */
  datatype Meta = Meta(name: string, offset: nat, size: nat)

  /** What one bucket carries: its metadata and the bytes written from offset 0. */
  datatype Bucket = Bucket(metas: seq<Meta>, data: seq<byte>) {
    predicate Valid(size: nat) {
      && |data| <= size
      && forall m <- metas :: m.offset + m.size <= |data|
    }
  }

  /** Assignment into an insertion-ordered Python dict: an existing key keeps its place. */
  function Put(d: seq<Meta>, m: Meta): seq<Meta> {
    if d == [] then [m]
    else if d[0].name == m.name then [m] + d[1..]
    else [d[0]] + Put(d[1..], m)
  }

  function ByteCount(ws: seq<Weight>): nat {
    if ws == [] then 0 else ByteCount(ws[..|ws| - 1]) + |ws[|ws| - 1].bytes|
  }

  function Payload(ws: seq<Weight>): seq<byte> {
    if ws == [] then [] else Payload(ws[..|ws| - 1]) + ws[|ws| - 1].bytes
  }

  /** The metadata after placing `ws` one behind the other from offset 0. */
  function Layout(ws: seq<Weight>): seq<Meta> {
    if ws == [] then []
    else
      var w := ws[|ws| - 1];
      Put(Layout(ws[..|ws| - 1]), Meta(w.name, ByteCount(ws[..|ws| - 1]), |w.bytes|))
  }

  function BucketOf(ws: seq<Weight>): Bucket {
    Bucket(Layout(ws), Payload(ws))
  }

  /** What a receiver yields for one metadata entry. */
  function View(m: Meta, buf: seq<byte>): Weight
    requires m.offset + m.size <= |buf|
  {
    Weight(m.name, buf[m.offset..m.offset + m.size])
  }

  function Views(ms: seq<Meta>, buf: seq<byte>): (ws: seq<Weight>)
    requires forall m <- ms :: m.offset + m.size <= |buf|
    ensures |ws| == |ms|
  {
    seq(|ms|, i requires 0 <= i < |ms| => View(ms[i], buf))
  }

  function Unpacked(b: Bucket): seq<Weight>
    requires b.Valid(|b.data|)
  {
    Views(b.metas, b.data)
  }

  ghost predicate DistinctNames(ws: seq<Weight>) {
    forall i, j :: 0 <= i < j < |ws| ==> ws[i].name != ws[j].name
  }

  function Flatten<T>(xss: seq<seq<T>>): seq<T> {
    if xss == [] then [] else xss[0] + Flatten(xss[1..])
  }

  // ---------- Facts about the dictionary and the layout ----------

  function Keys(d: seq<Meta>): set<string> {
    set m <- d :: m.name
  }

  function Names(ws: seq<Weight>): set<string> {
    set w <- ws :: w.name
  }

  ghost predicate DistinctKeys(d: seq<Meta>) {
    forall i, j :: 0 <= i < j < |d| ==> d[i].name != d[j].name
  }

  ghost predicate InBounds(d: seq<Meta>, n: nat) {
    forall m <- d :: m.offset + m.size <= n
  }

  lemma {:induction false} PutKeys(d: seq<Meta>, m: Meta)
    ensures Keys(Put(d, m)) == Keys(d) + {m.name}
    ensures if m.name in Keys(d) then |Put(d, m)| == |d| else Put(d, m) == d + [m]
  {
    if d != [] {
      KeysCons(d[0], d[1..]);
      assert [d[0]] + d[1..] == d;
      if d[0].name == m.name {
        KeysCons(m, d[1..]);
      } else {
        PutKeys(d[1..], m);
        KeysCons(d[0], Put(d[1..], m));
      }
    }
  }

  lemma KeysCons(m: Meta, d: seq<Meta>)
    ensures Keys([m] + d) == {m.name} + Keys(d)
  {}

  lemma {:induction false} PutDistinct(d: seq<Meta>, m: Meta)
    requires DistinctKeys(d)
    ensures DistinctKeys(Put(d, m))
  {
    if d != [] && d[0].name != m.name {
      PutDistinct(d[1..], m);
      PutKeys(d[1..], m);
      var r := Put(d[1..], m);
      forall i | 0 <= i < |r| ensures r[i].name != d[0].name {
        assert r[i].name in Keys(r);
      }
    }
  }

  /** Assigning to a dict replaces the entry of the name where it stands, or adds the name at the end. */
  lemma {:induction false} PutExact(d: seq<Meta>, m: Meta)
    requires DistinctKeys(d)
    ensures var r := Put(d, m);
      if exists i :: 0 <= i < |d| && d[i].name == m.name
      then |r| == |d| && forall i :: 0 <= i < |d| ==> r[i] == if d[i].name == m.name then m else d[i]
      else r == d + [m]
  {
    if d != [] && d[0].name != m.name {
      forall i, j | 0 <= i < j < |d[1..]| ensures d[1..][i].name != d[1..][j].name {
        assert d[1..][i] == d[i + 1] && d[1..][j] == d[j + 1];
      }
      PutExact(d[1..], m);
      if i :| 0 <= i < |d| && d[i].name == m.name { assert d[1..][i - 1] == d[i]; }
      assert d == [d[0]] + d[1..];
    }
  }

  lemma {:induction false} PutBounds(d: seq<Meta>, m: Meta, n: nat)
    requires InBounds(d, n) && m.offset + m.size <= n
    ensures InBounds(Put(d, m), n)
  {
    if d != [] && d[0].name != m.name {
      PutBounds(d[1..], m, n);
    }
  }

  lemma {:induction false} PayloadLength(ws: seq<Weight>)
    ensures |Payload(ws)| == ByteCount(ws)
  {
    if ws != [] { PayloadLength(ws[..|ws| - 1]); }
  }

  lemma {:induction false} LayoutKeys(ws: seq<Weight>)
    ensures DistinctKeys(Layout(ws)) && Keys(Layout(ws)) == Names(ws) && |Layout(ws)| <= |ws|
  {
    if ws != [] {
      LayoutSnoc(ws);
      hide *;
      var init, w := ws[..|ws| - 1], ws[|ws| - 1];
      LayoutKeys(init);
      var m := Meta(w.name, ByteCount(init), |w.bytes|);
      PutKeys(Layout(init), m);
      PutDistinct(Layout(init), m);
    }
  }

  lemma LayoutSnoc(ws: seq<Weight>)
    requires ws != []
    ensures var init, w := ws[..|ws| - 1], ws[|ws| - 1];
      && Layout(ws) == Put(Layout(init), Meta(w.name, ByteCount(init), |w.bytes|))
      && Names(ws) == Names(init) + {w.name}
  {
    assert ws == ws[..|ws| - 1] + [ws[|ws| - 1]];
  }

  lemma {:induction false} LayoutBounds(ws: seq<Weight>)
    ensures InBounds(Layout(ws), ByteCount(ws))
  {
    if ws != [] {
      var init, w := ws[..|ws| - 1], ws[|ws| - 1];
      LayoutBounds(init);
      PutBounds(Layout(init), Meta(w.name, ByteCount(init), |w.bytes|), ByteCount(ws));
    }
  }

  /** A bucket built from weights that fit is a valid bucket. */
  lemma BucketOfValid(ws: seq<Weight>, size: nat)
    requires ByteCount(ws) <= size
    ensures BucketOf(ws).Valid(size) && BucketOf(ws).Valid(|BucketOf(ws).data|)
  {
    PayloadLength(ws);
    LayoutBounds(ws);
  }

  lemma ViewsPrefix(ms: seq<Meta>, data: seq<byte>, buf: seq<byte>)
    requires forall m <- ms :: m.offset + m.size <= |data|
    requires data <= buf
    ensures Views(ms, buf) == Views(ms, data)
  {
    forall i | 0 <= i < |ms| ensures View(ms[i], buf) == View(ms[i], data) {
      var m := ms[i];
      assert m in ms;
      assert buf[m.offset..m.offset + m.size] == data[m.offset..m.offset + m.size];
    }
  }

  lemma {:induction false} DistinctLayout(ws: seq<Weight>)
    requires DistinctNames(ws)
    ensures BucketOf(ws).Valid(|Payload(ws)|) && Unpacked(BucketOf(ws)) == ws
  {
    PayloadLength(ws);
    BucketOfValid(ws, ByteCount(ws));
    if ws != [] {
      var init, w := ws[..|ws| - 1], ws[|ws| - 1];
      assert ws == init + [w];
      assert forall i, j :: 0 <= i < j < |init| ==> init[i] == ws[i] && init[j] == ws[j];
      DistinctLayout(init);
      AppendLayout(init, w);
    }
  }

  lemma FreshName(init: seq<Weight>, w: Weight)
    requires DistinctNames(init + [w])
    ensures w.name !in Names(init)
  {
    forall i | 0 <= i < |init| ensures init[i].name != w.name {
      assert (init + [w])[i].name != (init + [w])[|init|].name;
    }
  }

  lemma ViewsSnoc(d: seq<Meta>, m: Meta, buf: seq<byte>)
    requires InBounds(d + [m], |buf|)
    ensures InBounds(d, |buf|) && m.offset + m.size <= |buf|
    ensures Views(d + [m], buf) == Views(d, buf) + [View(m, buf)]
  {
    forall x | x in d ensures x.offset + x.size <= |buf| { assert x in d + [m]; }
    assert m in d + [m];
  }

  lemma AppendLayout(init: seq<Weight>, w: Weight)
    requires DistinctNames(init + [w])
    requires BucketOf(init).Valid(|Payload(init)|) && Unpacked(BucketOf(init)) == init
    requires BucketOf(init + [w]).Valid(|Payload(init + [w])|)
    ensures Unpacked(BucketOf(init + [w])) == init + [w]
  {
    hide DistinctNames;
    hide DistinctKeys;
    var ws := init + [w];
    assert ws[..|ws| - 1] == init;
    var d, m := Layout(init), Meta(w.name, ByteCount(init), |w.bytes|);
    assert m.name !in Keys(d) by {
      LayoutKeys(init);
      FreshName(init, w);
    }
    PutKeys(d, m);
    PayloadLength(init);
    ViewsSnoc(d, m, Payload(ws));
    ViewsPrefix(d, Payload(init), Payload(ws));
    assert View(m, Payload(ws)) == w;
  }

  /** A receiver that slices the bucket by its metadata gets the placed weights back, in order,
      exactly when no two of them share a name. */
  lemma UnpackIffDistinct(ws: seq<Weight>)
    ensures BucketOf(ws).Valid(|Payload(ws)|)
    ensures Unpacked(BucketOf(ws)) == ws <==> DistinctNames(ws)
    ensures |Unpacked(BucketOf(ws))| == |ws| <==> DistinctNames(ws)
    ensures |Unpacked(BucketOf(ws))| <= |ws|
  {
    PayloadLength(ws);
    BucketOfValid(ws, ByteCount(ws));
    LayoutKeys(ws);
    if DistinctNames(ws) {
      DistinctLayout(ws);
    } else {
      ShorterWhenRepeated(ws);
    }
  }

  lemma {:induction false} ShorterWhenRepeated(ws: seq<Weight>)
    requires !DistinctNames(ws)
    ensures |Layout(ws)| < |ws|
  {
    var init, w := ws[..|ws| - 1], ws[|ws| - 1];
    var i, j :| 0 <= i < j < |ws| && ws[i].name == ws[j].name;
    LayoutKeys(init);
    PutKeys(Layout(init), Meta(w.name, ByteCount(init), |w.bytes|));
    if j < |ws| - 1 {
      assert init[i].name == init[j].name;
      ShorterWhenRepeated(init);
    } else {
      assert init[i].name in Names(init);
    }
  }

  lemma {:induction false} FlattenAppend<T>(a: seq<seq<T>>, b: seq<seq<T>>)
    ensures Flatten(a + b) == Flatten(a) + Flatten(b)
  {
    if a == [] {
      assert a + b == b;
    } else {
      assert (a + b)[1..] == a[1..] + b;
      FlattenAppend(a[1..], b);
    }
  }

  lemma FlattenSnoc<T>(a: seq<seq<T>>, x: seq<T>)
    ensures Flatten(a + [x]) == Flatten(a) + x
  {
    FlattenAppend(a, [x]);
    assert Flatten([x]) == x + Flatten([]);
  }
}
