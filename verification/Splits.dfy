/** Cutting sequences of rows the way torch and numpy do. */
module Splits {
  import opened Buckets
  import opened Arithmetic

  /** n consecutive blocks of s rows. */
  function Blocks<T>(xs: seq<T>, s: nat, n: nat): (bs: seq<seq<T>>)
    requires |xs| == n * s
    ensures |bs| == n && forall i :: 0 <= i < n ==> |bs[i]| == s
  {
    if n == 0 then []
    else
      TimesNext(n, s);
      [xs[..s]] + Blocks(xs[s..], s, n - 1)
  }

  // ---------- torch.chunk ----------

  function Pieces<T>(xs: seq<T>, size: nat): seq<seq<T>>
    requires size > 0
  {
    if |xs| <= size then [xs] else [xs[..size]] + Pieces(xs[size..], size)
  }

  /** Pieces of the rounded-up average size; an empty tensor gives n empty ones. */
  function ChunkRows<T>(xs: seq<T>, n: nat): seq<seq<T>>
    requires n > 0
  {
    if xs == [] then seq(n, _ => [])
    else
      ChunkSize(|xs|, n);
      Pieces(xs, CeilDiv(|xs|, n))
  }

  lemma ChunkSize(len: nat, n: nat)
    requires n > 0 && len > 0
    ensures CeilDiv(len, n) > 0
  {}

  lemma {:induction false} PiecesAreBlocks<T>(xs: seq<T>, s: nat, n: nat)
    requires s > 0 && n > 0 && |xs| == n * s
    ensures Pieces(xs, s) == Blocks(xs, s, n)
  {
    TimesNext(n, s);
    if n > 1 {
      TimesNext(n - 1, s);
      PiecesAreBlocks(xs[s..], s, n - 1);
    } else {
      assert n == 1 && |xs| == s;
      assert xs[..s] == xs && Blocks(xs[s..], s, 0) == [];
    }
  }

  lemma {:induction false} EmptyBlocks<T>(n: nat)
    ensures var xs: seq<T> := []; Blocks(xs, 0, n) == seq(n, _ => [])
  {
    if n > 0 { EmptyBlocks<T>(n - 1); }
  }

  /** A tensor of n * s rows is chunked into its blocks. */
  lemma ChunkIsBlocks<T>(xs: seq<T>, s: nat, n: nat)
    requires n > 0 && |xs| == n * s
    ensures ChunkRows(xs, n) == Blocks(xs, s, n)
  {
    if s == 0 {
      EmptyBlocks<T>(n);
    } else {
      assert CeilDiv(n * s, n) == s by { CeilExact(s, n); }
      TimesNext(n, s);
      PiecesAreBlocks(xs, s, n);
    }
  }

  lemma CeilExact(s: nat, n: nat)
    requires n > 0
    ensures CeilDiv(n * s, n) == s
  {
    var q := CeilDiv(n * s, n);
    assert n * s == s * n;
    if q < s { MulMono(q, s - 1, n); }
    if q > s { MulMono(s, q - 1, n); }
  }

  lemma {:induction false} PiecesFlat<T>(xs: seq<T>, size: nat)
    requires size > 0
    ensures Flatten(Pieces(xs, size)) == xs && Pieces(xs, size) != []
  {
    if |xs| > size {
      PiecesFlat(xs[size..], size);
    } else {
      assert Flatten([xs]) == xs + Flatten<T>([]);
    }
  }

  /** Piece i holds the elements from `i * size` on, `size` of them or up to the end, and the last piece is not
      empty. */
  lemma {:induction false} PieceAt<T>(xs: seq<T>, size: nat, i: nat, lo: nat)
    requires size > 0 && xs != [] && i < |Pieces(xs, size)| && lo == i * size
    ensures lo < |xs| && Pieces(xs, size)[i] == (if lo + size <= |xs| then xs[lo..lo + size] else xs[lo..])
    ensures i + 1 < |Pieces(xs, size)| <==> lo + size < |xs|
  {
    hide *;
    PiecesStep(xs, size);
    PreviousStart(i, size, lo);
    if |xs| > size { PiecesStep(xs[size..], size); }
    if i > 0 {
      PieceAt(xs[size..], size, i - 1, lo - size);
      SliceOfRest(xs, size, lo);
    }
  }

  lemma {:induction false} PieceCount<T>(xs: seq<T>, s: nat, c: nat)
    requires s > 0 && xs != [] && |xs| <= c * s
    ensures |Pieces(xs, s)| <= c
    ensures |Pieces(xs, s)| == c <==> (c - 1) * s < |xs|
  {
    assert c > 0;
    TimesNext(c, s);
    if |xs| > s {
      PieceCount(xs[s..], s, c - 1);
      assert (c - 2) * s == (c - 1) * s - s;
    } else if c > 1 {
      TimesNext(c - 1, s);
    }
  }

  lemma PreviousStart(i: nat, size: nat, lo: nat)
    requires lo == i * size
    ensures if i == 0 then lo == 0 else lo >= size && lo - size == (i - 1) * size
  {
    if i > 0 { TimesNext(i, size); }
  }

  lemma PiecesStep<T>(xs: seq<T>, size: nat)
    requires size > 0
    ensures Pieces(xs, size) == if |xs| <= size then [xs] else [xs[..size]] + Pieces(xs[size..], size)
    ensures Pieces(xs, size) != []
  {}

  lemma SliceOfRest<T>(xs: seq<T>, size: nat, lo: nat)
    requires size <= lo <= |xs|
    ensures xs[size..][lo - size..] == xs[lo..]
    ensures lo + size <= |xs| ==> xs[size..][lo - size..lo] == xs[lo..lo + size]
  {}

  lemma {:induction false} EmptiesFlat<T>(n: nat)
    ensures var none: seq<T> := []; Flatten(seq(n, _ => none)) == none
  {
    var none: seq<T> := [];
    if n > 0 {
      EmptiesFlat<T>(n - 1);
      assert seq(n, _ => none)[1..] == seq(n - 1, _ => none);
    }
  }

  /** Chunking loses no row. */
  lemma ChunkRowsFlat<T>(xs: seq<T>, n: nat)
    requires n > 0
    ensures Flatten(ChunkRows(xs, n)) == xs && ChunkRows(xs, n) != []
  {
    if xs == [] {
      EmptiesFlat<T>(n);
    } else {
      ChunkSize(|xs|, n);
      PiecesFlat(xs, CeilDiv(|xs|, n));
    }
  }

  lemma {:induction false} BlocksFlat<T>(xs: seq<T>, s: nat, n: nat)
    requires |xs| == n * s
    ensures Flatten(Blocks(xs, s, n)) == xs
  {
    if n > 0 {
      TimesNext(n, s);
      BlocksFlat(xs[s..], s, n - 1);
    }
  }

  /** Block i. */
  lemma {:induction false} BlocksAt<T>(xs: seq<T>, s: nat, n: nat, i: nat)
    requires |xs| == n * s && i < n
    ensures i * s + s <= |xs| && Blocks(xs, s, n)[i] == xs[i * s..i * s + s]
  {
    TimesNext(n, s);
    if i > 0 {
      TimesNext(i, s);
      BlocksAt(xs[s..], s, n - 1, i - 1);
    }
  }

  lemma BlocksCons<T>(x: seq<T>, rest: seq<T>, n: nat)
    requires |rest| == n * |x|
    ensures |x + rest| == (n + 1) * |x| && Blocks(x + rest, |x|, n + 1) == [x] + Blocks(rest, |x|, n)
  {
    TimesNext(n + 1, |x|);
    var xs := x + rest;
    assert xs[..|x|] == x && xs[|x|..] == rest;
  }

  lemma {:induction false} FlatBlocks<T>(bs: seq<seq<T>>, s: nat)
    requires forall i :: 0 <= i < |bs| ==> |bs[i]| == s
    ensures |Flatten(bs)| == |bs| * s && Blocks(Flatten(bs), s, |bs|) == bs
  {
    if bs != [] {
      FlatBlocks(bs[1..], s);
      assert Flatten(bs) == bs[0] + Flatten(bs[1..]);
      assert bs == [bs[0]] + bs[1..];
      hide *;
      BlocksCons(bs[0], Flatten(bs[1..]), |bs| - 1);
    }
  }

  // ---------- numpy.array_split ----------

  function Min(a: nat, b: nat): nat {
    if a < b then a else b
  }

  /** Where section i of n begins when `len` elements are split as evenly as possible, larger ones first. */
  function DivPoint(len: nat, n: nat, i: nat): nat
    requires n > 0
  {
    i * (len / n) + Min(i, len % n)
  }

  lemma DivPointNext(len: nat, n: nat, i: nat)
    requires n > 0
    ensures DivPoint(len, n, 0) == 0 && DivPoint(len, n, n) == len
    ensures DivPoint(len, n, i + 1) == DivPoint(len, n, i) + len / n + if i < len % n then 1 else 0
  {
    assert (i + 1) * (len / n) == i * (len / n) + len / n;
    assert len == n * (len / n) + len % n;
  }

  lemma {:induction false} DivPointMono(len: nat, n: nat, i: nat, j: nat)
    requires n > 0 && i <= j
    ensures DivPoint(len, n, i) <= DivPoint(len, n, j)
  {
    if i < j {
      DivPointMono(len, n, i, j - 1);
      DivPointNext(len, n, j - 1);
    }
  }

  /** numpy's array_split. */
  function ArraySplit<T>(xs: seq<T>, n: nat): (parts: seq<seq<T>>)
    requires n > 0
    ensures |parts| == n && forall i :: 0 <= i < n ==> parts[i] == Part(xs, n, i)
  {
    seq(n, i requires 0 <= i < n => Part(xs, n, i))
  }

  function Part<T>(xs: seq<T>, n: nat, i: nat): seq<T>
    requires i < n
  {
    DivPointMono(|xs|, n, i, i + 1);
    DivPointMono(|xs|, n, i + 1, n);
    DivPointNext(|xs|, n, i);
    xs[DivPoint(|xs|, n, i)..DivPoint(|xs|, n, i + 1)]
  }

  lemma {:induction false} PartsFlat<T>(xs: seq<T>, n: nat, i: nat)
    requires n > 0 && i <= n
    ensures DivPoint(|xs|, n, i) <= |xs|
    ensures Flatten(ArraySplit(xs, n)[..i]) == xs[..DivPoint(|xs|, n, i)]
  {
    DivPointNext(|xs|, n, 0);
    DivPointMono(|xs|, n, i, n);
    if i > 0 {
      PartsFlat(xs, n, i - 1);
      hide Flatten;
      hide DivPoint;
      DivPointMono(|xs|, n, i - 1, i);
      assert ArraySplit(xs, n)[..i] == ArraySplit(xs, n)[..i - 1] + [Part(xs, n, i - 1)];
      FlattenSnoc(ArraySplit(xs, n)[..i - 1], Part(xs, n, i - 1));
    }
  }

  /** The split loses nothing and its sections differ in length by at most one, the longer ones first. */
  lemma ArraySplitExact<T>(xs: seq<T>, n: nat)
    requires n > 0
    ensures Flatten(ArraySplit(xs, n)) == xs
    ensures forall i, j :: 0 <= i < j < n ==>
      |ArraySplit(xs, n)[j]| <= |ArraySplit(xs, n)[i]| <= |ArraySplit(xs, n)[j]| + 1
  {
    forall i, j | 0 <= i < j < n
      ensures |ArraySplit(xs, n)[j]| <= |ArraySplit(xs, n)[i]| <= |ArraySplit(xs, n)[j]| + 1
    {
      PartLength(xs, n, i);
      PartLength(xs, n, j);
    }
    PartsFlat(xs, n, n);
    DivPointNext(|xs|, n, 0);
    assert ArraySplit(xs, n)[..n] == ArraySplit(xs, n);
  }

  lemma PartLength<T>(xs: seq<T>, n: nat, i: nat)
    requires i < n
    ensures |ArraySplit(xs, n)[i]| == |xs| / n + if i < |xs| % n then 1 else 0
  {
    PartIs(xs, n, i);
    hide *;
    assert ArraySplit(xs, n)[i] == Part(xs, n, i);
    DivPointNext(|xs|, n, i);
  }

  lemma PartAt<T>(xs: seq<T>, n: nat, i: nat)
    requires i < n
    ensures var lo, hi := DivPoint(|xs|, n, i), DivPoint(|xs|, n, i + 1);
      lo <= hi <= |xs| && Part(xs, n, i) == xs[lo..hi]
  {
    DivPointMono(|xs|, n, i, i + 1);
    DivPointMono(|xs|, n, i + 1, n);
    DivPointNext(|xs|, n, i);
    hide DivPoint;
  }

  lemma PartIs<T>(xs: seq<T>, n: nat, i: nat)
    requires i < n
    ensures |Part(xs, n, i)| == DivPoint(|xs|, n, i + 1) - DivPoint(|xs|, n, i)
  {
    DivPointMono(|xs|, n, i, i + 1);
    DivPointMono(|xs|, n, i + 1, n);
    DivPointNext(|xs|, n, i);
    hide DivPoint;
  }
}
