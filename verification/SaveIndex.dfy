/** Writing the merged state dict of every rank into numbered files, and the index of where each key is. */
module SaveIndex {
  import opened Buckets
  import opened PipelineShards
  import opened Prefixes
  import opened Splits

  // ---------- One rank ----------

  function AllIn(keys: seq<string>, file: nat): map<string, nat> {
    map k | k in keys :: file
  }

  /** The index entries of consecutive files numbered from `base`. */
  function IndexOf(files: seq<seq<string>>, base: nat): map<string, nat> {
    if files == [] then map[]
    else
      var last := |files| - 1;
      IndexOf(files[..last], base) + AllIn(files[last], base + last)
  }

  lemma IndexSnoc(files: seq<seq<string>>, f: seq<string>, base: nat)
    ensures IndexOf(files + [f], base) == IndexOf(files, base) + AllIn(f, base + |files|)
  {
    assert (files + [f])[..|files|] == files;
  }

  /** The files of one rank: number, and the keys in it. */
  function Numbered(files: seq<seq<string>>, base: nat): (written: map<nat, seq<string>>)
    ensures forall f: nat :: f in written <==> base <= f < base + |files|
    ensures forall f: nat :: f in written ==> written[f] == files[f - base]
  {
    if files == [] then map[]
    else
      var last := |files| - 1;
      Numbered(files[..last], base)[base + last := files[last]]
  }

  lemma NumberedSnoc(files: seq<seq<string>>, f: seq<string>, base: nat)
    ensures Numbered(files + [f], base) == Numbered(files, base)[base + |files| := f]
    ensures Numbered([], base) == map[] && IndexOf([], base) == map[]
  {
    assert (files + [f])[..|files|] == files;
  }

  method SaveModel(keys: seq<string>, shards: seq<int>, rank: nat, layerNum: int)
      returns (written: map<nat, seq<string>>, index: map<string, nat>)
    requires NonNegative(shards) && rank < |shards| && shards[rank] > 0
    ensures var per := if layerNum < 30 then 1 else 2;
      && shards[rank] * per > 0 && Start(shards, rank) >= 0
      && written == Numbered(ArraySplit(keys, shards[rank] * per), Start(shards, rank) * per)
      && index == IndexOf(ArraySplit(keys, shards[rank] * per), Start(shards, rank) * per)
  {
    ScalePositive(shards[rank], if layerNum < 30 then 1 else 2);
    hide *;
    var savesPerLayer := if layerNum < 30 then 1 else 2;
    StartAll(shards);
    StartMono(shards, 0, rank);
    var layerStart := if rank == 0 then 0 else Start(shards, rank);
    var chunks := ArraySplit(keys, shards[rank] * savesPerLayer);
    written, index := WriteFiles(chunks, layerStart * savesPerLayer);
  }

  method WriteFiles(chunks: seq<seq<string>>, first: nat)
      returns (written: map<nat, seq<string>>, index: map<string, nat>)
    ensures written == Numbered(chunks, first) && index == IndexOf(chunks, first)
  {
    hide *;
    written, index := map[], map[];
    assert chunks[..0] == [];
    NumberedSnoc([], [], first);
    for i := 0 to |chunks|
      invariant written == Numbered(chunks[..i], first) && index == IndexOf(chunks[..i], first)
    {
      var saveIdx := first + i;
      assert chunks[..i + 1] == chunks[..i] + [chunks[i]];
      IndexSnoc(chunks[..i], chunks[i], first);
      NumberedSnoc(chunks[..i], chunks[i], first);
      written := written[saveIdx := chunks[i]];
      index := AddKeys(index, chunks[i], saveIdx);
    }
    assert chunks[..|chunks|] == chunks;
  }

  method AddKeys(before: map<string, nat>, keys: seq<string>, file: nat) returns (index: map<string, nat>)
    ensures index == before + AllIn(keys, file)
  {
    index := before;
    for j := 0 to |keys|
      invariant index == before + AllIn(keys[..j], file)
    {
      index := index[keys[j] := file];
    }
    assert keys[..|keys|] == keys;
  }

  /** The weight map that rank 0 writes from the gathered index dicts. */
  method GatherIndex(indexes: seq<map<string, nat>>) returns (all: map<string, nat>)
    ensures all == Gathered(indexes, |indexes|)
  {
    all := map[];
    for r := 0 to |indexes|
      invariant all == Gathered(indexes, r)
    {
      all := all + indexes[r];
    }
  }

  function Gathered(indexes: seq<map<string, nat>>, n: nat): map<string, nat>
    requires n <= |indexes|
  {
    if n == 0 then map[] else Gathered(indexes, n - 1) + indexes[n - 1]
  }

  // ---------- All ranks ----------

  ghost predicate Ranks(keys: seq<seq<string>>, shards: seq<int>) {
    |keys| == |shards| && forall r :: 0 <= r < |shards| ==> shards[r] > 0
  }

  /** The files of the first n ranks, in rank order. */
  function Files(keys: seq<seq<string>>, shards: seq<int>, per: nat, n: nat): seq<seq<string>>
    requires Ranks(keys, shards) && per > 0 && n <= |shards|
  {
    if n == 0 then []
    else Files(keys, shards, per, n - 1) + RankFiles(keys, shards, per, n - 1)
  }

  function RankFiles(keys: seq<seq<string>>, shards: seq<int>, per: nat, r: nat): (files: seq<seq<string>>)
    requires Ranks(keys, shards) && per > 0 && r < |shards|
    ensures |files| == shards[r] * per
  {
    ScalePositive(shards[r], per);
    ArraySplit(keys[r], shards[r] * per)
  }

  lemma ScalePositive(a: int, b: int)
    requires a > 0 && b > 0
    ensures a * b > 0
  {}

  lemma {:induction false} FilesExact(keys: seq<seq<string>>, shards: seq<int>, per: nat, n: nat)
    requires Ranks(keys, shards) && per > 0 && n <= |shards|
    ensures |keys| == |shards|
    ensures |Files(keys, shards, per, n)| == Start(shards, n) * per
    ensures Flatten(Files(keys, shards, per, n)) == Flatten(keys[..n])
  {
    FilesNothing(keys, shards, per);
    hide *;
    if n > 0 {
      FilesExact(keys, shards, per, n - 1);
      FilesNext(keys, shards, per, n - 1);
      RankFilesExact(keys, shards, per, n - 1);
      StartScaled(shards, per, n - 1);
      assert keys[..n] == keys[..n - 1] + [keys[n - 1]];
      FlattenAppend(Files(keys, shards, per, n - 1), RankFiles(keys, shards, per, n - 1));
      FlattenSnoc(keys[..n - 1], keys[n - 1]);
    }
  }

  lemma FilesNothing(keys: seq<seq<string>>, shards: seq<int>, per: nat)
    requires Ranks(keys, shards) && per > 0
    ensures |keys| == |shards|
    ensures Files(keys, shards, per, 0) == [] && Start(shards, 0) == 0
    ensures Flatten(Files(keys, shards, per, 0)) == Flatten(keys[..0])
  {
    StartAll(shards);
    assert keys[..0] == [];
  }

  lemma RankFilesExact(keys: seq<seq<string>>, shards: seq<int>, per: nat, r: nat)
    requires Ranks(keys, shards) && per > 0 && r < |shards|
    ensures r < |keys| && Flatten(RankFiles(keys, shards, per, r)) == keys[r]
  {
    ScalePositive(shards[r], per);
    ArraySplitExact(keys[r], shards[r] * per);
  }

  lemma StartScaled(shards: seq<int>, per: nat, r: nat)
    requires r < |shards|
    ensures Start(shards, r + 1) * per == Start(shards, r) * per + shards[r] * per
  {
    StartNext(shards, r);
    Distribute(Start(shards, r), shards[r], per);
  }

  lemma Distribute(a: int, b: int, c: int)
    ensures (a + b) * c == a * c + b * c
  {}

  lemma FilesNext(keys: seq<seq<string>>, shards: seq<int>, per: nat, n: nat)
    requires Ranks(keys, shards) && per > 0 && n < |shards|
    ensures Files(keys, shards, per, n + 1) == Files(keys, shards, per, n) + RankFiles(keys, shards, per, n)
  {}

  lemma MapAssociative(a: map<string, nat>, b: map<string, nat>, c: map<string, nat>)
    ensures (a + b) + c == a + (b + c)
  {}

  lemma {:induction false} IndexAppend(a: seq<seq<string>>, b: seq<seq<string>>, base: nat)
    ensures IndexOf(a + b, base) == IndexOf(a, base) + IndexOf(b, base + |a|)
  {
    hide *;
    if b == [] {
      assert a + b == a;
      NumberedSnoc([], [], base + |a|);
      assert IndexOf(a, base) + map[] == IndexOf(a, base);
    } else {
      var init, last := b[..|b| - 1], b[|b| - 1];
      assert a + b == (a + init) + [last] && b == init + [last];
      IndexAppend(a, init, base);
      IndexSnoc(a + init, last, base);
      IndexSnoc(init, last, base + |a|);
      assert base + |a + init| == base + |a| + |init|;
      MapAssociative(IndexOf(a, base), IndexOf(init, base + |a|), AllIn(last, base + |a| + |init|));
    }
  }

  ghost predicate RankIndexes(indexes: seq<map<string, nat>>, keys: seq<seq<string>>, shards: seq<int>, per: nat)
    requires Ranks(keys, shards) && per > 0
  {
    && |indexes| == |shards|
    && forall r: nat :: r < |shards| ==>
      Start(shards, r) >= 0 && indexes[r] == IndexOf(RankFiles(keys, shards, per, r), Start(shards, r) * per)
  }

  lemma {:induction false} GatheredIs(indexes: seq<map<string, nat>>, keys: seq<seq<string>>, shards: seq<int>,
                                      per: nat, n: nat)
    requires Ranks(keys, shards) && per > 0 && n <= |shards| && RankIndexes(indexes, keys, shards, per)
    ensures n <= |indexes| && Gathered(indexes, n) == IndexOf(Files(keys, shards, per, n), 0)
  {
    hide *;
    GatheredNothing(indexes, keys, shards, per);
    if n > 0 {
      GatheredIs(indexes, keys, shards, per, n - 1);
      GatheredNext(indexes, keys, shards, per, n - 1);
      FilesExact(keys, shards, per, n - 1);
      FilesNext(keys, shards, per, n - 1);
      IndexAppend(Files(keys, shards, per, n - 1), RankFiles(keys, shards, per, n - 1), 0);
    }
  }

  lemma GatheredNothing(indexes: seq<map<string, nat>>, keys: seq<seq<string>>, shards: seq<int>, per: nat)
    requires Ranks(keys, shards) && per > 0
    ensures Gathered(indexes, 0) == map[] && IndexOf(Files(keys, shards, per, 0), 0) == map[]
  {}

  lemma GatheredNext(indexes: seq<map<string, nat>>, keys: seq<seq<string>>, shards: seq<int>, per: nat, n: nat)
    requires Ranks(keys, shards) && per > 0 && n < |shards| && RankIndexes(indexes, keys, shards, per)
    ensures n < |indexes| && Start(shards, n) >= 0
    ensures Gathered(indexes, n + 1) ==
      Gathered(indexes, n) + IndexOf(RankFiles(keys, shards, per, n), Start(shards, n) * per)
  {}

  ghost predicate Distinct(ks: seq<string>) {
    forall i, j :: 0 <= i < j < |ks| ==> ks[i] != ks[j]
  }

  /** With distinct keys, the index names the one file that holds the key. */
  lemma {:induction false} IndexExact(files: seq<seq<string>>, base: nat, k: string)
    requires Distinct(Flatten(files))
    ensures k in IndexOf(files, base) <==> k in Flatten(files)
    ensures forall f :: 0 <= f < |files| && k in files[f] ==>
      k in IndexOf(files, base) && IndexOf(files, base)[k] == base + f
    ensures k in Flatten(files) ==> exists f :: 0 <= f < |files| && k in files[f]
  {
    if files != [] {
      var init, last := files[..|files| - 1], files[|files| - 1];
      assert files == init + [last];
      FlattenSnoc(init, last);
      DistinctParts(Flatten(init), last);
      IndexExact(init, base, k);
      IndexSnoc(init, last, base);
      FlattenHas(init, k);
    }
  }

  lemma DistinctParts(a: seq<string>, b: seq<string>)
    requires Distinct(a + b)
    ensures Distinct(a) && forall k :: k in a ==> k !in b
  {
    assert forall i :: 0 <= i < |a| ==> (a + b)[i] == a[i];
    assert forall i :: 0 <= i < |b| ==> (a + b)[|a| + i] == b[i];
  }

  lemma {:induction false} FlattenHas(files: seq<seq<string>>, k: string)
    ensures forall f :: 0 <= f < |files| && k in files[f] ==> k in Flatten(files)
  {
    if files != [] { FlattenHas(files[1..], k); }
  }

  /** Over all ranks of a sharded save: file i of a rank has number `Start * per + i`, the numbers are
      0 to the announced total with none left out or used twice, the files together hold every rank's keys
      in order, and the gathered weight map sends every key to the one file that holds it. */
  lemma EveryKeyInOneFile(keys: seq<seq<string>>, indexes: seq<map<string, nat>>, layers: int, pp: int, k: string)
    requires Search(layers, pp).Shards? && |keys| == pp
    requires Ranks(keys, Search(layers, pp).shards)
    requires RankIndexes(indexes, keys, Search(layers, pp).shards, if layers < 30 then 1 else 2)
    requires Distinct(Flatten(keys))
    ensures var shards, per := Search(layers, pp).shards, if layers < 30 then 1 else 2;
      var files, all := Files(keys, shards, per, pp), Gathered(indexes, pp);
      && |files| == per * layers
      && Flatten(files) == Flatten(keys)
      && (k in all <==> k in Flatten(keys))
      && (k in all ==> all[k] < |files| && k in files[all[k]])
      && forall f :: 0 <= f < |files| && k in files[f] ==> k in all && all[k] == f
  {
    var shards, per := Search(layers, pp).shards, if layers < 30 then 1 else 2;
    SearchPositive(layers, pp);
    assert per > 0;
    hide *;
    FilesExact(keys, shards, per, pp);
    StartAll(shards);
    assert keys[..pp] == keys;
    GatheredIs(indexes, keys, shards, per, pp);
    IndexExact(Files(keys, shards, per, pp), 0, k);
  }

  /** The place of a rank's files among all files. */
  lemma {:induction false} FileNumber(keys: seq<seq<string>>, shards: seq<int>, per: nat, n: nat, r: nat, i: nat)
    requires Ranks(keys, shards) && per > 0 && r < n <= |shards| && i < shards[r] * per
    ensures 0 <= Start(shards, r) * per + i < |Files(keys, shards, per, n)|
    ensures Files(keys, shards, per, n)[Start(shards, r) * per + i] == RankFiles(keys, shards, per, r)[i]
  {
    hide *;
    FilesExact(keys, shards, per, r);
    FilesNext(keys, shards, per, n - 1);
    if r < n - 1 {
      FileNumber(keys, shards, per, n - 1, r, i);
    }
  }
}
