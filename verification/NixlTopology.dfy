/** The chain that `build_topology` lays out, the length checks of the manager that calls it, and the
    role assertions with which every worker accepts its place. */
module NixlTopology {
  import opened Options

  // ---------- Python list indexing ----------

  function Clamp(i: int, n: nat): nat {
    var j := if i < 0 then i + n else i;
    if j < 0 then 0 else if j > n then n else j
  }

  /** `xs[i:j]` */
  function Slice<A>(xs: seq<A>, i: int, j: int): seq<A> {
    var lo, hi := Clamp(i, |xs|), Clamp(j, |xs|);
    if lo <= hi then xs[lo..hi] else []
  }

  /** `xs[i:]` */
  function From<A>(xs: seq<A>, i: int): seq<A> {
    xs[Clamp(i, |xs|)..]
  }

  /** `xs[i]`, or `None` for an IndexError. */
  function At<A>(xs: seq<A>, i: int): Option<A> {
    var j := if i < 0 then i + |xs| else i;
    if 0 <= j < |xs| then Some(xs[j]) else None
  }

  /** `[x] * n` */
  function Repeat<A>(x: A, n: int): (r: seq<A>)
    ensures |r| == if n < 0 then 0 else n
    ensures forall i :: 0 <= i < |r| ==> r[i] == x
  {
    if n <= 0 then [] else [x] + Repeat(x, n - 1)
  }

  function Somes<A>(xs: seq<A>): (r: seq<Option<A>>)
    ensures |r| == |xs| && forall i :: 0 <= i < |r| ==> r[i] == Some(xs[i])
  {
    seq(|xs|, i requires 0 <= i < |xs| => Some(xs[i]))
  }

  // ---------- The topology ----------

  datatype Group<A> = Group(rank: seq<int>, worldSize: seq<int>, prev: seq<Option<A>>, next: seq<Option<A>>)

  datatype Topology<A> = Topology(trainer: Group<A>, rollout: Group<A>)

  /** `None` for the IndexError of an empty metadata list. */
  function BuildTopology<A>(trainers: nat, rollouts: nat, metadata: seq<A>): Option<Topology<A>> {
    var head, first := At(metadata, 0 - rollouts), At(metadata, 0);
    if head == None || first == None then None
    else
      var world := rollouts + 1;
      Some(Topology(
        Group([0] + Repeat(-1, trainers - 1), Repeat(world, trainers), Repeat(None, trainers),
              [head] + Repeat(None, trainers - 1)),
        Group(seq(rollouts, i => i + 1), Repeat(world, rollouts),
              [first] + Somes(Slice(metadata, 0 - rollouts, -1)),
              Somes(From(metadata, 1 - rollouts)) + [None])))
  }

  /** The manager's check that every argument list has one entry per worker. */
  predicate LengthsMatch<A>(g: Group<A>, n: nat) {
    |g.rank| == n && |g.worldSize| == n && |g.prev| == n && |g.next| == n
  }

  /** The assertions of `init_process_group`. */
  predicate RoleAccepted<A>(rank: int, world: int, prev: Option<A>, next: Option<A>) {
    if rank < 0 then prev.None? && next.None?
    else if rank == 0 then prev.None? && next.Some?
    else if 0 < rank < world - 1 then prev.Some? && next.Some?
    else if rank == world - 1 then prev.Some? && next.None?
    else true
  }

  /** A rank outside the chain has no neighbour; in a chain of at least two, all but the first rank have a rank
      before them and all but the last a rank behind. */
  lemma RoleExact<A>(rank: int, world: int, prev: Option<A>, next: Option<A>)
    requires world >= 2 && rank < world
    ensures RoleAccepted(rank, world, prev, next) <==>
      (prev.Some? <==> 0 < rank) && (next.Some? <==> 0 <= rank < world - 1)
  {}

  predicate GroupAccepted<A>(g: Group<A>, n: nat) {
    && LengthsMatch(g, n)
    && forall i :: 0 <= i < n ==> RoleAccepted(g.rank[i], g.worldSize[i], g.prev[i], g.next[i])
  }

  /** The metadata that the worker with this rank contributed: trainers come first in the list. */
  function MetadataOf<A>(metadata: seq<A>, trainers: nat, rank: nat): A
    requires 1 <= trainers && trainers + rank <= |metadata|
  {
    if rank == 0 then metadata[0] else metadata[trainers + rank - 1]
  }

  /** The manager accepts the topology, and every worker its role, exactly when there is a trainer and
      there are at least two rollout workers. */
  lemma AcceptedIffChain<A>(trainers: nat, rollouts: nat, metadata: seq<A>)
    requires |metadata| == trainers + rollouts
    ensures (var t := BuildTopology(trainers, rollouts, metadata);
             t.Some? && GroupAccepted(t.value.trainer, trainers) && GroupAccepted(t.value.rollout, rollouts))
      <==> trainers >= 1 && rollouts >= 2
  {
    var t := BuildTopology(trainers, rollouts, metadata);
    if rollouts == 1 && t.Some? {
      assert |From(metadata, 0)| == |metadata|;
      assert |t.value.rollout.next| == trainers + 2;
    }
    if rollouts == 0 && t.Some? {
      assert |t.value.rollout.prev| >= 1;
    }
    if trainers == 0 && t.Some? {
      assert |t.value.trainer.rank| == 1;
    }
  }

  /** The accepted topology is a chain: the next agent of each rank is the agent of the following rank,
      whose previous agent is the agent of that rank; only rank 0 and the last rank are open ends. */
  lemma ChainLinks<A>(trainers: nat, rollouts: nat, metadata: seq<A>, rank: nat)
    requires |metadata| == trainers + rollouts && trainers >= 1 && rollouts >= 2 && rank <= rollouts
    ensures var t := BuildTopology(trainers, rollouts, metadata);
      && t.Some? && LengthsMatch(t.value.trainer, trainers) && LengthsMatch(t.value.rollout, rollouts)
      && var tr, ro := t.value.trainer, t.value.rollout;
      && (forall i :: 1 <= i < trainers ==> tr.rank[i] == -1 && tr.prev[i] == None && tr.next[i] == None)
      && (forall i :: 0 <= i < trainers ==> tr.worldSize[i] == rollouts + 1)
      && (forall i :: 0 <= i < rollouts ==> ro.worldSize[i] == rollouts + 1)
      && (rank == 0 ==> tr.rank[0] == 0 && tr.prev[0] == None && tr.next[0] == Some(MetadataOf(metadata, trainers, 1)))
      && (rank > 0 ==>
            && ro.rank[rank - 1] == rank
            && ro.prev[rank - 1] == Some(MetadataOf(metadata, trainers, rank - 1))
            && ro.next[rank - 1] == if rank == rollouts then None else Some(MetadataOf(metadata, trainers, rank + 1)))
  {
    var t := BuildTopology(trainers, rollouts, metadata);
    var tail := From(metadata, 1 - rollouts);
    assert tail == metadata[trainers + 1..];
    assert Slice(metadata, 0 - rollouts, -1) == metadata[trainers..trainers + rollouts - 1];
  }
}
