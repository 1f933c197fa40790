/** The exact condition under which the Mooncake relay never refills a buffer too early. */
module MooncakeTrust {
  import opened MooncakeChain
  import opened MooncakeSafety
  import opened MooncakeDrive
  import opened MooncakeLag
  import MooncakeResults

  /** The sender starts to write bucket m + 2 over bucket m, which rank 1 has not taken. */
  lemma RefillRun(c: Config, m: nat) returns (states: seq<State>, events: seq<Event>)
    requires ValidConfig(c) && m + 2 < |c.buckets| && !Distinguishable(c.buckets[m].data)
    ensures IsRun(c, states, events) && |states| == |events| + 1 && MooncakeResults.EarlyRefill(c, states[|events|])
  {
    hide *;
    var s;
    states, events, s := ReachLevel(c, m);
    LevelFacts(c, s, m);
    states, events, s := PushOver(c, s, m, states, events);
    EndsInFacts(c, states, events, s);
    RefillsHere(c, s, m);
  }

  lemma RefillsHere(c: Config, s: State, m: nat)
    requires ValidConfig(c) && Ahead(c, s, m, m + 2, Filling(0))
    ensures MooncakeResults.EarlyRefill(c, s)
  {
    assert MooncakeResults.RefillsEarly(0, s.ranks[0], s.ranks[1]);
  }

  /** Some run refills a buffer before the bucket in it is acknowledged, exactly when some bucket whose
      buffer is used again starts like the magic (for a bucket of four bytes or more: begins with it). */
  lemma EarlyRefillIff(c: Config)
    requires ValidConfig(c)
    ensures (exists states, events :: IsRun(c, states, events) && MooncakeResults.EarlyRefill(c, states[|events|]))
      <==> !SafeStream(c)
  {
    if !SafeStream(c) {
      var m: nat :| m < |c.buckets| - 2 && !Distinguishable(c.buckets[m].data);
      var states, events := RefillRun(c, m);
    } else {
      forall states, events | IsRun(c, states, events) ensures !MooncakeResults.EarlyRefill(c, states[|events|]) {
        MooncakeResults.NoEarlyRefill(c, states, events, |events|);
      }
    }
  }
}
