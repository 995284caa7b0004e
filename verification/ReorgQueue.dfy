/** The queue of reorg mutations a rollup drains with its own checkpoint
    (crates/livepeer-rollups/src/tickets.rs, crates/livepeer-rollups/src/orch_payouts.rs). */
module ReorgQueue {
  import opened Checkpoints
  import opened Wrappers

  datatype Mutation = Mutation(id: int, eventId: int)

  function Start(cp: Option<int>): int { if cp.Some? then cp.value else 0 }

  /** The unprocessed mutations of the rollup's own events. */
  function Pending(own: set<int>, mutations: seq<Mutation>, cp: Option<int>): seq<Mutation> {
    if |mutations| == 0 then []
    else
      var n := |mutations| - 1;
      Pending(own, mutations[..n], cp)
        + if Start(cp) < mutations[n].id && mutations[n].eventId in own then [mutations[n]] else []
  }

  function EventIds(ms: seq<Mutation>): set<int> { set m | m in ms :: m.eventId }

  /** The largest mutation id seen, starting from the checkpoint. */
  function LargestMutation(ms: seq<Mutation>, start: int): int {
    if |ms| == 0 then start else Max(LargestMutation(ms[..|ms| - 1], start), ms[|ms| - 1].id)
  }

  function NextReorgCheckpoint(cp: Option<int>, ms: seq<Mutation>): Option<int> {
    if |ms| == 0 then cp else AdvanceCheckpoint(cp, LargestMutation(ms, Start(cp)))
  }

  lemma {:induction false} LargestMutationBounds(ms: seq<Mutation>, start: int)
    ensures start <= LargestMutation(ms, start)
    ensures forall m | m in ms :: m.id <= LargestMutation(ms, start)
  {
    if |ms| > 0 { LargestMutationBounds(ms[..|ms| - 1], start); }
  }

  lemma {:induction false} PendingAre(own: set<int>, ms: seq<Mutation>, cp: Option<int>)
    ensures forall m :: m in Pending(own, ms, cp) <==> m in ms && Start(cp) < m.id && m.eventId in own
  {
    if |ms| > 0 {
      var n := |ms| - 1;
      PendingAre(own, ms[..n], cp);
      assert ms == ms[..n] + [ms[n]];
    }
  }

  lemma SomeMember<T>(s: seq<T>)
    ensures s == [] || exists x :: x in s
  {
    if s != [] { assert s[0] in s; }
  }

  /** A pass leaves no mutation pending: each one is repaired exactly once. */
  lemma NothingPendingAfter(own: set<int>, ms: seq<Mutation>, cp: Option<int>)
    ensures Pending(own, ms, NextReorgCheckpoint(cp, Pending(own, ms, cp))) == []
  {
    hide Pending;
    var pending := Pending(own, ms, cp);
    var next := NextReorgCheckpoint(cp, pending);
    PendingAre(own, ms, cp);
    PendingAre(own, ms, next);
    LargestMutationBounds(pending, Start(cp));
    var left := Pending(own, ms, next);
    forall m ensures m !in left {
      assert m in left ==> m in pending && |pending| > 0;
    }
    SomeMember(left);
  }

  lemma OneMoreId(ms: seq<Mutation>, i: nat)
    requires i < |ms|
    ensures EventIds(ms[..i + 1]) == EventIds(ms[..i]) + {ms[i].eventId}
  {
    assert ms[..i + 1] == ms[..i] + [ms[i]];
  }
}
