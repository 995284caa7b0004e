/** Bystanders of the stake-flow backfill (crates/livepeer-staker/src/flow.rs): delegators
    no event of the batch belongs to, replayed all the same because some of their events
    name an affected address. What the history query omits decides whether that harms. */
module StakeFlowBystanders {
  import opened Wrappers
  import opened StakeFlow
  import opened StakeFlowRuns

  // ---------------------------------------------------------------------------
  // The query's order and omissions
  // ---------------------------------------------------------------------------

  lemma {:induction false} StreamInOrder(d: Address, events: seq<Event>)
    requires BlocksInOrder(events)
    ensures BlocksInOrder(Stream(d, events))
  {
    if |events| > 0 {
      var n := |events| - 1;
      StreamInOrder(d, events[..n]);
      StreamOnly(d, events[..n]);
      var before := Stream(d, events[..n]);
      forall i | 0 <= i < |before| ensures before[i].block <= events[n].block {
        assert before[i] in before;
        var j :| 0 <= j < n && events[j] == before[i];
      }
    }
  }

  lemma {:induction false} HistoryInOrder(events: seq<Event>, who: set<Address>)
    requires BlocksInOrder(events)
    ensures BlocksInOrder(FullHistory(events, who))
    ensures forall e | e in FullHistory(events, who) :: e in events
  {
    if |events| > 0 {
      var n := |events| - 1;
      HistoryInOrder(events[..n], who);
      var before := FullHistory(events[..n], who);
      forall i | 0 <= i < |before| ensures before[i].block <= events[n].block {
        assert before[i] in before;
        var j :| 0 <= j < n && events[j] == before[i];
      }
    }
  }

  /** The part of a stream the history query happens to return for a bystander. */
  function Partial(d: Address, events: seq<Event>, who: set<Address>): seq<Event> {
    Stream(d, FullHistory(events, who))
  }

  lemma HistorySnoc(events: seq<Event>, e: Event, who: set<Address>)
    ensures FullHistory(events + [e], who) == FullHistory(events, who) + (if Mentions(who, e) then [e] else [])
  {
    assert (events + [e])[..|events|] == events;
  }

  lemma {:induction false} OmissionCommutes(d: Address, events: seq<Event>, who: set<Address>)
    ensures Partial(d, events, who) == FullHistory(Stream(d, events), who)
  {
    if |events| > 0 {
      hide Concerns, Mentions;
      var n := |events| - 1;
      var e := events[n];
      OmissionCommutes(d, events[..n], who);
      StreamSnoc(d, FullHistory(events[..n], who), e);
      HistorySnoc(Stream(d, events[..n]), e, who);
      assert FullHistory(events[..n], who) + [] == FullHistory(events[..n], who);
      assert Stream(d, events[..n]) + [] == Stream(d, events[..n]);
      assert FullHistory(Stream(d, events[..n]), who) + [] == FullHistory(Stream(d, events[..n]), who);
    }
  }

  /** The guard: every event of the delegator names an affected address. */
  predicate AllMentioned(d: Address, events: seq<Event>, who: set<Address>) {
    forall e | e in events && Concerns(d, e) :: Mentions(who, e)
  }

  lemma AffectedAllMentioned(d: Address, events: seq<Event>, who: set<Address>)
    requires d in who
    ensures AllMentioned(d, events, who)
  {
    forall e | e in events && Concerns(d, e) ensures Mentions(who, e) { ConcernsMentions(d, e, who); }
  }

  /** Under the guard the partial stream is the complete one. */
  lemma {:induction false} GuardCompletes(d: Address, events: seq<Event>, who: set<Address>)
    requires AllMentioned(d, events, who)
    ensures Partial(d, events, who) == Stream(d, events)
  {
    if |events| > 0 {
      hide Concerns, Mentions;
      var n := |events| - 1;
      assert events[n] in events && forall e | e in events[..n] :: e in events;
      GuardCompletes(d, events[..n], who);
      StreamSnoc(d, FullHistory(events[..n], who), events[n]);
      assert FullHistory(events[..n], who) + [] == FullHistory(events[..n], who);
      assert Stream(d, events[..n]) + [] == Stream(d, events[..n]);
    }
  }

  /** Whatever the query omits, the partial replay writes no block and no registration the
      complete one does not. */
  lemma {:induction false} PartialCovered(d: Address, events: seq<Event>, who: set<Address>)
    ensures Covers(Replay(d, Stream(d, events)), Replay(d, Partial(d, events, who)))
  {
    hide Step, Covers, Concerns, Mentions, Replay, Stream, FullHistory;
    if |events| == 0 {
      NoHistory(d, who);
    } else {
      var n := |events| - 1;
      var e := events[n];
      PartialCovered(d, events[..n], who);
      var big, small := Stream(d, events[..n]), Partial(d, events[..n], who);
      assert events == events[..n] + [e];
      StepCovers(d, Replay(d, big), Replay(d, small), e);
      ReplaySnoc(d, big, e);
      ReplaySnoc(d, small, e);
      StreamSnoc(d, events[..n], e);
      HistorySnoc(events[..n], e, who);
      StreamSnoc(d, FullHistory(events[..n], who), e);
      assert FullHistory(events[..n], who) + [] == FullHistory(events[..n], who) && small + [] == small
        && big + [] == big;
    }
  }

  lemma NoHistory(d: Address, who: set<Address>)
    ensures FullHistory([], who) == [] && Covers(Replay(d, Stream(d, [])), Replay(d, Stream(d, [])))
  {
  }

  // ---------------------------------------------------------------------------
  // What an omission costs, in terms of the complete stream
  // ---------------------------------------------------------------------------

  /** A counted event the partial replay does not count: the query omits it, or it needs a
      registration and the query omits every earlier one. */
  predicate Lost(d: Address, before: seq<Event>, who: set<Address>, e: Event) {
    Counts(d, before, e) && !(Mentions(who, e) && Counts(d, FullHistory(before, who), e))
  }

  /** The net movement of the lost events. */
  function LostMovement(d: Address, stream: seq<Event>, who: set<Address>): int {
    if |stream| == 0 then 0
    else
      var n := |stream| - 1;
      LostMovement(d, stream[..n], who) + if Lost(d, stream[..n], who, stream[n]) then Delta(stream[n]) else 0
  }

  /** The last counted event is lost. */
  predicate LastLost(d: Address, stream: seq<Event>, who: set<Address>) {
    |stream| > 0 &&
    var n := |stream| - 1;
    if Counts(d, stream[..n], stream[n]) then Lost(d, stream[..n], who, stream[n]) else LastLost(d, stream[..n], who)
  }

  predicate Survives(d: Address, before: seq<Event>, who: set<Address>, e: Event) {
    Counts(d, before, e) && !Lost(d, before, who, e)
  }

  /** The delegate named by the last surviving event that names one. */
  function SurvivingDelegate(d: Address, stream: seq<Event>, who: set<Address>): Option<Address> {
    if |stream| == 0 then None
    else
      var n := |stream| - 1;
      if Survives(d, stream[..n], who, stream[n]) && Follows(stream[n]) then stream[n].to
      else SurvivingDelegate(d, stream[..n], who)
  }

  function LastSurviving(d: Address, stream: seq<Event>, who: set<Address>): Option<Event> {
    if |stream| == 0 then None
    else
      var n := |stream| - 1;
      if Survives(d, stream[..n], who, stream[n]) then Some(stream[n]) else LastSurviving(d, stream[..n], who)
  }

  /** The blocks with a surviving event. */
  function SurvivingBlocks(d: Address, stream: seq<Event>, who: set<Address>): set<int> {
    if |stream| == 0 then {}
    else
      var n := |stream| - 1;
      SurvivingBlocks(d, stream[..n], who) + if Survives(d, stream[..n], who, stream[n]) then {stream[n].block} else {}
  }

  /** Some registering event is not omitted. */
  predicate KeepsRegistration(d: Address, stream: seq<Event>, who: set<Address>) {
    exists e :: e in stream && Registers(d, e) && Mentions(who, e)
  }

  function FirstKeptRegistering(d: Address, stream: seq<Event>, who: set<Address>): Option<Event> {
    if |stream| == 0 then None
    else
      var n := |stream| - 1;
      var before := FirstKeptRegistering(d, stream[..n], who);
      if before.Some? then before
      else if Registers(d, stream[n]) && Mentions(who, stream[n]) then Some(stream[n]) else None
  }

  lemma {:induction false} HistoryAre(events: seq<Event>, who: set<Address>)
    ensures forall e :: e in FullHistory(events, who) <==> e in events && Mentions(who, e)
  {
    if |events| > 0 {
      hide Mentions;
      HistoryAre(events[..|events| - 1], who);
      assert events == events[..|events| - 1] + [events[|events| - 1]];
    }
  }

  lemma RegistrationKept(d: Address, stream: seq<Event>, who: set<Address>)
    ensures RegisteredIn(d, FullHistory(stream, who)) <==> KeepsRegistration(d, stream, who)
    ensures RegisteredIn(d, FullHistory(stream, who)) ==> RegisteredIn(d, stream)
  {
    hide Mentions, Registers;
    HistoryAre(stream, who);
  }

  /** An event survives exactly when it is in the partial stream and counts there. */
  lemma SurvivesIs(d: Address, before: seq<Event>, who: set<Address>, e: Event)
    ensures Survives(d, before, who, e) <==> Mentions(who, e) && Counts(d, FullHistory(before, who), e)
    ensures Lost(d, before, who, e) <==> Counts(d, before, e) && !Survives(d, before, who, e)
    ensures Survives(d, before, who, e) ==> Counts(d, before, e)
  {
    hide Mentions;
    RegistrationKept(d, before, who);
  }

  lemma CountedOne(d: Address, stream: seq<Event>, e: Event)
    ensures var longer := stream + [e];
      && Total(d, longer) == Total(d, stream) + (if Counts(d, stream, e) then Delta(e) else 0)
      && LastCounted(d, longer) == (if Counts(d, stream, e) then Some(e) else LastCounted(d, stream))
      && LastDelegate(d, longer) == (if Counts(d, stream, e) && Follows(e) then e.to else LastDelegate(d, stream))
      && TouchedBlocks(d, longer) == TouchedBlocks(d, stream) + (if Counts(d, stream, e) then {e.block} else {})
      && FirstRegistering(d, longer) ==
         (if FirstRegistering(d, stream).Some? then FirstRegistering(d, stream)
          else if Registers(d, e) then Some(e) else None)
  {
    hide Counts, Delta, Follows, Registers;
    assert (stream + [e])[..|stream|] == stream;
  }

  /** Everything the partial stream comes to, in terms of the complete stream and what was lost. */
  lemma {:induction false} OmissionMeans(d: Address, stream: seq<Event>, who: set<Address>)
    ensures var partial := FullHistory(stream, who);
      && Total(d, partial) == Total(d, stream) - LostMovement(d, stream, who)
      && LastCounted(d, partial) == LastSurviving(d, stream, who)
      && LastDelegate(d, partial) == SurvivingDelegate(d, stream, who)
      && TouchedBlocks(d, partial) == SurvivingBlocks(d, stream, who)
      && FirstRegistering(d, partial) == FirstKeptRegistering(d, stream, who)
  {
    hide Counts, Delta, Follows, Registers, Mentions, Lost, Survives;
    if |stream| > 0 {
      var n := |stream| - 1;
      var e := stream[n];
      OmissionMeans(d, stream[..n], who);
      SurvivesIs(d, stream[..n], who, e);
      CountedOne(d, stream[..n], e);
      assert stream[..n] + [e] == stream;
      var before := FullHistory(stream[..n], who);
      if Mentions(who, e) {
        CountedOne(d, before, e);
      } else {
        assert before + [] == before;
      }
    }
  }

  lemma {:induction false} PrefixCommutes(stream: seq<Event>, who: set<Address>, block: int)
    requires BlocksInOrder(stream)
    ensures UpTo(FullHistory(stream, who), block) == FullHistory(UpTo(stream, block), who)
  {
    hide Mentions;
    if |stream| > 0 {
      var n := |stream| - 1;
      if stream[n].block <= block {
        HistoryAre(stream, who);
        AllUpTo(FullHistory(stream, who), block);
      } else {
        PrefixCommutes(stream[..n], who, block);
        var before := FullHistory(stream[..n], who);
        assert before + [] == before;
        if Mentions(who, stream[n]) { assert (before + [stream[n]])[..|before|] == before; }
      }
    }
  }

  lemma AllUpTo(stream: seq<Event>, block: int)
    requires forall e | e in stream :: e.block <= block
    ensures UpTo(stream, block) == stream
  {
    if |stream| > 0 { assert stream[|stream| - 1] in stream; }
  }

  // ---------------------------------------------------------------------------
  // When an omission harms
  // ---------------------------------------------------------------------------

  /** Ids are the table's primary key. */
  predicate DistinctIds(events: seq<Event>) { forall i, j | 0 <= i < j < |events| :: events[i].id != events[j].id }

  /** Through a block: the lost events move nothing on balance, the last counted event is
      not one of them, no delegate naming that mattered is, and not every registration is. */
  predicate BlockKept(d: Address, prefix: seq<Event>, who: set<Address>) {
    && LostMovement(d, prefix, who) == 0
    && !LastLost(d, prefix, who)
    && NameOf(SurvivingDelegate(d, prefix, who)) == NameOf(LastDelegate(d, prefix))
    && (RegisteredIn(d, prefix) ==> KeepsRegistration(d, prefix, who))
  }

  /** Over the stream: if some registration is kept, the first one is, the last counted
      event is not lost, and the lost events do not change the sign of the total. */
  predicate RegistryKept(d: Address, stream: seq<Event>, who: set<Address>) {
    KeepsRegistration(d, stream, who) ==>
      && FirstRegistering(d, stream).Some? && Mentions(who, FirstRegistering(d, stream).value)
      && !LastLost(d, stream, who)
      && (Total(d, stream) > 0 <==> Total(d, stream) - LostMovement(d, stream, who) > 0)
  }

  /** What the query omits from the stream does not show. */
  predicate OmitsHarmlessly(d: Address, stream: seq<Event>, who: set<Address>) {
    && (forall b | b in SurvivingBlocks(d, stream, who) :: BlockKept(d, UpTo(stream, b), who))
    && RegistryKept(d, stream, who)
  }

  lemma {:induction false} LastOf(d: Address, stream: seq<Event>, who: set<Address>)
    ensures LastCounted(d, stream).Some? ==> LastCounted(d, stream).value in stream
    ensures LastSurviving(d, stream, who).Some? ==>
      LastSurviving(d, stream, who).value in stream && LastCounted(d, stream).Some?
  {
    hide Counts, Mentions, Lost;
    if |stream| > 0 {
      LastOf(d, stream[..|stream| - 1], who);
      assert stream == stream[..|stream| - 1] + [stream[|stream| - 1]];
    }
  }

  /** The last counted event is the last surviving one, by id, unless it is lost. */
  lemma {:induction false} LastKept(d: Address, stream: seq<Event>, who: set<Address>)
    requires DistinctIds(stream) && LastSurviving(d, stream, who).Some?
    ensures LastCounted(d, stream).Some?
    ensures Seen(LastCounted(d, stream)) == Seen(LastSurviving(d, stream, who)) <==> !LastLost(d, stream, who)
    ensures LastCounted(d, stream).value.id == LastSurviving(d, stream, who).value.id <==> !LastLost(d, stream, who)
  {
    hide Counts, Lost;
    var n := |stream| - 1;
    var e := stream[n];
    if Counts(d, stream[..n], e) {
      if Lost(d, stream[..n], who, e) {
        LastOf(d, stream[..n], who);
        var s := LastSurviving(d, stream, who).value;
        var j :| 0 <= j < n && stream[..n][j] == s;
        assert stream[j].id != e.id;
      }
    } else {
      LastKept(d, stream[..n], who);
    }
  }

  lemma {:induction false} FirstOf(d: Address, stream: seq<Event>, who: set<Address>)
    ensures FirstRegistering(d, stream).Some? <==> RegisteredIn(d, stream)
    ensures var f := FirstRegistering(d, stream); f.Some? ==> f.value in stream && Registers(d, f.value)
    ensures FirstKeptRegistering(d, stream, who).Some? <==> KeepsRegistration(d, stream, who)
    ensures var k := FirstKeptRegistering(d, stream, who);
      k.Some? ==> k.value in stream && Mentions(who, k.value) && FirstRegistering(d, stream).Some?
    ensures var f := FirstRegistering(d, stream);
      f.Some? && Mentions(who, f.value) ==> FirstKeptRegistering(d, stream, who) == f
  {
    hide Registers, Mentions;
    if |stream| > 0 {
      var n := |stream| - 1;
      FirstOf(d, stream[..n], who);
      assert stream == stream[..n] + [stream[n]];
      assert stream[n] in stream;
    }
  }

  /** The first kept registration is the first one, by id, exactly when the first is kept. */
  lemma FirstKept(d: Address, stream: seq<Event>, who: set<Address>)
    requires DistinctIds(stream) && KeepsRegistration(d, stream, who)
    ensures FirstRegistering(d, stream).Some?
    ensures Seen(FirstKeptRegistering(d, stream, who)) == Seen(FirstRegistering(d, stream)) <==>
      Mentions(who, FirstRegistering(d, stream).value)
  {
    hide Registers, Mentions;
    FirstOf(d, stream, who);
    var k, f := FirstKeptRegistering(d, stream, who).value, FirstRegistering(d, stream).value;
    var i :| 0 <= i < |stream| && stream[i] == k;
    var j :| 0 <= j < |stream| && stream[j] == f;
    assert k.id == f.id ==> i == j;
  }

  // ---------------------------------------------------------------------------
  // The exact condition
  // ---------------------------------------------------------------------------

  /** The two replays agree at every block the partial one touches, and on the registry. */
  predicate PartialAgrees(d: Address, partial: seq<Event>, complete: seq<Event>) {
    && (forall b | b in TouchedBlocks(d, partial) :: RowFor(d, partial, b) == RowFor(d, complete, b))
    && (RegistryOf(Replay(d, partial)).Some? ==> RegistryOf(Replay(d, partial)) == RegistryOf(Replay(d, complete)))
  }

  lemma RowsAgree(d: Address, partial: seq<Event>, complete: seq<Event>)
    requires AllConcern(d, partial) && BlocksInOrder(partial) && AllConcern(d, complete) && BlocksInOrder(complete)
    ensures (forall b | b in TouchedBlocks(d, partial) :: RowFor(d, partial, b) == RowFor(d, complete, b)) <==>
      forall b | b in Replay(d, partial).rows ::
        b in Replay(d, complete).rows && Replay(d, partial).rows[b] == Replay(d, complete).rows[b]
  {
    hide Replay, UpTo, LastCounted, Total, LastDelegate, RegisteredIn, AllConcern, BlocksInOrder, TouchedBlocks;
    ReplayMeans(d, partial);
    ReplayMeans(d, complete);
    forall b | b in TouchedBlocks(d, partial)
      ensures Some(Replay(d, partial).rows[b]) == RowFor(d, partial, b)
      ensures b in TouchedBlocks(d, complete) ==> Some(Replay(d, complete).rows[b]) == RowFor(d, complete, b)
    {
      RowMeans(d, partial, b);
      if b in TouchedBlocks(d, complete) { RowMeans(d, complete, b); }
    }
  }

  lemma MergeExactly(old': map<int, Row>, new': map<int, Row>)
    ensures old' + new' == old' <==> forall b | b in new' :: b in old' && new'[b] == old'[b]
  {
    if forall b | b in new' :: b in old' && new'[b] == old'[b] {
      assert (old' + new').Keys == old'.Keys;
      assert old' + new' == old';
    }
    if old' + new' == old' {
      forall b | b in new'
        ensures b in old' && new'[b] == old'[b]
      {
        assert b in old' + new' && (old' + new')[b] == new'[b];
      }
    }
  }

  /** A row survives the omission exactly when its block is kept. */
  lemma RowKeptExactly(d: Address, stream: seq<Event>, who: set<Address>, block: int)
    requires AllConcern(d, stream) && BlocksInOrder(stream) && DistinctIds(stream)
    requires block in SurvivingBlocks(d, stream, who)
    ensures RowFor(d, FullHistory(stream, who), block) == RowFor(d, stream, block) <==>
      BlockKept(d, UpTo(stream, block), who)
  {
    var prefix := UpTo(stream, block);
    hide Counts, Mentions, Lost, LastLost, LostMovement, SurvivingDelegate, Total, LastDelegate, RegisteredIn,
      KeepsRegistration;
    UpToFacts(d, stream, who, block);
    PrefixCommutes(stream, who, block);
    OmissionMeans(d, stream, who);
    OmissionMeans(d, prefix, who);
    RegistrationKept(d, prefix, who);
    LastKept(d, prefix, who);
    hide UpTo, FullHistory, TouchedBlocks, SurvivingBlocks, LastCounted, LastSurviving, DistinctIds;
  }

  /** The prefix through a surviving block is in order, and has a last surviving event. */
  lemma {:induction false} UpToFacts(d: Address, stream: seq<Event>, who: set<Address>, block: int)
    requires BlocksInOrder(stream) && DistinctIds(stream) && block in SurvivingBlocks(d, stream, who)
    ensures DistinctIds(UpTo(stream, block)) && LastSurviving(d, UpTo(stream, block), who).Some?
    ensures block in TouchedBlocks(d, stream)
  {
    hide Counts, Lost;
    var n := |stream| - 1;
    SurvivingIn(d, stream, who);
    if stream[n].block <= block {
      HasSurvivor(d, stream, who);
    } else {
      UpToFacts(d, stream[..n], who, block);
    }
  }

  lemma {:induction false} SurvivingIn(d: Address, stream: seq<Event>, who: set<Address>)
    ensures SurvivingBlocks(d, stream, who) <= TouchedBlocks(d, stream)
  {
    hide Counts, Lost;
    if |stream| > 0 { SurvivingIn(d, stream[..|stream| - 1], who); }
  }

  lemma {:induction false} HasSurvivor(d: Address, stream: seq<Event>, who: set<Address>)
    ensures SurvivingBlocks(d, stream, who) != {} ==> LastSurviving(d, stream, who).Some?
  {
    hide Counts, Lost;
    if |stream| > 0 { HasSurvivor(d, stream[..|stream| - 1], who); }
  }

  /** The registry entry survives the omission exactly when RegistryKept says so. */
  lemma RegistryKeptExactly(d: Address, stream: seq<Event>, who: set<Address>)
    requires AllConcern(d, stream) && DistinctIds(stream)
    ensures var partial, complete := RegistryOf(Replay(d, FullHistory(stream, who))), RegistryOf(Replay(d, stream));
      (partial.Some? ==> partial == complete) <==> RegistryKept(d, stream, who)
  {
    HistoryAre(stream, who);
    OmissionMeans(d, stream, who);
    RegistryMeans(d, stream);
    RegistryMeans(d, FullHistory(stream, who));
    RegistrationKept(d, stream, who);
    hide FullHistory, Replay, Total, LostMovement, LastCounted, LastSurviving, LastLost, RegisteredIn,
      KeepsRegistration,
      FirstRegistering, FirstKeptRegistering, Mentions, DistinctIds, RegistryOf;
    if KeepsRegistration(d, stream, who) {
      FirstKept(d, stream, who);
      LastKept(d, stream, who);
    }
  }

  /** Agreement of the two replays is harmless omission, stated without replaying. */
  lemma AgreementExactly(d: Address, stream: seq<Event>, who: set<Address>)
    requires AllConcern(d, stream) && BlocksInOrder(stream) && DistinctIds(stream)
    ensures PartialAgrees(d, FullHistory(stream, who), stream) <==> OmitsHarmlessly(d, stream, who)
  {
    OmissionMeans(d, stream, who);
    RegistryKeptExactly(d, stream, who);
    hide RowFor, BlockKept, Replay, RegistryOf, RegistryKept, FullHistory, UpTo;
    forall b | b in SurvivingBlocks(d, stream, who)
      ensures RowFor(d, FullHistory(stream, who), b) == RowFor(d, stream, b) <==> BlockKept(d, UpTo(stream, b), who)
    {
      RowKeptExactly(d, stream, who, b);
    }
  }

  lemma {:induction false} StreamDistinct(d: Address, events: seq<Event>)
    requires DistinctIds(events)
    ensures DistinctIds(Stream(d, events))
  {
    if |events| > 0 {
      var n := |events| - 1;
      StreamDistinct(d, events[..n]);
      StreamOnly(d, events[..n]);
      var before := Stream(d, events[..n]);
      forall i | 0 <= i < |before| ensures before[i].id != events[n].id {
        assert before[i] in before;
        var j :| 0 <= j < n && events[j] == before[i];
      }
    }
  }

  /** A delegator whose rows are right and that the batch does not concern keeps them, when
      it is replayed from what the query returns, if and only if the query omits its events
      harmlessly. */
  lemma BystanderExactly(events: seq<Event>, t: Tables, who: set<Address>, d: Address)
    requires BlocksInOrder(events) && DistinctIds(events) && Exact(events, t, d)
    requires d in Grouped(FullHistory(events, who))
    ensures Exact(events, AfterReplay(events, t, who), d) <==> OmitsHarmlessly(d, Stream(d, events), who)
  {
    HistoryInOrder(events, who);
    StreamInOrder(d, FullHistory(events, who));
    StreamInOrder(d, events);
    StreamDistinct(d, events);
    StreamOnly(d, FullHistory(events, who));
    StreamOnly(d, events);
    OmissionCommutes(d, events, who);
    hide Stream, FullHistory, Grouped, BlocksInOrder, AllConcern, Replay, TouchedBlocks, OmitsHarmlessly, DistinctIds;
    var partial, complete := Partial(d, events, who), Stream(d, events);
    ReplayMeans(d, partial);
    ReplayMeans(d, complete);
    RowsAgree(d, partial, complete);
    MergeExactly(Replay(d, complete).rows, Replay(d, partial).rows);
    AgreementExactly(d, complete, who);
  }
}
