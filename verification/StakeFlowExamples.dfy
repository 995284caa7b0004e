/** Concrete runs of the stake-flow backfill that go wrong
    (crates/livepeer-staker/src/flow.rs): a bystander's corrupted row, a stale row and
    a stale registry entry. */
module StakeFlowExamples {
  import opened Wrappers
  import opened StakeFlow
  import opened StakeFlowRuns
  import opened StakeFlowBystanders
  import opened StakeFlowSchedules

  const FIRST: Event := Event(1, Bond, 1, 0, Some("b"), Some("c"), Some(100), 0)
  const SECOND: Event := Event(2, Bond, 2, 0, Some("b"), Some("a"), Some(50), 0)
  const THIRD: Event := Event(3, Bond, 3, 0, Some("a"), Some("a"), Some(1), 0)

  /** b bonded 100 to c and then 50 to a. A bond by a itself makes a affected, the history
      query returns b's second bond without its first, and b's row drops from 150 to 50. */
  lemma BystanderCorrupted(t: Tables)
    requires Exact([FIRST, SECOND], t, "b")
    ensures var events := [FIRST, SECOND, THIRD];
      var after := AfterReplay(events, t, Affected(events, {3}));
      && 2 in StakeOf(t, "b") && StakeOf(t, "b")[2].principal == 150
      && 2 in StakeOf(after, "b") && StakeOf(after, "b")[2].principal == 50
      && Stream("b", events) == Stream("b", [FIRST, SECOND])
  {
    hide Replay, Stream, FullHistory;
    OnlyAAffected();
    HistoryOfA();
    CompleteOfB();
    PartialOfB();
    assert SECOND in [SECOND, THIRD] && "b" in Delegators(SECOND);
    assert "b" in Grouped([SECOND, THIRD]);
  }

  lemma OnlyAAffected()
    ensures Affected([FIRST, SECOND, THIRD], {3}) == {"a"}
  {
    var events := [FIRST, SECOND, THIRD];
    assert THIRD == events[2] && THIRD in events && Delegators(THIRD) == {"a"};
    assert forall e | e in events && e.id == 3 :: e == THIRD;
    assert "a" in Delegators(THIRD) && THIRD.id in {3};
    assert "a" in Affected(events, {3});
  }

  lemma CompleteOfB()
    ensures Stream("b", [FIRST, SECOND, THIRD]) == Stream("b", [FIRST, SECOND])
    ensures var rows := Replay("b", Stream("b", [FIRST, SECOND])).rows;
      2 in rows && rows[2].principal == 150
  {
    hide Replay, Stream;
    EmptyStream("b");
    StreamSnoc("b", [], FIRST);
    StreamSnoc("b", [FIRST], SECOND);
    StreamSnoc("b", [FIRST, SECOND], THIRD);
    assert [] + [FIRST] == [FIRST] && [FIRST] + [SECOND] == [FIRST, SECOND]
      && [FIRST, SECOND] + [THIRD] == [FIRST, SECOND, THIRD];
    assert [FIRST, SECOND] + [] == [FIRST, SECOND];
    assert Stream("b", [FIRST]) == [FIRST] && Stream("b", [FIRST, SECOND]) == [FIRST, SECOND];
    NothingReplayed("b");
    ReplaySnoc("b", [], FIRST);
    ReplaySnoc("b", [FIRST], SECOND);
  }

  lemma PartialOfB()
    ensures Stream("b", [SECOND, THIRD]) == [SECOND]
    ensures var rows := Replay("b", [SECOND]).rows;
      2 in rows && rows[2].principal == 50
  {
    hide Replay, Stream;
    EmptyStream("b");
    StreamSnoc("b", [], SECOND);
    StreamSnoc("b", [SECOND], THIRD);
    assert [] + [SECOND] == [SECOND] && [SECOND] + [THIRD] == [SECOND, THIRD] && [SECOND] + [] == [SECOND];
    NothingReplayed("b");
    ReplaySnoc("b", [], SECOND);
  }

  lemma EmptyStream(d: Address)
    ensures Stream(d, []) == []
  {
  }

  lemma HistoryOfA()
    ensures FullHistory([FIRST, SECOND, THIRD], {"a"}) == [SECOND, THIRD]
  {
    hide FullHistory;
    HistorySnoc([], FIRST, {"a"});
    HistorySnoc([FIRST], SECOND, {"a"});
    HistorySnoc([FIRST, SECOND], THIRD, {"a"});
    assert FullHistory([], {"a"}) == [] by { EmptyHistory({"a"}); }
    assert [] + [FIRST] == [FIRST] && [FIRST] + [SECOND] == [FIRST, SECOND]
      && [FIRST, SECOND] + [THIRD] == [FIRST, SECOND, THIRD];
    assert [SECOND] + [THIRD] == [SECOND, THIRD];
  }

  lemma EmptyHistory(who: set<Address>)
    ensures FullHistory([], who) == []
  {
  }

  const LATER: Event := Event(4, Bond, 4, 0, Some("b"), Some("a"), Some(7), 0)

  /** A batch with room for every new id holds every new id. */
  lemma WholeBatch(events: seq<Event>, cp: Option<int>, limit: nat, ids: set<int>)
    requires |ids| <= limit
    requires (forall e | e in events && Above(cp, e.id) :: e.id in ids)
    requires (forall id | id in ids :: exists e :: e in events && e.id == id && Above(cp, id))
    ensures Batch(events, cp, limit) == ids
  {
    var newIds := set e | e in events && Above(cp, e.id) :: e.id;
    forall id | id in ids ensures id in newIds {
      var e :| e in events && e.id == id && Above(cp, id);
    }
    assert newIds == ids;
    FirstIdsAre(ids, limit);
    Whole(ids, Batch(events, cp, limit));
  }

  lemma Whole(s: set<int>, t: set<int>)
    requires t <= s && |t| == |s|
    ensures t == s
  {
    assert s == t + (s - t);
    assert |s| == |t| + |s - t|;
  }

  const FIRST_TICK: seq<Tick> := [Tick([FIRST, SECOND], 10)]

  /** The first run takes both of b's bonds and leaves b's rows right. */
  lemma FirstTick()
    ensures Orderly(FIRST_TICK) && Play(FIRST_TICK).checkpoint == Some(2)
    ensures Exact([FIRST, SECOND], Play(FIRST_TICK).tables, "b")
  {
    hide Replay, Stream, FullHistory, AfterReplay, Batch, Exact;
    var events := [FIRST, SECOND];
    assert FIRST in events && SECOND in events;
    WholeBatch(events, None, 10, {1, 2});
    assert FIRST_TICK[..0] == [];
    assert Play(FIRST_TICK) == Run(events, START, 10);
    assert Largest({1, 2}) == 2;
    assert "b" in Delegators(FIRST) && "b" in Affected(events, {1, 2});
    NothingKept(events);
    assert Orderly(FIRST_TICK[..0]);
    assert FromTable(events);
    OwnEventHeals(FIRST_TICK, "b");
  }

  lemma {:induction false} NothingKept(events: seq<Event>)
    ensures Keep(events, {}) == [] && Ids([]) == {}
  {
    if |events| > 0 { NothingKept(events[..|events| - 1]); }
  }

  const SECOND_TICK: seq<Tick> := [Tick([FIRST, SECOND], 10), Tick([FIRST, SECOND, THIRD], 10)]

  /** From the empty tables, two orderly runs take b's principal at block 2 to 150 and then,
      with no event of b's own, to 50. */
  lemma BystanderExample()
    ensures Orderly(SECOND_TICK)
    ensures var before, after := StakeOf(Play(FIRST_TICK).tables, "b"), StakeOf(Play(SECOND_TICK).tables, "b");
      && 2 in before && before[2].principal == 150
      && 2 in after && after[2].principal == 50
  {
    hide Replay, Stream, FullHistory, AfterReplay, Batch, Exact, Play;
    var events := [FIRST, SECOND, THIRD];
    FirstTick();
    assert SECOND_TICK[..1] == FIRST_TICK;
    assert events[..2] == [FIRST, SECOND] && THIRD == events[2] && THIRD in events;
    WholeBatch(events, Some(2), 10, {3});
    TwoOfThree();
    assert FromTable(events);
    SecondPlay();
    BystanderCorrupted(Play(FIRST_TICK).tables);
  }

  lemma SecondPlay()
    requires Play(FIRST_TICK).checkpoint == Some(2) && Batch([FIRST, SECOND, THIRD], Some(2), 10) == {3}
    ensures Play(SECOND_TICK).tables ==
      AfterReplay([FIRST, SECOND, THIRD], Play(FIRST_TICK).tables, Affected([FIRST, SECOND, THIRD], {3}))
  {
    hide AfterReplay, Batch, Affected;
    assert SECOND_TICK[..1] == FIRST_TICK;
  }

  lemma TwoOfThree()
    ensures Keep([FIRST, SECOND, THIRD], Ids([FIRST, SECOND])) == [FIRST, SECOND] && Ids([FIRST, SECOND]) == {1, 2}
  {
    hide Keep;
    assert FIRST in [FIRST, SECOND] && SECOND in [FIRST, SECOND];
    assert Ids([FIRST, SECOND]) == {1, 2};
    KeepSnoc([], FIRST, {1, 2});
    KeepSnoc([FIRST], SECOND, {1, 2});
    KeepSnoc([FIRST, SECOND], THIRD, {1, 2});
    assert Keep([], {1, 2}) == [] by { NothingToKeep({1, 2}); }
    assert [] + [FIRST] == [FIRST] && [FIRST] + [SECOND] == [FIRST, SECOND]
      && [FIRST, SECOND] + [THIRD] == [FIRST, SECOND, THIRD];
  }

  lemma NothingToKeep(ids: set<int>)
    ensures Keep([], ids) == []
  {
  }

  /** b's first bond is orphaned after it was replayed: b's next event rebuilds its rows, and
      the one at the orphaned block stays. */
  lemma StaleRowExample()
    ensures var after := Run([SECOND, LATER], Play(FIRST_TICK), 10).tables;
      && 1 in StakeOf(after, "b")
      && 1 !in Replay("b", Stream("b", [SECOND, LATER])).rows
  {
    hide Replay, Stream, FullHistory, AfterReplay, Batch, Play, Affected, ReplayAll, Grouped, RegistryOf, Run;
    var events := [SECOND, LATER];
    FirstTick();
    CompleteOfB();
    FirstRow();
    ThirdRun(Play(FIRST_TICK));
    ReplayFor(events, Play(FIRST_TICK).tables, Affected(events, {4}), "b");
    NoFirstBlock();
  }

  lemma ThirdRun(s: State)
    requires s.checkpoint == Some(2)
    ensures Run([SECOND, LATER], s, 10).tables == AfterReplay([SECOND, LATER], s.tables, Affected([SECOND, LATER], {4}))
  {
    hide AfterReplay, Batch, Affected;
    var events := [SECOND, LATER];
    assert events[1] == LATER && LATER in events;
    WholeBatch(events, Some(2), 10, {4});
  }

  lemma NoFirstBlock()
    ensures 1 !in Replay("b", Stream("b", [SECOND, LATER])).rows
  {
    hide Replay, Stream, TouchedBlocks;
    var events := [SECOND, LATER];
    StreamOnly("b", events);
    ReplayMeans("b", Stream("b", events));
    TouchedAre("b", Stream("b", events));
    assert forall e | e in Stream("b", events) :: e in events && e.block != 1;
  }

  lemma FirstRow()
    ensures 1 in Replay("b", Stream("b", [FIRST, SECOND])).rows
  {
    hide Replay, Stream;
    EmptyStream("b");
    StreamSnoc("b", [], FIRST);
    StreamSnoc("b", [FIRST], SECOND);
    assert [] + [FIRST] == [FIRST] && [FIRST] + [SECOND] == [FIRST, SECOND];
    NothingReplayed("b");
    ReplaySnoc("b", [], FIRST);
    ReplaySnoc("b", [FIRST], SECOND);
  }

  const BOND_TICK: seq<Tick> := [Tick([FIRST], 10)]

  /** b only claims earnings, in the block of its orphaned bond. */
  const CLAIM: Event := Event(2, EarningsClaimed, 1, 1, Some("b"), None, Some(0), 5)

  const CLAIM_TICKS: seq<Tick> := [Tick([FIRST], 10), Tick([CLAIM], 10)]

  /** b's bond is orphaned and b's next event falls in the same block: no stored row is at a
      block the stream does not touch, and still the registration stays. */
  lemma StaleRegistryExample()
    ensures StakeOf(Play(BOND_TICK).tables, "b").Keys <= TouchedBlocks("b", Stream("b", [CLAIM]))
    ensures RegistryEntry(Play(CLAIM_TICKS).tables, "b").Some?
    ensures RegistryOf(Replay("b", Stream("b", [CLAIM]))).None?
  {
    hide Replay, Stream, TouchedBlocks, RegistryOf, RegisteredIn, Play, Written, EverRegistered;
    StoredIs(BOND_TICK, "b");
    StoredIs(CLAIM_TICKS, "b");
    BondWritten();
    ClaimStream();
    RegistryNeedsRegistration("b", [CLAIM]);
    ReplayMeans("b", [CLAIM]);
    assert CLAIM_TICKS[..1] == BOND_TICK;
    StillRegistered(CLAIM_TICKS, "b");
  }

  lemma {:induction false} StillRegistered(ticks: seq<Tick>, d: Address)
    requires |ticks| > 0 && EverRegistered(ticks[..|ticks| - 1], d)
    ensures EverRegistered(ticks, d)
  {
    hide Play, RegisteredIn, Batch;
  }

  lemma ClaimStream()
    ensures Stream("b", [CLAIM]) == [CLAIM] && TouchedBlocks("b", [CLAIM]) == {1} && !RegisteredIn("b", [CLAIM])
    ensures AllConcern("b", [CLAIM])
  {
    EmptyStream("b");
    StreamSnoc("b", [], CLAIM);
    assert [] + [CLAIM] == [CLAIM];
    assert [CLAIM][..0] == [];
    assert TouchedBlocks("b", []) == {};
  }

  lemma BondStream()
    ensures Stream("b", [FIRST]) == [FIRST] && TouchedBlocks("b", [FIRST]) == {1} && RegisteredIn("b", [FIRST])
  {
    EmptyStream("b");
    StreamSnoc("b", [], FIRST);
    assert [] + [FIRST] == [FIRST];
    assert [FIRST][..0] == [] && FIRST in [FIRST];
    assert TouchedBlocks("b", []) == {};
  }

  lemma BondWritten()
    ensures Written(BOND_TICK, "b") == {1} && EverRegistered(BOND_TICK, "b")
  {
    hide Stream, TouchedBlocks, RegisteredIn, Batch, FullHistory;
    var who := Who([FIRST], None, 10);
    assert BOND_TICK[..0] == [] && Written([], "b") == {};
    WholeBatch([FIRST], None, 10, {1});
    assert FIRST in [FIRST] && "b" in Delegators(FIRST);
    assert "b" in who;
    AffectedAllMentioned("b", [FIRST], who);
    GuardCompletes("b", [FIRST], who);
    BondStream();
  }
}
