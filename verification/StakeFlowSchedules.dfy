/** Whole schedules of stake-flow runs (crates/livepeer-staker/src/flow.rs): late events
    anywhere in stream order, events orphaned by a reorg, any batch limits, and delegators
    that are sometimes replayed as bystanders and healed by their own next event. */
module StakeFlowSchedules {
  import opened Checkpoints
  import opened Wrappers
  import opened StakeFlow
  import opened StakeFlowRuns
  import opened StakeFlowBystanders

  /** One scheduled run over the events visible at its start, in stream order. */
  datatype Tick = Tick(events: seq<Event>, limit: nat)

  function Play(ticks: seq<Tick>): State {
    if |ticks| == 0 then START
    else Run(ticks[|ticks| - 1].events, Play(ticks[..|ticks| - 1]), ticks[|ticks| - 1].limit)
  }

  function EventsAt(ticks: seq<Tick>, n: nat): seq<Event>
    requires n <= |ticks|
  {
    if n == 0 then [] else ticks[n - 1].events
  }

  /** Events only become visible, anywhere in stream order but above the checkpoint. */
  predicate Grew(before: seq<Event>, after: seq<Event>, cp: Option<int>) {
    && before == Keep(after, Ids(before))
    && forall e | e in after && e.id !in Ids(before) :: Above(cp, e.id)
  }

  /** Rows as the table's serial primary key and the query's ORDER BY give them. */
  predicate FromTable(events: seq<Event>) {
    BlocksInOrder(events) && DistinctIds(events) && forall e | e in events :: e.id >= 1
  }

  /** Nothing is asked of how the tables of a schedule follow one another. */
  predicate Tabled(ticks: seq<Tick>) { forall t | t in ticks :: FromTable(t.events) }

  /** Events are never orphaned and become visible above the checkpoint. */
  predicate Orderly(ticks: seq<Tick>) {
    if |ticks| == 0 then true
    else
      var n := |ticks| - 1;
      && Orderly(ticks[..n])
      && Grew(EventsAt(ticks, n), ticks[n].events, Play(ticks[..n]).checkpoint)
      && FromTable(ticks[n].events)
  }

  /** One delegator's events only became visible, above the checkpoint. */
  predicate GrewFor(d: Address, before: seq<Event>, after: seq<Event>, cp: Option<int>) {
    Grew(Stream(d, before), Stream(d, after), cp)
  }

  /** The addresses a run replays for. */
  function Who(events: seq<Event>, cp: Option<int>, limit: nat): set<Address> {
    Affected(events, Batch(events, cp, limit))
  }

  /** The delegator is replayed although none of the batch's events belong to it. */
  predicate Bystander(events: seq<Event>, cp: Option<int>, limit: nat, d: Address) {
    var who := Who(events, cp, limit);
    Batch(events, cp, limit) != {} && d in Grouped(FullHistory(events, who)) && d !in who
  }

  /** No event of the delegator still waits above the checkpoint. */
  predicate NothingPending(events: seq<Event>, cp: Option<int>, d: Address) {
    forall e | e in events && Concerns(d, e) :: !Above(cp, e.id)
  }

  /** The run replays the delegator from its complete stream: its own event is in the batch,
      or each of its events happens to name an affected address. */
  predicate Heals(events: seq<Event>, cp: Option<int>, limit: nat, d: Address) {
    Batch(events, cp, limit) != {} && AllMentioned(d, events, Who(events, cp, limit))
  }

  /** The run replays the delegator as a bystander, the query's omissions show, and no event
      of its own is left to repair that. */
  predicate Harms(events: seq<Event>, cp: Option<int>, limit: nat, d: Address) {
    && NothingPending(events, cp, d) && Bystander(events, cp, limit, d)
    && !OmitsHarmlessly(d, Stream(d, events), Who(events, cp, limit))
  }

  /** The blocks the runs so far wrote for the delegator, whatever became of the events. */
  function Written(ticks: seq<Tick>, d: Address): set<int> {
    if |ticks| == 0 then {}
    else
      var n := |ticks| - 1;
      var cp := Play(ticks[..n]).checkpoint;
      Written(ticks[..n], d)
      + if Batch(ticks[n].events, cp, ticks[n].limit) == {} then {}
        else TouchedBlocks(d, Partial(d, ticks[n].events, Who(ticks[n].events, cp, ticks[n].limit)))
  }

  /** Some run so far replayed a registration of the delegator. */
  predicate EverRegistered(ticks: seq<Tick>, d: Address) {
    if |ticks| == 0 then false
    else
      var n := |ticks| - 1;
      var cp := Play(ticks[..n]).checkpoint;
      || EverRegistered(ticks[..n], d)
      || (&& Batch(ticks[n].events, cp, ticks[n].limit) != {}
          && RegisteredIn(d, Partial(d, ticks[n].events, Who(ticks[n].events, cp, ticks[n].limit))))
  }

  /** Everything the runs wrote for the delegator still has its event: no block and no
      registration was orphaned away. */
  predicate Clean(ticks: seq<Tick>, events: seq<Event>, d: Address) {
    && Written(ticks, d) <= TouchedBlocks(d, Stream(d, events))
    && (EverRegistered(ticks, d) ==> RegisteredIn(d, Stream(d, events)))
  }

  /** None of the delegator's events was orphaned, and no run has harmed it, since the last
      run that healed it over clean tables. */
  predicate Unharmed(ticks: seq<Tick>, d: Address) {
    if |ticks| == 0 then true
    else
      var n := |ticks| - 1;
      var cp := Play(ticks[..n]).checkpoint;
      || (Heals(ticks[n].events, cp, ticks[n].limit, d) && Clean(ticks[..n], ticks[n].events, d))
      || (&& Unharmed(ticks[..n], d) && GrewFor(d, EventsAt(ticks, n), ticks[n].events, cp)
          && !Harms(ticks[n].events, cp, ticks[n].limit, d))
  }

  // ---------------------------------------------------------------------------
  // What every run keeps, bystander or not
  // ---------------------------------------------------------------------------

  lemma GrowthContains(before: seq<Event>, after: seq<Event>, s: State, d: Address)
    requires Grew(before, after, s.checkpoint) && NothingStale(before, s.tables, d)
    ensures NothingStale(after, s.tables, d)
  {
    MoreEventsCover(d, after, Ids(before));
    NothingStaleIs(before, s.tables, d);
    NothingStaleIs(after, s.tables, d);
    hide Replay, Stream, Keep, NothingStale, RegistryOf;
  }

  /** What a run leaves for one delegator. */
  lemma ReplayFor(events: seq<Event>, t: Tables, who: set<Address>, d: Address)
    ensures var s := Replay(d, Partial(d, events, who));
      var after := AfterReplay(events, t, who);
      if d in Grouped(FullHistory(events, who)) then
        && StakeOf(after, d) == StakeOf(t, d) + s.rows
        && RegistryEntry(after, d) == if RegistryOf(s).Some? then RegistryOf(s) else RegistryEntry(t, d)
      else
        && StakeOf(after, d) == StakeOf(t, d) && RegistryEntry(after, d) == RegistryEntry(t, d)
        && Partial(d, events, who) == []
  {
    hide Replay, Stream, RegistryOf, FullHistory, Grouped;
    if d !in Grouped(FullHistory(events, who)) { NotGrouped(d, FullHistory(events, who)); }
  }

  lemma RegistryNeedsRegistration(d: Address, stream: seq<Event>)
    requires AllConcern(d, stream)
    ensures RegistryOf(Replay(d, stream)).Some? <==> Replay(d, stream).registered
  {
    ReplayMeans(d, stream);
  }

  lemma ReplayContains(events: seq<Event>, t: Tables, who: set<Address>, d: Address)
    requires NothingStale(events, t, d)
    ensures NothingStale(events, AfterReplay(events, t, who), d)
  {
    ReplayFor(events, t, who, d);
    PartialCovered(d, events, who);
    NothingStaleIs(events, t, d);
    NothingStaleIs(events, AfterReplay(events, t, who), d);
    StreamOnly(d, FullHistory(events, who));
    RegistryNeedsRegistration(d, Partial(d, events, who));
    hide Replay, Stream, RegistryOf, FullHistory, Grouped, AfterReplay, AllConcern, NothingStale;
  }

  /** A run from the complete stream leaves exactly the complete replay, however wrong the
      stored rows are, if and only if nothing stale is stored. */
  lemma HealingIsExact(events: seq<Event>, t: Tables, who: set<Address>, d: Address)
    requires AllMentioned(d, events, who)
    ensures Exact(events, AfterReplay(events, t, who), d) <==> NothingStale(events, t, d)
  {
    ReplayFor(events, t, who, d);
    GuardCompletes(d, events, who);
    NothingStaleIs(events, t, d);
    NothingReplayed(d);
    hide Replay, Stream, RegistryOf, FullHistory, Grouped, AfterReplay, AllMentioned, NothingStale;
    var rows := Replay(d, Stream(d, events)).rows;
    assert (StakeOf(t, d) + rows).Keys == StakeOf(t, d).Keys + rows.Keys;
    assert StakeOf(t, d).Keys <= rows.Keys ==> StakeOf(t, d) + rows == rows;
    assert StakeOf(t, d).Keys <= {} <==> StakeOf(t, d) == map[];
  }

  /** The stored blocks and the registry entry are those the runs wrote, in any schedule. */
  lemma {:induction false} StoredIs(ticks: seq<Tick>, d: Address)
    ensures StakeOf(Play(ticks).tables, d).Keys == Written(ticks, d)
    ensures RegistryEntry(Play(ticks).tables, d).Some? <==> EverRegistered(ticks, d)
  {
    if |ticks| > 0 {
      hide AfterReplay, Batch, TouchedBlocks, Stream, FullHistory, RegisteredIn, Affected;
      var n := |ticks| - 1;
      var before := Play(ticks[..n]);
      StoredIs(ticks[..n], d);
      if Batch(ticks[n].events, before.checkpoint, ticks[n].limit) != {} {
        ReplayWrites(ticks[n].events, before.tables, Who(ticks[n].events, before.checkpoint, ticks[n].limit), d);
      }
    }
  }

  lemma ReplayWrites(events: seq<Event>, t: Tables, who: set<Address>, d: Address)
    ensures var after := AfterReplay(events, t, who);
      && StakeOf(after, d).Keys == StakeOf(t, d).Keys + TouchedBlocks(d, Partial(d, events, who))
      && (RegistryEntry(after, d).Some? <==>
          RegistryEntry(t, d).Some? || RegisteredIn(d, Partial(d, events, who)))
  {
    ReplayFor(events, t, who, d);
    StreamOnly(d, FullHistory(events, who));
    ReplayMeans(d, Partial(d, events, who));
    NothingReplayed(d);
    RegistryNeedsRegistration(d, Partial(d, events, who));
    NotRegistered(d);
    hide Replay, Stream, RegistryOf, FullHistory, Grouped, AfterReplay, AllConcern, TouchedBlocks, RegisteredIn;
    var rows := Replay(d, Partial(d, events, who)).rows;
    assert (StakeOf(t, d) + rows).Keys == StakeOf(t, d).Keys + rows.Keys;
  }

  lemma NotRegistered(d: Address)
    ensures !RegisteredIn(d, [])
  {
  }

  lemma CleanIs(ticks: seq<Tick>, events: seq<Event>, d: Address)
    ensures Clean(ticks, events, d) <==> NothingStale(events, Play(ticks).tables, d)
  {
    hide Play, TouchedBlocks, RegisteredIn, Written, EverRegistered;
    StoredIs(ticks, d);
  }

  /** Over any schedule at all, orphaned events included, a run whose batch holds one of a
      delegator's events leaves exactly its complete replay if and only if nothing an
      earlier run wrote for it was orphaned away. */
  lemma {:induction false} OwnEventHealsExactly(ticks: seq<Tick>, d: Address)
    requires |ticks| > 0
    requires var n := |ticks| - 1;
      d in Who(ticks[n].events, Play(ticks[..n]).checkpoint, ticks[n].limit)
    ensures var n := |ticks| - 1;
      Exact(EventsAt(ticks, |ticks|), Play(ticks).tables, d) <==> Clean(ticks[..n], ticks[n].events, d)
  {
    var n := |ticks| - 1;
    var cp := Play(ticks[..n]).checkpoint;
    hide Clean, NothingStale, Exact, AfterReplay, Batch;
    CleanIs(ticks[..n], ticks[n].events, d);
    SomeBatch(ticks[n].events, Batch(ticks[n].events, cp, ticks[n].limit), d);
    AffectedExactly(ticks[n].events, Play(ticks[..n]).tables, Who(ticks[n].events, cp, ticks[n].limit), d);
  }

  lemma {:induction false} AlwaysContained(ticks: seq<Tick>, d: Address)
    requires Orderly(ticks)
    ensures NothingStale(EventsAt(ticks, |ticks|), Play(ticks).tables, d)
  {
    hide NothingStale, Grew, FromTable, AfterReplay, Batch;
    if |ticks| == 0 {
      StartContained(d);
    } else {
      var n := |ticks| - 1;
      AlwaysContained(ticks[..n], d);
      assert EventsAt(ticks[..n], n) == EventsAt(ticks, n);
      GrowthContains(EventsAt(ticks, n), ticks[n].events, Play(ticks[..n]), d);
      ReplayContains(ticks[n].events, Play(ticks[..n]).tables,
                     Who(ticks[n].events, Play(ticks[..n]).checkpoint, ticks[n].limit), d);
    }
  }

  lemma StartContained(d: Address)
    ensures NothingStale([], START.tables, d)
  {
  }

  /** What the last run starts from. */
  lemma BeforeLast(ticks: seq<Tick>, d: Address)
    requires Orderly(ticks) && |ticks| > 0
    ensures var n := |ticks| - 1;
      NothingStale(ticks[n].events, Play(ticks[..n]).tables, d)
  {
    hide NothingStale, Grew, FromTable, Run;
    var n := |ticks| - 1;
    AlwaysContained(ticks[..n], d);
    assert EventsAt(ticks[..n], n) == EventsAt(ticks, n);
    GrowthContains(EventsAt(ticks, n), ticks[n].events, Play(ticks[..n]), d);
  }

  /** While no event is orphaned, every corruption is healed by the delegator's own next
      event: a run whose batch holds one leaves exactly its complete replay. */
  lemma {:induction false} OwnEventHeals(ticks: seq<Tick>, d: Address)
    requires Orderly(ticks) && |ticks| > 0
    requires var n := |ticks| - 1;
      d in Who(ticks[n].events, Play(ticks[..n]).checkpoint, ticks[n].limit)
    ensures Exact(EventsAt(ticks, |ticks|), Play(ticks).tables, d)
  {
    var n := |ticks| - 1;
    hide NothingStale, Clean, Exact, Orderly, Play, Batch, Affected;
    BeforeLast(ticks, d);
    CleanIs(ticks[..n], ticks[n].events, d);
    OwnEventHealsExactly(ticks, d);
  }

  lemma SomeBatch(events: seq<Event>, batch: set<int>, d: Address)
    requires d in Affected(events, batch)
    ensures batch != {}
  {
  }

  // ---------------------------------------------------------------------------
  // Settled delegators
  // ---------------------------------------------------------------------------

  /** Unless an event of its own is still pending, the tables hold exactly the delegator's
      replay over every event; they never hold a block or registration beyond it. */
  predicate Settled(events: seq<Event>, s: State, d: Address) {
    && NothingStale(events, s.tables, d)
    && (NothingPending(events, s.checkpoint, d) ==> Exact(events, s.tables, d))
  }

  lemma {:induction false} StreamTwice(d: Address, events: seq<Event>)
    ensures Stream(d, Stream(d, events)) == Stream(d, events)
  {
    if |events| > 0 {
      hide Concerns;
      var n := |events| - 1;
      StreamTwice(d, events[..n]);
      StreamSnoc(d, Stream(d, events[..n]), events[n]);
      assert Stream(d, events[..n]) + [] == Stream(d, events[..n]);
    }
  }

  /** Everything about a delegator is about its own stream. */
  lemma SettledByStream(events: seq<Event>, s: State, d: Address)
    ensures Settled(events, s, d) <==> Settled(Stream(d, events), s, d)
    ensures NothingPending(events, s.checkpoint, d) <==> NothingPending(Stream(d, events), s.checkpoint, d)
  {
    hide Replay, Stream, TouchedBlocks, RegisteredIn, Concerns;
    StreamTwice(d, events);
    StreamOnly(d, events);
  }

  lemma GrowthSettles(before: seq<Event>, after: seq<Event>, s: State, d: Address)
    requires GrewFor(d, before, after, s.checkpoint) && Settled(before, s, d)
    ensures Settled(after, s, d)
  {
    hide NothingStale, Exact, Stream, Keep, Concerns;
    SettledByStream(before, s, d);
    SettledByStream(after, s, d);
    var b, a := Stream(d, before), Stream(d, after);
    GrowthContains(b, a, s, d);
    KeepOnly(a, Ids(b));
    if NothingPending(a, s.checkpoint, d) { GrowthExact(b, a, s, d); }
  }

  lemma GrowthExact(before: seq<Event>, after: seq<Event>, s: State, d: Address)
    requires Grew(before, after, s.checkpoint) && NothingPending(after, s.checkpoint, d)
    requires NothingPending(before, s.checkpoint, d) ==> Exact(before, s.tables, d)
    ensures Exact(after, s.tables, d)
  {
    hide Replay, Stream, Keep, Concerns;
    KeepOnly(after, Ids(before));
    KeptStream(d, after, Ids(before));
  }

  /** Growth of the whole table is growth of each delegator's events. */
  lemma GrewForEach(before: seq<Event>, after: seq<Event>, cp: Option<int>, d: Address)
    requires Grew(before, after, cp) && DistinctIds(after)
    ensures GrewFor(d, before, after, cp)
  {
    hide Concerns, Keep, Stream, DistinctIds;
    KeepOnly(after, Ids(before));
    StreamOnly(d, before);
    StreamOnly(d, after);
    KeepCommutes(d, after, Ids(before));
    forall e | e in Stream(d, after) ensures e.id in Ids(before) <==> e.id in Ids(Stream(d, before)) {
      if e.id in Ids(before) {
        var e' :| e' in before && e'.id == e.id;
        SameEvent(after, e, e');
      }
    }
    KeepSame(Stream(d, after), Ids(before), Ids(Stream(d, before)));
  }

  lemma SameEvent(events: seq<Event>, a: Event, b: Event)
    requires DistinctIds(events) && a in events && b in events && a.id == b.id
    ensures a == b
  {
  }

  lemma {:induction false} KeepCommutes(d: Address, events: seq<Event>, ids: set<int>)
    ensures Stream(d, Keep(events, ids)) == Keep(Stream(d, events), ids)
  {
    if |events| > 0 {
      hide Concerns;
      var n := |events| - 1;
      KeepCommutes(d, events[..n], ids);
      StreamSnoc(d, Keep(events[..n], ids), events[n]);
      KeepSnoc(Stream(d, events[..n]), events[n], ids);
      assert Keep(events[..n], ids) + [] == Keep(events[..n], ids);
      assert Stream(d, events[..n]) + [] == Stream(d, events[..n]);
      assert Keep(Stream(d, events[..n]), ids) + [] == Keep(Stream(d, events[..n]), ids);
    }
  }

  lemma {:induction false} KeepSame(events: seq<Event>, a: set<int>, b: set<int>)
    requires forall e | e in events :: e.id in a <==> e.id in b
    ensures Keep(events, a) == Keep(events, b)
  {
    if |events| > 0 {
      var n := |events| - 1;
      assert events[n] in events && forall e | e in events[..n] :: e in events;
      KeepSame(events[..n], a, b);
    }
  }

  /** A run the delegator's own events are not in keeps right rows right if and only if it
      does not replay it as a bystander with omissions that show. */
  lemma RunExactly(events: seq<Event>, t: Tables, who: set<Address>, d: Address)
    requires FromTable(events) && Exact(events, t, d)
    ensures Exact(events, AfterReplay(events, t, who), d) <==>
      d !in Grouped(FullHistory(events, who)) || OmitsHarmlessly(d, Stream(d, events), who)
  {
    if d in Grouped(FullHistory(events, who)) {
      BystanderExactly(events, t, who, d);
    } else {
      ReplayFor(events, t, who, d);
    }
  }

  lemma StillPending(events: seq<Event>, cp: Option<int>, limit: nat, d: Address)
    requires Batch(events, cp, limit) != {} && d !in Who(events, cp, limit)
    requires NothingPending(events, AdvanceCheckpoint(cp, Largest(Batch(events, cp, limit))), d)
    ensures NothingPending(events, cp, d)
  {
    hide Batch, Affected, Concerns;
    BatchAre(events, cp, limit);
    NotAffected(events, Batch(events, cp, limit), d);
  }

  lemma RunSettles(events: seq<Event>, s: State, limit: nat, d: Address)
    requires FromTable(events) && Settled(events, s, d) && !Harms(events, s.checkpoint, limit, d)
    ensures Settled(events, Run(events, s, limit), d)
  {
    hide NothingStale, Exact, AfterReplay, FullHistory, Grouped, Batch, Stream, OmitsHarmlessly, Affected, AllMentioned;
    var batch := Batch(events, s.checkpoint, limit);
    var after := Run(events, s, limit);
    if batch == {} {
      EmptyRun(events, s, limit, d);
    } else {
      var who := Who(events, s.checkpoint, limit);
      ReplayContains(events, s.tables, who, d);
      if d in who {
        AffectedAllMentioned(d, events, who);
        HealingIsExact(events, s.tables, who, d);
      } else if NothingPending(events, after.checkpoint, d) {
        StillPending(events, s.checkpoint, limit, d);
        RunExactly(events, s.tables, who, d);
      }
    }
  }

  lemma EmptyRun(events: seq<Event>, s: State, limit: nat, d: Address)
    requires FromTable(events) && Batch(events, s.checkpoint, limit) == {}
    ensures var after := Run(events, s, limit);
      after.tables == s.tables
        && (NothingPending(events, after.checkpoint, d) ==> NothingPending(events, s.checkpoint, d))
  {
    hide Batch, Concerns, BlocksInOrder, DistinctIds;
  }

  /** A healing run settles the delegator whatever came before it. */
  lemma HealingSettles(events: seq<Event>, s: State, limit: nat, d: Address)
    requires NothingStale(events, s.tables, d) && Heals(events, s.checkpoint, limit, d)
    ensures Settled(events, Run(events, s, limit), d) && Exact(events, Run(events, s, limit).tables, d)
  {
    hide NothingStale, Exact, AfterReplay, FullHistory, Batch, AllMentioned, Affected;
    var who := Who(events, s.checkpoint, limit);
    ReplayContains(events, s.tables, who, d);
    HealingIsExact(events, s.tables, who, d);
  }

  lemma StartSettled(d: Address)
    ensures Settled([], START, d)
  {
    NothingReplayed(d);
  }

  /** Over every schedule, with any limits, late events anywhere in stream order and events
      orphaned by reorgs, an unharmed delegator is settled. */
  lemma {:induction false} ScheduleSettles(ticks: seq<Tick>, d: Address)
    requires Tabled(ticks) && Unharmed(ticks, d)
    ensures Settled(EventsAt(ticks, |ticks|), Play(ticks), d)
  {
    hide Settled, Heals, Harms, Run, GrewFor, FromTable, Clean;
    if |ticks| == 0 {
      StartSettled(d);
    } else {
      var n := |ticks| - 1;
      var before := Play(ticks[..n]);
      assert ticks[n] in ticks;
      if Heals(ticks[n].events, before.checkpoint, ticks[n].limit, d) && Clean(ticks[..n], ticks[n].events, d) {
        CleanIs(ticks[..n], ticks[n].events, d);
        HealingSettles(ticks[n].events, before, ticks[n].limit, d);
      } else {
        ScheduleSettles(ticks[..n], d);
        assert EventsAt(ticks[..n], n) == EventsAt(ticks, n);
        GrowthSettles(EventsAt(ticks, n), ticks[n].events, before, d);
        RunSettles(ticks[n].events, before, ticks[n].limit, d);
      }
    }
  }

  /** Once the checkpoint covers a delegator's events, incremental replay equals one replay
      from scratch over its complete stream. */
  lemma {:induction false} DrainedIsScratch(ticks: seq<Tick>, d: Address)
    requires Tabled(ticks) && Unharmed(ticks, d)
    requires NothingPending(EventsAt(ticks, |ticks|), Play(ticks).checkpoint, d)
    ensures Exact(EventsAt(ticks, |ticks|), Play(ticks).tables, d)
  {
    hide Play, Tabled, Unharmed, Exact, NothingPending, NothingStale;
    ScheduleSettles(ticks, d);
  }

  /** And a run that harms a settled delegator leaves its rows or registry entry wrong. */
  lemma {:induction false} HarmShows(ticks: seq<Tick>, d: Address)
    requires Tabled(ticks) && |ticks| > 0
    requires var n := |ticks| - 1;
      && Unharmed(ticks[..n], d) && GrewFor(d, EventsAt(ticks, n), ticks[n].events, Play(ticks[..n]).checkpoint)
      && Harms(ticks[n].events, Play(ticks[..n]).checkpoint, ticks[n].limit, d)
    ensures !Exact(EventsAt(ticks, |ticks|), Play(ticks).tables, d)
  {
    hide Exact, AfterReplay, FullHistory, Grouped, Batch, Stream, OmitsHarmlessly, Affected, NothingStale,
      NothingPending, GrewFor, FromTable;
    var n := |ticks| - 1;
    var before := Play(ticks[..n]);
    ScheduleSettles(ticks[..n], d);
    assert ticks[n] in ticks && EventsAt(ticks[..n], n) == EventsAt(ticks, n);
    GrowthSettles(EventsAt(ticks, n), ticks[n].events, before, d);
    RunExactly(ticks[n].events, before.tables, Who(ticks[n].events, before.checkpoint, ticks[n].limit), d);
  }

  /** While nothing is orphaned, tables are clean and a delegator's events only grow: then
      only bystander runs can harm. */
  lemma {:induction false} OrderlyIsClean(ticks: seq<Tick>, d: Address)
    requires Orderly(ticks) && |ticks| > 0
    ensures var n := |ticks| - 1;
      && Clean(ticks[..n], ticks[n].events, d)
      && GrewFor(d, EventsAt(ticks, n), ticks[n].events, Play(ticks[..n]).checkpoint)
  {
    hide Clean, GrewFor, Grew, NothingStale, Play;
    var n := |ticks| - 1;
    BeforeLast(ticks, d);
    CleanIs(ticks[..n], ticks[n].events, d);
    GrewForEach(EventsAt(ticks, n), ticks[n].events, Play(ticks[..n]).checkpoint, d);
  }

  // ---------------------------------------------------------------------------
  // Delegators with events still pending
  // ---------------------------------------------------------------------------

  /** The tables hold the delegator's replay over at least every event at or below the checkpoint. */
  ghost predicate UpToDate(events: seq<Event>, s: State, d: Address) {
    exists ids :: CurrentBelow(events, s, d, ids)
  }

  predicate CurrentBelow(events: seq<Event>, s: State, d: Address, ids: set<int>) {
    && Current(events, s.tables, d, ids)
    && forall e | e in events && Concerns(d, e) && !Above(s.checkpoint, e.id) :: e.id in ids
  }

  /** The run replays the delegator as a bystander while its own events are pending, or harms it. */
  predicate Disturbs(events: seq<Event>, cp: Option<int>, limit: nat, d: Address) {
    Bystander(events, cp, limit, d) && (!NothingPending(events, cp, d) || Harms(events, cp, limit, d))
  }

  /** None of the delegator's events was orphaned, and no run has disturbed it, since the last
      run that healed it over clean tables. */
  predicate Undisturbed(ticks: seq<Tick>, d: Address) {
    if |ticks| == 0 then true
    else
      var n := |ticks| - 1;
      var cp := Play(ticks[..n]).checkpoint;
      || (Heals(ticks[n].events, cp, ticks[n].limit, d) && Clean(ticks[..n], ticks[n].events, d))
      || (&& Undisturbed(ticks[..n], d) && GrewFor(d, EventsAt(ticks, n), ticks[n].events, cp)
          && !Disturbs(ticks[n].events, cp, ticks[n].limit, d))
  }

  /** Whatever happened before, a run that heals the delegator over clean tables starts anew. */
  lemma HealingRestarts(ticks: seq<Tick>, t: Tick, d: Address)
    requires Clean(ticks, t.events, d) && Heals(t.events, Play(ticks).checkpoint, t.limit, d)
    ensures Unharmed(ticks + [t], d) && Undisturbed(ticks + [t], d)
    ensures Unharmed([], d) && Undisturbed([], d)
  {
    assert (ticks + [t])[..|ticks|] == ticks;
  }

  /** Growth leaves what the tables hold current for the ids that were visible. */
  lemma GrowthKeeps(before: seq<Event>, after: seq<Event>, s: State, d: Address)
    requires GrewFor(d, before, after, s.checkpoint) && UpToDate(before, s, d)
    ensures UpToDate(after, s, d)
  {
    hide Keep, Replay, Stream, Concerns;
    var ids :| CurrentBelow(before, s, d, ids);
    var b, a := Stream(d, before), Stream(d, after);
    KeepKeep(a, Ids(b), ids);
    KeepCommutes(d, before, ids);
    KeepCommutes(d, after, Ids(b) * ids);
    KeepOnly(a, Ids(b));
    StreamOnly(d, before);
    StreamOnly(d, after);
    assert CurrentBelow(after, s, d, Ids(b) * ids);
  }

  lemma ExactIsUpToDate(events: seq<Event>, s: State, d: Address)
    requires Exact(events, s.tables, d)
    ensures UpToDate(events, s, d)
  {
    hide Exact, Current;
    AllIds(events, s.tables, d);
    assert CurrentBelow(events, s, d, Ids(events));
  }

  lemma UpToDateIsExact(events: seq<Event>, s: State, d: Address)
    requires UpToDate(events, s, d) && NothingPending(events, s.checkpoint, d)
    ensures Exact(events, s.tables, d)
  {
    hide Replay, Keep, Stream;
    var ids :| CurrentBelow(events, s, d, ids);
    KeptStream(d, events, ids);
  }

  lemma RunKeeps(events: seq<Event>, s: State, limit: nat, d: Address)
    requires FromTable(events) && UpToDate(events, s, d) && !Disturbs(events, s.checkpoint, limit, d)
    ensures UpToDate(events, Run(events, s, limit), d)
  {
    hide Current, Exact, AfterReplay, FullHistory, Grouped, Affected, Batch, Stream, OmitsHarmlessly, BlocksInOrder,
      DistinctIds;
    var ids :| CurrentBelow(events, s, d, ids);
    var batch := Batch(events, s.checkpoint, limit);
    var after := Run(events, s, limit);
    BatchAre(events, s.checkpoint, limit);
    if batch == {} {
      assert CurrentBelow(events, after, d, ids);
    } else {
      var who := Who(events, s.checkpoint, limit);
      if d in who {
        IncrementalIsScratch(events, s.tables, who, d, ids);
        ExactIsUpToDate(events, after, d);
      } else if d in Grouped(FullHistory(events, who)) {
        UpToDateIsExact(events, s, d);
        RunExactly(events, s.tables, who, d);
        ExactIsUpToDate(events, after, d);
      } else {
        UntouchedKeeps(events, s.tables, who, d, ids);
        NotAffected(events, batch, d);
        assert CurrentBelow(events, after, d, ids);
      }
    }
  }

  lemma StartUpToDate(d: Address)
    ensures UpToDate([], START, d)
  {
    NothingReplayed(d);
    assert CurrentBelow([], START, d, {});
  }

  /** An undisturbed delegator is up to date after every run, even while its own events are
      pending. */
  lemma {:induction false} ScheduleKeeps(ticks: seq<Tick>, d: Address)
    requires Tabled(ticks) && Undisturbed(ticks, d)
    ensures UpToDate(EventsAt(ticks, |ticks|), Play(ticks), d)
  {
    hide UpToDate, Run, Heals, Disturbs, GrewFor, FromTable, Clean;
    if |ticks| == 0 {
      StartUpToDate(d);
    } else {
      var n := |ticks| - 1;
      var before := Play(ticks[..n]);
      assert ticks[n] in ticks;
      if Heals(ticks[n].events, before.checkpoint, ticks[n].limit, d) && Clean(ticks[..n], ticks[n].events, d) {
        CleanIs(ticks[..n], ticks[n].events, d);
        HealingSettles(ticks[n].events, before, ticks[n].limit, d);
        ExactIsUpToDate(ticks[n].events, Play(ticks), d);
      } else {
        ScheduleKeeps(ticks[..n], d);
        assert EventsAt(ticks[..n], n) == EventsAt(ticks, n);
        GrowthKeeps(EventsAt(ticks, n), ticks[n].events, before, d);
        RunKeeps(ticks[n].events, before, ticks[n].limit, d);
      }
    }
  }
}
