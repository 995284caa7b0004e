/** The ticket rollup worker itself: the tables and checkpoints it owns, and the loops
    that fold a batch, upsert it and repair the keys a reorg touched
    (crates/livepeer-rollups/src/tickets.rs). */
module TicketsRollup {
  import opened Sets
  import opened Checkpoints
  import opened ReorgQueue
  import opened Wrappers
  import opened Tickets

  datatype Summary = Summary(eventsSeen: nat, rowsWritten: nat, groupsTouched: nat, checkpointEventId: Option<int>)

  function TicketIds(events: seq<Event>): set<int> { set e | e in events && e.isTicket :: e.id }

  // ---------------------------------------------------------------------------
  // Loop states
  // ---------------------------------------------------------------------------

  ghost predicate BatchFolded(cfg: Config, events: seq<Event>, rows: seq<Row>, aggregates: map<Key, Aggregate>) {
    && aggregates.Keys == KeysOf(rows)
    && forall k | k in aggregates :: aggregates[k] == BatchAggregate(cfg, events, rows, k)
  }

  ghost predicate SeenParties(rows: seq<Row>, seen: set<(Key, Address)>, who: Party) {
    forall k, a :: (k, a) in seen <==> a in Names(rows, k, who)
  }

  function FoldRow(agg: Aggregate, row: Row, newGateway: bool, newOrchestrator: bool): Aggregate {
    Aggregate(agg.ticketCount + 1,
              agg.distinctOrchestrators + (if newOrchestrator then 1 else 0),
              agg.distinctGateways + (if newGateway then 1 else 0),
              Max(agg.sourceMaxEventId, row.id))
  }

  predicate NewParty(cfg: Config, events: seq<Event>, rows: seq<Row>, row: Row, who: Party) {
    Name(row, who) !in Names(rows, row.key, who) && !PriorSeen(cfg, events, row, who)
  }

  function FoldInto(cfg: Config, events: seq<Event>, rows: seq<Row>, row: Row,
                    aggregates: map<Key, Aggregate>): Aggregate {
    FoldRow(if row.key in aggregates then aggregates[row.key] else Aggregate(0, 0, 0, 0), row,
            NewParty(cfg, events, rows, row, Gateway), NewParty(cfg, events, rows, row, Orchestrator))
  }

  /** Folding one more row keeps the per-key batch aggregates exact. */
  lemma FoldOneRow(cfg: Config, events: seq<Event>, rows: seq<Row>, row: Row, aggregates: map<Key, Aggregate>)
    requires BatchFolded(cfg, events, rows, aggregates)
    ensures BatchFolded(cfg, events, rows + [row], aggregates[row.key := FoldInto(cfg, events, rows, row, aggregates)])
  {
    hide BatchAggregate, FoldRow, NewParty;
    KeysConcat(rows, [row]);
    if row.key !in KeysOf(rows) {
      EmptyAggregate(cfg, events, rows, row.key);
    }
    OwnKeyFolded(cfg, events, rows, row);
    forall k | k in KeysOf(rows) && k != row.key
      ensures BatchAggregate(cfg, events, rows + [row], k) == BatchAggregate(cfg, events, rows, k)
    {
      OtherKeyFolded(cfg, events, rows, row, k);
    }
  }

  lemma EmptyAggregate(cfg: Config, events: seq<Event>, rows: seq<Row>, key: Key)
    requires key !in KeysOf(rows)
    ensures BatchAggregate(cfg, events, rows, key) == Aggregate(0, 0, 0, 0)
  {
    NoGroup(rows, key);
    NobodyCounted(cfg, events, rows, key, Gateway);
    NobodyCounted(cfg, events, rows, key, Orchestrator);
  }

  lemma OwnKeyFolded(cfg: Config, events: seq<Event>, rows: seq<Row>, row: Row)
    ensures BatchAggregate(cfg, events, rows + [row], row.key) ==
      FoldRow(BatchAggregate(cfg, events, rows, row.key), row,
              NewParty(cfg, events, rows, row, Gateway), NewParty(cfg, events, rows, row, Orchestrator))
  {
    hide Counted, NewParty;
    OneMoreRow(rows, row, row.key);
    MaxIdSnoc(Group(rows, row.key), row);
    PartySize(cfg, events, rows, row, Gateway);
    PartySize(cfg, events, rows, row, Orchestrator);
  }

  lemma OtherKeyFolded(cfg: Config, events: seq<Event>, rows: seq<Row>, row: Row, key: Key)
    requires row.key != key
    ensures BatchAggregate(cfg, events, rows + [row], key) == BatchAggregate(cfg, events, rows, key)
  {
    OneMoreRow(rows, row, key);
    assert Group(rows, key) + [] == Group(rows, key);
    OtherKeyCounted(cfg, events, rows, row, key, Gateway);
    OtherKeyCounted(cfg, events, rows, row, key, Orchestrator);
  }

  lemma MaxIdSnoc(rows: seq<Row>, row: Row)
    ensures MaxId(rows + [row]) == Max(MaxId(rows), row.id)
  {
    assert (rows + [row])[..|rows|] == rows;
  }

  lemma PartySize(cfg: Config, events: seq<Event>, rows: seq<Row>, row: Row, who: Party)
    ensures |Counted(cfg, events, rows + [row], row.key, who)| ==
      |Counted(cfg, events, rows, row.key, who)| + if NewParty(cfg, events, rows, row, who) then 1 else 0
  {
    OneMoreCounted(cfg, events, rows, row, who);
    CountedAreNamed(cfg, events, rows, row.key, who);
  }

  lemma {:induction false} CountedAreNamed(cfg: Config, events: seq<Event>, rows: seq<Row>, key: Key, who: Party)
    ensures Counted(cfg, events, rows, key, who) <= Names(rows, key, who)
  {
    if |rows| > 0 {
      var n := |rows| - 1;
      CountedAreNamed(cfg, events, rows[..n], key, who);
      assert rows == rows[..n] + [rows[n]];
      NamesConcat(rows[..n], [rows[n]], key, who);
    }
  }

  lemma NobodyCounted(cfg: Config, events: seq<Event>, rows: seq<Row>, key: Key, who: Party)
    requires key !in KeysOf(rows)
    ensures Counted(cfg, events, rows, key, who) == {}
  {
    CountedAreNamed(cfg, events, rows, key, who);
    assert Names(rows, key, who) == {};
  }

  lemma OtherKeyCounted(cfg: Config, events: seq<Event>, rows: seq<Row>, row: Row, key: Key, who: Party)
    requires row.key != key
    ensures Counted(cfg, events, rows + [row], key, who) == Counted(cfg, events, rows, key, who)
  {
    assert (rows + [row])[..|rows|] == rows;
  }

  lemma SeenOneMore(rows: seq<Row>, row: Row, seen: set<(Key, Address)>, who: Party)
    requires SeenParties(rows, seen, who)
    ensures SeenParties(rows + [row], seen + {(row.key, Name(row, who))}, who)
  {
    forall k, a
      ensures (k, a) in seen + {(row.key, Name(row, who))} <==> a in Names(rows + [row], k, who)
    {
      NamesConcat(rows, [row], k, who);
      assert Names([row], k, who) == if k == row.key then {Name(row, who)} else {};
    }
  }

  /** The table when the aggregates of some keys have been upserted. */
  function Merged(daily: map<Key, Aggregate>, aggregates: map<Key, Aggregate>, done: set<Key>): map<Key, Aggregate>
    requires done <= aggregates.Keys
  {
    map k | k in daily.Keys + done ::
      if k !in done then daily[k]
      else if k in daily then Add(daily[k], aggregates[k])
      else aggregates[k]
  }

  lemma AtLeastOne(cfg: Config, events: seq<Event>, rows: seq<Row>, key: Key)
    requires key in KeysOf(rows)
    ensures BatchAggregate(cfg, events, rows, key).ticketCount >= 1
  {
    TotalOfAbsentKey(rows, key);
  }

  function Parties(rows: seq<Row>, who: Party): set<Address> { set r | r in rows :: Name(r, who) }

  lemma NoParties()
    ensures Parties([], Gateway) == Parties([], Orchestrator) == {} && MaxId([]) == 0
  {
  }

  lemma PartiesSnoc(rows: seq<Row>, row: Row, who: Party)
    ensures Parties(rows + [row], who) == Parties(rows, who) + {Name(row, who)}
  {
  }

  /** The parties of a key are the parties of its rows. */
  lemma NamesOfGroup(rows: seq<Row>, key: Key, who: Party)
    ensures Names(rows, key, who) == Parties(Group(rows, key), who)
  {
    GroupMembers(rows, key);
  }

  class Worker {
    const cfg: Config
    var events: seq<Event>
    var mutations: seq<Mutation>
    var daily: map<Key, Aggregate>
    var checkpoint: Option<int>
    var reorgCheckpoint: Option<int>

    constructor (cfg: Config)
      ensures this.cfg == cfg && events == [] && mutations == [] && daily == map[]
      ensures checkpoint == reorgCheckpoint == None
      ensures Valid()
    {
      this.cfg := cfg;
      events, mutations, daily := [], [], map[];
      checkpoint, reorgCheckpoint := None, None;
    }

    predicate Valid()
      reads this
    {
      EventsInOrder(events)
    }

    /** One pass: repair the mutated keys, then consume one batch. */
    method RunOnce(limit: nat) returns (s: Summary)
      requires Valid()
      modifies this`daily, this`checkpoint, this`reorgCheckpoint
      ensures var ids := EventIds(Pending(TicketIds(events), mutations, old(reorgCheckpoint)));
        State(daily, checkpoint) == Pass(cfg, events, State(old(daily), old(checkpoint)), ids, limit)
      ensures reorgCheckpoint ==
        NextReorgCheckpoint(old(reorgCheckpoint), Pending(TicketIds(events), mutations, old(reorgCheckpoint)))
      ensures s.eventsSeen == BatchEnd(cfg, events, old(checkpoint), limit) - Position(cfg, events, old(checkpoint))
      ensures s.checkpointEventId == if s.eventsSeen == 0 then old(checkpoint) else checkpoint
      ensures s.groupsTouched == |KeysOf(
          View(cfg, events)[Position(cfg, events, old(checkpoint))..BatchEnd(cfg, events, old(checkpoint), limit)])|
      ensures var ids := EventIds(Pending(TicketIds(events), mutations, old(reorgCheckpoint)));
        var keys := RepairKeys(cfg, events, old(daily), ids);
        s.rowsWritten == Written(keys, Repair(cfg, events, old(daily), keys)) + s.groupsTouched
    {
      hide View, Repair, RepairKeys, Pending, Fetch, Run, Position, BatchEnd, ApplyBatch, Merged, Written, KeysOf,
        BatchFolded, TicketIds, EventIds, NextReorgCheckpoint;
      var reorgRowsWritten := ProcessReorgMutations();
      ViewRows(cfg, events);
      var rows := Fetch(View(cfg, events), checkpoint, limit);
      ghost var before := daily;
      RunIs(cfg, events, State(daily, checkpoint), limit);
      if |rows| == 0 {
        s := Summary(0, reorgRowsWritten, 0, checkpoint);
        checkpoint := AdvanceCheckpoint(checkpoint, if checkpoint.Some? then checkpoint.value else 0);
        NothingApplied(cfg, events, daily);
        NoKeys();
        return;
      }
      var aggregates, maxEventId := FoldBatch(rows);
      UpsertAll(aggregates);
      MergedAll(cfg, events, before, rows, aggregates);
      KeysTouched(cfg, events, rows, aggregates);
      checkpoint := AdvanceCheckpoint(checkpoint, maxEventId);
      s := Summary(|rows|, reorgRowsWritten + |aggregates|, |aggregates|, Some(maxEventId));
    }

    /** Upsert every aggregate of the batch, in whatever order the hash map yields. */
    method UpsertAll(aggregates: map<Key, Aggregate>)
      modifies this`daily
      ensures daily == Merged(old(daily), aggregates, aggregates.Keys)
    {
      var keys := aggregates.Keys;
      while keys != {}
        invariant keys <= aggregates.Keys
        invariant daily == Merged(old(daily), aggregates, aggregates.Keys - keys)
      {
        var key :| key in keys;
        ghost var done := aggregates.Keys - keys;
        MergeOne(old(daily), aggregates, done, key);
        daily := Upsert(daily, key, aggregates[key]);
        keys := keys - {key};
        assert aggregates.Keys - keys == done + {key};
      }
      assert aggregates.Keys - {} == aggregates.Keys;
    }

    /** The batch loop: per-key aggregates, with the two seen-sets and the anti-join. */
    method FoldBatch(rows: seq<Row>) returns (aggregates: map<Key, Aggregate>, maxEventId: int)
      requires RowsInOrder(rows)
      ensures BatchFolded(cfg, events, rows, aggregates)
      ensures var start := if checkpoint.Some? then checkpoint.value else 0;
        maxEventId == if |rows| == 0 then start else Max(start, rows[|rows| - 1].id)
    {
      hide PriorSeen, BatchFolded, SeenParties, Counted, Names;
      aggregates := map[];
      var seenGateways: set<(Key, Address)> := {};
      var seenOrchestrators: set<(Key, Address)> := {};
      ghost var start := if checkpoint.Some? then checkpoint.value else 0;
      maxEventId := if checkpoint.Some? then checkpoint.value else 0;
      NothingFolded(cfg, events);
      for i := 0 to |rows|
        invariant BatchFolded(cfg, events, rows[..i], aggregates)
        invariant SeenParties(rows[..i], seenGateways, Gateway)
        invariant SeenParties(rows[..i], seenOrchestrators, Orchestrator)
        invariant maxEventId == if i == 0 then start else Max(start, rows[i - 1].id)
      {
        var row := rows[i];
        var key := row.key;
        var agg := if key in aggregates then aggregates[key] else Aggregate(0, 0, 0, 0);
        agg := agg.(ticketCount := agg.ticketCount + 1);
        SeenIsNamed(rows[..i], row, seenGateways, Gateway);
        SeenIsNamed(rows[..i], row, seenOrchestrators, Orchestrator);
        if (key, row.gateway) !in seenGateways && !PriorSeen(cfg, events, row, Gateway) {
          agg := agg.(distinctGateways := agg.distinctGateways + 1);
        }
        if (key, row.orchestrator) !in seenOrchestrators && !PriorSeen(cfg, events, row, Orchestrator) {
          agg := agg.(distinctOrchestrators := agg.distinctOrchestrators + 1);
        }
        agg := agg.(sourceMaxEventId := Max(agg.sourceMaxEventId, row.id));
        FoldOneRow(cfg, events, rows[..i], row, aggregates);
        SeenOneMore(rows[..i], row, seenGateways, Gateway);
        SeenOneMore(rows[..i], row, seenOrchestrators, Orchestrator);
        assert rows[..i + 1] == rows[..i] + [row];
        seenGateways := seenGateways + {(key, row.gateway)};
        seenOrchestrators := seenOrchestrators + {(key, row.orchestrator)};
        aggregates := aggregates[key := agg];
        maxEventId := Max(maxEventId, row.id);
      }
      assert rows[..|rows|] == rows;
    }

    /** Rebuild every key an unprocessed mutation may have changed. */
    method ProcessReorgMutations() returns (rowsWritten: nat)
      requires Valid()
      modifies this`daily, this`reorgCheckpoint
      ensures var ids := EventIds(Pending(TicketIds(events), mutations, old(reorgCheckpoint)));
        var keys := RepairKeys(cfg, events, old(daily), ids);
        daily == Repair(cfg, events, old(daily), keys) && rowsWritten == Written(keys, daily)
      ensures reorgCheckpoint ==
        NextReorgCheckpoint(old(reorgCheckpoint), Pending(TicketIds(events), mutations, old(reorgCheckpoint)))
    {
      hide View, Repair, RepairKeys, Written;
      var rows := Pending(TicketIds(events), mutations, reorgCheckpoint);
      rowsWritten := 0;
      NoneWritten(daily);
      if |rows| == 0 {
        RepairNothing(cfg, events, daily);
        assert EventIds(rows) == {};
        return;
      }
      var keys, maxMutationId := CollectKeys(rows);
      rowsWritten := RepairAll(keys);
      reorgCheckpoint := AdvanceCheckpoint(reorgCheckpoint, maxMutationId);
    }

    method CollectKeys(rows: seq<Mutation>) returns (keys: set<Key>, maxMutationId: int)
      ensures keys == RepairKeys(cfg, events, daily, EventIds(rows))
      ensures maxMutationId == LargestMutation(rows, if reorgCheckpoint.Some? then reorgCheckpoint.value else 0)
    {
      keys := {};
      ghost var start := if reorgCheckpoint.Some? then reorgCheckpoint.value else 0;
      maxMutationId := if reorgCheckpoint.Some? then reorgCheckpoint.value else 0;
      RepairNothing(cfg, events, daily);
      assert EventIds([]) == {};
      for i := 0 to |rows|
        invariant keys == RepairKeys(cfg, events, daily, EventIds(rows[..i]))
        invariant maxMutationId == LargestMutation(rows[..i], start)
      {
        assert rows[..i + 1][..i] == rows[..i];
        var id := rows[i].eventId;
        maxMutationId := Max(maxMutationId, rows[i].id);
        RepairKeysOneMore(cfg, events, daily, EventIds(rows[..i]), id);
        OneMoreId(rows, i);
        keys := keys + LoadExistingCandidateKeys(id) + LoadCurrentEventKeys(id);
      }
      assert rows[..|rows|] == rows;
    }

    /** Rebuild, replace or delete each key. */
    method RepairAll(todo: set<Key>) returns (rowsWritten: nat)
      modifies this`daily
      ensures daily == Repair(cfg, events, old(daily), todo) && rowsWritten == Written(todo, daily)
    {
      hide View, Repair, Total, Written;
      rowsWritten := 0;
      NoneWritten(daily);
      var keys := todo;
      RepairNothing(cfg, events, daily);
      assert todo - keys == {};
      while keys != {}
        invariant keys <= todo
        invariant daily == Repair(cfg, events, old(daily), todo - keys)
        invariant rowsWritten == Written(todo - keys, daily)
      {
        var key :| key in keys;
        ghost var done, before := todo - keys, daily;
        RepairOne(cfg, events, old(daily), done, key);
        var aggregate := RebuildAggregateForKey(key);
        match aggregate {
          case Some(total) =>
            daily := daily[key := total];
            rowsWritten := rowsWritten + 1;
          case None =>
            daily := map k | k in daily && k != key :: daily[k];
        }
        WrittenOne(done, before, daily, key, aggregate);
        keys := keys - {key};
        assert todo - keys == done + {key};
      }
      assert todo - keys == todo;
    }

    /** Table rows whose largest event id reaches the mutated one. */
    function LoadExistingCandidateKeys(id: int): set<Key>
      reads this
    {
      set k | k in daily && daily[k].sourceMaxEventId >= id
    }

    /** The key the mutated event has now, if it is visible. */
    function LoadCurrentEventKeys(id: int): set<Key>
      reads this
    {
      set e | e in events && Visible(cfg, e) && e.id == id :: KeyOf(cfg, e)
    }

    /** The one-shot aggregate of a key over every visible row, whatever the checkpoint. */
    method RebuildAggregateForKey(key: Key) returns (r: Option<Aggregate>)
      ensures r.None? <==> key !in KeysOf(View(cfg, events))
      ensures r.Some? ==> r.value == Total(View(cfg, events), key)
    {
      hide View, Group, MaxId, Parties, Names;
      var rows := View(cfg, events);
      var sourceRows := Group(rows, key);
      TotalOfAbsentKey(rows, key);
      if |sourceRows| == 0 {
        return None;
      }
      var aggregate := Aggregate(0, 0, 0, 0);
      var gateways: set<Address> := {};
      var orchestrators: set<Address> := {};
      assert sourceRows[..0] == [];
      NoParties();
      for i := 0 to |sourceRows|
        invariant gateways == Parties(sourceRows[..i], Gateway)
        invariant orchestrators == Parties(sourceRows[..i], Orchestrator)
        invariant aggregate == Aggregate(i, |orchestrators|, |gateways|, MaxId(sourceRows[..i]))
      {
        var row := sourceRows[i];
        assert sourceRows[..i + 1] == sourceRows[..i] + [row];
        MaxIdSnoc(sourceRows[..i], row);
        PartiesSnoc(sourceRows[..i], row, Gateway);
        PartiesSnoc(sourceRows[..i], row, Orchestrator);
        aggregate := aggregate.(ticketCount := aggregate.ticketCount + 1,
                                sourceMaxEventId := Max(aggregate.sourceMaxEventId, row.id));
        if row.gateway !in gateways {
          gateways := gateways + {row.gateway};
          aggregate := aggregate.(distinctGateways := aggregate.distinctGateways + 1);
        } else {
          assert gateways + {row.gateway} == gateways;
        }
        if row.orchestrator !in orchestrators {
          orchestrators := orchestrators + {row.orchestrator};
          aggregate := aggregate.(distinctOrchestrators := aggregate.distinctOrchestrators + 1);
        } else {
          assert orchestrators + {row.orchestrator} == orchestrators;
        }
      }
      assert sourceRows[..|sourceRows|] == sourceRows;
      NamesOfGroup(rows, key, Gateway);
      NamesOfGroup(rows, key, Orchestrator);
      return Some(aggregate);
    }
  }

  // ---------------------------------------------------------------------------
  // Glue between the loops and the one-step functions
  // ---------------------------------------------------------------------------

  lemma NothingFolded(cfg: Config, events: seq<Event>)
    ensures BatchFolded(cfg, events, [], map[])
    ensures SeenParties([], {}, Gateway) && SeenParties([], {}, Orchestrator)
  {
  }

  lemma SeenIsNamed(rows: seq<Row>, row: Row, seen: set<(Key, Address)>, who: Party)
    requires SeenParties(rows, seen, who)
    ensures (row.key, Name(row, who)) in seen <==> Name(row, who) in Names(rows, row.key, who)
  {
  }

  lemma MergeOne(daily: map<Key, Aggregate>, aggregates: map<Key, Aggregate>, done: set<Key>, key: Key)
    requires done <= aggregates.Keys && key in aggregates && key !in done
    ensures Upsert(Merged(daily, aggregates, done), key, aggregates[key]) == Merged(daily, aggregates, done + {key})
  {
  }

  lemma MergedAll(cfg: Config, events: seq<Event>, daily: map<Key, Aggregate>, rows: seq<Row>,
                  aggregates: map<Key, Aggregate>)
    requires BatchFolded(cfg, events, rows, aggregates)
    ensures Merged(daily, aggregates, aggregates.Keys) == ApplyBatch(cfg, events, daily, rows)
  {
    hide BatchAggregate;
  }

  /** A run applies the fetched batch. */
  lemma RunIs(cfg: Config, events: seq<Event>, s: State, limit: nat)
    requires EventsInOrder(events) && RowsInOrder(View(cfg, events))
    ensures var batch := Fetch(View(cfg, events), s.checkpoint, limit);
      && Run(cfg, events, s, limit) ==
        State(ApplyBatch(cfg, events, s.daily, batch), NextCheckpoint(s.checkpoint, batch))
      && batch ==
        View(cfg, events)[Position(cfg, events, s.checkpoint)..BatchEnd(cfg, events, s.checkpoint, limit)]
  {
    hide View, ApplyBatch;
  }

  lemma KeysTouched(cfg: Config, events: seq<Event>, rows: seq<Row>, aggregates: map<Key, Aggregate>)
    requires BatchFolded(cfg, events, rows, aggregates)
    ensures |aggregates| == |KeysOf(rows)|
  {
    assert |aggregates| == |aggregates.Keys|;
  }

  lemma NoKeys()
    ensures |KeysOf([])| == 0
  {
    assert KeysOf([]) == {};
  }

  lemma NothingApplied(cfg: Config, events: seq<Event>, daily: map<Key, Aggregate>)
    ensures ApplyBatch(cfg, events, daily, []) == daily
  {
  }

  /** How many of the keys have a row in the table. */
  function Written(keys: set<Key>, daily: map<Key, Aggregate>): nat { |keys * daily.Keys| }

  lemma NoneWritten(daily: map<Key, Aggregate>)
    ensures Written({}, daily) == 0
  {
  }

  lemma WrittenOne(done: set<Key>, before: map<Key, Aggregate>, after: map<Key, Aggregate>, key: Key,
                   aggregate: Option<Aggregate>)
    requires key !in done
    requires after == match aggregate
      case Some(total) => before[key := total]
      case None => map k | k in before && k != key :: before[k]
    ensures Written(done + {key}, after) == Written(done, before) + if aggregate.Some? then 1 else 0
  {
    OneMoreKey(done, before.Keys, after.Keys, key, aggregate.Some?);
  }

  lemma RepairNothing(cfg: Config, events: seq<Event>, daily: map<Key, Aggregate>)
    ensures RepairKeys(cfg, events, daily, {}) == {}
    ensures Repair(cfg, events, daily, {}) == daily
  {
  }

  lemma RepairKeysOneMore(cfg: Config, events: seq<Event>, daily: map<Key, Aggregate>, ids: set<int>, id: int)
    ensures RepairKeys(cfg, events, daily, ids + {id}) ==
      RepairKeys(cfg, events, daily, ids)
      + (set k | k in daily && daily[k].sourceMaxEventId >= id)
      + (set e | e in events && Visible(cfg, e) && e.id == id :: KeyOf(cfg, e))
  {
    hide Visible, KeyOf;
  }

  lemma RepairOne(cfg: Config, events: seq<Event>, daily: map<Key, Aggregate>, done: set<Key>, key: Key)
    ensures var rows := View(cfg, events);
      var now := Repair(cfg, events, daily, done);
      Repair(cfg, events, daily, done + {key}) ==
      if key in KeysOf(rows) then now[key := Total(rows, key)] else map k | k in now && k != key :: now[k]
  {
    hide View, Total;
  }
}
