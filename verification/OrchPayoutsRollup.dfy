/** The payout rollup worker: the reorg repair, the batch loop, the additive upserts and the
    one-shot rebuild of a key (crates/livepeer-rollups/src/orch_payouts.rs). */
module OrchPayoutsRollup {
  import opened Sets
  import opened Checkpoints
  import opened ReorgQueue
  import opened Wrappers
  import opened OrchPayouts
  import opened OrchPayoutsPasses

  const NO_AGGREGATE: Aggregate := Aggregate(NO_MONEY, 0)

  // ---------------------------------------------------------------------------
  // Loop states
  // ---------------------------------------------------------------------------

  ghost predicate BatchFolded(shares: Shares, ledger: seq<Row>, rows: seq<Row>, aggregates: map<Key, Aggregate>) {
    && aggregates.Keys == KeysOf(rows)
    && forall k | k in aggregates :: aggregates[k] == BatchAggregate(shares, ledger, rows, k)
  }

  ghost predicate SeenGateways(rows: seq<Row>, seen: set<(Key, Option<Address>)>) {
    forall k, g :: (k, g) in seen <==> g in Gateways(rows, k)
  }

  function FoldRow(shares: Shares, agg: Aggregate, r: Row, isNew: bool): Aggregate {
    Aggregate(Plus(agg.money, OfRow(shares, r)), agg.distinctGateways + if isNew then 1 else 0)
  }

  lemma {:induction false} CountedAreGateways(ledger: seq<Row>, rows: seq<Row>, key: Key)
    ensures Counted(ledger, rows, key) <= Gateways(rows, key)
  {
    if |rows| > 0 {
      hide Counted, Gateways, NewGateway;
      var n := |rows| - 1;
      CountedAreGateways(ledger, rows[..n], key);
      CountedSnoc(ledger, rows[..n], rows[n], key);
      assert rows == rows[..n] + [rows[n]];
    } else {
      assert rows == [];
    }
  }

  lemma EmptyAggregate(shares: Shares, ledger: seq<Row>, rows: seq<Row>, key: Key)
    requires key !in KeysOf(rows)
    ensures BatchAggregate(shares, ledger, rows, key) == NO_AGGREGATE
  {
    NoGroup(rows, key);
    CountedAreGateways(ledger, rows, key);
  }

  lemma OwnKeyFolded(shares: Shares, ledger: seq<Row>, rows: seq<Row>, r: Row)
    ensures BatchAggregate(shares, ledger, rows + [r], r.key) ==
      FoldRow(shares, BatchAggregate(shares, ledger, rows, r.key), r, NewGateway(ledger, rows, r))
  {
    hide Counted, Gateways, NewGateway, Sum, Group, Plus, OfRow;
    GroupSnoc(rows, r, r.key);
    SumSnoc(shares, Group(rows, r.key), r);
    CountedSnoc(ledger, rows, r, r.key);
    CountedAreGateways(ledger, rows, r.key);
    NewGatewayIs(ledger, rows, r);
    if NewGateway(ledger, rows, r) { assert r.gateway !in Counted(ledger, rows, r.key); }
  }

  lemma OtherKeyFolded(shares: Shares, ledger: seq<Row>, rows: seq<Row>, r: Row, key: Key)
    requires r.key != key
    ensures BatchAggregate(shares, ledger, rows + [r], key) == BatchAggregate(shares, ledger, rows, key)
  {
    hide Counted, Gateways, NewGateway, Sum, Group;
    GroupSnoc(rows, r, key);
    CountedSnoc(ledger, rows, r, key);
    assert Group(rows, key) + [] == Group(rows, key);
  }

  /** Folding one more row keeps the per-key batch aggregates exact. */
  lemma FoldOneRow(shares: Shares, ledger: seq<Row>, rows: seq<Row>, r: Row, aggregates: map<Key, Aggregate>)
    requires BatchFolded(shares, ledger, rows, aggregates)
    ensures var agg := if r.key in aggregates then aggregates[r.key] else NO_AGGREGATE;
      BatchFolded(shares, ledger, rows + [r], aggregates[r.key := FoldRow(shares, agg, r, NewGateway(ledger, rows, r))])
  {
    hide BatchAggregate, FoldRow, NewGateway;
    assert KeysOf(rows + [r]) == KeysOf(rows) + {r.key};
    if r.key !in KeysOf(rows) { EmptyAggregate(shares, ledger, rows, r.key); }
    OwnKeyFolded(shares, ledger, rows, r);
    forall k | k in KeysOf(rows) && k != r.key
      ensures BatchAggregate(shares, ledger, rows + [r], k) == BatchAggregate(shares, ledger, rows, k)
    {
      OtherKeyFolded(shares, ledger, rows, r, k);
    }
  }

  lemma NothingFolded(shares: Shares, ledger: seq<Row>)
    ensures BatchFolded(shares, ledger, [], map[]) && SeenGateways([], {})
  {
  }

  lemma SeenOneMore(rows: seq<Row>, r: Row, seen: set<(Key, Option<Address>)>)
    requires SeenGateways(rows, seen)
    ensures SeenGateways(rows + [r], seen + {(r.key, r.gateway)})
  {
    hide Gateways;
    forall k, g ensures (k, g) in seen + {(r.key, r.gateway)} <==> g in Gateways(rows + [r], k) {
      GatewaysSnoc(rows, r, k);
    }
  }

  lemma GatewaysSnoc(rows: seq<Row>, r: Row, key: Key)
    ensures Gateways(rows + [r], key) == Gateways(rows, key) + if r.key == key then {r.gateway} else {}
  {
    CountedSnoc([], rows, r, key);
  }

  /** The table when the aggregates of some keys have been upserted. */
  function Merged(daily: map<Key, Aggregate>, aggregates: map<Key, Aggregate>, done: set<Key>): map<Key, Aggregate>
    requires done <= aggregates.Keys
  {
    map k | k in daily.Keys + done ::
      if k !in done then daily[k] else if k in daily then Add(daily[k], aggregates[k]) else aggregates[k]
  }

  lemma MergeOne(daily: map<Key, Aggregate>, aggregates: map<Key, Aggregate>, done: set<Key>, key: Key)
    requires done <= aggregates.Keys && key in aggregates && key !in done
    ensures var now := Merged(daily, aggregates, done);
      now[key := if key in now then Add(now[key], aggregates[key]) else aggregates[key]] ==
        Merged(daily, aggregates, done + {key})
  {
  }

  lemma MergedAll(shares: Shares, ledger: seq<Row>, daily: map<Key, Aggregate>, rows: seq<Row>,
                  aggregates: map<Key, Aggregate>)
    requires BatchFolded(shares, ledger, rows, aggregates)
    ensures Merged(daily, aggregates, aggregates.Keys) == ApplyBatch(shares, ledger, daily, rows)
  {
    hide BatchAggregate;
  }

  // ---------------------------------------------------------------------------
  // The worker
  // ---------------------------------------------------------------------------

  class Worker {
    var ledger: seq<Row>
    var raw: Orchestrators
    var mutations: seq<Mutation>
    var shares: Shares
    var daily: map<Key, Aggregate>
    var checkpoint: Option<int>
    var reorgCheckpoint: Option<int>
    var cache: Shares

    predicate Valid()
      reads this
    {
      && Ledger(ledger)
      && (forall o | o in shares :: InOrder(shares[o]))
      && (forall o | o in cache :: cache[o] == if o in shares then shares[o] else [])
    }

    constructor ()
      ensures Valid() && State(daily, checkpoint) == START && reorgCheckpoint == None
    {
      ledger, raw, mutations, shares, cache := [], map[], [], map[], map[];
      daily, checkpoint, reorgCheckpoint := map[], None, None;
    }

    /** The share at a ticket's position, loading an orchestrator's updates at most once. */
    method FeeShareAt(r: Row) returns (share: real)
      requires Valid()
      modifies this`cache
      ensures Valid() && share == ShareOf(shares, r)
    {
      var o := r.key.orchestrator;
      if o !in cache { cache := cache[o := if o in shares then shares[o] else []]; }
      share := FeeShareRawAtBlock(cache[o], r.block, r.logIndex);
    }

    /** One row's contribution, split by the share in force. */
    method Split(money: Money, r: Row) returns (after: Money)
      requires Valid()
      modifies this`cache
      ensures Valid() && after == Plus(money, OfRow(shares, r))
    {
      hide ShareOf, Valid, Commission;
      var share := FeeShareAt(r);
      var commissionNative := Commission(r.faceNative, share);
      var delegatorsNative := r.faceNative - commissionNative;
      after := money.(tickets := money.tickets + 1,
                      faceNative := money.faceNative + r.faceNative,
                      commissionNative := money.commissionNative + commissionNative,
                      delegatorsNative := money.delegatorsNative + delegatorsNative);
      if r.faceUsd.Some? {
        var commissionUsd := Commission(r.faceUsd.value, share);
        var delegatorsUsd := r.faceUsd.value - commissionUsd;
        after := after.(faceUsd := after.faceUsd + r.faceUsd.value,
                        commissionUsd := after.commissionUsd + commissionUsd,
                        delegatorsUsd := after.delegatorsUsd + delegatorsUsd,
                        usdPriced := after.usdPriced + 1);
      }
      after := after.(maxId := Max(after.maxId, r.id));
    }

    method FoldBatch(rows: seq<Row>) returns (aggregates: map<Key, Aggregate>, maxEventId: int)
      requires Valid() && IdsInOrder(rows)
      modifies this`cache
      ensures Valid() && BatchFolded(shares, ledger, rows, aggregates)
      ensures Some(maxEventId) == if |rows| == 0 then Some(if checkpoint.Some? then checkpoint.value else 0)
                                  else Some(Max(if checkpoint.Some? then checkpoint.value else 0, rows[|rows| - 1].id))
    {
      hide BatchFolded, SeenGateways, Plus, OfRow, PriorSeen, Ledger;
      aggregates := map[];
      var seen: set<(Key, Option<Address>)> := {};
      ghost var start := if checkpoint.Some? then checkpoint.value else 0;
      maxEventId := if checkpoint.Some? then checkpoint.value else 0;
      NothingFolded(shares, ledger);
      for i := 0 to |rows|
        invariant Valid()
        invariant BatchFolded(shares, ledger, rows[..i], aggregates)
        invariant SeenGateways(rows[..i], seen)
        invariant maxEventId == if i == 0 then start else Max(start, rows[i - 1].id)
      {
        var r := rows[i];
        var agg := if r.key in aggregates then aggregates[r.key] else NO_AGGREGATE;
        SeenIs(rows[..i], seen, r);
        var money := Split(agg.money, r);
        var increment := if (r.key, r.gateway) in seen then 0 else if PriorSeen(ledger, r) then 0 else 1;
        NewGatewayIs(ledger, rows[..i], r);
        FoldOneRow(shares, ledger, rows[..i], r, aggregates);
        SeenOneMore(rows[..i], r, seen);
        assert rows[..i + 1] == rows[..i] + [r];
        seen := seen + {(r.key, r.gateway)};
        aggregates := aggregates[r.key := Aggregate(money, agg.distinctGateways + increment)];
        maxEventId := Max(maxEventId, r.id);
      }
      assert rows[..|rows|] == rows;
    }

    method UpsertAll(aggregates: map<Key, Aggregate>)
      modifies this`daily
      ensures daily == Merged(old(daily), aggregates, aggregates.Keys)
    {
      hide Add;
      var keys := aggregates.Keys;
      while keys != {}
        invariant keys <= aggregates.Keys
        invariant daily == Merged(old(daily), aggregates, aggregates.Keys - keys)
      {
        var key :| key in keys;
        MergeOne(old(daily), aggregates, aggregates.Keys - keys, key);
        daily := daily[key := if key in daily then Add(daily[key], aggregates[key]) else aggregates[key]];
        assert aggregates.Keys - (keys - {key}) == (aggregates.Keys - keys) + {key};
        keys := keys - {key};
      }
      assert aggregates.Keys - keys == aggregates.Keys;
    }

    /** One pass: repair the mutated keys, then consume the next batch. */
    method RunOnce(limit: nat) returns (eventsSeen: nat)
      requires Valid() && IdsInOrder(View(ledger))
      modifies this`daily, this`checkpoint, this`reorgCheckpoint, this`cache
      ensures var ids := EventIds(Pending(raw.Keys, mutations, old(reorgCheckpoint)));
        State(daily, checkpoint) == Pass(shares, ledger, raw, State(old(daily), old(checkpoint)), ids, limit)
      ensures reorgCheckpoint ==
        NextReorgCheckpoint(old(reorgCheckpoint), Pending(raw.Keys, mutations, old(reorgCheckpoint)))
      ensures eventsSeen == BatchEnd(View(ledger), old(checkpoint), limit) - Position(View(ledger), old(checkpoint))
    {
      hide View, BatchFolded, ApplyBatch, Merged, Position, BatchEnd, Repair, RepairKeys, Pending,
        NextReorgCheckpoint, Written;
      cache := map[];
      var reorgRowsWritten := ProcessReorgMutations();
      var all := View(ledger);
      var rows := all[Position(all, checkpoint)..BatchEnd(all, checkpoint, limit)];
      eventsSeen := |rows|;
      if |rows| == 0 {
        NothingApplied(shares, ledger, daily);
        checkpoint := AdvanceCheckpoint(checkpoint, if checkpoint.Some? then checkpoint.value else 0);
        return;
      }
      var aggregates, maxEventId := FoldBatch(rows);
      MergedAll(shares, ledger, daily, rows, aggregates);
      UpsertAll(aggregates);
      checkpoint := AdvanceCheckpoint(checkpoint, maxEventId);
    }

    /** Rebuild every key an unprocessed mutation may have changed. */
    method ProcessReorgMutations() returns (rowsWritten: nat)
      requires Valid()
      modifies this`daily, this`reorgCheckpoint, this`cache
      ensures Valid()
      ensures var ids := EventIds(Pending(raw.Keys, mutations, old(reorgCheckpoint)));
        var keys := RepairKeys(ledger, raw, old(daily), ids);
        daily == Repair(shares, ledger, old(daily), keys) && rowsWritten == Written(keys, daily)
      ensures reorgCheckpoint ==
        NextReorgCheckpoint(old(reorgCheckpoint), Pending(raw.Keys, mutations, old(reorgCheckpoint)))
    {
      hide View, Repair, RepairKeys, Ledger, Written;
      var rows := Pending(raw.Keys, mutations, reorgCheckpoint);
      rowsWritten := 0;
      NoneWritten(daily);
      if |rows| == 0 {
        RepairNothing(shares, ledger, raw, daily);
        assert EventIds(rows) == {};
        return;
      }
      PendingAre(raw.Keys, mutations, reorgCheckpoint);
      var keys, maxMutationId := CollectKeys(rows);
      rowsWritten := RepairAll(keys);
      reorgCheckpoint := AdvanceCheckpoint(reorgCheckpoint, maxMutationId);
    }

    method CollectKeys(rows: seq<Mutation>) returns (keys: set<Key>, maxMutationId: int)
      requires forall m | m in rows :: m.eventId in raw
      ensures keys == RepairKeys(ledger, raw, daily, EventIds(rows))
      ensures maxMutationId == LargestMutation(rows, if reorgCheckpoint.Some? then reorgCheckpoint.value else 0)
    {
      hide RepairKeys;
      keys := {};
      ghost var start := if reorgCheckpoint.Some? then reorgCheckpoint.value else 0;
      maxMutationId := if reorgCheckpoint.Some? then reorgCheckpoint.value else 0;
      RepairNothing(map[], ledger, raw, daily);
      assert EventIds([]) == {};
      for i := 0 to |rows|
        invariant keys == RepairKeys(ledger, raw, daily, EventIds(rows[..i]))
        invariant maxMutationId == LargestMutation(rows[..i], start)
      {
        assert rows[..i + 1][..i] == rows[..i];
        var id := rows[i].eventId;
        maxMutationId := Max(maxMutationId, rows[i].id);
        RepairKeysOneMore(ledger, raw, daily, EventIds(rows[..i]), id);
        OneMoreId(rows, i);
        keys := keys + LoadExistingCandidateKeys(raw[id], id) + LoadCurrentEventKeys(id);
      }
      assert rows[..|rows|] == rows;
    }

    /** Table rows of the orchestrator whose largest event id reaches the mutated one. */
    function LoadExistingCandidateKeys(orchestrator: Address, id: int): set<Key>
      reads this
    {
      set k | k in daily && k.orchestrator == orchestrator && daily[k].money.maxId >= id
    }

    /** The keys of the mutated event's visible rows, with or without a gateway. */
    function LoadCurrentEventKeys(id: int): set<Key>
      reads this
    {
      set r | r in ledger && r.canonical && r.visible && r.id == id :: r.key
    }

    /** Rebuild, replace or delete each key, in whatever order the hash set yields. */
    method RepairAll(todo: set<Key>) returns (rowsWritten: nat)
      requires Valid()
      modifies this`daily, this`cache
      ensures Valid() && daily == Repair(shares, ledger, old(daily), todo) && rowsWritten == Written(todo, daily)
    {
      hide View, Repair, Total, Ledger, Written;
      rowsWritten := 0;
      NoneWritten(daily);
      var keys := todo;
      RepairNothing(shares, ledger, raw, daily);
      assert todo - keys == {};
      while keys != {}
        invariant Valid() && keys <= todo
        invariant daily == Repair(shares, ledger, old(daily), todo - keys)
        invariant rowsWritten == Written(todo - keys, daily)
      {
        var key :| key in keys;
        ghost var done, before := todo - keys, daily;
        RepairOne(shares, ledger, old(daily), done, key);
        var aggregate := RebuildAggregateForKey(key);
        match aggregate {
          case Some(total) =>
            daily := daily[key := total];
            rowsWritten := rowsWritten + 1;
          case None =>
            daily := map k | k in daily && k != key :: daily[k];
        }
        WrittenOne(done, before, daily, key, aggregate);
        keys := keys - {key};
        assert todo - keys == done + {key};
      }
      assert todo - keys == todo;
    }

    /** The rebuild of one key, whatever the checkpoint. */
    method RebuildAggregateForKey(key: Key) returns (r: Option<Aggregate>)
      requires Valid()
      modifies this`cache
      ensures Valid()
      ensures r.None? <==> key !in KeysOf(View(ledger))
      ensures r.Some? ==> r.value == Total(shares, View(ledger), key)
    {
      hide View, Sum, Plus, OfRow, Group, Gateways, Valid;
      var rows := View(ledger);
      var sourceRows := Group(rows, key);
      NoGroup(rows, key);
      if |sourceRows| == 0 { return None; }
      var money := NO_MONEY;
      var gateways: set<Option<Address>> := {};
      var distinct := 0;
      SumOfNone(shares);
      assert sourceRows[..0] == [] && GatewaysOf([]) == {};
      for i := 0 to |sourceRows|
        invariant Valid() && money == Sum(shares, sourceRows[..i])
        invariant gateways == GatewaysOf(sourceRows[..i]) && distinct == |gateways|
      {
        var row := sourceRows[i];
        assert sourceRows[..i + 1] == sourceRows[..i] + [row];
        SumSnoc(shares, sourceRows[..i], row);
        money := Split(money, row);
        assert GatewaysOf(sourceRows[..i] + [row]) == GatewaysOf(sourceRows[..i]) + {row.gateway};
        if row.gateway !in gateways { distinct := distinct + 1; } else { assert gateways + {row.gateway} == gateways; }
        gateways := gateways + {row.gateway};
      }
      assert sourceRows[..|sourceRows|] == sourceRows;
      GatewaysOfGroup(rows, key);
      return Some(Aggregate(money, distinct));
    }
  }

  function GatewaysOf(rows: seq<Row>): set<Option<Address>> { set r | r in rows :: r.gateway }

  lemma GatewaysOfGroup(rows: seq<Row>, key: Key)
    ensures GatewaysOf(Group(rows, key)) == Gateways(rows, key)
  {
    GroupMembers(rows, key);
  }

  lemma SeenIs(rows: seq<Row>, seen: set<(Key, Option<Address>)>, r: Row)
    requires SeenGateways(rows, seen)
    ensures (r.key, r.gateway) in seen <==> r.gateway in Gateways(rows, r.key)
  {
  }

  lemma NothingApplied(shares: Shares, ledger: seq<Row>, daily: map<Key, Aggregate>)
    ensures ApplyBatch(shares, ledger, daily, []) == daily
  {
  }

  /** How many of the keys have a row in the table. */
  function Written(keys: set<Key>, daily: map<Key, Aggregate>): nat { |keys * daily.Keys| }

  lemma NoneWritten(daily: map<Key, Aggregate>)
    ensures Written({}, daily) == 0
  {
  }

  lemma WrittenOne(done: set<Key>, before: map<Key, Aggregate>, after: map<Key, Aggregate>, key: Key,
                   aggregate: Option<Aggregate>)
    requires key !in done
    requires after == match aggregate
      case Some(total) => before[key := total]
      case None => map k | k in before && k != key :: before[k]
    ensures Written(done + {key}, after) == Written(done, before) + if aggregate.Some? then 1 else 0
  {
    OneMoreKey(done, before.Keys, after.Keys, key, aggregate.Some?);
  }

  lemma RepairNothing(shares: Shares, ledger: seq<Row>, raw: Orchestrators, daily: map<Key, Aggregate>)
    ensures RepairKeys(ledger, raw, daily, {}) == {}
    ensures Repair(shares, ledger, daily, {}) == daily
  {
  }

  lemma RepairKeysOneMore(ledger: seq<Row>, raw: Orchestrators, daily: map<Key, Aggregate>, ids: set<int>, id: int)
    requires id in raw
    ensures RepairKeys(ledger, raw, daily, ids + {id}) ==
      RepairKeys(ledger, raw, daily, ids)
      + (set k | k in daily && k.orchestrator == raw[id] && daily[k].money.maxId >= id)
      + (set r | r in ledger && r.canonical && r.visible && r.id == id :: r.key)
  {
    CandidatesOneMore(raw, daily, ids, id);
    CurrentOneMore(ledger, ids, id);
  }

  lemma CandidatesOneMore(raw: Orchestrators, daily: map<Key, Aggregate>, ids: set<int>, id: int)
    requires id in raw
    ensures Candidates(raw, daily, ids + {id}) ==
      Candidates(raw, daily, ids) + (set k | k in daily && k.orchestrator == raw[id] && daily[k].money.maxId >= id)
  {
  }

  lemma CurrentOneMore(ledger: seq<Row>, ids: set<int>, id: int)
    ensures CurrentKeys(ledger, ids + {id}) ==
      CurrentKeys(ledger, ids) + (set r | r in ledger && r.canonical && r.visible && r.id == id :: r.key)
  {
  }

  lemma RepairOne(shares: Shares, ledger: seq<Row>, daily: map<Key, Aggregate>, done: set<Key>, key: Key)
    ensures var rows := View(ledger);
      var now := Repair(shares, ledger, daily, done);
      Repair(shares, ledger, daily, done + {key}) ==
      if key in KeysOf(rows) then now[key := Total(shares, rows, key)] else map k | k in now && k != key :: now[k]
  {
    hide View, Total;
  }
}
