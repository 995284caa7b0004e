/** The stake-flow worker: the tables and checkpoint it owns and the loops that group,
    replay and upsert (crates/livepeer-staker/src/flow.rs). */
module StakeFlowWorker {
  import opened Checkpoints
  import opened Wrappers
  import opened StakeFlow
  import opened StakeFlowRuns

  const FLOW_BATCH_SIZE: nat := 5000

  /** Every row sits under its own block. */
  predicate Keyed(rows: map<int, Row>) { forall b | b in rows :: rows[b].block == b }

  lemma {:induction false} ReplayKeyed(d: Address, events: seq<Event>)
    ensures Keyed(Replay(d, events).rows)
  {
    if |events| > 0 { ReplayKeyed(d, events[..|events| - 1]); }
  }

  /** The rows of a BTreeMap in key order. */
  method IntoValues(rows: map<int, Row>) returns (values: seq<Row>)
    requires Keyed(rows)
    ensures forall i, j | 0 <= i < j < |values| :: values[i].block < values[j].block
    ensures forall r :: r in values <==> r.block in rows && rows[r.block] == r
  {
    values := [];
    var keys: set<int> := rows.Keys;
    while keys != {}
      invariant keys <= rows.Keys
      invariant forall r | r in values, k | k in keys :: r.block < k
      invariant forall i, j | 0 <= i < j < |values| :: values[i].block < values[j].block
      invariant forall r :: r in values <==> r.block in rows && r.block !in keys && rows[r.block] == r
    {
      var k := Least(keys);
      keys := keys - {k};
      assert forall i | 0 <= i < |values| :: values[i] in values;
      values := values + [rows[k]];
    }
  }

  /** One delegator's replay. */
  method ReplayDelegator(d: Address, events: seq<Event>)
    returns (values: seq<Row>, registry: Option<Registry>, skipped: nat)
    ensures var s := Replay(d, events);
      && (forall i, j | 0 <= i < j < |values| :: values[i].block < values[j].block)
      && (forall r :: r in values <==> r.block in s.rows && s.rows[r.block] == r)
      && registry == RegistryOf(s) && skipped == s.skipped
  {
    var balance := 0;
    var delegate: Option<Address> := None;
    var registered := false;
    var firstBond: Option<Sighting> := None;
    var lastSeen: Option<Sighting> := None;
    var rows: map<int, Row> := map[];
    skipped := 0;
    for i := 0 to |events|
      invariant Replay(d, events[..i]) == Replayed(balance, delegate, registered, firstBond, lastSeen, rows, skipped)
    {
      var e := events[i];
      assert events[..i + 1][..i] == events[..i];
      var isFrom, isTo := e.from == Some(d), e.to == Some(d);
      var source := Flow;
      var write := true;
      match e.kind {
        case Bond =>
          if !isFrom { continue; }
          if !registered {
            registered := true;
            if firstBond.None? { firstBond := Some(Sighting(e.block, e.id)); }
          }
          balance := balance + Amount(e);
          if e.to.Some? { delegate := e.to; }
        case Unbond =>
          if !isFrom { continue; }
          if !registered { skipped := skipped + 1; continue; }
          balance := balance - Amount(e);
          if e.to.Some? { delegate := e.to; }
        case WithdrawStake =>
          if !isFrom { continue; }
          if !registered { skipped := skipped + 1; continue; }
        case Rebond =>
          if !isFrom { continue; }
          if !registered { skipped := skipped + 1; continue; }
          balance := balance + Amount(e);
          if e.to.Some? { delegate := e.to; }
        case EarningsClaimed =>
          if !isFrom { continue; }
          balance := balance + e.rewards;
          if e.to.Some? { delegate := e.to; }
          source := if registered then Flow else EarningsBootstrap;
        case TransferBond =>
          if isFrom && !isTo {
            if !registered { skipped := skipped + 1; continue; }
          } else if isTo {
            if !registered {
              registered := true;
              if firstBond.None? { firstBond := Some(Sighting(e.block, e.id)); }
            }
          } else {
            write := false;
          }
      }
      if write {
        rows := rows[e.block := Row(e.block, NameOf(delegate), balance, source, e.id)];
      }
      lastSeen := Some(Sighting(e.block, e.id));
    }
    assert events[..|events|] == events;
    ReplayKeyed(d, events);
    values := IntoValues(rows);
    registry := if registered && firstBond.Some? && lastSeen.Some?
                then Some(Registry(firstBond.value, lastSeen.value, balance > 0)) else None;
  }

  function Get(streams: map<Address, seq<Event>>, d: Address): seq<Event> { if d in streams then streams[d] else [] }

  /** The entry-and-push of one event under each of its delegators. */
  function PushTo(streams: map<Address, seq<Event>>, who: set<Address>, e: Event): map<Address, seq<Event>> {
    map d | d in streams.Keys + who :: if d in who then Get(streams, d) + [e] else streams[d]
  }

  lemma PushOne(streams: map<Address, seq<Event>>, who: set<Address>, d: Address, e: Event)
    requires d !in who
    ensures PushTo(streams, who, e)[d := Get(PushTo(streams, who, e), d) + [e]] == PushTo(streams, who + {d}, e)
  {
  }

  ghost predicate GroupedInto(history: seq<Event>, streams: map<Address, seq<Event>>) {
    streams.Keys == Grouped(history) && forall d :: Get(streams, d) == Stream(d, history)
  }

  lemma GroupNext(history: seq<Event>, streams: map<Address, seq<Event>>, e: Event)
    requires GroupedInto(history, streams)
    ensures GroupedInto(history + [e], PushTo(streams, Delegators(e), e))
  {
    hide Stream, Delegators, Grouped;
    var next := PushTo(streams, Delegators(e), e);
    var longer := history + [e];
    GroupedSnoc(history, e);
    forall d ensures Get(next, d) == Stream(d, longer) {
      StreamSnoc(d, history, e);
      assert Get(streams, d) == Stream(d, history) && Stream(d, history) + [] == Stream(d, history);
    }
  }

  lemma NothingGrouped()
    ensures GroupedInto([], map[])
  {
  }

  /** Each delegator's events; a lock transfer belongs to both sides. */
  method GroupByDelegator(history: seq<Event>) returns (streams: map<Address, seq<Event>>)
    ensures GroupedInto(history, streams)
  {
    hide GroupedInto, Delegators;
    streams := map[];
    NothingGrouped();
    for i := 0 to |history|
      invariant GroupedInto(history[..i], streams)
    {
      var e := history[i];
      ghost var before := streams;
      var todo := Delegators(e);
      assert PushTo(before, Delegators(e) - todo, e) == streams;
      while todo != {}
        invariant todo <= Delegators(e)
        invariant streams == PushTo(before, Delegators(e) - todo, e)
      {
        var d :| d in todo;
        PushOne(before, Delegators(e) - todo, d, e);
        assert Delegators(e) - (todo - {d}) == (Delegators(e) - todo) + {d};
        streams := streams[d := Get(streams, d) + [e]];
        todo := todo - {d};
      }
      assert Delegators(e) - todo == Delegators(e);
      GroupNext(history[..i], before, e);
      assert history[..i + 1] == history[..i] + [e];
    }
    assert history[..|history|] == history;
  }

  lemma GroupedSnoc(history: seq<Event>, e: Event)
    ensures Grouped(history + [e]) == Grouped(history) + Delegators(e)
  {
    var all := history + [e];
    assert forall x :: x in all <==> x in history || x == e;
    forall d ensures d in Grouped(all) <==> d in Grouped(history) + Delegators(e) {
      if d in Delegators(e) { assert e in all; }
      if d in Grouped(history) { var x :| x in history && d in Delegators(x); assert x in all; }
    }
  }

  function ByBlock(values: seq<Row>): map<int, Row> {
    if |values| == 0 then map[] else ByBlock(values[..|values| - 1])[values[|values| - 1].block := values[|values| - 1]]
  }

  lemma MergeRow(stored: map<int, Row>, written: map<int, Row>, row: Row)
    ensures (stored + written)[row.block := row] == stored + written[row.block := row]
  {
  }

  lemma {:induction false} ByBlockAre(values: seq<Row>)
    ensures forall b :: b in ByBlock(values) <==> exists r :: r in values && r.block == b
    ensures forall b | b in ByBlock(values) :: ByBlock(values)[b] in values && ByBlock(values)[b].block == b
  {
    if |values| > 0 {
      var n := |values| - 1;
      ByBlockAre(values[..n]);
      assert values == values[..n] + [values[n]];
    }
  }

  /** Writing all the rows of a map one by one writes the map. */
  lemma ByBlockIs(values: seq<Row>, rows: map<int, Row>)
    requires Keyed(rows) && forall r :: r in values <==> r.block in rows && rows[r.block] == r
    ensures ByBlock(values) == rows
  {
    hide ByBlock;
    ByBlockAre(values);
    var written := ByBlock(values);
    forall b ensures b in written <==> b in rows {
      if b in rows { assert rows[b] in values; }
    }
    assert written.Keys == rows.Keys;
    forall b | b in written ensures written[b] == rows[b] {}
    assert written == rows;
  }

  class Worker {
    var events: seq<Event>
    var tables: Tables
    var checkpoint: Option<int>

    constructor ()
      ensures events == [] && State(tables, checkpoint) == START
    {
      events, tables, checkpoint := [], Tables(map[], map[]), None;
    }

    method UpsertStakeRow(d: Address, row: Row)
      modifies this`tables
      ensures tables == old(tables).(stake := old(tables).stake[d := StakeOf(old(tables), d)[row.block := row]])
    {
      tables := tables.(stake := tables.stake[d := StakeOf(tables, d)[row.block := row]]);
    }

    /** Upsert the rows of a replay one by one. */
    method UpsertRows(d: Address, values: seq<Row>, ghost rows: map<int, Row>)
      requires forall r :: r in values <==> r.block in rows && rows[r.block] == r
      requires Keyed(rows)
      modifies this`tables
      ensures tables == old(tables).(stake := old(tables).stake[d := StakeOf(old(tables), d) + rows])
    {
      ghost var stored := StakeOf(tables, d);
      assert stored + ByBlock(values[..0]) == stored;
      tables := tables.(stake := tables.stake[d := StakeOf(tables, d)]);
      for i := 0 to |values|
        invariant tables == old(tables).(stake := old(tables).stake[d := stored + ByBlock(values[..i])])
      {
        assert values[..i + 1][..i] == values[..i];
        MergeRow(stored, ByBlock(values[..i]), values[i]);
        UpsertStakeRow(d, values[i]);
      }
      assert values[..|values|] == values;
      ByBlockIs(values, rows);
    }

    /** Replay one grouped delegator and upsert what it comes to. */
    method ReplayAndUpsert(d: Address, stream: seq<Event>)
      modifies this`tables
      ensures tables == Upserted(old(tables), d, Replay(d, stream))
    {
      hide Replay, RegistryOf;
      var values, registry, skipped := ReplayDelegator(d, stream);
      ReplayKeyed(d, stream);
      UpsertRows(d, values, Replay(d, stream).rows);
      if registry.Some? { tables := tables.(registry := tables.registry[d := registry.value]); }
    }

    method RunFlowBackfill()
      modifies this`tables, this`checkpoint
      ensures State(tables, checkpoint) == Run(events, State(old(tables), old(checkpoint)), 5000)
    {
      hide Replay, Stream, Batch, FullHistory, Grouped, Affected, ReplayAll;
      var newEvents := Batch(events, checkpoint, FLOW_BATCH_SIZE);
      if newEvents == {} {
        checkpoint := AdvanceCheckpoint(checkpoint, if checkpoint.Some? then checkpoint.value else 0);
        return;
      }
      var affected := Affected(events, newEvents);
      var maxEventId := Largest(newEvents);
      var history := FullHistory(events, affected);
      var streams := GroupByDelegator(history);
      var todo := streams.Keys;
      ghost var before := tables;
      NothingDone(before, history);
      while todo != {}
        invariant todo <= streams.Keys
        invariant checkpoint == old(checkpoint) && tables == ReplayAll(before, history, streams.Keys - todo)
      {
        var d :| d in todo;
        ReplayOneMore(before, history, streams.Keys - todo, d);
        assert Get(streams, d) == Stream(d, history);
        ReplayAndUpsert(d, streams[d]);
        assert streams.Keys - (todo - {d}) == (streams.Keys - todo) + {d};
        todo := todo - {d};
      }
      assert streams.Keys - todo == streams.Keys;
      checkpoint := AdvanceCheckpoint(checkpoint, maxEventId);
    }
  }

  lemma NothingDone(t: Tables, history: seq<Event>)
    ensures forall all: set<Address> :: ReplayAll(t, history, all - all) == t
  {
    assert forall all: set<Address> :: all - all == {};
    assert ReplayAll(t, history, {}) == t;
  }

  /** Delegators are independent: one more upsert extends the set replayed. */
  lemma ReplayOneMore(t: Tables, history: seq<Event>, done: set<Address>, d: Address)
    requires d !in done
    ensures Upserted(ReplayAll(t, history, done), d, Replay(d, Stream(d, history))) == ReplayAll(t, history, done + {d})
  {
    hide Replay, Stream, RegistryOf, ReplayAll;
    StakeOneMore(t, history, done, d);
    RegistryOneMore(t, history, done, d);
  }

  lemma StakeOneMore(t: Tables, history: seq<Event>, done: set<Address>, d: Address)
    requires d !in done
    ensures var before := ReplayAll(t, history, done);
      before.stake[d := StakeOf(before, d) + Replay(d, Stream(d, history)).rows] ==
        ReplayAll(t, history, done + {d}).stake
  {
    hide Replay, Stream, RegistryOf;
  }

  lemma RegistryOneMore(t: Tables, history: seq<Event>, done: set<Address>, d: Address)
    requires d !in done
    ensures var before, r := ReplayAll(t, history, done), RegistryOf(Replay(d, Stream(d, history)));
      (if r.Some? then before.registry[d := r.value] else before.registry) == ReplayAll(t, history, done + {d}).registry
  {
    hide Replay, Stream, RegistryOf;
  }
}
