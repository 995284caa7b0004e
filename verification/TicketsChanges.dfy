/** The ticket rollup over a raw table that changes at or below the checkpoint
    (crates/livepeer-rollups/src/tickets.rs): tickets that become visible late, tickets a
    reorg orphans, and the repairs the mutation queue does or does not ask for. */
module TicketsChanges {
  import opened Checkpoints
  import opened SortedRows
  import opened Wrappers
  import opened Tickets
  import opened TicketsSchedules

  /** The rows the checkpoint covers. */
  function Covered(cfg: Config, events: seq<Event>, cp: Option<int>): seq<Row>
    requires EventsInOrder(events)
  {
    View(cfg, events)[..Position(cfg, events, cp)]
  }

  // ---------------------------------------------------------------------------
  // A repair after any change
  // ---------------------------------------------------------------------------

  /** Every key the repair does not rebuild has the right table row already. */
  ghost predicate RestRight(cfg: Config, events: seq<Event>, s: State, keys: set<Key>)
    requires EventsInOrder(events)
  {
    forall k: Key :: k !in keys ==> Agree(s.daily, Build(Covered(cfg, events, s.checkpoint)), k)
  }

  /** Whatever happened to the raw table, a repair restores the rebuild of the covered rows
      if and only if every key it rebuilds was fully consumed and the others were right. */
  lemma RepairAfterExactly(cfg: Config, events: seq<Event>, s: State, ids: set<int>)
    requires EventsInOrder(events)
    ensures var keys := RepairKeys(cfg, events, s.daily, ids);
      Faithful(cfg, events, s.(daily := Repair(cfg, events, s.daily, keys))) <==>
      RepairsConsumed(cfg, events, s, ids) && RestRight(cfg, events, s, keys)
  {
    hide View, Position, RepairKeys, Repair, Build, Agree;
    var keys := RepairKeys(cfg, events, s.daily, ids);
    var p := Position(cfg, events, s.checkpoint);
    var rows := View(cfg, events);
    var repaired, wanted := Repair(cfg, events, s.daily, keys), Build(rows[..p]);
    forall k | k !in keys ensures Agree(repaired, wanted, k) <==> Agree(s.daily, wanted, k) {
      NotRebuilt(cfg, events, s.daily, keys, k);
      SameEntry(repaired, s.daily, wanted, k);
    }
    forall k | k in keys ensures Agree(repaired, wanted, k) <==> k !in KeysOf(rows[p..]) {
      RebuiltAgrees(cfg, events, s.daily, keys, p, k);
    }
    RestKeys(rows, p, keys);
    if repaired == wanted {
      forall k ensures Agree(repaired, wanted, k) { SameAgrees(wanted, k); }
    } else if RepairsConsumed(cfg, events, s, ids) && RestRight(cfg, events, s, keys) {
      AgreeEverywhere(repaired, wanted);
    }
  }

  lemma NotRebuilt(cfg: Config, events: seq<Event>, daily: map<Key, Aggregate>, keys: set<Key>, k: Key)
    requires k !in keys
    ensures Agree(Repair(cfg, events, daily, keys), daily, k)
  {
    hide View, Total;
  }

  lemma SameEntry(a: map<Key, Aggregate>, b: map<Key, Aggregate>, c: map<Key, Aggregate>, k: Key)
    requires Agree(a, b, k)
    ensures Agree(a, c, k) <==> Agree(b, c, k)
  {
  }

  lemma RestKeys(rows: seq<Row>, p: nat, keys: set<Key>)
    requires p <= |rows|
    ensures (forall i | p <= i < |rows| :: rows[i].key !in keys) <==> forall k | k in keys :: k !in KeysOf(rows[p..])
  {
    var rest := rows[p..];
    forall i | p <= i < |rows| ensures rows[i].key in KeysOf(rest) { assert rest[i - p] == rows[i]; }
    forall k | k in KeysOf(rest) ensures exists i :: p <= i < |rows| && rows[i].key == k {
      var j :| 0 <= j < |rest| && rest[j].key == k;
      assert rows[p + j].key == k;
    }
  }

  // ---------------------------------------------------------------------------
  // One-sided changes: rows only come, or only go
  // ---------------------------------------------------------------------------

  /** Rows with increasing ids that lie within others are fewer, unless they are the same. */
  lemma FewerRows(a: seq<Row>, b: seq<Row>)
    requires RowsInOrder(a) && RowsInOrder(b) && Within(a, b)
    ensures |a| <= |b| && (|a| == |b| ==> a == b)
  {
    FewerWithin(a, b, (r: Row) => r.id);
  }

  lemma {:induction false} GroupInOrder(rows: seq<Row>, key: Key)
    requires RowsInOrder(rows)
    ensures RowsInOrder(Group(rows, key))
  {
    if |rows| > 0 {
      var n := |rows| - 1;
      GroupInOrder(rows[..n], key);
      GroupMembers(rows[..n], key);
      var rest := Group(rows[..n], key);
      forall i | 0 <= i < |rest| ensures rest[i].id < rows[n].id {
        assert rest[i] in rest;
        var j :| 0 <= j < n && rows[j] == rest[i];
      }
    }
  }

  lemma GroupsWithin(a: seq<Row>, b: seq<Row>, key: Key)
    requires RowsInOrder(a) && RowsInOrder(b) && OneSided(a, b)
    ensures |Group(a, key)| == |Group(b, key)| <==> Group(a, key) == Group(b, key)
  {
    GroupInOrder(a, key);
    GroupInOrder(b, key);
    GroupMembers(a, key);
    GroupMembers(b, key);
    hide Group, RowsInOrder;
    if Within(a, b) {
      FewerRows(Group(a, key), Group(b, key));
    } else {
      FewerRows(Group(b, key), Group(a, key));
    }
  }

  /** Rows that agree in every group are the same rows. */
  lemma GroupsDecide(a: seq<Row>, b: seq<Row>)
    requires RowsInOrder(a) && RowsInOrder(b) && forall k: Key :: Group(a, k) == Group(b, k)
    ensures a == b
  {
    hide RowsInOrder;
    SameGroupsWithin(a, b);
    SameGroupsWithin(b, a);
    FewerRows(a, b);
    FewerRows(b, a);
  }

  lemma SameGroupsWithin(a: seq<Row>, b: seq<Row>)
    requires forall k: Key :: Group(a, k) == Group(b, k)
    ensures Within(a, b)
  {
    forall r | r in a ensures r in b {
      GroupMembers(a, r.key);
      GroupMembers(b, r.key);
      assert r in Group(a, r.key);
    }
  }

  lemma CoveredInOrder(cfg: Config, events: seq<Event>, cp: Option<int>)
    requires EventsInOrder(events)
    ensures RowsInOrder(Covered(cfg, events, cp))
    ensures forall r :: r in Covered(cfg, events, cp) <==> r in View(cfg, events) && cp.Some? && r.id <= cp.value
  {
    ViewRows(cfg, events);
    hide View, EventsInOrder;
    var rows := View(cfg, events);
    var p := Position(cfg, events, cp);
    forall r | r in rows && cp.Some? && r.id <= cp.value ensures r in rows[..p] {
      var i :| 0 <= i < |rows| && rows[i] == r;
      assert rows[..p][i] == r;
    }
  }

  /** A one-sided change of the view is one of the covered rows. */
  lemma CoveredOneSided(cfg: Config, before: seq<Event>, after: seq<Event>, cp: Option<int>)
    requires EventsInOrder(before) && EventsInOrder(after) && OneSided(View(cfg, before), View(cfg, after))
    ensures OneSided(Covered(cfg, before, cp), Covered(cfg, after, cp))
  {
    hide View, Covered;
    CoveredInOrder(cfg, before, cp);
    CoveredInOrder(cfg, after, cp);
  }

  // ---------------------------------------------------------------------------
  // The gap between the table and the covered rows
  // ---------------------------------------------------------------------------

  function Count(daily: map<Key, Aggregate>, key: Key): nat { if key in daily then daily[key].ticketCount else 0 }

  /** The covered tickets of a key the table does not count; negative when it counts more. */
  function Gap(cfg: Config, events: seq<Event>, s: State, key: Key): int
    requires EventsInOrder(events)
  {
    |Group(Covered(cfg, events, s.checkpoint), key)| - Count(s.daily, key)
  }

  lemma FaithfulHasNoGap(cfg: Config, events: seq<Event>, s: State, key: Key)
    requires EventsInOrder(events) && Faithful(cfg, events, s)
    ensures Gap(cfg, events, s, key) == 0
  {
    hide View, Position;
    TotalOfAbsentKey(Covered(cfg, events, s.checkpoint), key);
  }

  /** A pass that does not rebuild a key leaves its gap as it is, whatever it fetches. */
  lemma PassKeepsGap(cfg: Config, events: seq<Event>, s: State, ids: set<int>, limit: nat, key: Key)
    requires EventsInOrder(events) && key !in RepairKeys(cfg, events, s.daily, ids)
    ensures Gap(cfg, events, Pass(cfg, events, s, ids, limit), key) == Gap(cfg, events, s, key)
  {
    hide View, RepairKeys, EventsInOrder, Position, BatchEnd;
    var keys := RepairKeys(cfg, events, s.daily, ids);
    var repaired := s.(daily := Repair(cfg, events, s.daily, keys));
    NotRebuilt(cfg, events, s.daily, keys, key);
    hide Repair;
    RunKeepsGap(cfg, events, repaired, limit, key);
  }

  lemma RunKeepsGap(cfg: Config, events: seq<Event>, s: State, limit: nat, key: Key)
    requires EventsInOrder(events)
    ensures Gap(cfg, events, Run(cfg, events, s, limit), key) == Gap(cfg, events, s, key)
  {
    hide View, EventsInOrder;
    var rows := View(cfg, events);
    var p, q := Position(cfg, events, s.checkpoint), BatchEnd(cfg, events, s.checkpoint, limit);
    PositionAfterRun(cfg, events, s, limit);
    assert rows[..q] == rows[..p] + rows[p..q];
    GroupConcat(rows[..p], rows[p..q], key);
    CountAfterBatch(cfg, events, s.daily, rows[p..q], key);
    hide Position, BatchEnd, Group, ApplyBatch;
  }

  lemma CountAfterBatch(cfg: Config, events: seq<Event>, daily: map<Key, Aggregate>, batch: seq<Row>, key: Key)
    ensures Count(ApplyBatch(cfg, events, daily, batch), key) == Count(daily, key) + |Group(batch, key)|
  {
    TotalOfAbsentKey(batch, key);
    hide Group, Counted, MaxId;
  }

  // ---------------------------------------------------------------------------
  // One pass after a one-sided change
  // ---------------------------------------------------------------------------

  /** A table that was right is still right after rows came or went if and only if none did
      at or below the checkpoint. */
  lemma ChangeExactly(cfg: Config, before: seq<Event>, after: seq<Event>, s: State)
    requires EventsInOrder(before) && EventsInOrder(after) && OneSided(View(cfg, before), View(cfg, after))
    requires Faithful(cfg, before, s)
    ensures Faithful(cfg, after, s) <==> Covered(cfg, before, s.checkpoint) == Covered(cfg, after, s.checkpoint)
  {
    CoveredOneSided(cfg, before, after, s.checkpoint);
    CoveredInOrder(cfg, before, s.checkpoint);
    CoveredInOrder(cfg, after, s.checkpoint);
    hide View, Position, EventsInOrder, OneSided, RowsInOrder;
    var b, a := Covered(cfg, before, s.checkpoint), Covered(cfg, after, s.checkpoint);
    if Faithful(cfg, after, s) {
      forall k: Key ensures Group(b, k) == Group(a, k) {
        FaithfulHasNoGap(cfg, before, s, k);
        FaithfulHasNoGap(cfg, after, s, k);
        GroupsWithin(b, a, k);
      }
      GroupsDecide(b, a);
    }
  }

  /** No key the pass leaves alone gained or lost a covered row. */
  ghost predicate RestUnchanged(cfg: Config, before: seq<Event>, after: seq<Event>, cp: Option<int>, keys: set<Key>)
    requires EventsInOrder(before) && EventsInOrder(after)
  {
    forall k: Key :: k !in keys ==> Group(Covered(cfg, before, cp), k) == Group(Covered(cfg, after, cp), k)
  }

  /** Rows came or went anywhere, and the queue named some ids, not necessarily those: the
      pass leaves the table right if and only if every key it rebuilds was fully consumed,
      no other key gained or lost a covered row, and no fetched row is suppressed. */
  lemma ChangedPassExactly(cfg: Config, before: seq<Event>, after: seq<Event>, s: State, queued: set<int>, limit: nat)
    requires EventsInOrder(before) && EventsInOrder(after) && OneSided(View(cfg, before), View(cfg, after))
    requires Faithful(cfg, before, s)
    ensures Faithful(cfg, after, Pass(cfg, after, s, queued, limit)) <==>
      && RepairsConsumed(cfg, after, s, queued)
      && RestUnchanged(cfg, before, after, s.checkpoint, RepairKeys(cfg, after, s.daily, queued))
      && NoneSuppressed(cfg, after, Position(cfg, after, s.checkpoint), BatchEnd(cfg, after, s.checkpoint, limit))
  {
    hide View, Position, BatchEnd, EventsInOrder, RepairKeys, Repair, Run, NoneSuppressed, Agree, Faithful, OneSided;
    var keys := RepairKeys(cfg, after, s.daily, queued);
    var repaired := s.(daily := Repair(cfg, after, s.daily, keys));
    if !RepairsConsumed(cfg, after, s, queued) {
      var rows := View(cfg, after);
      var i :| Position(cfg, after, s.checkpoint) <= i < |rows| && rows[i].key in keys;
      CountedAgain(cfg, after, s, keys, limit, i);
    } else if RestUnchanged(cfg, before, after, s.checkpoint, keys) {
      RestStaysRight(cfg, before, after, s, keys);
      RepairAfterExactly(cfg, after, s, queued);
      RunExactly(cfg, after, repaired, limit);
    } else {
      var k :| k !in keys
        && Group(Covered(cfg, before, s.checkpoint), k) != Group(Covered(cfg, after, s.checkpoint), k);
      ChangedKeyHasGap(cfg, before, after, s, k);
      PassKeepsGap(cfg, after, s, queued, limit, k);
      var next := Pass(cfg, after, s, queued, limit);
      if Faithful(cfg, after, next) { FaithfulHasNoGap(cfg, after, next, k); }
    }
  }

  lemma ChangedKeyHasGap(cfg: Config, before: seq<Event>, after: seq<Event>, s: State, k: Key)
    requires EventsInOrder(before) && EventsInOrder(after) && OneSided(View(cfg, before), View(cfg, after))
    requires Faithful(cfg, before, s)
    requires Group(Covered(cfg, before, s.checkpoint), k) != Group(Covered(cfg, after, s.checkpoint), k)
    ensures Gap(cfg, after, s, k) != 0
  {
    CoveredOneSided(cfg, before, after, s.checkpoint);
    CoveredInOrder(cfg, before, s.checkpoint);
    CoveredInOrder(cfg, after, s.checkpoint);
    hide View, Position, EventsInOrder, OneSided, RowsInOrder, Faithful, Covered;
    FaithfulHasNoGap(cfg, before, s, k);
    GroupsWithin(Covered(cfg, before, s.checkpoint), Covered(cfg, after, s.checkpoint), k);
  }

  lemma RestStaysRight(cfg: Config, before: seq<Event>, after: seq<Event>, s: State, keys: set<Key>)
    requires EventsInOrder(before) && EventsInOrder(after) && Faithful(cfg, before, s)
    requires RestUnchanged(cfg, before, after, s.checkpoint, keys)
    ensures RestRight(cfg, after, s, keys)
  {
    hide View, Position, EventsInOrder, Total, Group;
    var b, a := Covered(cfg, before, s.checkpoint), Covered(cfg, after, s.checkpoint);
    forall k: Key | k !in keys ensures Agree(s.daily, Build(a), k) { TotalByGroup(b, a, k); }
  }

  /** With nothing queued, as no writer of the queue exists, a change costs the table its
      rightness exactly when it reaches at or below the checkpoint. */
  lemma UnqueuedExactly(cfg: Config, before: seq<Event>, after: seq<Event>, s: State, limit: nat)
    requires EventsInOrder(before) && EventsInOrder(after) && OneSided(View(cfg, before), View(cfg, after))
    requires Faithful(cfg, before, s)
    ensures Faithful(cfg, after, Pass(cfg, after, s, {}, limit)) <==>
      && Covered(cfg, before, s.checkpoint) == Covered(cfg, after, s.checkpoint)
      && NoneSuppressed(cfg, after, Position(cfg, after, s.checkpoint), BatchEnd(cfg, after, s.checkpoint, limit))
  {
    hide View, Position, BatchEnd, EventsInOrder, OneSided, Faithful, Pass, NoneSuppressed, Covered, RestUnchanged;
    NothingToRepair(cfg, after, s.daily);
    ChangedPassExactly(cfg, before, after, s, {}, limit);
    RestOfNone(cfg, before, after, s.checkpoint);
  }

  lemma RestOfNone(cfg: Config, before: seq<Event>, after: seq<Event>, cp: Option<int>)
    requires EventsInOrder(before) && EventsInOrder(after)
    ensures RestUnchanged(cfg, before, after, cp, {}) <==> Covered(cfg, before, cp) == Covered(cfg, after, cp)
  {
    CoveredInOrder(cfg, before, cp);
    CoveredInOrder(cfg, after, cp);
    hide Covered, EventsInOrder, RowsInOrder;
    var b, a := Covered(cfg, before, cp), Covered(cfg, after, cp);
    if RestUnchanged(cfg, before, after, cp, {}) {
      forall k: Key ensures Group(b, k) == Group(a, k) {}
      GroupsDecide(b, a);
    }
  }

  lemma NothingToRepair(cfg: Config, events: seq<Event>, daily: map<Key, Aggregate>)
    ensures RepairKeys(cfg, events, daily, {}) == {}
  {
  }

  // ---------------------------------------------------------------------------
  // Any schedule
  // ---------------------------------------------------------------------------

  /** One pass over the raw table as it is then, with the mutations queued by then. */
  datatype Turn = Turn(events: seq<Event>, queued: set<int>, limit: nat)

  predicate TurnsInOrder(turns: seq<Turn>) { forall t | t in turns :: EventsInOrder(t.events) }

  function PlayTurns(cfg: Config, s: State, turns: seq<Turn>): State
    requires TurnsInOrder(turns)
  {
    if |turns| == 0 then s
    else
      var n := |turns| - 1;
      Pass(cfg, turns[n].events, PlayTurns(cfg, s, turns[..n]), turns[n].queued, turns[n].limit)
  }

  function EventsThen(events: seq<Event>, turns: seq<Turn>): seq<Event> {
    if |turns| == 0 then events else turns[|turns| - 1].events
  }

  /** No pass rebuilds the key. */
  predicate NeverRebuilt(cfg: Config, s: State, turns: seq<Turn>, key: Key)
    requires TurnsInOrder(turns)
  {
    if |turns| == 0 then true
    else
      var n := |turns| - 1;
      && NeverRebuilt(cfg, s, turns[..n], key)
      && key !in RepairKeys(cfg, turns[n].events, PlayTurns(cfg, s, turns[..n]).daily, turns[n].queued)
  }

  /** How many rows of the key came, less how many went, at or below the checkpoint of the
      time, between the passes. */
  function Drift(cfg: Config, events: seq<Event>, s: State, turns: seq<Turn>, key: Key): int
    requires EventsInOrder(events) && TurnsInOrder(turns)
  {
    if |turns| == 0 then 0
    else
      var n := |turns| - 1;
      var cp := PlayTurns(cfg, s, turns[..n]).checkpoint;
      assert n > 0 ==> turns[n - 1] in turns;
      Drift(cfg, events, s, turns[..n], key)
      + |Group(Covered(cfg, turns[n].events, cp), key)|
      - |Group(Covered(cfg, EventsThen(events, turns[..n]), cp), key)|
  }

  /** Over any schedule the error of a key no pass rebuilds is exactly what came and went
      below the checkpoint: nothing else adds to it and nothing ever makes up for it. */
  lemma {:induction false} GapOver(cfg: Config, events: seq<Event>, s: State, turns: seq<Turn>, key: Key)
    requires EventsInOrder(events) && TurnsInOrder(turns) && NeverRebuilt(cfg, s, turns, key)
    ensures EventsInOrder(EventsThen(events, turns))
    ensures Gap(cfg, EventsThen(events, turns), PlayTurns(cfg, s, turns), key) ==
      Gap(cfg, events, s, key) + Drift(cfg, events, s, turns, key)
  {
    if |turns| > 0 {
      hide Pass, Covered, EventsInOrder, RepairKeys, Group;
      var n := |turns| - 1;
      assert turns[n] in turns;
      GapOver(cfg, events, s, turns[..n], key);
      PassKeepsGap(cfg, turns[n].events, PlayTurns(cfg, s, turns[..n]), turns[n].queued, turns[n].limit, key);
    }
  }

  /** A ticket that became visible below the checkpoint, or an orphaned one that was counted,
      keeps the table wrong for good: until a repair rebuilds the key, it is right only if as
      many rows came as went. */
  lemma {:induction false} WrongForGood(cfg: Config, before: seq<Event>, events: seq<Event>, s: State, turns: seq<Turn>,
                                        key: Key)
    requires EventsInOrder(before) && EventsInOrder(events) && TurnsInOrder(turns)
    requires Faithful(cfg, before, s) && NeverRebuilt(cfg, s, turns, key)
    requires Drift(cfg, events, s, turns, key) !=
      |Group(Covered(cfg, before, s.checkpoint), key)| - |Group(Covered(cfg, events, s.checkpoint), key)|
    ensures EventsInOrder(EventsThen(events, turns))
    ensures !Faithful(cfg, EventsThen(events, turns), PlayTurns(cfg, s, turns))
  {
    hide Covered, EventsInOrder, Faithful, Group, PlayTurns, NeverRebuilt, Drift;
    GapOver(cfg, events, s, turns, key);
    FaithfulHasNoGap(cfg, before, s, key);
    var end := PlayTurns(cfg, s, turns);
    if Faithful(cfg, EventsThen(events, turns), end) { FaithfulHasNoGap(cfg, EventsThen(events, turns), end, key); }
  }

  /** Each pass finds the queue naming a mutation for every key whose covered rows changed
      since the last, rebuilds only keys it had fully consumed, and fetches no suppressed row. */
  ghost predicate OrderlyTurns(cfg: Config, turns: seq<Turn>)
    requires TurnsInOrder(turns)
  {
    if |turns| == 0 then true
    else
      var n := |turns| - 1;
      var t := turns[n];
      var s := PlayTurns(cfg, NOTHING_YET, turns[..n]);
      assert n > 0 ==> turns[n - 1] in turns;
      && OrderlyTurns(cfg, turns[..n])
      && RepairsConsumed(cfg, t.events, s, t.queued)
      && RestUnchanged(cfg, EventsThen([], turns[..n]), t.events, s.checkpoint,
                       RepairKeys(cfg, t.events, s.daily, t.queued))
      && NoneSuppressed(cfg, t.events, Position(cfg, t.events, s.checkpoint),
                        BatchEnd(cfg, t.events, s.checkpoint, t.limit))
  }

  const NOTHING_YET: State := State(map[], None)

  /** Every pass of a schedule consumes the next rows it finds, as many as its limit allows. */
  lemma TurnConsumes(cfg: Config, s: State, turns: seq<Turn>, t: Turn, key: Key)
    requires TurnsInOrder(turns) && EventsInOrder(t.events)
    ensures TurnsInOrder(turns + [t])
    ensures PlayTurns(cfg, s, []) == s && NeverRebuilt(cfg, s, [], key) && OrderlyTurns(cfg, [])
    ensures Position(cfg, t.events, PlayTurns(cfg, s, turns + [t]).checkpoint) ==
      Min(Position(cfg, t.events, PlayTurns(cfg, s, turns).checkpoint) + t.limit, |View(cfg, t.events)|)
  {
    hide View, Position, EventsInOrder, RepairKeys, Repair;
    assert (turns + [t])[..|turns|] == turns;
    var before := PlayTurns(cfg, s, turns);
    var repaired := Repair(cfg, t.events, before.daily, RepairKeys(cfg, t.events, before.daily, t.queued));
    PositionAfterRun(cfg, t.events, before.(daily := repaired), t.limit);
  }

  /** Over every such schedule of whole passes, with growth, mutations and orphaned tickets
      between them, the table is the rebuild of the rows consumed so far. */
  lemma {:induction false} TurnsExact(cfg: Config, turns: seq<Turn>)
    requires TurnsInOrder(turns) && OrderlyTurns(cfg, turns)
    ensures EventsInOrder(EventsThen([], turns))
    ensures Faithful(cfg, EventsThen([], turns), PlayTurns(cfg, NOTHING_YET, turns))
  {
    if |turns| == 0 {
      EmptyView(cfg);
      NothingBuilt();
    } else {
      hide View, Repair, RepairKeys, Run, NoneSuppressed, RepairsConsumed, RestUnchanged, EventsInOrder, BatchEnd,
        Faithful;
      var n := |turns| - 1;
      var t := turns[n];
      assert t in turns;
      TurnsExact(cfg, turns[..n]);
      var s := PlayTurns(cfg, NOTHING_YET, turns[..n]);
      var keys := RepairKeys(cfg, t.events, s.daily, t.queued);
      RestStaysRight(cfg, EventsThen([], turns[..n]), t.events, s, keys);
      RepairAfterExactly(cfg, t.events, s, t.queued);
      RunExactly(cfg, t.events, s.(daily := Repair(cfg, t.events, s.daily, keys)), t.limit);
    }
  }

  /** What the queue is for: when it names every mutated event, the keys a repair leaves alone
      keep their covered rows. */
  lemma QueuedIsUnchanged(cfg: Config, before: seq<Event>, after: seq<Event>, s: State, queued: set<int>)
    requires EventsInOrder(before) && EventsInOrder(after) && MutatedOnly(before, after, queued)
    requires Faithful(cfg, before, s)
    ensures RestUnchanged(cfg, before, after, s.checkpoint, RepairKeys(cfg, after, s.daily, queued))
  {
    hide View, Position, EventsInOrder, Build, RepairKeys, Total, Group;
    forall k: Key | k !in RepairKeys(cfg, after, s.daily, queued)
      ensures Group(Covered(cfg, before, s.checkpoint), k) == Group(Covered(cfg, after, s.checkpoint), k)
    {
      RepairKeysSuffice(cfg, before, after, s.checkpoint, queued, k);
    }
  }

  // ---------------------------------------------------------------------------
  // Orphaned tickets
  // ---------------------------------------------------------------------------

  /** Some events stopped being canonical; nothing else changed. */
  predicate Orphaned(before: seq<Event>, after: seq<Event>) {
    && |before| == |after|
    && forall i | 0 <= i < |before| :: after[i] == before[i] || after[i] == before[i].(canonical := false)
  }

  /** An orphaned event was a visible ticket at or below the checkpoint. */
  predicate TakesCovered(cfg: Config, before: seq<Event>, after: seq<Event>, cp: Option<int>)
    requires |before| == |after|
  {
    exists i ::
      0 <= i < |before| && after[i] != before[i] && Visible(cfg, before[i]) && cp.Some? && before[i].id <= cp.value
  }

  lemma OrphanedWithin(cfg: Config, before: seq<Event>, after: seq<Event>)
    requires EventsInOrder(before) && EventsInOrder(after) && Orphaned(before, after)
    ensures Within(View(cfg, after), View(cfg, before))
  {
    ViewRows(cfg, before);
    ViewRows(cfg, after);
    hide View, EventsInOrder;
    forall r | r in View(cfg, after) ensures r in View(cfg, before) {
      var e :| e in after && Visible(cfg, e) && r == RowOf(cfg, e);
      var i :| 0 <= i < |after| && after[i] == e;
      assert before[i] == e && e in before;
    }
  }

  lemma CoveredAfterOrphans(cfg: Config, before: seq<Event>, after: seq<Event>, cp: Option<int>)
    requires EventsInOrder(before) && EventsInOrder(after) && Orphaned(before, after)
    ensures Covered(cfg, before, cp) == Covered(cfg, after, cp) <==> !TakesCovered(cfg, before, after, cp)
  {
    OrphanedWithin(cfg, before, after);
    CoveredInOrder(cfg, before, cp);
    CoveredInOrder(cfg, after, cp);
    ViewRows(cfg, before);
    ViewRows(cfg, after);
    hide View, Covered, RowsInOrder;
    var b, a := Covered(cfg, before, cp), Covered(cfg, after, cp);
    if TakesCovered(cfg, before, after, cp) {
      var i :| 0 <= i < |before| && after[i] != before[i] && Visible(cfg, before[i]) && cp.Some?
        && before[i].id <= cp.value;
      OrphanedRowGone(cfg, before, after, i);
      assert before[i] in before && RowOf(cfg, before[i]) in b;
    } else {
      forall r | r in b ensures r in a {
        var e :| e in before && Visible(cfg, e) && r == RowOf(cfg, e);
        var i :| 0 <= i < |before| && before[i] == e;
        assert after[i] == e && e in after;
      }
      FewerRows(a, b);
      FewerRows(b, a);
    }
  }

  lemma OrphanedRowGone(cfg: Config, before: seq<Event>, after: seq<Event>, i: nat)
    requires EventsInOrder(before) && EventsInOrder(after) && Orphaned(before, after) && i < |before|
    requires after[i] != before[i] && Visible(cfg, before[i])
    ensures RowOf(cfg, before[i]) !in View(cfg, after)
  {
    ViewRows(cfg, after);
    hide View;
    forall e | e in after && Visible(cfg, e) ensures RowOf(cfg, e) != RowOf(cfg, before[i]) {
      var j :| 0 <= j < |after| && after[j] == e;
      assert j != i && after[j].id == before[j].id;
    }
  }

  /** What the reorg-watcher does to the ticket rollup: with nothing queued the table stays
      right if and only if no orphaned event was a visible ticket it had consumed, and no
      fetched row is suppressed. */
  lemma OrphansExactly(cfg: Config, before: seq<Event>, after: seq<Event>, s: State, limit: nat)
    requires EventsInOrder(before) && EventsInOrder(after) && Orphaned(before, after) && Faithful(cfg, before, s)
    ensures Faithful(cfg, after, Pass(cfg, after, s, {}, limit)) <==>
      && !TakesCovered(cfg, before, after, s.checkpoint)
      && NoneSuppressed(cfg, after, Position(cfg, after, s.checkpoint), BatchEnd(cfg, after, s.checkpoint, limit))
  {
    hide View, Position, BatchEnd, EventsInOrder, Orphaned, Faithful, Pass, NoneSuppressed, Covered, TakesCovered;
    OrphanedWithin(cfg, before, after);
    CoveredAfterOrphans(cfg, before, after, s.checkpoint);
    UnqueuedExactly(cfg, before, after, s, limit);
  }

  /** A consumed ticket is orphaned and nothing is queued: the pass changes nothing, and the
      table counts a ticket the rebuild does not. */
  lemma OrphanedTicketStays(limit: nat)
    ensures var before, after := [Ticket(1, true)], [Ticket(1, true).(canonical := false)];
      var s := Run(FinalizedOnly, before, State(map[], None), 10);
      && EventsInOrder(after) && Orphaned(before, after)
      && s.daily == map[KEY := Aggregate(1, 1, 1, 1)]
      && Pass(FinalizedOnly, after, s, {}, limit) == s
      && Build(View(FinalizedOnly, after)) == map[]
  {
    hide View, Build, Run, BatchAggregate;
    var before, after := [Ticket(1, true)], [Ticket(1, true).(canonical := false)];
    var row := Row(1, KEY, "gateway", "orchestrator");
    EmptyView(FinalizedOnly);
    ViewSnoc(FinalizedOnly, [], Ticket(1, true));
    ViewSnoc(FinalizedOnly, [], Ticket(1, true).(canonical := false));
    assert [] + before == before && [] + after == after && [] + [row] == [row];
    assert !PriorSeen(FinalizedOnly, before, row, Gateway) && !PriorSeen(FinalizedOnly, before, row, Orchestrator);
    SingleRow(FinalizedOnly, before, row);
    FirstRun(FinalizedOnly, before, map[], None, row, 10);
    PassOverNothing(after, limit);
    FirstCheckpoint(before, row);
    assert Build([]) == map[] by { NothingBuilt(); }
  }

  lemma NothingBuilt()
    ensures Build([]) == map[]
  {
  }

  lemma FirstCheckpoint(events: seq<Event>, row: Row)
    requires EventsInOrder(events) && View(FinalizedOnly, events) == [row] && row.id == 1
    ensures Run(FinalizedOnly, events, State(map[], None), 10).checkpoint == Some(1)
  {
    hide View, BatchAggregate;
    assert [row][0..1] == [row];
  }

  lemma PassOverNothing(events: seq<Event>, limit: nat)
    requires EventsInOrder(events) && View(FinalizedOnly, events) == []
    ensures var s := State(map[KEY := Aggregate(1, 1, 1, 1)], Some(1)); Pass(FinalizedOnly, events, s, {}, limit) == s
  {
    hide View, BatchAggregate;
    var daily := map[KEY := Aggregate(1, 1, 1, 1)];
    NothingToRepair(FinalizedOnly, events, daily);
    assert Repair(FinalizedOnly, events, daily, {}) == daily;
    NothingLeft(FinalizedOnly, events, daily, 1);
  }
}
