/** The payout rollup over a ledger that changes at or below the checkpoint
    (crates/livepeer-rollups/src/orch_payouts.rs): valuations that arrive late, events a
    reorg orphans, and rows a split leaves behind. */
module OrchPayoutsChanges {
  import opened SortedRows
  import opened Wrappers
  import opened OrchPayouts
  import opened OrchPayoutsPasses
  import opened OrchPayoutsSchedules

  // ---------------------------------------------------------------------------
  // A repair after any change
  // ---------------------------------------------------------------------------

  /** No key a repair rebuilds has a visible row above the checkpoint. */
  predicate RepairsConsumed(ledger: seq<Row>, s: State, keys: set<Key>)
    requires IdsInOrder(View(ledger))
  {
    var rows := View(ledger);
    forall i | Position(rows, s.checkpoint) <= i < |rows| :: rows[i].key !in keys
  }

  /** Every key the repair does not rebuild has the right table row already. */
  ghost predicate RestRight(shares: Shares, ledger: seq<Row>, s: State, keys: set<Key>)
    requires IdsInOrder(View(ledger))
  {
    forall k: Key :: k !in keys ==> Agree(s.daily, Build(shares, Consumed(ledger, s.checkpoint)), k)
  }

  /** Whatever happened to the ledger, a repair restores the rebuild of the covered rows if
      and only if every key it rebuilds was fully consumed and the others were right. */
  lemma RepairAfterExactly(shares: Shares, ledger: seq<Row>, s: State, keys: set<Key>)
    requires IdsInOrder(View(ledger))
    ensures Faithful(shares, ledger, s.(daily := Repair(shares, ledger, s.daily, keys))) <==>
      RepairsConsumed(ledger, s, keys) && RestRight(shares, ledger, s, keys)
  {
    hide View, Position, Repair, Build, Agree, IdsInOrder;
    var rows := View(ledger);
    var p := Position(rows, s.checkpoint);
    var repaired, wanted := Repair(shares, ledger, s.daily, keys), Build(shares, rows[..p]);
    forall k | k !in keys ensures Agree(repaired, wanted, k) <==> Agree(s.daily, wanted, k) {
      NotRebuilt(shares, ledger, s.daily, keys, k);
      SameEntry(repaired, s.daily, wanted, k);
    }
    forall k | k in keys
      ensures Agree(repaired, wanted, k) <==> forall i | p <= i < |rows| :: rows[i].key != k
    {
      RebuiltAgrees(shares, ledger, s.daily, keys, p, k);
    }
    AgreeExactly(repaired, wanted);
  }

  lemma RebuiltAgrees(shares: Shares, ledger: seq<Row>, daily: map<Key, Aggregate>, keys: set<Key>, p: nat, k: Key)
    requires p <= |View(ledger)| && k in keys
    ensures var rows := View(ledger);
      Agree(Repair(shares, ledger, daily, keys), Build(shares, rows[..p]), k) <==>
      forall i | p <= i < |rows| :: rows[i].key != k
  {
    RebuiltComesRight(shares, ledger, daily, keys, p, p, p, k);
    NothingAdded(shares, ledger, Repair(shares, ledger, daily, keys));
    hide View, Repair, Build, Agree, ApplyBatch;
    assert View(ledger)[p..p] == [];
  }

  lemma NothingAdded(shares: Shares, ledger: seq<Row>, daily: map<Key, Aggregate>)
    ensures ApplyBatch(shares, ledger, daily, []) == daily
  {
  }

  lemma NotRebuilt(shares: Shares, ledger: seq<Row>, daily: map<Key, Aggregate>, keys: set<Key>, k: Key)
    requires k !in keys
    ensures Agree(Repair(shares, ledger, daily, keys), daily, k)
  {
    hide View, Total;
  }

  lemma SameEntry(a: map<Key, Aggregate>, b: map<Key, Aggregate>, c: map<Key, Aggregate>, k: Key)
    requires Agree(a, b, k)
    ensures Agree(a, c, k) <==> Agree(b, c, k)
  {
  }

  // ---------------------------------------------------------------------------
  // The gap between the table and the covered rows
  // ---------------------------------------------------------------------------

  function Tickets(daily: map<Key, Aggregate>, key: Key): nat { if key in daily then daily[key].money.tickets else 0 }

  /** The covered rows of a key the table does not count; negative when it counts more. */
  function Gap(ledger: seq<Row>, s: State, key: Key): int
    requires IdsInOrder(View(ledger))
  {
    |Group(Consumed(ledger, s.checkpoint), key)| - Tickets(s.daily, key)
  }

  lemma FaithfulHasNoGap(shares: Shares, ledger: seq<Row>, s: State, key: Key)
    requires IdsInOrder(View(ledger)) && Faithful(shares, ledger, s)
    ensures Gap(ledger, s, key) == 0
  {
    hide View, Sum, Group, Position, IdsInOrder;
    var rows := Consumed(ledger, s.checkpoint);
    NoGroup(rows, key);
    SumConserves(shares, Group(rows, key));
  }

  /** The rows of a key the limit cuts off within the last fetched event. */
  function SplitOff(ledger: seq<Row>, cp: Option<int>, limit: nat, key: Key): nat
    requires IdsInOrder(View(ledger))
  {
    var rows := View(ledger);
    var p, q := Position(rows, cp), BatchEnd(rows, cp, limit);
    var after := Position(rows, NextCheckpoint(cp, rows[p..q]));
    PositionAfterRun(rows, cp, limit);
    |Group(rows[q..after], key)|
  }

  /** A pass that does not rebuild a key adds to its gap exactly the rows it splits off. */
  lemma PassMovesGap(shares: Shares, ledger: seq<Row>, raw: Orchestrators, s: State, queued: set<int>, limit: nat,
                     key: Key)
    requires IdsInOrder(View(ledger)) && key !in RepairKeys(ledger, raw, s.daily, queued)
    ensures Gap(ledger, Pass(shares, ledger, raw, s, queued, limit), key) ==
      Gap(ledger, s, key) + SplitOff(ledger, s.checkpoint, limit, key)
  {
    hide View, RepairKeys, IdsInOrder, Position, BatchEnd, Run, SplitOff, Consumed, Group;
    var keys := RepairKeys(ledger, raw, s.daily, queued);
    NotRebuilt(shares, ledger, s.daily, keys, key);
    RunMovesGap(shares, ledger, s.(daily := Repair(shares, ledger, s.daily, keys)), limit, key);
  }

  lemma RunMovesGap(shares: Shares, ledger: seq<Row>, s: State, limit: nat, key: Key)
    requires IdsInOrder(View(ledger))
    ensures Gap(ledger, Run(shares, ledger, s, limit), key) ==
      Gap(ledger, s, key) + SplitOff(ledger, s.checkpoint, limit, key)
  {
    hide View, IdsInOrder;
    var rows := View(ledger);
    var p, q := Position(rows, s.checkpoint), BatchEnd(rows, s.checkpoint, limit);
    var after := Position(rows, NextCheckpoint(s.checkpoint, rows[p..q]));
    PositionAfterRun(rows, s.checkpoint, limit);
    assert rows[..after] == (rows[..p] + rows[p..q]) + rows[q..after];
    GroupConcat(rows[..p] + rows[p..q], rows[q..after], key);
    GroupConcat(rows[..p], rows[p..q], key);
    TicketsAfterBatch(shares, ledger, s.daily, rows[p..q], key);
    hide Position, BatchEnd, Group, ApplyBatch, NextCheckpoint;
  }

  lemma TicketsAfterBatch(shares: Shares, ledger: seq<Row>, daily: map<Key, Aggregate>, batch: seq<Row>, key: Key)
    ensures Tickets(ApplyBatch(shares, ledger, daily, batch), key) == Tickets(daily, key) + |Group(batch, key)|
  {
    hide Sum, Group, Counted;
    NoGroup(batch, key);
    BatchTickets(shares, ledger, batch, key);
  }

  lemma NothingSplitOff(ledger: seq<Row>, cp: Option<int>, limit: nat, key: Key)
    requires IdsInOrder(View(ledger)) && !Splits(View(ledger), cp, limit)
    ensures SplitOff(ledger, cp, limit, key) == 0
  {
    hide View, IdsInOrder, Splits;
    PositionAfterRun(View(ledger), cp, limit);
  }

  // ---------------------------------------------------------------------------
  // Any schedule
  // ---------------------------------------------------------------------------

  /** No pass rebuilds the key. */
  predicate NeverRebuilt(s: State, ticks: seq<Tick>, key: Key)
    requires LedgersInOrder(ticks)
  {
    if |ticks| == 0 then true
    else
      var n := |ticks| - 1;
      && NeverRebuilt(s, ticks[..n], key)
      && key !in RepairKeys(ticks[n].ledger, ticks[n].raw, PlayFrom(s, ticks[..n]).daily, ticks[n].queued)
  }

  /** How many rows of the key came, less how many went, at or below the checkpoint of the
      time, between the passes. */
  function Drift(ledger: seq<Row>, s: State, ticks: seq<Tick>, key: Key): int
    requires Sorted(ledger) && LedgersInOrder(ticks)
  {
    if |ticks| == 0 then 0
    else
      var n := |ticks| - 1;
      var cp := PlayFrom(s, ticks[..n]).checkpoint;
      assert ticks[n] in ticks && (n > 0 ==> ticks[n - 1] in ticks);
      Drift(ledger, s, ticks[..n], key)
      + |Group(Consumed(ticks[n].ledger, cp), key)|
      - |Group(Consumed(LedgerAfter(ledger, ticks[..n]), cp), key)|
  }

  /** How many rows of the key the passes split off. */
  function SplitOver(s: State, ticks: seq<Tick>, key: Key): nat
    requires LedgersInOrder(ticks)
  {
    if |ticks| == 0 then 0
    else
      var n := |ticks| - 1;
      assert ticks[n] in ticks;
      SplitOver(s, ticks[..n], key)
      + SplitOff(ticks[n].ledger, PlayFrom(s, ticks[..n]).checkpoint, ticks[n].limit, key)
  }

  /** Over any schedule the error of a key no pass rebuilds is exactly what came and went
      below the checkpoint and what the limits split off. */
  lemma {:induction false} GapOver(ledger: seq<Row>, s: State, ticks: seq<Tick>, key: Key)
    requires Sorted(ledger) && LedgersInOrder(ticks) && NeverRebuilt(s, ticks, key)
    ensures Sorted(LedgerAfter(ledger, ticks))
    ensures Gap(LedgerAfter(ledger, ticks), PlayFrom(s, ticks), key) ==
      Gap(ledger, s, key) + Drift(ledger, s, ticks, key) + SplitOver(s, ticks, key)
  {
    if |ticks| > 0 {
      hide View, Pass, Consumed, RepairKeys, Group, SplitOff;
      var n := |ticks| - 1;
      var t := ticks[n];
      assert t in ticks;
      GapOver(ledger, s, ticks[..n], key);
      PassMovesGap(t.shares, t.ledger, t.raw, PlayFrom(s, ticks[..n]), t.queued, t.limit, key);
    }
  }

  // ---------------------------------------------------------------------------
  // A valuation that arrives below the checkpoint
  // ---------------------------------------------------------------------------

  /** The table counts fewer rows under a key than the checkpoint covers. */
  predicate Misses(ledger: seq<Row>, s: State, key: Key)
    requires IdsInOrder(View(ledger))
  {
    Gap(ledger, s, key) > 0
  }

  /** Rows that arrive at or below the checkpoint are missed. */
  lemma LateRowIsMissed(shares: Shares, before: seq<Row>, after: seq<Row>, s: State, key: Key)
    requires Sorted(before) && Sorted(after) && Faithful(shares, before, s)
    ensures Misses(after, s, key) <==>
      |Group(Consumed(before, s.checkpoint), key)| < |Group(Consumed(after, s.checkpoint), key)|
  {
    hide View, Group, Consumed;
    FaithfulHasNoGap(shares, before, s, key);
  }

  /** A valuation that arrives below the checkpoint stays uncounted over every later pass,
      however the ledger then grows and whatever the limits, until a repair rebuilds its key:
      the table is never right again, under whatever fee shares. */
  lemma {:induction false} LateValuationLost(shares: Shares, ledger: seq<Row>, s: State, ticks: seq<Tick>, key: Key)
    requires Sorted(ledger) && LedgersInOrder(ticks) && NeverRebuilt(s, ticks, key)
    requires Misses(ledger, s, key) && Drift(ledger, s, ticks, key) >= 0
    ensures Sorted(LedgerAfter(ledger, ticks)) && Misses(LedgerAfter(ledger, ticks), PlayFrom(s, ticks), key)
    ensures !Faithful(shares, LedgerAfter(ledger, ticks), PlayFrom(s, ticks))
  {
    hide View, Group, Consumed, PlayFrom, Drift, SplitOver, NeverRebuilt, Faithful;
    GapOver(ledger, s, ticks, key);
    MissedIsUnfaithful(shares, LedgerAfter(ledger, ticks), PlayFrom(s, ticks), key);
  }

  /** A missed row keeps the table from equalling the rebuild. */
  lemma MissedIsUnfaithful(shares: Shares, ledger: seq<Row>, s: State, key: Key)
    requires Sorted(ledger) && Misses(ledger, s, key)
    ensures !Faithful(shares, ledger, s)
  {
    if Faithful(shares, ledger, s) { FaithfulHasNoGap(shares, ledger, s, key); }
  }

  // ---------------------------------------------------------------------------
  // One-sided changes: rows only come, or only go
  // ---------------------------------------------------------------------------

  lemma {:induction false} GroupIncreasing(rows: seq<Row>, key: Key)
    requires IdsInOrder(rows) && OneRowPerVersion(rows)
    ensures Increasing(Group(rows, key), (r: Row) => r.id)
  {
    if |rows| > 0 {
      var n := |rows| - 1;
      GroupIncreasing(rows[..n], key);
      GroupMembers(rows[..n], key);
      var rest := Group(rows[..n], key);
      forall i | 0 <= i < |rest| ensures rows[n].key == key ==> rest[i].id < rows[n].id {
        assert rest[i] in rest;
        var j :| 0 <= j < n && rows[j] == rest[i];
      }
    }
  }

  lemma ConsumedRows(ledger: seq<Row>, cp: Option<int>)
    requires Sorted(ledger)
    ensures IdsInOrder(Consumed(ledger, cp)) && OneRowPerVersion(Consumed(ledger, cp))
    ensures forall r :: r in Consumed(ledger, cp) <==> r in View(ledger) && cp.Some? && r.id <= cp.value
  {
    ViewOneRow(ledger);
    hide View, IdsInOrder, OneRowPerVersion;
    PrefixOrdered(View(ledger), Position(View(ledger), cp));
    PrefixAtPosition(View(ledger), cp);
  }

  lemma PrefixOrdered(rows: seq<Row>, p: nat)
    requires IdsInOrder(rows) && OneRowPerVersion(rows) && p <= |rows|
    ensures IdsInOrder(rows[..p]) && OneRowPerVersion(rows[..p])
  {
  }

  lemma PrefixAtPosition(rows: seq<Row>, cp: Option<int>)
    requires IdsInOrder(rows)
    ensures forall r :: r in rows[..Position(rows, cp)] <==> r in rows && cp.Some? && r.id <= cp.value
  {
    var p := Position(rows, cp);
    hide IdsInOrder;
    forall r | r in rows && cp.Some? && r.id <= cp.value ensures r in rows[..p] {
      var i :| 0 <= i < |rows| && rows[i] == r;
      assert rows[..p][i] == r;
    }
    forall r | r in rows[..p] ensures cp.Some? && r.id <= cp.value {
      var i :| 0 <= i < p && rows[i] == r;
    }
  }

  /** A one-sided change of the view changes a group of covered rows only with its size. */
  lemma GroupsBySize(before: seq<Row>, after: seq<Row>, cp: Option<int>, key: Key)
    requires Sorted(before) && Sorted(after) && OneSided(View(before), View(after))
    ensures var b, a := Group(Consumed(before, cp), key), Group(Consumed(after, cp), key);
      |b| == |a| <==> b == a
  {
    ConsumedRows(before, cp);
    ConsumedRows(after, cp);
    hide View, Sorted;
    GroupIncreasing(Consumed(before, cp), key);
    GroupIncreasing(Consumed(after, cp), key);
    GroupMembers(Consumed(before, cp), key);
    GroupMembers(Consumed(after, cp), key);
    hide Group, Consumed, IdsInOrder, OneRowPerVersion;
    var b, a := Group(Consumed(before, cp), key), Group(Consumed(after, cp), key);
    if Within(View(before), View(after)) {
      FewerWithin(b, a, (r: Row) => r.id);
    } else {
      FewerWithin(a, b, (r: Row) => r.id);
    }
  }

  /** Rows came or went anywhere, and the queue named some ids, not necessarily those: a pass
      that splits no event leaves the table right if and only if every key it rebuilds was
      fully consumed, no other key gained or lost a covered row, and none is suppressed. */
  lemma ChangedPassExactly(shares: Shares, before: seq<Row>, after: seq<Row>, raw: Orchestrators, s: State,
                           queued: set<int>, limit: nat)
    requires Sorted(before) && Sorted(after) && OneSided(View(before), View(after)) && Faithful(shares, before, s)
    requires !Splits(View(after), s.checkpoint, limit)
    ensures var rows, keys := View(after), RepairKeys(after, raw, s.daily, queued);
      Faithful(shares, after, Pass(shares, after, raw, s, queued, limit)) <==>
      && RepairsConsumed(after, s, keys)
      && RestUnchanged(before, after, s.checkpoint, keys)
      && NoneSuppressed(after, Position(rows, s.checkpoint), BatchEnd(rows, s.checkpoint, limit))
  {
    hide View, Position, BatchEnd, IdsInOrder, RepairKeys, Pass, NoneSuppressed, Faithful, OneSided, Splits, Ledger,
      PassComesRight;
    var keys := RepairKeys(after, raw, s.daily, queued);
    if RestUnchanged(before, after, s.checkpoint, keys) {
      PassAfterExactly(shares, before, after, raw, s, queued, limit);
      UnsplitComesRight(after, raw, s, queued, limit);
    } else {
      var k :| k !in keys && Group(Consumed(before, s.checkpoint), k) != Group(Consumed(after, s.checkpoint), k);
      GroupsBySize(before, after, s.checkpoint, k);
      FaithfulHasNoGap(shares, before, s, k);
      PassMovesGap(shares, after, raw, s, queued, limit, k);
      NothingSplitOff(after, s.checkpoint, limit, k);
      var next := Pass(shares, after, raw, s, queued, limit);
      if Faithful(shares, after, next) { FaithfulHasNoGap(shares, after, next, k); }
    }
  }

  // ---------------------------------------------------------------------------
  // Orphaned events
  // ---------------------------------------------------------------------------

  /** Some events stopped being canonical; nothing else changed. */
  predicate Orphaned(before: seq<Row>, after: seq<Row>) {
    && |before| == |after|
    && forall i | 0 <= i < |before| :: after[i] == before[i] || after[i] == before[i].(canonical := false)
  }

  /** An orphaned row was visible and at or below the checkpoint. */
  predicate TakesCovered(before: seq<Row>, after: seq<Row>, cp: Option<int>)
    requires |before| == |after|
  {
    exists i :: 0 <= i < |before| && after[i] != before[i] && Shown(before[i]) && cp.Some? && before[i].id <= cp.value
  }

  lemma OrphanedSorted(before: seq<Row>, after: seq<Row>)
    requires Sorted(before) && Orphaned(before, after)
    ensures Sorted(after)
  {
    hide View;
    forall i | 0 <= i < |after| ensures after[i].id == before[i].id && after[i].key == before[i].key {}
    SortedIs(after);
  }

  lemma OrphanedWithin(before: seq<Row>, after: seq<Row>)
    requires Sorted(before) && Sorted(after) && Orphaned(before, after)
    ensures Within(View(after), View(before))
  {
    ViewRows(before);
    ViewRows(after);
    hide View, Sorted;
    forall r | r in View(after) ensures r in View(before) {
      var i :| 0 <= i < |after| && after[i] == r;
      assert before[i] == r && r in before;
    }
  }

  lemma {:induction false} CoveredKept(before: seq<Row>, after: seq<Row>, cp: Option<int>, key: Key)
    requires Orphaned(before, after) && !TakesCovered(before, after, cp)
    ensures Covered(before, cp, key) == Covered(after, cp, key)
  {
    if |before| > 0 {
      var n := |before| - 1;
      forall i | 0 <= i < n && after[..n][i] != before[..n][i] && Shown(before[..n][i]) && cp.Some?
        ensures cp.value < before[..n][i].id
      {
        assert after[i] != before[i] && Shown(before[i]);
      }
      CoveredKept(before[..n], after[..n], cp, key);
    }
  }

  /** The groups of covered rows survive orphaning if and only if it takes none of them. */
  lemma OrphansTake(before: seq<Row>, after: seq<Row>, cp: Option<int>)
    requires Sorted(before) && Sorted(after) && Orphaned(before, after)
    ensures RestUnchanged(before, after, cp, {}) <==> !TakesCovered(before, after, cp)
  {
    if TakesCovered(before, after, cp) {
      var i :| 0 <= i < |before| && after[i] != before[i] && Shown(before[i]) && cp.Some? && before[i].id <= cp.value;
      TakenRow(before, after, cp, i);
      hide View, Consumed, Group, Sorted, Orphaned, TakesCovered;
      assert before[i].key !in {} && !RestUnchanged(before, after, cp, {});
    } else {
      hide View, Position, Group, TakesCovered, Orphaned;
      forall k: Key ensures Group(Consumed(before, cp), k) == Group(Consumed(after, cp), k) {
        CoveredIs(before, cp, k);
        CoveredIs(after, cp, k);
        CoveredKept(before, after, cp, k);
      }
    }
  }

  lemma TakenRow(before: seq<Row>, after: seq<Row>, cp: Option<int>, i: nat)
    requires Sorted(before) && Sorted(after) && Orphaned(before, after) && i < |before|
    requires after[i] != before[i] && Shown(before[i]) && cp.Some? && before[i].id <= cp.value
    ensures Group(Consumed(before, cp), before[i].key) != Group(Consumed(after, cp), before[i].key)
  {
    var k := before[i].key;
    ViewRows(before);
    ViewRows(after);
    ConsumedRows(before, cp);
    ConsumedRows(after, cp);
    hide View, Consumed;
    GroupMembers(Consumed(before, cp), k);
    GroupMembers(Consumed(after, cp), k);
    hide Group;
    assert before[i] in before && before[i] in Group(Consumed(before, cp), k);
    forall j | 0 <= j < |after| ensures after[j] != before[i] { OneRow(before, after, i, j); }
    assert before[i] !in after;
  }

  lemma OneRow(before: seq<Row>, after: seq<Row>, i: nat, j: nat)
    requires Ledger(before) && Orphaned(before, after) && i < |before| && j < |after| && after[i] != before[i]
    ensures after[j] != before[i]
  {
    assert after[j].id == before[j].id && after[j].key == before[j].key;
  }

  /** What the reorg-watcher does to the payout rollup: with nothing queued, a pass that
      splits no event leaves the table right if and only if no orphaned row was a visible one
      it had consumed, and none it fetches is suppressed. */
  lemma OrphansExactly(shares: Shares, before: seq<Row>, after: seq<Row>, raw: Orchestrators, s: State, limit: nat)
    requires Sorted(before) && Sorted(after) && Orphaned(before, after) && Faithful(shares, before, s)
    requires !Splits(View(after), s.checkpoint, limit)
    ensures var rows := View(after);
      Faithful(shares, after, Pass(shares, after, raw, s, {}, limit)) <==>
      && !TakesCovered(before, after, s.checkpoint)
      && NoneSuppressed(after, Position(rows, s.checkpoint), BatchEnd(rows, s.checkpoint, limit))
  {
    hide View, Position, BatchEnd, Sorted, Orphaned, Faithful, Pass, NoneSuppressed, TakesCovered, Splits,
      RestUnchanged;
    OrphanedWithin(before, after);
    OrphansTake(before, after, s.checkpoint);
    NoRepairKeys(after, raw, s.daily);
    ChangedPassExactly(shares, before, after, raw, s, {}, limit);
  }

  // ---------------------------------------------------------------------------
  // Concrete ledgers
  // ---------------------------------------------------------------------------

  const FIRST: Row := Row(1, 0, 0, Key(0, "o", "a", "k"), Some("g"), 1.0, None, true, true)
  const SECOND: Row := Row(2, 0, 1, Key(1, "o", "a", "k"), Some("g"), 1.0, None, true, true)

  /** The second event is valued and consumed before the first is: the first one's key never
      reaches the table, whatever limits later runs use. */
  lemma LateValuationExample(shares: Shares, later: seq<nat>)
    ensures var before, after := [SECOND], [FIRST, SECOND];
      && Sorted(before) && Sorted(after) && FIRST in View(after)
      && FIRST.key !in Runs(shares, after, Run(shares, before, START, 10), later).daily
  {
    hide View, Run, Runs, Position, Ledger;
    var before, after := [SECOND], [FIRST, SECOND];
    BothShown();
    SortedIs(before);
    SortedIs(after);
    OnlySecond(shares, before, after);
    NothingMore(shares, after, Run(shares, before, START, 10), later);
  }

  lemma BothShown()
    ensures View([SECOND]) == [SECOND] && View([FIRST, SECOND]) == [FIRST, SECOND]
    ensures Ledger([SECOND]) && Ledger([FIRST, SECOND])
  {
    BothInOrder();
    hide View, Ledger;
    NothingShown();
    ViewSnoc([], SECOND);
    ViewSnoc([], FIRST);
    ViewSnoc([FIRST], SECOND);
    assert [] + [SECOND] == [SECOND] && [] + [FIRST] == [FIRST] && [FIRST] + [SECOND] == [FIRST, SECOND];
  }

  lemma NothingShown()
    ensures View([]) == []
  {
  }

  lemma BothInOrder()
    ensures Ledger([SECOND]) && Ledger([FIRST, SECOND])
  {
  }

  lemma OnlySecond(shares: Shares, before: seq<Row>, after: seq<Row>)
    requires before == [SECOND] && after == [FIRST, SECOND] && View(before) == before
    ensures var s := Run(shares, before, START, 10);
      Position(after, s.checkpoint) == 2 && FIRST.key !in s.daily
  {
    hide View, BatchAggregate;
    assert before[0..1] == before;
    PositionIs(before, None, 0);
    PositionIs(after, Some(2), 2);
  }

  /** A consumed event is orphaned and nothing is queued: no later run changes the table, and
      it still pays for an event the rebuild does not hold. */
  lemma OrphanedPayoutStays(shares: Shares, later: seq<nat>)
    ensures var before, after := [SECOND], [SECOND.(canonical := false)];
      && Sorted(before) && Sorted(after) && Orphaned(before, after)
      && SECOND.key in Runs(shares, after, Run(shares, before, START, 10), later).daily
      && Build(shares, View(after)) == map[]
  {
    hide View, Run, Runs, Position, Ledger, BatchAggregate;
    var before, after := [SECOND], [SECOND.(canonical := false)];
    BothShown();
    SortedIs(before);
    OrphanedSorted(before, after);
    NothingShown();
    ViewSnoc([], SECOND.(canonical := false));
    assert [] + after == after && View(after) == [];
    SecondConsumed(shares, before);
    PositionOfNone(Run(shares, before, START, 10).checkpoint);
    NothingMore(shares, after, Run(shares, before, START, 10), later);
    assert Build(shares, []) == map[] by { NothingBuilt(shares); }
  }

  lemma NothingBuilt(shares: Shares)
    ensures Build(shares, []) == map[]
  {
  }

  lemma PositionOfNone(cp: Option<int>)
    ensures IdsInOrder([]) && Position([], cp) == 0
  {
  }

  lemma SecondConsumed(shares: Shares, before: seq<Row>)
    requires before == [SECOND] && View(before) == before
    ensures SECOND.key in Run(shares, before, START, 10).daily
  {
    hide View, BatchAggregate;
    assert before[0..1] == before;
    PositionIs(before, None, 0);
    assert SECOND in before;
  }
}
