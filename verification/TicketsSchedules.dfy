/** Schedules of the ticket rollup (crates/livepeer-rollups/src/tickets.rs): any way of
    cutting a stream that becomes visible in order, and whole passes that repair queued reorg
    mutations before a batch. */
module TicketsSchedules {
  import opened Wrappers
  import opened Tickets

  // ---------------------------------------------------------------------------
  // Any way of cutting
  // ---------------------------------------------------------------------------

  /** Below a visible ticket every canonical ticket is visible: rows become visible in id order. */
  predicate VisibleInOrder(cfg: Config, events: seq<Event>) {
    forall e, f | e in events && f in events && Visible(cfg, e) && IsCanonicalTicket(f) && f.id < e.id ::
      Visible(cfg, f)
  }

  /** Visibility in id order leaves the anti-join nothing to be fooled by. */
  lemma InOrderNoneSuppressed(cfg: Config, events: seq<Event>)
    requires EventsInOrder(events) && VisibleInOrder(cfg, events)
    ensures NoneSuppressed(cfg, events, 0, |View(cfg, events)|)
  {
    hide View;
    ViewRows(cfg, events);
    var rows := View(cfg, events);
    forall i, who | 0 <= i < |rows| ensures !Suppressed(cfg, events, i, who) {
      NotSuppressed(cfg, events, i, who);
    }
  }

  lemma NotSuppressed(cfg: Config, events: seq<Event>, i: nat, who: Party)
    requires EventsInOrder(events) && VisibleInOrder(cfg, events) && i < |View(cfg, events)|
    ensures !Suppressed(cfg, events, i, who)
  {
    ViewRows(cfg, events);
    hide View, EventsInOrder, Names;
    var rows := View(cfg, events);
    assert rows[i] in rows;
    if PriorSeen(cfg, events, rows[i], who) {
      var f :| f in events && PriorFor(cfg, f, rows[i], who);
      var e :| e in events && Visible(cfg, e) && rows[i] == RowOf(cfg, e);
      assert Visible(cfg, f);
      EarlierNamed(rows, i, RowOf(cfg, f), who);
    }
  }

  lemma EarlierNamed(rows: seq<Row>, i: nat, r: Row, who: Party)
    requires RowsInOrder(rows) && i < |rows| && r in rows && r.id < rows[i].id && r.key == rows[i].key
    ensures Name(r, who) in Names(rows[..i], rows[i].key, who)
  {
    var j :| 0 <= j < |rows| && rows[j] == r;
    assert j < i;
    assert rows[..i][j] == r && r in rows[..i];
  }

  /** Runs with any limits over one raw table. */
  function Cuts(events: seq<Event>, limits: seq<nat>): (ticks: seq<Tick>)
    ensures |ticks| == |limits| && forall t | t in ticks :: t.events == events
  {
    if |limits| == 0 then [] else Cuts(events, limits[..|limits| - 1]) + [Tick(events, limits[|limits| - 1])]
  }

  lemma CutsSnoc(events: seq<Event>, limits: seq<nat>)
    requires |limits| > 0
    ensures var n := |limits| - 1;
      Cuts(events, limits)[..n] == Cuts(events, limits[..n]) && Cuts(events, limits)[n] == Tick(events, limits[n])
  {
  }

  lemma {:induction false} CutsOrderly(cfg: Config, events: seq<Event>, limits: seq<nat>)
    requires EventsInOrder(events) && VisibleInOrder(cfg, events)
    ensures Orderly(cfg, Cuts(events, limits))
  {
    if |limits| > 0 {
      hide View, Suppressed, VisibleInOrder, Run;
      var n := |limits| - 1;
      CutsOrderly(cfg, events, limits[..n]);
      CutsSnoc(events, limits);
      InOrderNoneSuppressed(cfg, events);
      if n == 0 { NothingCovered(cfg, events); }
    }
  }

  lemma NothingCovered(cfg: Config, events: seq<Event>)
    requires EventsInOrder(events)
    ensures Position(cfg, [], None) == 0 == Position(cfg, events, None)
    ensures View(cfg, [])[..0] == View(cfg, events)[..0]
  {
  }

  /** For any way of cutting an in-order stream into batches, the accumulated table equals
      the rebuild of the rows consumed, distinct counts included. */
  lemma AnyCutting(cfg: Config, events: seq<Event>, limits: seq<nat>)
    requires EventsInOrder(events) && VisibleInOrder(cfg, events) && |limits| > 0
    ensures Faithful(cfg, events, Play(cfg, Cuts(events, limits)))
  {
    hide Orderly, Play, Faithful, Cuts;
    CutsOrderly(cfg, events, limits);
    CutsSnoc(events, limits);
    ScheduleExact(cfg, Cuts(events, limits));
  }

  // ---------------------------------------------------------------------------
  // Passes: repair, then a batch
  // ---------------------------------------------------------------------------

  /** No key the repair rebuilds has a visible row above the checkpoint. */
  predicate RepairsConsumed(cfg: Config, events: seq<Event>, s: State, ids: set<int>)
    requires EventsInOrder(events)
  {
    var rows := View(cfg, events);
    forall i | Position(cfg, events, s.checkpoint) <= i < |rows| ::
      rows[i].key !in RepairKeys(cfg, events, s.daily, ids)
  }

  /** When every mutated event is queued, a whole pass keeps the table equal to the rebuild of
      the rows its checkpoint covers if and only if every key it repairs was fully consumed
      and no fetched row is suppressed. */
  lemma PassExactly(cfg: Config, before: seq<Event>, after: seq<Event>, s: State, ids: set<int>, limit: nat)
    requires EventsInOrder(before) && EventsInOrder(after) && MutatedOnly(before, after, ids)
    requires Faithful(cfg, before, s)
    ensures Faithful(cfg, after, Pass(cfg, after, s, ids, limit)) <==>
      && RepairsConsumed(cfg, after, s, ids)
      && NoneSuppressed(cfg, after, Position(cfg, after, s.checkpoint), BatchEnd(cfg, after, s.checkpoint, limit))
  {
    hide View, Faithful, Repair, RepairKeys, Run, NoneSuppressed, EventsInOrder, Position, BatchEnd;
    var keys := RepairKeys(cfg, after, s.daily, ids);
    var repaired := s.(daily := Repair(cfg, after, s.daily, keys));
    RepairExactly(cfg, before, after, s, ids);
    if RepairsConsumed(cfg, after, s, ids) {
      RunExactly(cfg, after, repaired, limit);
    } else {
      var rows := View(cfg, after);
      var i :| Position(cfg, after, s.checkpoint) <= i < |rows| && rows[i].key in keys;
      CountedAgain(cfg, after, s, keys, limit, i);
    }
  }

  /** A rebuilt key that still has an unconsumed row ends with too many tickets, whatever
      the run then fetches. */
  lemma CountedAgain(cfg: Config, events: seq<Event>, s: State, keys: set<Key>, limit: nat, i: nat)
    requires EventsInOrder(events)
    requires Position(cfg, events, s.checkpoint) <= i < |View(cfg, events)| && View(cfg, events)[i].key in keys
    ensures !Faithful(cfg, events, Run(cfg, events, s.(daily := Repair(cfg, events, s.daily, keys)), limit))
  {
    hide View, EventsInOrder;
    var rows := View(cfg, events);
    var k := rows[i].key;
    var p, q := Position(cfg, events, s.checkpoint), BatchEnd(cfg, events, s.checkpoint, limit);
    var repaired := s.(daily := Repair(cfg, events, s.daily, keys));
    PositionAfterRun(cfg, events, repaired, limit);
    RebuiltTotal(cfg, events, s.daily, keys, i);
    MoreTickets(rows, p, q, i);
    TicketsAdd(cfg, events, repaired.daily, rows[p..q], k);
    hide Total, BatchAggregate, Repair, ApplyBatch, Group, Position, BatchEnd;
    var next := Run(cfg, events, repaired, limit);
    assert k in next.daily && next.daily[k].ticketCount > |Group(rows[..q], k)|;
    BuiltTickets(rows[..q], k);
  }

  lemma RebuiltTotal(cfg: Config, events: seq<Event>, daily: map<Key, Aggregate>, keys: set<Key>, i: nat)
    requires i < |View(cfg, events)| && View(cfg, events)[i].key in keys
    ensures var rows := View(cfg, events);
      var repaired := Repair(cfg, events, daily, keys);
      rows[i].key in repaired && repaired[rows[i].key].ticketCount == |Group(rows, rows[i].key)|
  {
    hide View;
    assert View(cfg, events)[i] in View(cfg, events);
  }

  lemma MoreTickets(rows: seq<Row>, p: nat, q: nat, i: nat)
    requires p <= q <= |rows| && p <= i < |rows|
    ensures var k := rows[i].key;
      |Group(rows, k)| + |Group(rows[p..q], k)| > |Group(rows[..q], k)|
  {
    var k := rows[i].key;
    assert rows == rows[..p] + rows[p..] && rows[..q] == rows[..p] + rows[p..q];
    GroupConcat(rows[..p], rows[p..], k);
    GroupConcat(rows[..p], rows[p..q], k);
    GroupMembers(rows[p..], k);
    assert rows[p..][i - p] == rows[i] && rows[i] in rows[p..];
    assert rows[i] in Group(rows[p..], k);
  }

  lemma TicketsAdd(cfg: Config, events: seq<Event>, daily: map<Key, Aggregate>, batch: seq<Row>, k: Key)
    requires k in daily
    ensures var next := ApplyBatch(cfg, events, daily, batch);
      k in next && next[k].ticketCount == daily[k].ticketCount + |Group(batch, k)|
  {
    TotalOfAbsentKey(batch, k);
    hide Group, Counted, MaxId;
  }

  lemma BuiltTickets(rows: seq<Row>, k: Key)
    ensures k in Build(rows) ==> Build(rows)[k].ticketCount == |Group(rows, k)|
  {
  }
}
