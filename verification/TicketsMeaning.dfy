/** What the ticket rollup counts, in the columns of the raw events
    (crates/livepeer-rollups/src/tickets.rs): which tickets lie under which key, what a key's
    row of the table holds, what the queries return, and which mutations are repaired. */
module TicketsMeaning {
  import opened ReorgQueue
  import opened SortedRows
  import opened Wrappers
  import opened Tickets
  import opened TicketsChanges
  import opened TicketsRollup
  import opened TicketsSchedules

  // ---------------------------------------------------------------------------
  // Keys
  // ---------------------------------------------------------------------------

  predicate OnDay(e: Event, day: int) { day * 86400 <= e.timestamp < (day + 1) * 86400 }

  /** The classification of the event's sender, "transcoding" when it has none. */
  predicate IsKind(kinds: map<Address, string>, e: Event, kind: string) {
    if e.gateway.Some? && e.gateway.value in kinds then kind == kinds[e.gateway.value] else kind == "transcoding"
  }

  /** The query returns the event, under this key. */
  predicate Files(cfg: Config, e: Event, key: Key) {
    && e.isTicket && e.canonical && (e.finalized || cfg.includeTentative)
    && e.gateway != None && e.orchestrator != None
    && OnDay(e, key.day) && IsKind(cfg.kinds, e, key.kind)
  }

  lemma KeyMeans(cfg: Config, e: Event, key: Key)
    ensures KeyOf(cfg, e) == key <==> OnDay(e, key.day) && IsKind(cfg.kinds, e, key.kind)
  {
    DayMeans(e.timestamp, key.day);
  }

  lemma DayMeans(timestamp: int, day: int)
    ensures timestamp / SECONDS_PER_DAY == day <==> day * 86400 <= timestamp < (day + 1) * 86400
  {
  }

  /** An event of the raw table is shown under a key exactly when it files there, with its own
      gateway and orchestrator. */
  lemma ShownMeans(cfg: Config, events: seq<Event>, e: Event, key: Key, gateway: Address, orchestrator: Address)
    requires EventsInOrder(events) && e in events
    ensures Row(e.id, key, gateway, orchestrator) in View(cfg, events) <==>
      Files(cfg, e, key) && e.gateway == Some(gateway) && e.orchestrator == Some(orchestrator)
  {
    ViewRows(cfg, events);
    KeyMeans(cfg, e, key);
    hide View, KeyOf, OnDay, IsKind;
    var r := Row(e.id, key, gateway, orchestrator);
    if r in View(cfg, events) {
      var f :| f in events && Visible(cfg, f) && r == RowOf(cfg, f);
      SameId(events, e, f);
    } else if Visible(cfg, e) {
      assert RowOf(cfg, e) in View(cfg, events);
    }
  }

  lemma SameId(events: seq<Event>, e: Event, f: Event)
    requires EventsInOrder(events) && e in events && f in events && e.id == f.id
    ensures e == f
  {
    var i :| 0 <= i < |events| && events[i] == e;
    var j :| 0 <= j < |events| && events[j] == f;
  }

  // ---------------------------------------------------------------------------
  // The table
  // ---------------------------------------------------------------------------

  /** The events that lie under a key, in id order. */
  function Filed(cfg: Config, events: seq<Event>, key: Key): seq<Event> {
    if |events| == 0 then []
    else
      var n := |events| - 1;
      Filed(cfg, events[..n], key) + if Files(cfg, events[n], key) then [events[n]] else []
  }

  function GatewaysOf(filed: seq<Event>): set<Option<Address>> { set e | e in filed :: e.gateway }

  function OrchestratorsOf(filed: seq<Event>): set<Option<Address>> { set e | e in filed :: e.orchestrator }

  /** A key's group of the view is its filed events, one row each. */
  predicate SameTickets(group: seq<Row>, filed: seq<Event>) {
    && |group| == |filed|
    && forall i | 0 <= i < |group| ::
      && group[i].id == filed[i].id
      && Some(group[i].gateway) == filed[i].gateway && Some(group[i].orchestrator) == filed[i].orchestrator
  }

  lemma {:induction false} GroupMeans(cfg: Config, events: seq<Event>, key: Key)
    ensures SameTickets(Group(View(cfg, events), key), Filed(cfg, events, key))
  {
    if |events| > 0 {
      var n := |events| - 1;
      var rest, e := events[..n], events[n];
      GroupMeans(cfg, rest, key);
      FilesMeans(cfg, e, key);
      hide *;
      assert events == rest + [e];
      OneMoreEvent(cfg, rest, e, key);
      FiledSnoc(cfg, rest, e, key);
      OneMoreTicket(cfg, Group(View(cfg, rest), key), Filed(cfg, rest, key), e, key);
    } else {
      EmptyView(cfg);
      assert Group([], key) == [];
    }
  }

  lemma FilesMeans(cfg: Config, e: Event, key: Key)
    ensures Files(cfg, e, key) <==> Visible(cfg, e) && KeyOf(cfg, e) == key
  {
    KeyMeans(cfg, e, key);
    hide KeyOf, OnDay, IsKind;
  }

  lemma FiledSnoc(cfg: Config, events: seq<Event>, e: Event, key: Key)
    ensures Filed(cfg, events + [e], key) == Filed(cfg, events, key) + if Files(cfg, e, key) then [e] else []
  {
    hide Files;
    assert (events + [e])[..|events|] == events;
  }

  lemma OneMoreTicket(cfg: Config, group: seq<Row>, filed: seq<Event>, e: Event, key: Key)
    requires SameTickets(group, filed) && (Files(cfg, e, key) <==> Visible(cfg, e) && KeyOf(cfg, e) == key)
    ensures SameTickets(group + if Visible(cfg, e) && KeyOf(cfg, e) == key then [RowOf(cfg, e)] else [],
                        filed + if Files(cfg, e, key) then [e] else [])
  {
    hide Files, KeyOf;
    assert group + [] == group && filed + [] == filed;
  }

  /** The rebuild has a row for a key exactly when some event files there; it holds their
      number, how many different gateways and orchestrators they name, and the last id. */
  lemma BuildMeans(cfg: Config, events: seq<Event>, key: Key)
    requires EventsInOrder(events)
    ensures var table, filed := Build(View(cfg, events)), Filed(cfg, events, key);
      && (key in table <==> filed != [])
      && (key in table ==>
          && table[key].ticketCount == |filed|
          && table[key].distinctGateways == |GatewaysOf(filed)|
          && table[key].distinctOrchestrators == |OrchestratorsOf(filed)|
          && table[key].sourceMaxEventId == filed[|filed| - 1].id)
  {
    ViewInOrder(cfg, events);
    GroupMeans(cfg, events, key);
    hide *;
    BuildAt(View(cfg, events), key);
    SameSize(Group(View(cfg, events), key), Filed(cfg, events, key));
    if Filed(cfg, events, key) != [] { TotalMeans(View(cfg, events), Filed(cfg, events, key), key); }
  }

  lemma ViewInOrder(cfg: Config, events: seq<Event>)
    requires EventsInOrder(events)
    ensures RowsInOrder(View(cfg, events))
  {
    ViewRows(cfg, events);
  }

  lemma BuildAt(rows: seq<Row>, key: Key)
    ensures key in Build(rows) <==> Group(rows, key) != []
    ensures key in Build(rows) ==> Build(rows)[key] == Total(rows, key)
  {
    hide Total, Group;
    TotalOfAbsentKey(rows, key);
  }

  lemma SameSize(group: seq<Row>, filed: seq<Event>)
    requires SameTickets(group, filed)
    ensures |group| == |filed|
  {
  }

  lemma TotalMeans(rows: seq<Row>, filed: seq<Event>, key: Key)
    requires RowsInOrder(rows) && SameTickets(Group(rows, key), filed) && filed != []
    ensures var total := Total(rows, key);
      && total.ticketCount == |filed|
      && total.distinctGateways == |GatewaysOf(filed)|
      && total.distinctOrchestrators == |OrchestratorsOf(filed)|
      && total.sourceMaxEventId == filed[|filed| - 1].id
  {
    GroupInOrder(rows, key);
    var group := Group(rows, key);
    LastIsMax(group);
    NamesOfGroup(rows, key, Gateway);
    NamesOfGroup(rows, key, Orchestrator);
    hide Group, Names, GatewaysOf, OrchestratorsOf;
    NamesMean(group, filed, Names(rows, key, Gateway), Gateway);
    NamesMean(group, filed, Names(rows, key, Orchestrator), Orchestrator);
  }

  lemma NamesOfGroup(rows: seq<Row>, key: Key, who: Party)
    ensures Names(rows, key, who) == set r | r in Group(rows, key) :: Name(r, who)
  {
    GroupMembers(rows, key);
    hide Group, Name;
  }

  lemma {:induction false} LastIsMax(rows: seq<Row>)
    requires RowsInOrder(rows) && |rows| > 0
    ensures MaxId(rows) == rows[|rows| - 1].id
  {
    if |rows| > 1 { LastIsMax(rows[..|rows| - 1]); }
  }

  /** The parties the rows name are the parties the events name. */
  lemma NamesMean(group: seq<Row>, filed: seq<Event>, names: set<Address>, who: Party)
    requires SameTickets(group, filed) && names == set r | r in group :: Name(r, who)
    ensures who == Gateway ==> |names| == |GatewaysOf(filed)|
    ensures who == Orchestrator ==> |names| == |OrchestratorsOf(filed)|
  {
    var seen := set a | a in names :: Some(a);
    SomeSize(names, seen);
    forall a ensures Some(a) in seen <==> exists i :: 0 <= i < |group| && Name(group[i], who) == a {
      if Some(a) in seen {
        var r :| r in group && Name(r, who) == a;
        var i :| 0 <= i < |group| && group[i] == r;
      } else {
        forall i | 0 <= i < |group| ensures Name(group[i], who) != a { assert group[i] in group; }
      }
    }
    if who == Gateway {
      assert seen == set e | e in filed :: e.gateway by { SeenGateways(group, filed, seen); }
    } else {
      assert seen == set e | e in filed :: e.orchestrator by { SeenOrchestrators(group, filed, seen); }
    }
  }

  lemma SeenGateways(group: seq<Row>, filed: seq<Event>, seen: set<Option<Address>>)
    requires SameTickets(group, filed) && None !in seen
    requires forall a :: Some(a) in seen <==> exists i :: 0 <= i < |group| && Name(group[i], Gateway) == a
    ensures seen == set e | e in filed :: e.gateway
  {
    forall o | o in seen ensures exists e :: e in filed && e.gateway == o {
      assert o == Some(o.value);
      var i :| 0 <= i < |group| && Name(group[i], Gateway) == o.value;
      assert filed[i] in filed && filed[i].gateway == o;
    }
    forall e | e in filed ensures e.gateway in seen {
      var i :| 0 <= i < |filed| && filed[i] == e;
      assert Name(group[i], Gateway) == e.gateway.value;
    }
  }

  lemma SeenOrchestrators(group: seq<Row>, filed: seq<Event>, seen: set<Option<Address>>)
    requires SameTickets(group, filed) && None !in seen
    requires forall a :: Some(a) in seen <==> exists i :: 0 <= i < |group| && Name(group[i], Orchestrator) == a
    ensures seen == set e | e in filed :: e.orchestrator
  {
    forall o | o in seen ensures exists e :: e in filed && e.orchestrator == o {
      assert o == Some(o.value);
      var i :| 0 <= i < |group| && Name(group[i], Orchestrator) == o.value;
      assert filed[i] in filed && filed[i].orchestrator == o;
    }
    forall e | e in filed ensures e.orchestrator in seen {
      var i :| 0 <= i < |filed| && filed[i] == e;
      assert Name(group[i], Orchestrator) == e.orchestrator.value;
    }
  }

  lemma {:induction false} SomeSize(names: set<Address>, seen: set<Option<Address>>)
    requires seen == set a | a in names :: Some(a)
    ensures |seen| == |names|
  {
    if names == {} {
      assert seen == {};
    } else {
      var a :| a in names;
      var rest := set b | b in names - {a} :: Some(b);
      SomeSize(names - {a}, rest);
      assert seen == rest + {Some(a)};
    }
  }

  /** What a right table holds: the same of the events at or below its checkpoint. */
  lemma TableMeans(cfg: Config, events: seq<Event>, s: State, key: Key)
    requires EventsInOrder(events) && Faithful(cfg, events, s)
    ensures var filed := Filed(cfg, UpTo(events, s.checkpoint), key);
      && (key in s.daily <==> filed != [])
      && (key in s.daily ==>
          && s.daily[key].ticketCount == |filed|
          && s.daily[key].distinctGateways == |GatewaysOf(filed)|
          && s.daily[key].distinctOrchestrators == |OrchestratorsOf(filed)|
          && s.daily[key].sourceMaxEventId == filed[|filed| - 1].id)
  {
    hide View, Build, Filed, UpTo, GatewaysOf, OrchestratorsOf;
    var m := EventsBelow(events, s.checkpoint);
    PositionCutsEvents(cfg, events, s.checkpoint);
    assert View(cfg, events)[..|View(cfg, events[..m])|] == View(cfg, events[..m]);
    UpToIs(events, s.checkpoint, m);
    BuildMeans(cfg, events[..m], key);
  }

  /** The events at or below the checkpoint. */
  function UpTo(events: seq<Event>, cp: Option<int>): seq<Event> {
    if |events| == 0 then []
    else
      var n := |events| - 1;
      UpTo(events[..n], cp) + if Covered(events[n], cp) then [events[n]] else []
  }

  predicate Covered(e: Event, cp: Option<int>) { cp.Some? && e.id <= cp.value }

  lemma {:induction false} UpToIs(events: seq<Event>, cp: Option<int>, m: nat)
    requires m <= |events| && forall i | 0 <= i < |events| :: Covered(events[i], cp) <==> i < m
    ensures UpTo(events, cp) == events[..m]
  {
    if |events| > 0 {
      var n := |events| - 1;
      var rest := events[..n];
      assert Covered(events[n], cp) <==> n < m;
      forall i | 0 <= i < n ensures Covered(rest[i], cp) <==> i < m { assert rest[i] == events[i]; }
      if m == |events| {
        UpToIs(rest, cp, n);
        assert rest[..n] == rest;
        assert events[..m] == rest + [events[n]];
      } else {
        UpToIs(rest, cp, m);
        assert rest[..m] == events[..m];
      }
    }
  }

  /** Two configurations that classify the gateways of the shown tickets alike show, and so
      count, the same. */
  lemma {:induction false} KindsDecide(a: Config, b: Config, events: seq<Event>)
    requires a.includeTentative == b.includeTentative
    requires forall e | e in events && e.gateway.Some? && Visible(a, e) ::
      if e.gateway.value in a.kinds && e.gateway.value in b.kinds then
        a.kinds[e.gateway.value] == b.kinds[e.gateway.value]
      else e.gateway.value !in a.kinds && e.gateway.value !in b.kinds
    ensures View(a, events) == View(b, events) && Build(View(a, events)) == Build(View(b, events))
  {
    if |events| > 0 {
      var n := |events| - 1;
      assert events[n] in events && forall e | e in events[..n] :: e in events;
      KindsDecide(a, b, events[..n]);
    }
  }

  // ---------------------------------------------------------------------------
  // The queries
  // ---------------------------------------------------------------------------

  /** The anti-joins look for an earlier canonical ticket, shown or not, of the same gateway,
      or the same orchestrator, whose day and kind are the key's. */
  lemma PriorMeans(cfg: Config, events: seq<Event>, r: Row)
    ensures PriorSeen(cfg, events, r, Gateway) <==>
      exists e :: e in events && e.isTicket && e.canonical && e.id < r.id && e.gateway == Some(r.gateway)
        && OnDay(e, r.key.day) && IsKind(cfg.kinds, e, r.key.kind)
    ensures PriorSeen(cfg, events, r, Orchestrator) <==>
      exists e :: e in events && e.isTicket && e.canonical && e.id < r.id && e.orchestrator == Some(r.orchestrator)
        && OnDay(e, r.key.day) && IsKind(cfg.kinds, e, r.key.kind)
  {
    forall e ensures KeyOf(cfg, e) == r.key <==> OnDay(e, r.key.day) && IsKind(cfg.kinds, e, r.key.kind) {
      KeyMeans(cfg, e, r.key);
    }
    hide KeyOf, OnDay, IsKind;
    if PriorSeen(cfg, events, r, Gateway) { var e :| e in events && PriorFor(cfg, e, r, Gateway); }
    if PriorSeen(cfg, events, r, Orchestrator) { var e :| e in events && PriorFor(cfg, e, r, Orchestrator); }
    forall e | e in events && e.isTicket && e.canonical && e.id < r.id && e.gateway == Some(r.gateway)
        && OnDay(e, r.key.day) && IsKind(cfg.kinds, e, r.key.kind)
      ensures PriorSeen(cfg, events, r, Gateway)
    {
      assert PriorFor(cfg, e, r, Gateway);
    }
    forall e | e in events && e.isTicket && e.canonical && e.id < r.id && e.orchestrator == Some(r.orchestrator)
        && OnDay(e, r.key.day) && IsKind(cfg.kinds, e, r.key.kind)
      ensures PriorSeen(cfg, events, r, Orchestrator)
    {
      assert PriorFor(cfg, e, r, Orchestrator);
    }
  }

  /** The next batch is the first shown rows above the checkpoint, up to the limit. */
  lemma FetchMeans(rows: seq<Row>, cp: Option<int>, limit: nat)
    requires RowsInOrder(rows)
    ensures var batch := Fetch(rows, cp, limit);
      && |batch| <= limit
      && (forall r | r in batch :: r in rows && (cp.Some? ==> cp.value < r.id))
      && (forall r | r in rows && (cp.Some? ==> cp.value < r.id) && r !in batch ::
          |batch| == limit && forall b | b in batch :: b.id < r.id)
  {
    forall r | r in Fetch(rows, cp, limit) ensures r in rows && (cp.Some? ==> cp.value < r.id) {
      FetchedIs(rows, cp, limit, r);
    }
    forall r | r in rows && (cp.Some? ==> cp.value < r.id) && r !in Fetch(rows, cp, limit)
      ensures |Fetch(rows, cp, limit)| == limit && forall b | b in Fetch(rows, cp, limit) :: b.id < r.id
    {
      NotFetched(rows, cp, limit, r);
    }
  }

  lemma FetchedIs(rows: seq<Row>, cp: Option<int>, limit: nat, r: Row)
    requires RowsInOrder(rows) && r in Fetch(rows, cp, limit)
    ensures exists i :: Consumed(rows, cp) <= i < Consumed(rows, cp) + |Fetch(rows, cp, limit)| && rows[i] == r
    ensures r in rows && (cp.Some? ==> cp.value < r.id)
  {
    hide Consumed, RowsInOrder;
    var p, batch := Consumed(rows, cp), Fetch(rows, cp, limit);
    var i :| 0 <= i < |batch| && batch[i] == r;
    assert rows[p + i] == r;
  }

  lemma NotFetched(rows: seq<Row>, cp: Option<int>, limit: nat, r: Row)
    requires RowsInOrder(rows) && r in rows && (cp.Some? ==> cp.value < r.id) && r !in Fetch(rows, cp, limit)
    ensures |Fetch(rows, cp, limit)| == limit && forall b | b in Fetch(rows, cp, limit) :: b.id < r.id
  {
    var p, batch := Consumed(rows, cp), Fetch(rows, cp, limit);
    var i :| 0 <= i < |rows| && rows[i] == r;
    forall j | p <= j < p + |batch| ensures rows[j] in batch { assert batch[j - p] == rows[j]; }
    assert p + |batch| <= i;
    forall b | b in batch ensures b.id < r.id { FetchedIs(rows, cp, limit, b); }
  }

  /** The keys a repair rebuilds, in columns. */
  lemma RepairKeysMean(cfg: Config, events: seq<Event>, daily: map<Key, Aggregate>, ids: set<int>, key: Key)
    ensures key in RepairKeys(cfg, events, daily, ids) <==>
      || (key in daily && exists id :: id in ids && id <= daily[key].sourceMaxEventId)
      || (exists e :: e in events && e.id in ids && Files(cfg, e, key))
  {
    forall e ensures KeyOf(cfg, e) == key <==> OnDay(e, key.day) && IsKind(cfg.kinds, e, key.kind) {
      KeyMeans(cfg, e, key);
    }
    hide KeyOf, OnDay, IsKind;
  }

  // ---------------------------------------------------------------------------
  // The queue
  // ---------------------------------------------------------------------------

  /** The event has a mutation in the queue the worker has not drained. */
  predicate Queued(mutations: seq<Mutation>, reorgCheckpoint: Option<int>, id: int) {
    exists m :: m in mutations && m.eventId == id
      && (match reorgCheckpoint case Some(done) => done < m.id case None => 0 < m.id)
  }

  /** A pass repairs the queued mutations of tickets, whether or not still canonical, and of
      nothing else. */
  lemma RepairedMeans(events: seq<Event>, mutations: seq<Mutation>, reorgCheckpoint: Option<int>, id: int)
    ensures id in EventIds(Pending(TicketIds(events), mutations, reorgCheckpoint)) <==>
      Queued(mutations, reorgCheckpoint, id) && exists e :: e in events && e.id == id && e.isTicket
  {
    PendingAre(TicketIds(events), mutations, reorgCheckpoint);
    hide Pending;
  }

  /** The worker's pass over its own queue: when every event that changed is a ticket whose
      mutation is queued, RunOnce leaves the table right if and only if each repaired key was
      fully consumed and no fetched row is suppressed. */
  lemma QueuedPassExactly(cfg: Config, before: seq<Event>, events: seq<Event>, mutations: seq<Mutation>,
                          reorgCheckpoint: Option<int>, s: State, limit: nat)
    requires EventsInOrder(before) && EventsInOrder(events) && Faithful(cfg, before, s) && |before| == |events|
    requires forall i | 0 <= i < |events| :: before[i].id == events[i].id
    requires forall i | 0 <= i < |events| && before[i] != events[i] ::
      events[i].isTicket && Queued(mutations, reorgCheckpoint, events[i].id)
    ensures var ids := EventIds(Pending(TicketIds(events), mutations, reorgCheckpoint));
      Faithful(cfg, events, Pass(cfg, events, s, ids, limit)) <==>
      && RepairsConsumed(cfg, events, s, ids)
      && NoneSuppressed(cfg, events, Position(cfg, events, s.checkpoint), BatchEnd(cfg, events, s.checkpoint, limit))
  {
    hide View, Faithful, Pass, RepairsConsumed, NoneSuppressed, Position, BatchEnd, Queued, Pending, TicketIds,
      EventIds;
    var ids := EventIds(Pending(TicketIds(events), mutations, reorgCheckpoint));
    forall i | 0 <= i < |events| && before[i] != events[i] ensures events[i].id in ids {
      RepairedMeans(events, mutations, reorgCheckpoint, events[i].id);
      assert events[i] in events;
    }
    PassExactly(cfg, before, events, s, ids, limit);
  }
}
