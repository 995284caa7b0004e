/** The daily ticket rollup (crates/livepeer-rollups/src/tickets.rs): an additive,
    checkpointed batch that maintains counts and two distinct counts per day and
    broadcaster kind, and a rebuild that repairs the days a reorg touched.

    The raw event table is a sequence in id order. `Build` is the one-shot meaning of
    the rollup; the class is the code; the lemmas say when the two agree. */
module Tickets {
  import opened Checkpoints
  import opened Sets
  import opened Wrappers

  type Address = string

  datatype Event = Event(
    id: int,
    timestamp: int,
    isTicket: bool,
    gateway: Option<Address>,
    orchestrator: Option<Address>,
    finalized: bool,
    canonical: bool)

  datatype Key = Key(day: int, kind: string)

  datatype Row = Row(id: int, key: Key, gateway: Address, orchestrator: Address)

  datatype Aggregate = Aggregate(
    ticketCount: nat,
    distinctOrchestrators: nat,
    distinctGateways: nat,
    sourceMaxEventId: int)

  /** Which of the two distinct counts is meant. */
  datatype Party = Gateway | Orchestrator

  /** The settings a run reads: the broadcaster classifications and the finality filter. */
  datatype Config = Config(kinds: map<Address, string>, includeTentative: bool)

  const SECONDS_PER_DAY: int := 86400

  // ---------------------------------------------------------------------------
  // The SQL view: classified, visible ticket rows in id order
  // ---------------------------------------------------------------------------

  function KeyOf(cfg: Config, e: Event): Key {
    Key(e.timestamp / SECONDS_PER_DAY,
        if e.gateway.Some? && e.gateway.value in cfg.kinds then cfg.kinds[e.gateway.value] else "transcoding")
  }

  predicate IsCanonicalTicket(e: Event) { e.isTicket && e.canonical }

  predicate Visible(cfg: Config, e: Event) {
    && IsCanonicalTicket(e)
    && (cfg.includeTentative || e.finalized)
    && e.gateway.Some? && e.orchestrator.Some?
  }

  function RowOf(cfg: Config, e: Event): Row
    requires Visible(cfg, e)
  {
    Row(e.id, KeyOf(cfg, e), e.gateway.value, e.orchestrator.value)
  }

  function View(cfg: Config, events: seq<Event>): (rows: seq<Row>) {
    if |events| == 0 then []
    else
      var n := |events| - 1;
      View(cfg, events[..n]) + (if Visible(cfg, events[n]) then [RowOf(cfg, events[n])] else [])
  }

  predicate EventsInOrder(events: seq<Event>) {
    && (forall i | 0 <= i < |events| :: events[i].id >= 1)
    && (forall i, j | 0 <= i < j < |events| :: events[i].id < events[j].id)
  }

  predicate RowsInOrder(rows: seq<Row>) {
    && (forall i | 0 <= i < |rows| :: rows[i].id >= 1)
    && (forall i, j | 0 <= i < j < |rows| :: rows[i].id < rows[j].id)
  }

  /** The view is in id order and holds exactly the rows of the visible events. */
  lemma {:induction false} ViewRows(cfg: Config, events: seq<Event>)
    requires EventsInOrder(events)
    ensures RowsInOrder(View(cfg, events))
    ensures forall r :: r in View(cfg, events) <==> exists e :: e in events && Visible(cfg, e) && r == RowOf(cfg, e)
  {
    if |events| > 0 {
      var n := |events| - 1;
      ViewRows(cfg, events[..n]);
      assert events == events[..n] + [events[n]];
      var rest := View(cfg, events[..n]);
      forall i | 0 <= i < |rest|
        ensures rest[i].id < events[n].id
      {
        assert rest[i] in rest;
      }
    }
  }

  // ---------------------------------------------------------------------------
  // The one-shot meaning of the rollup
  // ---------------------------------------------------------------------------

  function Group(rows: seq<Row>, key: Key): seq<Row> {
    if |rows| == 0 then []
    else
      var n := |rows| - 1;
      Group(rows[..n], key) + (if rows[n].key == key then [rows[n]] else [])
  }

  function Name(r: Row, who: Party): Address {
    match who case Gateway => r.gateway case Orchestrator => r.orchestrator
  }

  /** The parties of a kind seen in the rows of a key. */
  function Names(rows: seq<Row>, key: Key, who: Party): set<Address> {
    set r | r in rows && r.key == key :: Name(r, who)
  }

  function MaxId(rows: seq<Row>): int {
    if |rows| == 0 then 0 else Max(MaxId(rows[..|rows| - 1]), rows[|rows| - 1].id)
  }

  /** The true aggregate of a key. */
  function Total(rows: seq<Row>, key: Key): Aggregate {
    Aggregate(|Group(rows, key)|, |Names(rows, key, Orchestrator)|, |Names(rows, key, Gateway)|,
              MaxId(Group(rows, key)))
  }

  function KeysOf(rows: seq<Row>): set<Key> { set r | r in rows :: r.key }

  /** The table built from scratch. */
  function Build(rows: seq<Row>): map<Key, Aggregate> {
    map k | k in KeysOf(rows) :: Total(rows, k)
  }

  // ---------------------------------------------------------------------------
  // Checkpointed batches
  // ---------------------------------------------------------------------------

  /** How many rows lie at or below the checkpoint. */
  function Consumed(rows: seq<Row>, cp: Option<int>): (p: nat)
    requires RowsInOrder(rows)
    ensures p <= |rows|
    ensures forall i | 0 <= i < p :: cp.Some? && rows[i].id <= cp.value
    ensures forall i | p <= i < |rows| :: cp.None? || cp.value < rows[i].id
  {
    if |rows| == 0 || cp.None? then 0
    else if rows[|rows| - 1].id <= cp.value then |rows|
    else Consumed(rows[..|rows| - 1], cp)
  }

  /** The rows above the checkpoint, in id order, at most `limit` of them. */
  function Fetch(rows: seq<Row>, cp: Option<int>, limit: nat): (batch: seq<Row>)
    requires RowsInOrder(rows)
    ensures RowsInOrder(batch)
  {
    var p := Consumed(rows, cp);
    rows[p..p + Min(limit, |rows| - p)]
  }

  /** Whether the anti-join query finds an earlier ticket of the same party and key.
      Unlike the view it looks at every canonical ticket, finalized or not. */
  predicate PriorSeen(cfg: Config, events: seq<Event>, r: Row, who: Party) {
    exists e :: e in events && PriorFor(cfg, e, r, who)
  }

  predicate PriorFor(cfg: Config, e: Event, r: Row, who: Party) {
    && IsCanonicalTicket(e)
    && e.id < r.id
    && (match who case Gateway => e.gateway case Orchestrator => e.orchestrator) == Some(Name(r, who))
    && KeyOf(cfg, e) == r.key
  }

  /** The parties a batch adds to a key's distinct count: the first row of a party
      in the batch, unless the anti-join finds an earlier ticket. */
  function Counted(cfg: Config, events: seq<Event>, batch: seq<Row>, key: Key, who: Party): set<Address> {
    if |batch| == 0 then {}
    else
      var n := |batch| - 1;
      var r := batch[n];
      Counted(cfg, events, batch[..n], key, who) +
      if r.key == key && Name(r, who) !in Names(batch[..n], key, who) && !PriorSeen(cfg, events, r, who)
      then {Name(r, who)} else {}
  }

  function BatchAggregate(cfg: Config, events: seq<Event>, batch: seq<Row>, key: Key): Aggregate {
    Aggregate(|Group(batch, key)|,
              |Counted(cfg, events, batch, key, Orchestrator)|,
              |Counted(cfg, events, batch, key, Gateway)|,
              MaxId(Group(batch, key)))
  }

  function Add(a: Aggregate, b: Aggregate): Aggregate {
    Aggregate(a.ticketCount + b.ticketCount,
              a.distinctOrchestrators + b.distinctOrchestrators,
              a.distinctGateways + b.distinctGateways,
              Max(a.sourceMaxEventId, b.sourceMaxEventId))
  }

  function Upsert(daily: map<Key, Aggregate>, key: Key, agg: Aggregate): map<Key, Aggregate> {
    daily[key := if key in daily then Add(daily[key], agg) else agg]
  }

  /** The table after a batch. */
  function ApplyBatch(cfg: Config, events: seq<Event>, daily: map<Key, Aggregate>, batch: seq<Row>)
    : map<Key, Aggregate>
  {
    map k | k in daily.Keys + KeysOf(batch) ::
      if k !in KeysOf(batch) then daily[k]
      else if k in daily then Add(daily[k], BatchAggregate(cfg, events, batch, k))
      else BatchAggregate(cfg, events, batch, k)
  }

  function NextCheckpoint(cp: Option<int>, batch: seq<Row>): Option<int> {
    var start := if cp.Some? then cp.value else 0;
    AdvanceCheckpoint(cp, if |batch| == 0 then start else Max(start, batch[|batch| - 1].id))
  }

  // ---------------------------------------------------------------------------
  // Concatenation
  // ---------------------------------------------------------------------------

  lemma {:induction false} GroupMembers(rows: seq<Row>, key: Key)
    ensures forall r :: r in Group(rows, key) <==> r in rows && r.key == key
  {
    if |rows| > 0 {
      var n := |rows| - 1;
      GroupMembers(rows[..n], key);
      assert rows == rows[..n] + [rows[n]];
    }
  }

  lemma {:induction false} GroupConcat(a: seq<Row>, b: seq<Row>, key: Key)
    ensures Group(a + b, key) == Group(a, key) + Group(b, key)
  {
    if |b| == 0 {
      assert a + b == a;
    } else {
      var n := |b| - 1;
      GroupConcat(a, b[..n], key);
      assert (a + b)[..|a| + n] == a + b[..n];
    }
  }

  lemma {:induction false} MaxIdConcat(a: seq<Row>, b: seq<Row>)
    ensures MaxId(a + b) == Max(MaxId(a), MaxId(b)) && MaxId(b) >= 0
  {
    if |b| == 0 {
      assert a + b == a;
      MaxIdNonNegative(a);
    } else {
      var n := |b| - 1;
      MaxIdConcat(a, b[..n]);
      assert (a + b)[..|a| + n] == a + b[..n];
    }
  }

  lemma {:induction false} MaxIdNonNegative(rows: seq<Row>)
    ensures MaxId(rows) >= 0
  {
    if |rows| > 0 { MaxIdNonNegative(rows[..|rows| - 1]); }
  }

  lemma NamesConcat(a: seq<Row>, b: seq<Row>, key: Key, who: Party)
    ensures Names(a + b, key, who) == Names(a, key, who) + Names(b, key, who)
  {
  }

  lemma KeysConcat(a: seq<Row>, b: seq<Row>)
    ensures KeysOf(a + b) == KeysOf(a) + KeysOf(b)
  {
  }

  /** A key without rows has the zero aggregate. */
  lemma TotalOfAbsentKey(rows: seq<Row>, key: Key)
    ensures key !in KeysOf(rows) <==> |Group(rows, key)| == 0
    ensures key !in KeysOf(rows) ==> Total(rows, key) == Aggregate(0, 0, 0, 0)
  {
    if key !in KeysOf(rows) {
      NoGroup(rows, key);
      assert Names(rows, key, Gateway) == {} == Names(rows, key, Orchestrator);
    } else {
      GroupMembers(rows, key);
      var r :| r in rows && r.key == key;
      assert r in Group(rows, key);
    }
  }

  lemma {:induction false} NoGroup(rows: seq<Row>, key: Key)
    requires key !in KeysOf(rows)
    ensures Group(rows, key) == []
  {
    if |rows| > 0 {
      var n := |rows| - 1;
      assert rows[n] in rows;
      assert KeysOf(rows[..n]) <= KeysOf(rows);
      NoGroup(rows[..n], key);
    }
  }

  // ---------------------------------------------------------------------------
  // Distinct counts: exact unless the anti-join is fooled
  // ---------------------------------------------------------------------------

  /** Row i is the first visible row of its party under its key, and the anti-join
      finds an earlier ticket all the same: one the view does not show. */
  predicate Suppressed(cfg: Config, events: seq<Event>, i: nat, who: Party)
    requires i < |View(cfg, events)|
  {
    var rows := View(cfg, events);
    && Name(rows[i], who) !in Names(rows[..i], rows[i].key, who)
    && PriorSeen(cfg, events, rows[i], who)
  }

  predicate NoneSuppressed(cfg: Config, events: seq<Event>, lo: nat, hi: nat)
    requires hi <= |View(cfg, events)|
  {
    forall i, who | lo <= i < hi :: !Suppressed(cfg, events, i, who)
  }

  /** A party already among the consumed rows of a key is found by the anti-join. */
  lemma SeenBeforeIsPrior(cfg: Config, events: seq<Event>, i: nat, p: nat, who: Party)
    requires EventsInOrder(events)
    requires p <= i < |View(cfg, events)|
    requires var rows := View(cfg, events); Name(rows[i], who) in Names(rows[..p], rows[i].key, who)
    ensures PriorSeen(cfg, events, View(cfg, events)[i], who)
  {
    var rows := View(cfg, events);
    ViewRows(cfg, events);
    var r :| r in rows[..p] && r.key == rows[i].key && Name(r, who) == Name(rows[i], who);
    assert r in rows;
    var e :| e in events && Visible(cfg, e) && r == RowOf(cfg, e);
    assert PriorFor(cfg, e, rows[i], who);
  }

  lemma SliceStep<T>(s: seq<T>, p: nat, n: nat)
    requires p <= n < |s|
    ensures var t := s[p..n + 1];
      |t| == n - p + 1 && t[..n - p] == s[p..n] && t[n - p] == s[n] && t == s[p..n] + [s[n]]
        && s[..n] == s[..p] + s[p..n]
  {
  }

  predicate KeyUnsuppressed(cfg: Config, events: seq<Event>, lo: nat, hi: nat, key: Key, who: Party)
    requires hi <= |View(cfg, events)|
  {
    forall i | lo <= i < hi && View(cfg, events)[i].key == key :: !Suppressed(cfg, events, i, who)
  }

  /** The batch counts a subset of the parties that are new to the key, and exactly
      those if and only if none of the key's batch rows is suppressed. */
  lemma {:induction false} CountedExactly(cfg: Config, events: seq<Event>, p: nat, q: nat, key: Key, who: Party)
    requires EventsInOrder(events)
    requires p <= q <= |View(cfg, events)|
    ensures var rows := View(cfg, events);
      var counted := Counted(cfg, events, rows[p..q], key, who);
      var added := Names(rows[p..q], key, who) - Names(rows[..p], key, who);
      && counted <= added
      && (counted == added <==> KeyUnsuppressed(cfg, events, p, q, key, who))
    decreases q
  {
    var rows := View(cfg, events);
    if p == q {
      assert rows[p..q] == [];
    } else {
      hide View, Suppressed, Counted, Names, Name, KeyUnsuppressed;
      var n := q - 1;
      CountedExactly(cfg, events, p, n, key, who);
      OneMoreUnsuppressed(cfg, events, p, n, key, who);
      if rows[n].key == key {
        CountedStep(cfg, events, p, n, who);
      } else {
        OtherKeyStep(cfg, events, p, n, key, who);
      }
    }
  }

  lemma OneMoreUnsuppressed(cfg: Config, events: seq<Event>, p: nat, n: nat, key: Key, who: Party)
    requires p <= n < |View(cfg, events)|
    ensures KeyUnsuppressed(cfg, events, p, n + 1, key, who) <==>
      KeyUnsuppressed(cfg, events, p, n, key, who)
        && (View(cfg, events)[n].key == key ==> !Suppressed(cfg, events, n, who))
  {
    hide View, Suppressed;
  }

  lemma OtherKeyStep(cfg: Config, events: seq<Event>, p: nat, n: nat, key: Key, who: Party)
    requires p <= n < |View(cfg, events)| && View(cfg, events)[n].key != key
    ensures var rows := View(cfg, events);
      && Counted(cfg, events, rows[p..n + 1], key, who) == Counted(cfg, events, rows[p..n], key, who)
      && Names(rows[p..n + 1], key, who) == Names(rows[p..n], key, who)
  {
    hide View, PriorSeen;
    var rows := View(cfg, events);
    var batch, rest := rows[p..n + 1], rows[p..n];
    SliceStep(rows, p, n);
    NamesConcat(rest, [rows[n]], key, who);
    assert Names([rows[n]], key, who) == {};
  }

  lemma CountedStep(cfg: Config, events: seq<Event>, p: nat, n: nat, who: Party)
    requires EventsInOrder(events)
    requires p <= n < |View(cfg, events)|
    requires var rows := View(cfg, events);
      Counted(cfg, events, rows[p..n], rows[n].key, who) <=
        Names(rows[p..n], rows[n].key, who) - Names(rows[..p], rows[n].key, who)
    ensures var rows := View(cfg, events);
      var key := rows[n].key;
      var counted := Counted(cfg, events, rows[p..n + 1], key, who);
      var added := Names(rows[p..n + 1], key, who) - Names(rows[..p], key, who);
      && counted <= added
      && (counted == added <==>
          Counted(cfg, events, rows[p..n], key, who) == Names(rows[p..n], key, who) - Names(rows[..p], key, who)
          && !Suppressed(cfg, events, n, who))
  {
    hide PriorSeen, View, Counted, Names, Name, Suppressed;
    var rows := View(cfg, events);
    var key := rows[n].key;
    var rest, done := rows[p..n], rows[..p];
    SliceStep(rows, p, n);
    OneMoreCounted(cfg, events, rest, rows[n], who);
    SuppressedIs(cfg, events, p, n, who);
    if Name(rows[n], who) in Names(done, key, who) {
      SeenBeforeIsPrior(cfg, events, n, p, who);
    }
    OneMoreName(Counted(cfg, events, rest, key, who), Names(rest, key, who), Names(done, key, who), Name(rows[n], who),
                PriorSeen(cfg, events, rows[n], who), Counted(cfg, events, rest + [rows[n]], key, who));
  }

  lemma OneMoreCounted(cfg: Config, events: seq<Event>, rest: seq<Row>, r: Row, who: Party)
    ensures var a := Name(r, who);
      && Names(rest + [r], r.key, who) == Names(rest, r.key, who) + {a}
      && Counted(cfg, events, rest + [r], r.key, who) ==
         Counted(cfg, events, rest, r.key, who)
           + if a !in Names(rest, r.key, who) && !PriorSeen(cfg, events, r, who) then {a} else {}
  {
    hide PriorSeen;
    assert (rest + [r])[..|rest|] == rest;
    NamesConcat(rest, [r], r.key, who);
    assert Names([r], r.key, who) == {Name(r, who)};
  }

  lemma SuppressedIs(cfg: Config, events: seq<Event>, p: nat, n: nat, who: Party)
    requires p <= n < |View(cfg, events)|
    ensures var rows := View(cfg, events);
      var key := rows[n].key;
      Suppressed(cfg, events, n, who) <==>
      Name(rows[n], who) !in Names(rows[..p], key, who) + Names(rows[p..n], key, who)
        && PriorSeen(cfg, events, rows[n], who)
  {
    hide PriorSeen, View, Name;
    var rows := View(cfg, events);
    SliceStep(rows, p, n);
    NamesConcat(rows[..p], rows[p..n], rows[n].key, who);
  }

  /** One key: adding the batch never overcounts, and is exact if and only if no batch
      row of the key is suppressed. */
  lemma KeyExactly(cfg: Config, events: seq<Event>, p: nat, q: nat, key: Key)
    requires EventsInOrder(events)
    requires p <= q <= |View(cfg, events)|
    ensures var rows := View(cfg, events);
      var sum := Add(Total(rows[..p], key), BatchAggregate(cfg, events, rows[p..q], key));
      var exact := Total(rows[..q], key);
      && sum.ticketCount == exact.ticketCount
      && sum.sourceMaxEventId == exact.sourceMaxEventId
      && sum.distinctGateways <= exact.distinctGateways
      && sum.distinctOrchestrators <= exact.distinctOrchestrators
      && (sum == exact <==> KeyClean(cfg, events, p, q, key))
  {
    hide View, Group, MaxId, Names, Counted, Suppressed, KeyUnsuppressed, EventsInOrder;
    var rows := View(cfg, events);
    var done, batch := rows[..p], rows[p..q];
    assert rows[..q] == done + batch;
    BothParties(cfg, events, p, q, key);
    GroupConcat(done, batch, key);
    MaxIdConcat(Group(done, key), Group(batch, key));
    PartyExactly(cfg, events, p, q, key, Gateway);
    PartyExactly(cfg, events, p, q, key, Orchestrator);
  }

  lemma BothParties(cfg: Config, events: seq<Event>, p: nat, q: nat, key: Key)
    requires p <= q <= |View(cfg, events)|
    ensures KeyClean(cfg, events, p, q, key) <==>
      KeyUnsuppressed(cfg, events, p, q, key, Gateway) && KeyUnsuppressed(cfg, events, p, q, key, Orchestrator)
  {
    hide View, Suppressed;
    if KeyUnsuppressed(cfg, events, p, q, key, Gateway) && KeyUnsuppressed(cfg, events, p, q, key, Orchestrator) {
      forall i, who | p <= i < q && View(cfg, events)[i].key == key ensures !Suppressed(cfg, events, i, who) {
        if who == Gateway {} else { assert who == Orchestrator; }
      }
    }
  }

  lemma PartyExactly(cfg: Config, events: seq<Event>, p: nat, q: nat, key: Key, who: Party)
    requires EventsInOrder(events)
    requires p <= q <= |View(cfg, events)|
    ensures var rows := View(cfg, events);
      var sum := |Names(rows[..p], key, who)| + |Counted(cfg, events, rows[p..q], key, who)|;
      && sum <= |Names(rows[..q], key, who)|
      && (sum == |Names(rows[..q], key, who)| <==> KeyUnsuppressed(cfg, events, p, q, key, who))
  {
    var rows := View(cfg, events);
    var done, batch := rows[..p], rows[p..q];
    assert rows[..q] == done + batch;
    NamesConcat(done, batch, key, who);
    CountedExactly(cfg, events, p, q, key, who);
    UnionSize(Names(done, key, who), Names(batch, key, who), Counted(cfg, events, batch, key, who));
  }

  /** Incremental equals rebuilt: applying the batch to the table of the consumed rows
      gives the table of the longer prefix if and only if no batch row is suppressed. */
  lemma BatchExactly(cfg: Config, events: seq<Event>, p: nat, q: nat)
    requires EventsInOrder(events)
    requires p <= q <= |View(cfg, events)|
    ensures var rows := View(cfg, events);
      ApplyBatch(cfg, events, Build(rows[..p]), rows[p..q]) == Build(rows[..q]) <==> NoneSuppressed(cfg, events, p, q)
  {
    hide View, Suppressed, Total, BatchAggregate, KeysOf, ApplyBatch, NoneSuppressed, EventsInOrder;
    var rows := View(cfg, events);
    var next := ApplyBatch(cfg, events, Build(rows[..p]), rows[p..q]);
    SameKeys(cfg, events, rows, p, q);
    forall k | k in KeysOf(rows[..q]) ensures next[k] == Total(rows[..q], k) <==> KeyClean(cfg, events, p, q, k) {
      TableKeyExactly(cfg, events, p, q, k);
    }
    KeysClean(cfg, events, p, q);
  }

  /** No row of the key in the range is suppressed for either party. */
  predicate KeyClean(cfg: Config, events: seq<Event>, p: nat, q: nat, key: Key)
    requires q <= |View(cfg, events)|
  {
    forall i, who | p <= i < q && View(cfg, events)[i].key == key :: !Suppressed(cfg, events, i, who)
  }

  lemma KeysClean(cfg: Config, events: seq<Event>, p: nat, q: nat)
    requires p <= q <= |View(cfg, events)|
    ensures NoneSuppressed(cfg, events, p, q) <==>
      forall k | k in KeysOf(View(cfg, events)[..q]) :: KeyClean(cfg, events, p, q, k)
  {
    hide View, Suppressed;
    var rows := View(cfg, events);
    forall i | p <= i < q
      ensures rows[i].key in KeysOf(rows[..q])
    {
      assert rows[..q][i] == rows[i] && rows[i] in rows[..q];
    }
    if forall k | k in KeysOf(rows[..q]) :: KeyClean(cfg, events, p, q, k) {
      forall i, who | p <= i < q
        ensures !Suppressed(cfg, events, i, who)
      {
        assert KeyClean(cfg, events, p, q, rows[i].key);
      }
    }
  }

  lemma SameKeys(cfg: Config, events: seq<Event>, rows: seq<Row>, p: nat, q: nat)
    requires p <= q <= |rows|
    ensures ApplyBatch(cfg, events, Build(rows[..p]), rows[p..q]).Keys == KeysOf(rows[..q])
  {
    hide Total, BatchAggregate, Add;
    assert rows[..q] == rows[..p] + rows[p..q];
    KeysConcat(rows[..p], rows[p..q]);
  }

  lemma TableKeyExactly(cfg: Config, events: seq<Event>, p: nat, q: nat, k: Key)
    requires EventsInOrder(events)
    requires p <= q <= |View(cfg, events)|
    requires k in KeysOf(View(cfg, events)[..q])
    ensures var rows := View(cfg, events);
      var next := ApplyBatch(cfg, events, Build(rows[..p]), rows[p..q]);
      k in next && (next[k] == Total(rows[..q], k) <==> KeyClean(cfg, events, p, q, k))
  {
    hide View, Suppressed, Total, BatchAggregate;
    var rows := View(cfg, events);
    var done, batch := rows[..p], rows[p..q];
    assert rows[..q] == done + batch;
    KeysConcat(done, batch);
    if k in KeysOf(batch) {
      KeyExactly(cfg, events, p, q, k);
      TotalOfAbsentKey(done, k);
      ZeroIsNeutral(cfg, events, batch, k);
    } else {
      TotalUnchanged(done, batch, k);
      forall i | p <= i < q ensures rows[i].key != k { assert batch[i - p] == rows[i]; }
    }
  }

  lemma TotalUnchanged(done: seq<Row>, batch: seq<Row>, k: Key)
    requires k !in KeysOf(batch)
    ensures Total(done + batch, k) == Total(done, k)
  {
    NoGroup(batch, k);
    GroupConcat(done, batch, k);
    TotalByGroup(done + batch, done, k);
  }

  lemma ZeroIsNeutral(cfg: Config, events: seq<Event>, batch: seq<Row>, key: Key)
    ensures Add(Aggregate(0, 0, 0, 0), BatchAggregate(cfg, events, batch, key)) ==
      BatchAggregate(cfg, events, batch, key)
  {
    hide Group, MaxId, Counted;
    MaxIdNonNegative(Group(batch, key));
  }

  // ---------------------------------------------------------------------------
  // Runs: one batch, then any schedule of batches
  // ---------------------------------------------------------------------------

  datatype State = State(daily: map<Key, Aggregate>, checkpoint: Option<int>)

  /** How many rows of the view the checkpoint covers. */
  function Position(cfg: Config, events: seq<Event>, cp: Option<int>): (p: nat)
    requires EventsInOrder(events)
    ensures p <= |View(cfg, events)|
  {
    ViewRows(cfg, events);
    Consumed(View(cfg, events), cp)
  }

  function BatchEnd(cfg: Config, events: seq<Event>, cp: Option<int>, limit: nat): (q: nat)
    requires EventsInOrder(events)
    ensures Position(cfg, events, cp) <= q <= |View(cfg, events)|
  {
    var p := Position(cfg, events, cp);
    p + Min(limit, |View(cfg, events)| - p)
  }

  /** One run of the incremental path. */
  function Run(cfg: Config, events: seq<Event>, s: State, limit: nat): State
    requires EventsInOrder(events)
  {
    var batch := View(cfg, events)[Position(cfg, events, s.checkpoint)..BatchEnd(cfg, events, s.checkpoint, limit)];
    State(ApplyBatch(cfg, events, s.daily, batch), NextCheckpoint(s.checkpoint, batch))
  }

  /** The table is the one-shot table of the rows the checkpoint covers. */
  predicate Faithful(cfg: Config, events: seq<Event>, s: State)
    requires EventsInOrder(events)
  {
    s.daily == Build(View(cfg, events)[..Position(cfg, events, s.checkpoint)])
  }

  lemma ConsumedIs(rows: seq<Row>, cp: Option<int>, p: nat)
    requires RowsInOrder(rows) && p <= |rows|
    requires forall i | 0 <= i < p :: cp.Some? && rows[i].id <= cp.value
    requires forall i | p <= i < |rows| :: cp.None? || cp.value < rows[i].id
    ensures Consumed(rows, cp) == p
  {
    var c := Consumed(rows, cp);
    var atC, atP := rows[c..], rows[p..];
    assert c < |rows| ==> atC[0] == rows[c];
    assert p < |rows| ==> atP[0] == rows[p];
  }

  /** The checkpoint after a run covers exactly the rows up to the batch's end. */
  lemma PositionAfterRun(cfg: Config, events: seq<Event>, s: State, limit: nat)
    requires EventsInOrder(events)
    ensures Position(cfg, events, Run(cfg, events, s, limit).checkpoint) == BatchEnd(cfg, events, s.checkpoint, limit)
  {
    ViewRows(cfg, events);
    var rows := View(cfg, events);
    var p, q := Position(cfg, events, s.checkpoint), BatchEnd(cfg, events, s.checkpoint, limit);
    var cp := NextCheckpoint(s.checkpoint, rows[p..q]);
    if p < q {
      assert rows[p..q][q - p - 1] == rows[q - 1];
      assert cp == Some(rows[q - 1].id);
    }
    ConsumedIs(rows, cp, q);
  }

  /** A run keeps the table faithful if and only if none of its rows is suppressed. */
  lemma RunExactly(cfg: Config, events: seq<Event>, s: State, limit: nat)
    requires EventsInOrder(events) && Faithful(cfg, events, s)
    ensures Faithful(cfg, events, Run(cfg, events, s, limit)) <==>
      NoneSuppressed(cfg, events, Position(cfg, events, s.checkpoint), BatchEnd(cfg, events, s.checkpoint, limit))
  {
    hide Build, ApplyBatch, NoneSuppressed, Position;
    PositionAfterRun(cfg, events, s, limit);
    BatchExactly(cfg, events, Position(cfg, events, s.checkpoint), BatchEnd(cfg, events, s.checkpoint, limit));
  }

  /** One scheduled run: the raw table as it is when the run starts, and its limit. */
  datatype Tick = Tick(events: seq<Event>, limit: nat)

  function Play(cfg: Config, ticks: seq<Tick>): State
    requires forall t | t in ticks :: EventsInOrder(t.events)
  {
    if |ticks| == 0 then State(map[], None)
    else
      var n := |ticks| - 1;
      Run(cfg, ticks[n].events, Play(cfg, ticks[..n]), ticks[n].limit)
  }

  function TableAt(ticks: seq<Tick>, n: nat): seq<Event>
    requires n <= |ticks|
  {
    if n == 0 then [] else ticks[n - 1].events
  }

  /** What the checkpoint relies on: between two runs no row appears, changes or goes at
      or below the checkpoint, and no fetched row is suppressed. */
  predicate Orderly(cfg: Config, ticks: seq<Tick>)
    requires forall t | t in ticks :: EventsInOrder(t.events)
  {
    if |ticks| == 0 then true
    else
      var n := |ticks| - 1;
      var before, after := TableAt(ticks, n), ticks[n].events;
      var cp := Play(cfg, ticks[..n]).checkpoint;
      && Orderly(cfg, ticks[..n])
      && View(cfg, before)[..Position(cfg, before, cp)] == View(cfg, after)[..Position(cfg, after, cp)]
      && NoneSuppressed(cfg, after, Position(cfg, after, cp), BatchEnd(cfg, after, cp, ticks[n].limit))
  }

  /** Over every orderly schedule, with any limits and any growth of the raw table, the
      accumulated table is the one-shot table of the rows consumed so far. */
  lemma {:induction false} ScheduleExact(cfg: Config, ticks: seq<Tick>)
    requires forall t | t in ticks :: EventsInOrder(t.events)
    requires Orderly(cfg, ticks)
    ensures Faithful(cfg, TableAt(ticks, |ticks|), Play(cfg, ticks))
  {
    if |ticks| == 0 {
      assert Build(View(cfg, [])) == map[];
    } else {
      var n := |ticks| - 1;
      ScheduleExact(cfg, ticks[..n]);
      assert TableAt(ticks[..n], n) == TableAt(ticks, n);
      RunExactly(cfg, ticks[n].events, Play(cfg, ticks[..n]), ticks[n].limit);
    }
  }

  /** Every scheduled run consumes the next rows it finds, as many as its limit allows. */
  lemma TickConsumes(cfg: Config, ticks: seq<Tick>, t: Tick)
    requires EventsInOrder(t.events) && forall u | u in ticks :: EventsInOrder(u.events)
    ensures forall u | u in ticks + [t] :: EventsInOrder(u.events)
    ensures Play(cfg, []) == State(map[], None) && Orderly(cfg, [])
    ensures Position(cfg, t.events, Play(cfg, ticks + [t]).checkpoint) ==
      Min(Position(cfg, t.events, Play(cfg, ticks).checkpoint) + t.limit, |View(cfg, t.events)|)
  {
    hide View, Position;
    assert (ticks + [t])[..|ticks|] == ticks;
    PositionAfterRun(cfg, t.events, Play(cfg, ticks), t.limit);
  }

  /** Any two orderly schedules that drain the same raw table end with the same rollup. */
  lemma CutsAgree(cfg: Config, a: seq<Tick>, b: seq<Tick>)
    requires |a| > 0 && |b| > 0
    requires forall t | t in a :: EventsInOrder(t.events)
    requires forall t | t in b :: EventsInOrder(t.events)
    requires Orderly(cfg, a) && Orderly(cfg, b)
    requires a[|a| - 1].events == b[|b| - 1].events
    requires var events := a[|a| - 1].events;
      && Position(cfg, events, Play(cfg, a).checkpoint) == |View(cfg, events)|
      && Position(cfg, events, Play(cfg, b).checkpoint) == |View(cfg, events)|
    ensures Play(cfg, a).daily == Play(cfg, b).daily == Build(View(cfg, a[|a| - 1].events))
  {
    hide Play, Orderly, Build, Position;
    ScheduleExact(cfg, a);
    ScheduleExact(cfg, b);
    var rows := View(cfg, a[|a| - 1].events);
    assert rows[..|rows|] == rows;
  }

  // ---------------------------------------------------------------------------
  // Reorg repair
  // ---------------------------------------------------------------------------

  /** The keys a repair rebuilds: table rows that may hold a mutated event, by their
      largest event id, and the keys the mutated events have now. */
  function RepairKeys(cfg: Config, events: seq<Event>, daily: map<Key, Aggregate>, ids: set<int>): set<Key> {
    (set k, id | k in daily && id in ids && daily[k].sourceMaxEventId >= id :: k)
    + (set e | e in events && Visible(cfg, e) && e.id in ids :: KeyOf(cfg, e))
  }

  /** Rebuild each of the keys over the whole view, dropping the ones without rows. */
  function Repair(cfg: Config, events: seq<Event>, daily: map<Key, Aggregate>, keys: set<Key>): map<Key, Aggregate> {
    var rows := View(cfg, events);
    map k | k in (daily.Keys - keys) + (keys * KeysOf(rows)) :: if k in keys then Total(rows, k) else daily[k]
  }

  /** The raw table before and after mutations of the events with the given ids. */
  predicate MutatedOnly(before: seq<Event>, after: seq<Event>, ids: set<int>) {
    && |before| == |after|
    && forall i | 0 <= i < |before| :: before[i].id == after[i].id && (before[i] == after[i] || before[i].id in ids)
  }

  lemma ViewSnoc(cfg: Config, events: seq<Event>, e: Event)
    ensures View(cfg, events + [e]) == View(cfg, events) + (if Visible(cfg, e) then [RowOf(cfg, e)] else [])
  {
    assert (events + [e])[..|events|] == events;
  }

  lemma {:induction false} ViewConcat(cfg: Config, a: seq<Event>, b: seq<Event>)
    ensures View(cfg, a + b) == View(cfg, a) + View(cfg, b)
  {
    hide View;
    if |b| == 0 {
      assert a + b == a && b == [];
      EmptyView(cfg);
    } else {
      var n := |b| - 1;
      ViewConcat(cfg, a, b[..n]);
      assert b == b[..n] + [b[n]] && a + b == (a + b[..n]) + [b[n]];
      ViewSnoc(cfg, b[..n], b[n]);
      ViewSnoc(cfg, a + b[..n], b[n]);
    }
  }

  /** How many raw events lie at or below the checkpoint. */
  function EventsBelow(events: seq<Event>, cp: Option<int>): (m: nat)
    requires EventsInOrder(events)
    ensures m <= |events|
    ensures forall i | 0 <= i < m :: cp.Some? && events[i].id <= cp.value
    ensures forall i | m <= i < |events| :: cp.None? || cp.value < events[i].id
  {
    if |events| == 0 || cp.None? then 0
    else if events[|events| - 1].id <= cp.value then |events|
    else EventsBelow(events[..|events| - 1], cp)
  }

  /** The covered rows are the view of the covered events. */
  lemma PositionCutsEvents(cfg: Config, events: seq<Event>, cp: Option<int>)
    requires EventsInOrder(events)
    ensures var m := EventsBelow(events, cp);
      && Position(cfg, events, cp) == |View(cfg, events[..m])|
      && View(cfg, events) == View(cfg, events[..m]) + View(cfg, events[m..])
  {
    hide View;
    var m := EventsBelow(events, cp);
    var low, high := events[..m], events[m..];
    assert events == low + high;
    ViewConcat(cfg, low, high);
    ViewRows(cfg, events);
    if cp.Some? {
      ViewIds(cfg, low, cp.value);
      ViewIds(cfg, high, cp.value);
    } else {
      assert View(cfg, low) == [] by { EmptyView(cfg); }
    }
    ConsumedIs(View(cfg, events), cp, |View(cfg, low)|);
  }

  lemma EmptyView(cfg: Config)
    ensures View(cfg, []) == []
  {
  }

  lemma {:induction false} ViewIds(cfg: Config, events: seq<Event>, bound: int)
    ensures (forall e | e in events :: e.id <= bound) ==>
      forall i | 0 <= i < |View(cfg, events)| :: View(cfg, events)[i].id <= bound
    ensures (forall e | e in events :: bound < e.id) ==>
      forall i | 0 <= i < |View(cfg, events)| :: bound < View(cfg, events)[i].id
  {
    if |events| > 0 {
      var n := |events| - 1;
      ViewIds(cfg, events[..n], bound);
      assert events[n] in events;
    }
  }

  /** A key the repair does not rebuild holds the same rows before and after. */
  lemma {:induction false} UntouchedGroup(cfg: Config, before: seq<Event>, after: seq<Event>, ids: set<int>, key: Key,
                                          bound: int)
    requires MutatedOnly(before, after, ids)
    requires forall e | e in after && Visible(cfg, e) && e.id in ids :: KeyOf(cfg, e) != key
    requires forall id | id in ids :: bound < id
    requires forall r | r in Group(View(cfg, before), key) :: r.id <= bound
    ensures Group(View(cfg, before), key) == Group(View(cfg, after), key)
  {
    if |before| > 0 {
      var n := |before| - 1;
      var b, a := before[..n], after[..n];
      assert before == b + [before[n]] && after == a + [after[n]];
      OneMoreEvent(cfg, b, before[n], key);
      OneMoreEvent(cfg, a, after[n], key);
      UntouchedGroup(cfg, b, a, ids, key, bound);
      if Visible(cfg, before[n]) && KeyOf(cfg, before[n]) == key {
        assert RowOf(cfg, before[n]) in Group(View(cfg, before), key);
      }
    }
  }

  lemma OneMoreEvent(cfg: Config, events: seq<Event>, e: Event, key: Key)
    ensures Group(View(cfg, events + [e]), key) ==
      Group(View(cfg, events), key) + (if Visible(cfg, e) && KeyOf(cfg, e) == key then [RowOf(cfg, e)] else [])
  {
    hide View;
    ViewSnoc(cfg, events, e);
    if Visible(cfg, e) {
      OneMoreRow(View(cfg, events), RowOf(cfg, e), key);
    } else {
      assert View(cfg, events) + [] == View(cfg, events);
    }
  }

  lemma OneMoreRow(rows: seq<Row>, r: Row, key: Key)
    ensures Group(rows + [r], key) == Group(rows, key) + (if r.key == key then [r] else [])
  {
    assert (rows + [r])[..|rows|] == rows;
  }

  lemma {:induction false} MaxIdBounds(rows: seq<Row>)
    ensures forall r | r in rows :: r.id <= MaxId(rows)
  {
    if |rows| > 0 {
      MaxIdBounds(rows[..|rows| - 1]);
    }
  }

  /** Equal groups have equal aggregates. */
  lemma TotalByGroup(a: seq<Row>, b: seq<Row>, key: Key)
    requires Group(a, key) == Group(b, key)
    ensures Total(a, key) == Total(b, key) && (key in KeysOf(a) <==> key in KeysOf(b))
  {
    TotalOfAbsentKey(a, key);
    TotalOfAbsentKey(b, key);
    NamesByGroup(a, b, key, Gateway);
    NamesByGroup(a, b, key, Orchestrator);
  }

  lemma NamesByGroup(a: seq<Row>, b: seq<Row>, key: Key, who: Party)
    requires Group(a, key) == Group(b, key)
    ensures Names(a, key, who) == Names(b, key, who)
  {
    GroupMembers(a, key);
    GroupMembers(b, key);
    assert forall r :: r in a && r.key == key <==> r in b && r.key == key;
  }

  /** The keys found by largest event id together with the events' current keys cover
      every key whose covered rows a mutation changed. */
  lemma RepairKeysSuffice(cfg: Config, before: seq<Event>, after: seq<Event>, cp: Option<int>, ids: set<int>, key: Key)
    requires EventsInOrder(before) && EventsInOrder(after) && MutatedOnly(before, after, ids)
    requires key !in RepairKeys(cfg, after, Build(View(cfg, before)[..Position(cfg, before, cp)]), ids)
    ensures var old' := View(cfg, before)[..Position(cfg, before, cp)];
      var new' := View(cfg, after)[..Position(cfg, after, cp)];
      && Group(old', key) == Group(new', key)
      && Total(old', key) == Total(new', key) && (key in KeysOf(old') <==> key in KeysOf(new'))
  {
    hide View, RepairKeys, Total, Build;
    var m := EventsBelow(before, cp);
    SameCut(before, after, cp, ids);
    PositionCutsEvents(cfg, before, cp);
    PositionCutsEvents(cfg, after, cp);
    var b, a := before[..m], after[..m];
    assert View(cfg, before)[..|View(cfg, b)|] == View(cfg, b);
    assert View(cfg, after)[..|View(cfg, a)|] == View(cfg, a);
    SameGroup(cfg, b, a, after, ids, key);
    TotalByGroup(View(cfg, b), View(cfg, a), key);
  }

  lemma SameGroup(cfg: Config, before: seq<Event>, after: seq<Event>, all: seq<Event>, ids: set<int>, key: Key)
    requires MutatedOnly(before, after, ids) && after <= all
    requires key !in RepairKeys(cfg, all, Build(View(cfg, before)), ids)
    ensures Group(View(cfg, before), key) == Group(View(cfg, after), key)
  {
    hide View;
    var rows := View(cfg, before);
    var daily := Build(rows);
    forall e | e in after && Visible(cfg, e) && e.id in ids
      ensures KeyOf(cfg, e) != key
    {
      assert e in all;
    }
    if key in KeysOf(rows) {
      var largest := MaxId(Group(rows, key));
      assert daily[key].sourceMaxEventId == largest;
      MaxIdBounds(Group(rows, key));
      UntouchedGroup(cfg, before, after, ids, key, largest);
    } else {
      NoGroup(rows, key);
      UntouchedAbsent(cfg, before, after, ids, key);
    }
  }

  lemma SameCut(before: seq<Event>, after: seq<Event>, cp: Option<int>, ids: set<int>)
    requires EventsInOrder(before) && EventsInOrder(after) && MutatedOnly(before, after, ids)
    ensures EventsBelow(before, cp) == EventsBelow(after, cp)
  {
    var m, n := EventsBelow(before, cp), EventsBelow(after, cp);
    assert m < |before| ==> cp.None? || cp.value < after[m].id;
    assert n < |after| ==> cp.None? || cp.value < before[n].id;
  }

  lemma {:induction false} UntouchedAbsent(cfg: Config, before: seq<Event>, after: seq<Event>, ids: set<int>, key: Key)
    requires MutatedOnly(before, after, ids)
    requires forall e | e in after && Visible(cfg, e) && e.id in ids :: KeyOf(cfg, e) != key
    requires Group(View(cfg, before), key) == []
    ensures Group(View(cfg, after), key) == []
  {
    if |before| > 0 {
      var n := |before| - 1;
      var b, a := before[..n], after[..n];
      hide View, Group, KeyOf, Visible, RowOf;
      assert before == b + [before[n]] && after == a + [after[n]];
      OneMoreEvent(cfg, b, before[n], key);
      OneMoreEvent(cfg, a, after[n], key);
      UntouchedAbsent(cfg, b, a, ids, key);
    }
  }

  /** Two tables agree on a key. */
  predicate Agree(a: map<Key, Aggregate>, b: map<Key, Aggregate>, k: Key) {
    (k in a <==> k in b) && (k in a && k in b ==> a[k] == b[k])
  }

  lemma AgreeEverywhere(a: map<Key, Aggregate>, b: map<Key, Aggregate>)
    requires forall k | k in a.Keys + b.Keys :: Agree(a, b, k)
    ensures a == b
  {
    forall k ensures k in a <==> k in b {
      if k in a.Keys + b.Keys { assert Agree(a, b, k); }
    }
    assert a.Keys == b.Keys;
    forall k | k in a ensures a[k] == b[k] { assert Agree(a, b, k); }
  }

  /** Repair restores the one-shot table of the covered rows if and only if no rebuilt
      key has a visible row above the checkpoint: the rebuild ignores the checkpoint. */
  lemma RepairExactly(cfg: Config, before: seq<Event>, after: seq<Event>, s: State, ids: set<int>)
    requires EventsInOrder(before) && EventsInOrder(after) && MutatedOnly(before, after, ids)
    requires Faithful(cfg, before, s)
    ensures var keys := RepairKeys(cfg, after, s.daily, ids);
      var rows := View(cfg, after);
      Faithful(cfg, after, s.(daily := Repair(cfg, after, s.daily, keys))) <==>
      forall i | Position(cfg, after, s.checkpoint) <= i < |rows| :: rows[i].key !in keys
  {
    hide View, Position, RepairKeys, Repair, Build, Agree;
    var keys := RepairKeys(cfg, after, s.daily, ids);
    var rows := View(cfg, after);
    var p := Position(cfg, after, s.checkpoint);
    var rest := rows[p..];
    var repaired, wanted := Repair(cfg, after, s.daily, keys), Build(rows[..p]);
    forall k | k !in keys ensures Agree(repaired, wanted, k) {
      UntouchedAgrees(cfg, before, after, s, ids, k);
    }
    forall k | k in keys ensures Agree(repaired, wanted, k) <==> k !in KeysOf(rest) {
      RebuiltAgrees(cfg, after, s.daily, keys, p, k);
    }
    if forall i | p <= i < |rows| :: rows[i].key !in keys {
      forall j | 0 <= j < |rest| ensures rest[j].key !in keys { assert rest[j] == rows[p + j]; }
      AgreeEverywhere(repaired, wanted);
    } else {
      var i :| p <= i < |rows| && rows[i].key in keys;
      assert rest[i - p] in rest;
      assert !Agree(repaired, wanted, rows[i].key);
      SameAgrees(repaired, rows[i].key);
    }
  }

  lemma SameAgrees(a: map<Key, Aggregate>, k: Key)
    ensures Agree(a, a, k)
  {
  }

  lemma UntouchedAgrees(cfg: Config, before: seq<Event>, after: seq<Event>, s: State, ids: set<int>, k: Key)
    requires EventsInOrder(before) && EventsInOrder(after) && MutatedOnly(before, after, ids)
    requires Faithful(cfg, before, s)
    requires k !in RepairKeys(cfg, after, s.daily, ids)
    ensures var keys := RepairKeys(cfg, after, s.daily, ids);
      Agree(Repair(cfg, after, s.daily, keys), Build(View(cfg, after)[..Position(cfg, after, s.checkpoint)]), k)
  {
    hide View, Position, RepairKeys;
    RepairKeysSuffice(cfg, before, after, s.checkpoint, ids, k);
  }

  lemma RebuiltAgrees(cfg: Config, after: seq<Event>, daily: map<Key, Aggregate>, keys: set<Key>, p: nat, k: Key)
    requires p <= |View(cfg, after)| && k in keys
    ensures var rows := View(cfg, after);
      Agree(Repair(cfg, after, daily, keys), Build(rows[..p]), k) <==> k !in KeysOf(rows[p..])
  {
    hide View;
    var rows := View(cfg, after);
    var done, rest := rows[..p], rows[p..];
    assert rows == done + rest;
    KeysConcat(done, rest);
    RebuiltKey(done, rest, k);
  }

  /** A rebuilt key agrees with its covered rows exactly when it has no other rows. */
  lemma RebuiltKey(done: seq<Row>, rest: seq<Row>, key: Key)
    ensures (key in KeysOf(done + rest) <==> key in KeysOf(done)) && Total(done + rest, key) == Total(done, key) <==>
      key !in KeysOf(rest)
  {
    GroupConcat(done, rest, key);
    TotalOfAbsentKey(rest, key);
    if key !in KeysOf(rest) {
      TotalByGroup(done + rest, done, key);
    }
  }

  /** A whole pass: repair what the mutated events may have changed, then run one batch. */
  function Pass(cfg: Config, events: seq<Event>, s: State, ids: set<int>, limit: nat): State
    requires EventsInOrder(events)
  {
    Run(cfg, events, s.(daily := Repair(cfg, events, s.daily, RepairKeys(cfg, events, s.daily, ids))), limit)
  }

  // ---------------------------------------------------------------------------
  // The three ways the incremental table goes wrong
  // ---------------------------------------------------------------------------

  function Ticket(id: int, finalized: bool): Event {
    Event(id, 0, true, Some("gateway"), Some("orchestrator"), finalized, true)
  }

  const FinalizedOnly: Config := Config(map[], false)

  const KEY: Key := Key(0, "transcoding")

  /** The anti-join does not filter on finality: an earlier tentative ticket hides the
      gateway and the orchestrator of the first finalized one. */
  lemma TentativeTicketSuppresses()
    ensures var events := [Ticket(1, false), Ticket(2, true)];
      && EventsInOrder(events)
      && Run(FinalizedOnly, events, State(map[], None), 10).daily == map[KEY := Aggregate(1, 0, 0, 2)]
      && Build(View(FinalizedOnly, events)) == map[KEY := Aggregate(1, 1, 1, 2)]
  {
    hide View, Build, Run, BatchAggregate;
    var events := [Ticket(1, false), Ticket(2, true)];
    var row := Row(2, KEY, "gateway", "orchestrator");
    ViewOfTwo(Ticket(1, false), Ticket(2, true), row);
    assert PriorFor(FinalizedOnly, events[0], row, Gateway) && PriorFor(FinalizedOnly, events[0], row, Orchestrator);
    SingleRow(FinalizedOnly, events, row);
    FirstRun(FinalizedOnly, events, map[], None, row, 10);
  }

  /** The rebuild ignores the checkpoint: a repair that rebuilds a key with an unconsumed
      row counts that row, and the next run counts it again. */
  lemma RepairCountsTwice()
    ensures var events := [Ticket(1, true).(canonical := false), Ticket(2, true)];
      var daily := map[KEY := Aggregate(1, 1, 1, 1)];
      var repaired := Repair(FinalizedOnly, events, daily, RepairKeys(FinalizedOnly, events, daily, {1}));
      && EventsInOrder(events)
      && Run(FinalizedOnly, events, State(repaired, Some(1)), 10).daily == map[KEY := Aggregate(2, 2, 2, 2)]
      && Build(View(FinalizedOnly, events)) == map[KEY := Aggregate(1, 1, 1, 2)]
  {
    hide View, Build, Run, BatchAggregate;
    var events := [Ticket(1, true).(canonical := false), Ticket(2, true)];
    var row := Row(2, KEY, "gateway", "orchestrator");
    ViewOfTwo(Ticket(1, true).(canonical := false), Ticket(2, true), row);
    SingleRow(FinalizedOnly, events, row);
    FirstRun(FinalizedOnly, events, map[KEY := Aggregate(1, 1, 1, 2)], Some(1), row, 10);
    RepairedExample(events, row);
  }

  lemma RepairedExample(events: seq<Event>, row: Row)
    requires View(FinalizedOnly, events) == [row] && row.id == 2 && row.key == KEY
    requires Build([row]) == map[KEY := Aggregate(1, 1, 1, 2)]
    ensures var daily := map[KEY := Aggregate(1, 1, 1, 1)];
      Repair(FinalizedOnly, events, daily, RepairKeys(FinalizedOnly, events, daily, {1})) == Build([row])
  {
    hide View, Total;
    var daily := map[KEY := Aggregate(1, 1, 1, 1)];
    assert KEY in daily && 1 in {1} && daily[KEY].sourceMaxEventId >= 1;
    assert KeysOf([row]) == {KEY};
  }

  /** A ticket that becomes visible below the checkpoint is never counted. */
  lemma LateTicketIsLost()
    ensures var events := [Ticket(1, true), Ticket(2, true)];
      var s := State(map[KEY := Aggregate(1, 0, 0, 2)], Some(2));
      && EventsInOrder(events)
      && Run(FinalizedOnly, events, s, 10) == s
      && Build(View(FinalizedOnly, events))[KEY].ticketCount == 2
  {
    hide View;
    var events := [Ticket(1, true), Ticket(2, true)];
    var rows := [Row(1, KEY, "gateway", "orchestrator"), Row(2, KEY, "gateway", "orchestrator")];
    EmptyView(FinalizedOnly);
    ViewSnoc(FinalizedOnly, [], events[0]);
    ViewSnoc(FinalizedOnly, [events[0]], events[1]);
    assert [] + [events[0]] == [events[0]] && [events[0]] + [events[1]] == events;
    assert View(FinalizedOnly, events) == rows;
    NothingLeft(FinalizedOnly, events, map[KEY := Aggregate(1, 0, 0, 2)], 2);
    OneMoreRow([rows[0]], rows[1], KEY);
    OneMoreRow([], rows[0], KEY);
    assert [] + [rows[0]] == [rows[0]] && [rows[0]] + [rows[1]] == rows;
    assert KEY in KeysOf(rows) by { assert rows[0] in rows; }
  }

  lemma NothingLeft(cfg: Config, events: seq<Event>, daily: map<Key, Aggregate>, last: int)
    requires EventsInOrder(events)
    requires forall i | 0 <= i < |View(cfg, events)| :: View(cfg, events)[i].id <= last
    ensures forall limit: nat :: Run(cfg, events, State(daily, Some(last)), limit) == State(daily, Some(last))
  {
    hide View;
    assert KeysOf([]) == {};
    ViewRows(cfg, events);
    ConsumedIs(View(cfg, events), Some(last), |View(cfg, events)|);
    assert forall limit: nat :: BatchEnd(cfg, events, Some(last), limit) == |View(cfg, events)|;
  }

  lemma ViewOfTwo(first: Event, second: Event, row: Row)
    requires !Visible(FinalizedOnly, first) && Visible(FinalizedOnly, second) && row == RowOf(FinalizedOnly, second)
    ensures View(FinalizedOnly, [first, second]) == [row]
  {
    hide View;
    EmptyView(FinalizedOnly);
    ViewSnoc(FinalizedOnly, [], first);
    ViewSnoc(FinalizedOnly, [first], second);
    assert [] + [first] == [first] && [first] + [second] == [first, second];
  }

  /** The first run over a one-row view adds that row's aggregate. */
  lemma FirstRun(cfg: Config, events: seq<Event>, daily: map<Key, Aggregate>, cp: Option<int>, row: Row, limit: nat)
    requires EventsInOrder(events) && View(cfg, events) == [row] && limit >= 1
    requires cp.Some? ==> cp.value < row.id
    ensures Run(cfg, events, State(daily, cp), limit).daily ==
      Upsert(daily, row.key, BatchAggregate(cfg, events, [row], row.key))
  {
    hide View, BatchAggregate;
    assert [row][0..1] == [row];
    assert KeysOf([row]) == {row.key};
  }

  lemma SingleRow(cfg: Config, events: seq<Event>, row: Row)
    requires row.id >= 1
    ensures Build([row]) == map[row.key := Aggregate(1, 1, 1, row.id)]
    ensures PriorSeen(cfg, events, row, Gateway) && PriorSeen(cfg, events, row, Orchestrator) ==>
      BatchAggregate(cfg, events, [row], row.key) == Aggregate(1, 0, 0, row.id)
    ensures !PriorSeen(cfg, events, row, Gateway) && !PriorSeen(cfg, events, row, Orchestrator) ==>
      BatchAggregate(cfg, events, [row], row.key) == Aggregate(1, 1, 1, row.id)
  {
    hide PriorSeen, Group, MaxId, Names, Counted;
    SingleGroup(row);
    SingleParty(cfg, events, row, Gateway);
    SingleParty(cfg, events, row, Orchestrator);
    assert KeysOf([row]) == {row.key};
  }

  lemma SingleGroup(row: Row)
    requires row.id >= 1
    ensures Group([row], row.key) == [row] && MaxId([row]) == row.id
  {
    assert [] + [row] == [row];
    OneMoreRow([], row, row.key);
    NoGroup([], row.key);
    MaxIdOfOne(row);
  }

  lemma SingleParty(cfg: Config, events: seq<Event>, row: Row, who: Party)
    ensures |Names([row], row.key, who)| == 1
    ensures |Counted(cfg, events, [row], row.key, who)| == if PriorSeen(cfg, events, row, who) then 0 else 1
  {
    hide PriorSeen, Names, Counted;
    assert [] + [row] == [row];
    OneMoreCounted(cfg, events, [], row, who);
    NobodyNamed(cfg, events, row.key, who);
    assert Names([row], row.key, who) == {Name(row, who)} by { NamedAlone(row, who); }
  }

  lemma NamedAlone(row: Row, who: Party)
    ensures Names([row], row.key, who) == {Name(row, who)}
  {
  }

  lemma NobodyNamed(cfg: Config, events: seq<Event>, key: Key, who: Party)
    ensures Names([], key, who) == {} == Counted(cfg, events, [], key, who)
  {
  }

  lemma MaxIdOfOne(row: Row)
    requires row.id >= 1
    ensures MaxId([row]) == row.id
  {
    assert [row][..0] == [];
  }
}
