/** Runs of the stake-flow backfill (crates/livepeer-staker/src/flow.rs): which delegators
    a batch touches, what the history query returns for them, and what the upserts leave
    behind over a whole schedule of runs. */
module StakeFlowRuns {
  import opened Checkpoints
  import opened Wrappers
  import opened StakeFlow

  // ---------------------------------------------------------------------------
  // The queries
  // ---------------------------------------------------------------------------

  /** A delegator's own events, in stream order. */
  function Stream(d: Address, events: seq<Event>): seq<Event> {
    if |events| == 0 then []
    else Stream(d, events[..|events| - 1]) + (if Concerns(d, events[|events| - 1]) then [events[|events| - 1]] else [])
  }

  predicate Mentions(who: set<Address>, e: Event) {
    (e.from.Some? && e.from.value in who) || (e.to.Some? && e.to.value in who)
  }

  /** What the history query returns: events from or to an affected address. */
  function FullHistory(events: seq<Event>, who: set<Address>): seq<Event> {
    if |events| == 0 then []
    else
      FullHistory(events[..|events| - 1], who)
      + (if Mentions(who, events[|events| - 1]) then [events[|events| - 1]] else [])
  }

  /** The events with the given ids. */
  function Keep(events: seq<Event>, ids: set<int>): seq<Event> {
    if |events| == 0 then []
    else Keep(events[..|events| - 1], ids) + (if events[|events| - 1].id in ids then [events[|events| - 1]] else [])
  }

  function Ids(events: seq<Event>): set<int> { set e | e in events :: e.id }

  function Affected(events: seq<Event>, batch: set<int>): set<Address> {
    set e, d | e in events && e.id in batch && d in Delegators(e) :: d
  }

  /** Every address the replay loop covers. */
  function Grouped(history: seq<Event>): set<Address> {
    set e, d | e in history && d in Delegators(e) :: d
  }

  lemma {:induction false} StreamOnly(d: Address, events: seq<Event>)
    ensures AllConcern(d, Stream(d, events))
    ensures forall e :: e in Stream(d, events) <==> e in events && Concerns(d, e)
  {
    if |events| > 0 {
      StreamOnly(d, events[..|events| - 1]);
      assert events == events[..|events| - 1] + [events[|events| - 1]];
    }
  }

  lemma StreamSnoc(d: Address, events: seq<Event>, e: Event)
    ensures Stream(d, events + [e]) == Stream(d, events) + (if Concerns(d, e) then [e] else [])
  {
    assert (events + [e])[..|events|] == events;
  }

  /** For an affected delegator the grouped stream is exactly its complete stream. */
  lemma {:induction false} AffectedStreamComplete(d: Address, events: seq<Event>, who: set<Address>)
    requires d in who
    ensures Stream(d, FullHistory(events, who)) == Stream(d, events)
  {
    if |events| > 0 {
      hide Concerns;
      var n := |events| - 1;
      AffectedStreamComplete(d, events[..n], who);
      StreamSnoc(d, FullHistory(events[..n], who), events[n]);
      ConcernsMentions(d, events[n], who);
      assert FullHistory(events[..n], who) + [] == FullHistory(events[..n], who);
      assert Stream(d, events[..n]) + [] == Stream(d, events[..n]);
    }
  }

  lemma ConcernsMentions(d: Address, e: Event, who: set<Address>)
    requires d in who
    ensures Concerns(d, e) ==> Mentions(who, e)
  {
  }

  // ---------------------------------------------------------------------------
  // More events never take a row away
  // ---------------------------------------------------------------------------

  lemma ReplaySnoc(d: Address, events: seq<Event>, e: Event)
    ensures Replay(d, events + [e]) == Step(d, Replay(d, events), e)
  {
    assert (events + [e])[..|events|] == events;
  }

  predicate Covers(big: Replayed, small: Replayed) {
    small.rows.Keys <= big.rows.Keys && (small.registered ==> big.registered)
  }

  /** Whether the step writes a row; being registered can only turn this on. */
  predicate Writes(d: Address, registered: bool, e: Event) {
    match e.kind
    case Bond => e.from == Some(d)
    case EarningsClaimed => e.from == Some(d)
    case TransferBond => e.to == Some(d) || (e.from == Some(d) && registered)
    case _ => e.from == Some(d) && registered
  }

  lemma StepWrites(d: Address, s: Replayed, e: Event)
    ensures Step(d, s, e).rows.Keys == s.rows.Keys + if Writes(d, s.registered, e) then {e.block} else {}
    ensures Step(d, s, e).registered == (s.registered || Registers(d, e))
  {
  }

  lemma StepCovers(d: Address, big: Replayed, small: Replayed, e: Event)
    requires Covers(big, small)
    ensures Covers(Step(d, big, e), Step(d, small, e)) && Covers(Step(d, big, e), small)
  {
    hide Step;
    StepWrites(d, big, e);
    StepWrites(d, small, e);
  }

  /** Adding events never removes a block from the row set nor a registration. */
  lemma {:induction false} MoreEventsCover(d: Address, events: seq<Event>, ids: set<int>)
    ensures Covers(Replay(d, Stream(d, events)), Replay(d, Stream(d, Keep(events, ids))))
  {
    hide Step, Covers, Concerns, Replay, Stream, Keep;
    if |events| == 0 {
      NoEvents(d, ids);
    } else {
      var n := |events| - 1;
      var e := events[n];
      MoreEventsCover(d, events[..n], ids);
      var big, small := Stream(d, events[..n]), Stream(d, Keep(events[..n], ids));
      assert events == events[..n] + [e];
      StepCovers(d, Replay(d, big), Replay(d, small), e);
      ReplaySnoc(d, big, e);
      ReplaySnoc(d, small, e);
      StreamSnoc(d, events[..n], e);
      KeepSnoc(events[..n], e, ids);
      StreamSnoc(d, Keep(events[..n], ids), e);
      assert Keep(events[..n], ids) + [] == Keep(events[..n], ids) && small + [] == small && big + [] == big;
    }
  }

  lemma NoEvents(d: Address, ids: set<int>)
    ensures Keep([], ids) == [] && Covers(Replay(d, Stream(d, [])), Replay(d, Stream(d, [])))
  {
  }

  // ---------------------------------------------------------------------------
  // One run
  // ---------------------------------------------------------------------------

  datatype Tables = Tables(stake: map<Address, map<int, Row>>, registry: map<Address, Registry>)

  function StakeOf(t: Tables, d: Address): map<int, Row> { if d in t.stake then t.stake[d] else map[] }

  function RegistryEntry(t: Tables, d: Address): Option<Registry> {
    if d in t.registry then Some(t.registry[d]) else None
  }

  /** What replaying one grouped delegator upserts: rows are overwritten, never deleted. */
  function Upserted(t: Tables, d: Address, s: Replayed): Tables {
    Tables(t.stake[d := StakeOf(t, d) + s.rows],
           if RegistryOf(s).Some? then t.registry[d := RegistryOf(s).value] else t.registry)
  }

  /** The tables after replaying a set of delegators from a history. */
  function ReplayAll(t: Tables, history: seq<Event>, todo: set<Address>): Tables {
    Tables(map d | d in t.stake.Keys + todo ::
             if d in todo then StakeOf(t, d) + Replay(d, Stream(d, history)).rows else t.stake[d],
           map d | d in t.registry.Keys + todo
             && (d in t.registry || RegistryOf(Replay(d, Stream(d, history))).Some?) ::
             if d in todo && RegistryOf(Replay(d, Stream(d, history))).Some? then
               RegistryOf(Replay(d, Stream(d, history))).value
             else t.registry[d])
  }

  function AfterReplay(events: seq<Event>, t: Tables, who: set<Address>): Tables {
    var history := FullHistory(events, who);
    ReplayAll(t, history, Grouped(history))
  }

  /** The tables hold a delegator's replay over the events with these ids. */
  predicate Current(events: seq<Event>, t: Tables, d: Address, ids: set<int>) {
    var s := Replay(d, Stream(d, Keep(events, ids)));
    StakeOf(t, d) == s.rows && RegistryEntry(t, d) == RegistryOf(s)
  }

  /** The tables hold the delegator's replay over every event. */
  predicate Exact(events: seq<Event>, t: Tables, d: Address) {
    var s := Replay(d, Stream(d, events));
    StakeOf(t, d) == s.rows && RegistryEntry(t, d) == RegistryOf(s)
  }

  lemma {:induction false} NotGrouped(d: Address, history: seq<Event>)
    requires d !in Grouped(history)
    ensures Stream(d, history) == []
  {
    if |history| > 0 {
      var n := |history| - 1;
      assert history[n] in history && forall e | e in history[..n] :: e in history;
      NotGrouped(d, history[..n]);
    }
  }

  lemma {:induction false} GroupedIn(d: Address, events: seq<Event>, who: set<Address>)
    requires d in who
    ensures d in Grouped(FullHistory(events, who)) <==> Stream(d, events) != []
  {
    AffectedStreamComplete(d, events, who);
    var history := FullHistory(events, who);
    StreamOnly(d, history);
    if d in Grouped(history) {
      var e :| e in history && d in Delegators(e);
      assert e in Stream(d, history);
    } else {
      NotGrouped(d, history);
    }
  }

  /** The tables hold no row at a block the delegator's stream does not touch, and no
      registry entry without a registration in it. */
  predicate NothingStale(events: seq<Event>, t: Tables, d: Address) {
    && StakeOf(t, d).Keys <= TouchedBlocks(d, Stream(d, events))
    && (RegistryEntry(t, d).Some? ==> RegisteredIn(d, Stream(d, events)))
  }

  /** The same in terms of the replay. */
  lemma NothingStaleIs(events: seq<Event>, t: Tables, d: Address)
    ensures var s := Replay(d, Stream(d, events));
      && (NothingStale(events, t, d) <==>
          StakeOf(t, d).Keys <= s.rows.Keys && (RegistryEntry(t, d).Some? ==> s.registered))
      && (RegistryOf(s).Some? <==> s.registered)
  {
    StreamOnly(d, events);
    ReplayMeans(d, Stream(d, events));
  }

  /** Replaying an affected delegator from whatever the tables held leaves exactly its
      complete replay, rows and registry entry, if and only if nothing stale was stored:
      the upserts never delete. */
  lemma AffectedExactly(events: seq<Event>, t: Tables, who: set<Address>, d: Address)
    requires d in who
    ensures Exact(events, AfterReplay(events, t, who), d) <==> NothingStale(events, t, d)
  {
    AffectedStreamComplete(d, events, who);
    GroupedIn(d, events, who);
    NothingStaleIs(events, t, d);
    NothingReplayed(d);
    hide Replay, TouchedBlocks, Stream, FullHistory, Grouped, RegistryOf, NothingStale, RegisteredIn;
    var rows := Replay(d, Stream(d, events)).rows;
    if d in Grouped(FullHistory(events, who)) {
      assert (StakeOf(t, d) + rows).Keys == StakeOf(t, d).Keys + rows.Keys;
      assert StakeOf(t, d).Keys <= rows.Keys ==> StakeOf(t, d) + rows == rows;
    } else {
      assert StakeOf(t, d).Keys <= {} <==> StakeOf(t, d) == map[];
    }
  }

  lemma NothingReplayed(d: Address)
    ensures Replay(d, []) == BLANK && TouchedBlocks(d, []) == {}
  {
  }

  /** Late events: over tables holding the replay of fewer events, the run leaves exactly
      the replay of all of them, with no stale row. */
  lemma IncrementalIsScratch(events: seq<Event>, t: Tables, who: set<Address>, d: Address, ids: set<int>)
    requires d in who && Current(events, t, d, ids)
    ensures Exact(events, AfterReplay(events, t, who), d)
  {
    MoreEventsCover(d, events, ids);
    NothingStaleIs(events, t, d);
    NothingStaleIs(Keep(events, ids), t, d);
    AffectedExactly(events, t, who, d);
    hide Replay, Stream, FullHistory, Grouped, TouchedBlocks, Keep, NothingStale, AfterReplay, Exact, RegistryOf;
  }

  // ---------------------------------------------------------------------------
  // Batches
  // ---------------------------------------------------------------------------

  lemma {:induction false} LeastExists(s: set<int>)
    requires s != {}
    ensures exists m :: m in s && forall x | x in s :: m <= x
  {
    assert (forall x :: x !in s) ==> s == {};
    var a :| a in s;
    if s != {a} {
      assert s - {a} != {} by {
        assert s == (s - {a}) + {a};
      }
      LeastExists(s - {a});
      var b :| b in s - {a} && forall x | x in s - {a} :: b <= x;
      var m := if a < b then a else b;
      assert m in s;
      forall x | x in s ensures m <= x { assert x == a || x in s - {a}; }
    }
  }

  function Least(s: set<int>): (m: int)
    requires s != {}
    ensures m in s && forall x | x in s :: m <= x
  {
    LeastExists(s);
    var m :| m in s && forall x | x in s :: m <= x;
    m
  }

  /** ORDER BY id LIMIT n. */
  function FirstIds(s: set<int>, n: nat): set<int>
    decreases n
  {
    if n == 0 || s == {} then {} else {Least(s)} + FirstIds(s - {Least(s)}, n - 1)
  }

  lemma {:induction false} FirstIdsAre(s: set<int>, n: nat)
    ensures var b := FirstIds(s, n);
      && b <= s && (forall x, y | x in b && y in s - b :: x < y)
      && |b| == if n < |s| then n else |s|
    decreases n
  {
    if n > 0 && s != {} {
      var m := Least(s);
      var rest := FirstIds(s - {m}, n - 1);
      FirstIdsAre(s - {m}, n - 1);
      FirstIdsStep(s, m, rest);
    }
  }

  lemma FirstIdsStep(s: set<int>, m: int, rest: set<int>)
    requires m in s && (forall x | x in s :: m <= x)
    requires rest <= s - {m} && forall x, y | x in rest && y in (s - {m}) - rest :: x < y
    ensures var b := {m} + rest;
      b <= s && (forall x, y | x in b && y in s - b :: x < y) && |b| == 1 + |rest| && |s| == 1 + |s - {m}|
  {
    assert m !in rest;
    assert s - ({m} + rest) == (s - {m}) - rest;
    assert s == {m} + (s - {m});
  }

  function Largest(s: set<int>): (m: int)
    requires s != {}
    ensures m in s && forall x | x in s :: x <= m
  {
    var negated := set x | x in s :: -x;
    assert -Least(s) in negated;
    assert forall x | x in s :: -x in negated;
    -Least(negated)
  }

  // ---------------------------------------------------------------------------
  // Runs and schedules
  // ---------------------------------------------------------------------------

  datatype State = State(tables: Tables, checkpoint: Option<int>)

  const START: State := State(Tables(map[], map[]), None)

  predicate Above(cp: Option<int>, id: int) { cp.None? || cp.value < id }

  /** The ids of the next batch. */
  function Batch(events: seq<Event>, cp: Option<int>, limit: nat): set<int> {
    FirstIds(set e | e in events && Above(cp, e.id) :: e.id, limit)
  }

  function Run(events: seq<Event>, s: State, limit: nat): State {
    var batch := Batch(events, s.checkpoint, limit);
    if batch == {} then
      s.(checkpoint := AdvanceCheckpoint(s.checkpoint, if s.checkpoint.Some? then s.checkpoint.value else 0))
    else State(AfterReplay(events, s.tables, Affected(events, batch)), AdvanceCheckpoint(s.checkpoint, Largest(batch)))
  }

  lemma BatchAre(events: seq<Event>, cp: Option<int>, limit: nat)
    ensures var batch := Batch(events, cp, limit);
      && (forall id | id in batch :: Above(cp, id))
      && (batch != {} ==> forall e | e in events && Above(cp, e.id) && e.id <= Largest(batch) :: e.id in batch)
  {
    var all := set e | e in events && Above(cp, e.id) :: e.id;
    FirstIdsAre(all, limit);
    var batch := Batch(events, cp, limit);
    if batch != {} {
      forall e | e in events && Above(cp, e.id) && e.id <= Largest(batch)
        ensures e.id in batch
      {
        assert e.id in all;
        assert e.id !in batch ==> e.id in all - batch;
      }
    }
  }

  // ---------------------------------------------------------------------------
  // Subsets of the events
  // ---------------------------------------------------------------------------

  lemma KeepSnoc(events: seq<Event>, e: Event, ids: set<int>)
    ensures Keep(events + [e], ids) == Keep(events, ids) + (if e.id in ids then [e] else [])
  {
    assert (events + [e])[..|events|] == events;
  }

  lemma {:induction false} KeepKeep(events: seq<Event>, a: set<int>, b: set<int>)
    ensures Keep(Keep(events, a), b) == Keep(events, a * b)
  {
    if |events| > 0 {
      var n := |events| - 1;
      KeepKeep(events[..n], a, b);
      KeepSnoc(Keep(events[..n], a), events[n], b);
      assert Keep(events[..n], a) + [] == Keep(events[..n], a)
        && Keep(events[..n], a * b) + [] == Keep(events[..n], a * b);
    }
  }

  lemma {:induction false} KeepOnly(events: seq<Event>, ids: set<int>)
    ensures forall e :: e in Keep(events, ids) <==> e in events && e.id in ids
  {
    if |events| > 0 {
      KeepOnly(events[..|events| - 1], ids);
      assert events == events[..|events| - 1] + [events[|events| - 1]];
    }
  }

  lemma NotAffected(events: seq<Event>, batch: set<int>, d: Address)
    requires d !in Affected(events, batch)
    ensures forall e | e in events && Concerns(d, e) :: e.id !in batch
  {
  }

  lemma {:induction false} KeepAll(events: seq<Event>, ids: set<int>)
    requires Ids(events) <= ids
    ensures Keep(events, ids) == events
  {
    if |events| > 0 {
      var n := |events| - 1;
      assert events == events[..n] + [events[n]] && events[n] in events && forall e | e in events[..n] :: e in events;
      KeepAll(events[..n], ids);
    }
  }

  lemma AllIds(events: seq<Event>, t: Tables, d: Address)
    requires Exact(events, t, d)
    ensures Current(events, t, d, Ids(events))
  {
    KeepAll(events, Ids(events));
  }

  lemma UntouchedKeeps(events: seq<Event>, t: Tables, who: set<Address>, d: Address, ids: set<int>)
    requires Current(events, t, d, ids) && d !in Grouped(FullHistory(events, who))
    ensures Current(events, AfterReplay(events, t, who), d, ids)
  {
    hide Replay, Stream, Keep, Grouped, FullHistory;
  }

  lemma {:induction false} KeptStream(d: Address, events: seq<Event>, ids: set<int>)
    requires forall e | e in events && Concerns(d, e) :: e.id in ids
    ensures Stream(d, Keep(events, ids)) == Stream(d, events)
  {
    if |events| > 0 {
      hide Concerns;
      var n := |events| - 1;
      assert events[n] in events && forall e | e in events[..n] :: e in events;
      KeptStream(d, events[..n], ids);
      StreamSnoc(d, Keep(events[..n], ids), events[n]);
      assert Keep(events[..n], ids) + [] == Keep(events[..n], ids)
        && Stream(d, events[..n]) + [] == Stream(d, events[..n]);
    }
  }
}
