/** What the stake-flow backfill does, in the columns of the raw events
    (crates/livepeer-staker/src/flow.rs): whose events are whose, what the queries return,
    what each kind of event does, and what a lock transfer leaves. */
module StakeFlowMeaning {
  import opened Wrappers
  import opened StakeFlow
  import opened StakeFlowRuns
  import opened StakeFlowBystanders
  import opened StakeFlowSchedules
  import opened StakeFlowWorker

  /** An event belongs to its sender, and a lock transfer also to its receiver. */
  predicate Belongs(d: Address, e: Event) { e.from == Some(d) || (e.kind == TransferBond && e.to == Some(d)) }

  /** A delegator's events of a history, in order. */
  function EventsOf(d: Address, history: seq<Event>): seq<Event> {
    if |history| == 0 then []
    else
      var n := |history| - 1;
      EventsOf(d, history[..n]) + if Belongs(d, history[n]) then [history[n]] else []
  }

  lemma {:induction false} StreamMeans(d: Address, history: seq<Event>)
    ensures Stream(d, history) == EventsOf(d, history)
    ensures forall e :: e in Stream(d, history) <==> e in history && Belongs(d, e)
    ensures d in Grouped(history) <==> exists e :: e in history && Belongs(d, e)
  {
    StreamOnly(d, history);
    if |history| > 0 { StreamMeans(d, history[..|history| - 1]); }
    forall e ensures d in Delegators(e) <==> Belongs(d, e) {}
    hide Stream, EventsOf, Delegators, Belongs;
  }

  /** The groups the loop builds are each delegator's events, and there is one for exactly the
      delegators that have some. */
  lemma GroupsMean(history: seq<Event>, streams: map<Address, seq<Event>>, d: Address)
    requires GroupedInto(history, streams)
    ensures d in streams <==> exists e :: e in history && Belongs(d, e)
    ensures d in streams ==> streams[d] == EventsOf(d, history)
  {
    hide Stream, Grouped, EventsOf, Belongs;
    StreamMeans(d, history);
    assert Get(streams, d) == Stream(d, history);
  }

  lemma AffectedMeans(events: seq<Event>, batch: set<int>, d: Address)
    ensures d in Affected(events, batch) <==> exists e :: e in events && e.id in batch && Belongs(d, e)
  {
    forall e ensures d in Delegators(e) <==> Belongs(d, e) {}
    hide Delegators, Belongs;
  }

  /** The history query returns the events that name an affected address on either side. */
  lemma {:induction false} HistoryMeans(events: seq<Event>, who: set<Address>)
    ensures forall e :: e in FullHistory(events, who) <==>
      e in events && exists a :: a in who && (e.from == Some(a) || e.to == Some(a))
  {
    HistoryAre(events, who);
    forall e ensures Mentions(who, e) <==> exists a :: a in who && (e.from == Some(a) || e.to == Some(a)) {}
    hide Mentions, FullHistory;
  }

  /** The batch is the first ids above the checkpoint, up to the limit. */
  lemma BatchMeans(events: seq<Event>, cp: Option<int>, limit: nat)
    ensures var batch := Batch(events, cp, limit);
      && |batch| <= limit
      && (forall id | id in batch :: (exists e :: e in events && e.id == id) && (cp.Some? ==> cp.value < id))
      && (forall e | e in events && e.id !in batch && (cp.Some? ==> cp.value < e.id) ::
          |batch| == limit && forall id | id in batch :: id < e.id)
  {
    var waiting := set e | e in events && Above(cp, e.id) :: e.id;
    FirstIdsAre(waiting, limit);
    var batch := Batch(events, cp, limit);
    hide FirstIds;
    forall e | e in events && e.id !in batch && (cp.Some? ==> cp.value < e.id)
      ensures |batch| == limit && forall id | id in batch :: id < e.id
    {
      assert e.id in waiting - batch;
      if |batch| == |waiting| { SameSize(batch, waiting); }
    }
  }

  /** Every run of a schedule consumes its batch and nothing else: an event is at or below the
      new checkpoint exactly when it was before or is in the batch. */
  lemma TickConsumes(ticks: seq<Tick>, t: Tick, e: Event)
    requires e in t.events && e.id >= 1
    ensures Play([]) == State(Tables(map[], map[]), None)
    ensures var before, after := Play(ticks).checkpoint, Play(ticks + [t]).checkpoint;
      (after.Some? && e.id <= after.value) <==>
      (before.Some? && e.id <= before.value) || e.id in Batch(t.events, before, t.limit)
  {
    assert (ticks + [t])[..|ticks|] == ticks;
    var s := Play(ticks);
    hide Play, Batch, AfterReplay, Affected;
    BatchAre(t.events, s.checkpoint, t.limit);
    var batch := Batch(t.events, s.checkpoint, t.limit);
  }

  lemma SameSize(a: set<int>, b: set<int>)
    requires a <= b && |a| == |b|
    ensures a == b
  {
    assert b == a + (b - a);
    assert |b| == |a| + |b - a|;
  }

  function AmountOf(e: Event): int { match e.amount case Some(wei) => wei case None => 0 }

  /** The delegate after an event that names one. */
  function Renamed(s: Replayed, e: Event): Option<Address> { match e.to case Some(_) => e.to case None => s.delegate }

  /** What each kind of event of a delegator does: bonds, rebonds and earnings add, unbonds
      subtract, withdrawals and lock transfers move nothing and name no delegate; a bond and
      a received lock register; anything else before a registration is skipped, except
      earnings. */
  lemma KindsMean(d: Address, s: Replayed, e: Event)
    requires Belongs(d, e)
    ensures var t := Step(d, s, e);
      match e.kind
      case Bond => t.balance == s.balance + AmountOf(e) && t.delegate == Renamed(s, e) && t.registered
      case EarningsClaimed =>
        t.balance == s.balance + e.rewards && t.delegate == Renamed(s, e) && t.registered == s.registered
      case Unbond =>
        if s.registered then t.balance == s.balance - AmountOf(e) && t.delegate == Renamed(s, e) && t.registered
        else t == s.(skipped := s.skipped + 1)
      case Rebond =>
        if s.registered then t.balance == s.balance + AmountOf(e) && t.delegate == Renamed(s, e) && t.registered
        else t == s.(skipped := s.skipped + 1)
      case WithdrawStake =>
        if s.registered then t.balance == s.balance && t.delegate == s.delegate && t.registered
        else t == s.(skipped := s.skipped + 1)
      case TransferBond =>
        if s.registered || e.to == Some(d) then t.balance == s.balance && t.delegate == s.delegate && t.registered
        else t == s.(skipped := s.skipped + 1)
  {
  }

  /** An event that is not skipped leaves the row of its block: the balance and delegate after
      it, or the zero address, the source by registration, and its own id. */
  lemma RowWritten(d: Address, s: Replayed, e: Event)
    requires Belongs(d, e) && Step(d, s, e).skipped == s.skipped
    ensures var t := Step(d, s, e);
      && t.rows.Keys == s.rows.Keys + {e.block}
      && (forall b | b in s.rows && b != e.block :: t.rows[b] == s.rows[b])
      && t.rows[e.block].block == e.block && t.rows[e.block].principal == t.balance
      && t.rows[e.block].triggeringEvent == e.id
      && t.rows[e.block].delegate ==
        (match t.delegate case Some(a) => a case None => "0x0000000000000000000000000000000000000000")
      && (t.rows[e.block].source == Flow <==> t.registered)
      && t.lastSeen == Some(Sighting(e.block, e.id))
  {
  }

  /** The receiver of a lock transfer gets a row at its block and a registry entry from the
      run whose batch holds it. */
  lemma TransferReceived(events: seq<Event>, s: State, limit: nat, d: Address, e: Event)
    requires e in events && e.kind == TransferBond && e.to == Some(d) && e.id in Batch(events, s.checkpoint, limit)
    ensures var after := Run(events, s, limit).tables;
      e.block in StakeOf(after, d) && RegistryEntry(after, d).Some?
  {
    hide Batch, AfterReplay, FullHistory, Stream, TouchedBlocks, Affected;
    var batch := Batch(events, s.checkpoint, limit);
    var who := Affected(events, batch);
    AffectedMeans(events, batch, d);
    AffectedStreamComplete(d, events, who);
    ReplayWrites(events, s.tables, who, d);
    StreamMeans(d, events);
    var stream := Stream(d, events);
    assert e in stream && Registers(d, e);
    RegisteringTouches(d, stream, e);
  }

  lemma {:induction false} RegisteringTouches(d: Address, stream: seq<Event>, e: Event)
    requires e in stream && Registers(d, e)
    ensures e.block in TouchedBlocks(d, stream)
  {
    var n := |stream| - 1;
    if stream[n] == e {
      assert Concerns(d, e);
    } else {
      assert stream == stream[..n] + [stream[n]];
      RegisteringTouches(d, stream[..n], e);
    }
  }
}
