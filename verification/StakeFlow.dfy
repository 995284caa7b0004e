/** Stake balances by replay (crates/livepeer-staker/src/flow.rs): one delegator's event
    stream is folded into a row per touched block and a registry entry, and every run
    re-derives the delegators its new events touch. Amounts are in wei. */
module StakeFlow {
  import opened Wrappers

  type Address = string

  const ZERO_ADDRESS: Address := "0x0000000000000000000000000000000000000000"

  datatype Kind = Bond | Unbond | Rebond | WithdrawStake | EarningsClaimed | TransferBond

  datatype Event = Event(
    id: int,
    kind: Kind,
    block: int,
    logIndex: int,
    from: Option<Address>,
    to: Option<Address>,
    amount: Option<int>,
    rewards: int)

  datatype Source = Flow | EarningsBootstrap

  datatype Row = Row(block: int, delegate: Address, principal: int, source: Source, triggeringEvent: int)

  datatype Sighting = Sighting(block: int, event: int)

  datatype Registry = Registry(firstBond: Sighting, lastSeen: Sighting, isActive: bool)

  datatype Replayed = Replayed(
    balance: int,
    delegate: Option<Address>,
    registered: bool,
    firstBond: Option<Sighting>,
    lastSeen: Option<Sighting>,
    rows: map<int, Row>,
    skipped: nat)

  const BLANK: Replayed := Replayed(0, None, false, None, None, map[], 0)

  // ---------------------------------------------------------------------------
  // The replay, one event at a time
  // ---------------------------------------------------------------------------

  function Amount(e: Event): int { if e.amount.Some? then e.amount.value else 0 }

  /** A row names the zero address while no delegate is known. */
  function NameOf(delegate: Option<Address>): Address { if delegate.Some? then delegate.value else ZERO_ADDRESS }

  function WriteRow(s: Replayed, e: Event, source: Source): Replayed {
    s.(rows := s.rows[e.block := Row(e.block, NameOf(s.delegate), s.balance, source, e.id)],
       lastSeen := Some(Sighting(e.block, e.id)))
  }

  function Register(s: Replayed, e: Event): Replayed {
    if s.registered then s
    else s.(registered := true, firstBond := if s.firstBond.Some? then s.firstBond else Some(Sighting(e.block, e.id)))
  }

  function Skip(s: Replayed): Replayed { s.(skipped := s.skipped + 1) }

  function Follow(s: Replayed, e: Event): Replayed { if e.to.Some? then s.(delegate := e.to) else s }

  function Credit(s: Replayed, amount: int): Replayed { s.(balance := s.balance + amount) }

  function Step(d: Address, s: Replayed, e: Event): Replayed {
    var isFrom, isTo := e.from == Some(d), e.to == Some(d);
    match e.kind
    case Bond => if isFrom then WriteRow(Follow(Credit(Register(s, e), Amount(e)), e), e, Flow) else s
    case Unbond =>
      if !isFrom then s else if !s.registered then Skip(s) else WriteRow(Follow(Credit(s, -Amount(e)), e), e, Flow)
    case WithdrawStake =>
      if !isFrom then s else if !s.registered then Skip(s) else WriteRow(s, e, Flow)
    case Rebond =>
      if !isFrom then s else if !s.registered then Skip(s) else WriteRow(Follow(Credit(s, Amount(e)), e), e, Flow)
    case EarningsClaimed =>
      if !isFrom then s
      else WriteRow(Follow(Credit(s, e.rewards), e), e, if s.registered then Flow else EarningsBootstrap)
    case TransferBond =>
      if isFrom && !isTo then (if !s.registered then Skip(s) else WriteRow(s, e, Flow))
      else if isTo then WriteRow(Register(s, e), e, Flow)
      else s.(lastSeen := Some(Sighting(e.block, e.id)))
  }

  function Replay(d: Address, events: seq<Event>): Replayed {
    if |events| == 0 then BLANK else Step(d, Replay(d, events[..|events| - 1]), events[|events| - 1])
  }

  function RegistryOf(s: Replayed): Option<Registry> {
    if s.registered && s.firstBond.Some? && s.lastSeen.Some?
    then Some(Registry(s.firstBond.value, s.lastSeen.value, s.balance > 0))
    else None
  }

  // ---------------------------------------------------------------------------
  // What a stream means, without replaying it
  // ---------------------------------------------------------------------------

  /** The delegators an event belongs to. */
  function Delegators(e: Event): set<Address> {
    (if e.from.Some? then {e.from.value} else {}) + (if e.kind.TransferBond? && e.to.Some? then {e.to.value} else {})
  }

  predicate Concerns(d: Address, e: Event) { d in Delegators(e) }

  /** A first bond, or receiving an unbonding lock, makes an address a delegator. */
  predicate Registers(d: Address, e: Event) {
    (e.kind.Bond? && e.from == Some(d)) || (e.kind.TransferBond? && e.to == Some(d))
  }

  predicate RegisteredIn(d: Address, events: seq<Event>) { exists e :: e in events && Registers(d, e) }

  /** Whether the event is replayed or skipped when these came before it. */
  predicate Counts(d: Address, before: seq<Event>, e: Event) {
    Concerns(d, e) && (e.kind.EarningsClaimed? || Registers(d, e) || RegisteredIn(d, before))
  }

  /** What an event moves: a lock transfer and a withdrawal move nothing. */
  function Delta(e: Event): int {
    match e.kind
    case Bond => Amount(e)
    case Rebond => Amount(e)
    case Unbond => -Amount(e)
    case EarningsClaimed => e.rewards
    case WithdrawStake => 0
    case TransferBond => 0
  }

  function Total(d: Address, events: seq<Event>): int {
    if |events| == 0 then 0
    else
      var n := |events| - 1;
      Total(d, events[..n]) + if Counts(d, events[..n], events[n]) then Delta(events[n]) else 0
  }

  /** The last event that counted. */
  function LastCounted(d: Address, events: seq<Event>): Option<Event> {
    if |events| == 0 then None
    else
      var n := |events| - 1;
      if Counts(d, events[..n], events[n]) then Some(events[n]) else LastCounted(d, events[..n])
  }

  /** The first event that registers the delegator. */
  function FirstRegistering(d: Address, events: seq<Event>): Option<Event> {
    if |events| == 0 then None
    else
      var n := |events| - 1;
      var before := FirstRegistering(d, events[..n]);
      if before.Some? then before else if Registers(d, events[n]) then Some(events[n]) else None
  }

  /** The blocks in which some event counted. */
  function TouchedBlocks(d: Address, events: seq<Event>): set<int> {
    if |events| == 0 then {}
    else
      var n := |events| - 1;
      TouchedBlocks(d, events[..n]) + if Counts(d, events[..n], events[n]) then {events[n].block} else {}
  }

  predicate Follows(e: Event) { e.to.Some? && !e.kind.WithdrawStake? && !e.kind.TransferBond? }

  /** The delegate named by the last counted event that names one. */
  function LastDelegate(d: Address, events: seq<Event>): Option<Address> {
    if |events| == 0 then None
    else
      var n := |events| - 1;
      if Counts(d, events[..n], events[n]) && Follows(events[n]) then events[n].to else LastDelegate(d, events[..n])
  }

  predicate AllConcern(d: Address, events: seq<Event>) { forall e | e in events :: Concerns(d, e) }

  predicate BlocksInOrder(events: seq<Event>) {
    forall i, j | 0 <= i < j < |events| :: events[i].block <= events[j].block
  }

  function Seen(e: Option<Event>): Option<Sighting> {
    if e.None? then None else Some(Sighting(e.value.block, e.value.id))
  }

  lemma RegisteredSnoc(d: Address, events: seq<Event>)
    requires |events| > 0
    ensures var n := |events| - 1;
      RegisteredIn(d, events) <==> RegisteredIn(d, events[..n]) || Registers(d, events[n])
  {
    var n := |events| - 1;
    assert events == events[..n] + [events[n]];
    assert events[n] in events;
  }

  /** Whether the step replays the event rather than skipping it. */
  predicate Replays(d: Address, registered: bool, e: Event) {
    e.kind.EarningsClaimed? || Registers(d, e) || registered
  }

  lemma StepMeans(d: Address, s: Replayed, e: Event)
    requires Concerns(d, e) && (s.firstBond.Some? <==> s.registered)
    ensures var t := Step(d, s, e);
      if Replays(d, s.registered, e) then
        && t.balance == s.balance + Delta(e)
        && t.delegate == (if Follows(e) then e.to else s.delegate)
        && t.registered == (s.registered || Registers(d, e))
        && t.firstBond ==
          (if s.registered then s.firstBond else if Registers(d, e) then Some(Sighting(e.block, e.id)) else None)
        && t.lastSeen == Some(Sighting(e.block, e.id))
        && t.rows ==
          s.rows[e.block := Row(e.block, NameOf(t.delegate), t.balance,
                                if t.registered then Flow else EarningsBootstrap, e.id)]
        && t.skipped == s.skipped
      else t == Skip(s)
  {
  }

  /** How many events are skipped for want of a registration. */
  function SkippedIn(d: Address, events: seq<Event>): nat {
    if |events| == 0 then 0
    else
      var n := |events| - 1;
      SkippedIn(d, events[..n]) + if Counts(d, events[..n], events[n]) then 0 else 1
  }

  /** Conservation: the replayed balance is the sum of what the counted events move, one
      row per touched block, and the registry names the first registering and the last
      counted event. */
  lemma {:induction false} ReplayMeans(d: Address, events: seq<Event>)
    requires AllConcern(d, events)
    ensures var s := Replay(d, events);
      && s.balance == Total(d, events)
      && s.delegate == LastDelegate(d, events)
      && s.registered == RegisteredIn(d, events)
      && s.firstBond == Seen(FirstRegistering(d, events)) && (s.firstBond.Some? <==> s.registered)
      && s.lastSeen == Seen(LastCounted(d, events))
      && s.rows.Keys == TouchedBlocks(d, events)
      && s.skipped == SkippedIn(d, events)
      && (s.registered ==> s.lastSeen.Some?)
  {
    if |events| > 0 {
      hide RegisteredIn, Step, Registers, Delta, Delegators, Concerns;
      var n := |events| - 1;
      assert events[n] in events && forall e | e in events[..n] :: e in events;
      ReplayMeans(d, events[..n]);
      RegisteredSnoc(d, events);
      StepMeans(d, Replay(d, events[..n]), events[n]);
    } else {
      assert TouchedBlocks(d, events) == {};
    }
  }

  /** The events up to and including a block. */
  function UpTo(events: seq<Event>, block: int): seq<Event> {
    if |events| == 0 || events[|events| - 1].block <= block then events else UpTo(events[..|events| - 1], block)
  }

  /** The row a block should hold. */
  function RowFor(d: Address, events: seq<Event>, block: int): Option<Row> {
    var prefix := UpTo(events, block);
    if block !in TouchedBlocks(d, events) || LastCounted(d, prefix).None? then None
    else Some(Row(block, NameOf(LastDelegate(d, prefix)), Total(d, prefix),
                  if RegisteredIn(d, prefix) then Flow else EarningsBootstrap, LastCounted(d, prefix).value.id))
  }

  /** Each row holds the prefix sum through its block and names the last counted event. */
  lemma {:induction false} RowMeans(d: Address, events: seq<Event>, block: int)
    requires AllConcern(d, events) && BlocksInOrder(events)
    requires block in Replay(d, events).rows
    ensures Some(Replay(d, events).rows[block]) == RowFor(d, events, block)
  {
    hide Counts, RegisteredIn, Step, RowFor, Replay, AllConcern, UpTo, TouchedBlocks;
    ReplayMeans(d, events);
    TouchedAre(d, events);
    var n := |events| - 1;
    var e := events[n];
    PrefixConcern(d, events);
    CountedStep(d, events);
    if Counts(d, events[..n], e) && e.block == block {
      LastRow(d, events);
    } else {
      assert block in Replay(d, events[..n]).rows;
      RowMeans(d, events[..n], block);
      ReplayMeans(d, events[..n]);
      EarlierRow(d, events, block);
    }
  }

  lemma PrefixConcern(d: Address, events: seq<Event>)
    requires |events| > 0 && AllConcern(d, events)
    ensures AllConcern(d, events[..|events| - 1])
  {
    assert forall x | x in events[..|events| - 1] :: x in events;
  }

  lemma LastRow(d: Address, events: seq<Event>)
    requires |events| > 0 && Counts(d, events[..|events| - 1], events[|events| - 1])
    ensures var e := events[|events| - 1];
      RowFor(d, events, e.block) ==
      Some(Row(e.block, NameOf(LastDelegate(d, events)),
               Total(d, events), if RegisteredIn(d, events) then Flow else EarningsBootstrap, e.id))
  {
    hide Counts, RegisteredIn, Total, LastDelegate;
  }

  /** A later event that does not count in a block leaves that block's row as it was. */
  lemma EarlierRow(d: Address, events: seq<Event>, block: int)
    requires |events| > 0 && AllConcern(d, events) && BlocksInOrder(events)
    requires var n := |events| - 1;
      block in TouchedBlocks(d, events[..n]) && !(Counts(d, events[..n], events[n]) && events[n].block == block)
    ensures RowFor(d, events, block) == RowFor(d, events[..|events| - 1], block)
  {
    var n := |events| - 1;
    TouchedAre(d, events[..n]);
    CountedStep(d, events);
    hide Counts, RegisteredIn, Replay, AllConcern, Concerns;
    if events[n].block <= block {
      LastBlockPrefix(d, events, block);
    }
  }

  lemma {:induction false} TouchedAre(d: Address, events: seq<Event>)
    ensures forall b | b in TouchedBlocks(d, events) :: exists e :: e in events && e.block == b
  {
    if |events| > 0 {
      var n := |events| - 1;
      TouchedAre(d, events[..n]);
      assert events[n] in events && forall x | x in events[..n] :: x in events;
    }
  }

  /** A row is only written at a counted event, under its own block. */
  lemma CountedStep(d: Address, events: seq<Event>)
    requires |events| > 0 && AllConcern(d, events)
    ensures var n := |events| - 1;
      var e := events[n];
      var before, after := Replay(d, events[..n]), Replay(d, events);
      if Counts(d, events[..n], e) then
        after.rows ==
          before.rows[e.block := Row(e.block, NameOf(LastDelegate(d, events)), Total(d, events),
                                     if RegisteredIn(d, events) then Flow else EarningsBootstrap, e.id)]
      else after.rows == before.rows && (RegisteredIn(d, events) <==> RegisteredIn(d, events[..n]))
  {
    hide RegisteredIn, Step, Delta, Delegators, Concerns;
    var n := |events| - 1;
    assert events[n] in events && forall x | x in events[..n] :: x in events;
    ReplayMeans(d, events[..n]);
    ReplayMeans(d, events);
    RegisteredSnoc(d, events);
    StepMeans(d, Replay(d, events[..n]), events[n]);
  }

  /** When the last event is not past the block, the prefix through it is everything. */
  lemma LastBlockPrefix(d: Address, events: seq<Event>, block: int)
    requires |events| > 0 && BlocksInOrder(events) && events[|events| - 1].block <= block
    ensures UpTo(events, block) == events && UpTo(events[..|events| - 1], block) == events[..|events| - 1]
  {
  }

  /** The registry entry exists exactly when some event registers the delegator, and is
      active exactly when the stream's total is positive. */
  lemma RegistryMeans(d: Address, events: seq<Event>)
    requires AllConcern(d, events)
    ensures var r := RegistryOf(Replay(d, events));
      && (r.Some? <==> RegisteredIn(d, events))
      && (r.Some? ==> r.value.isActive == (Total(d, events) > 0))
      && (r.Some? ==> Some(r.value.firstBond) == Seen(FirstRegistering(d, events)))
      && (r.Some? ==> Some(r.value.lastSeen) == Seen(LastCounted(d, events)))
  {
    ReplayMeans(d, events);
  }
}
