/** The valuator's incremental scan (crates/livepeer-valuator/src/cursor.rs, and the pass
    loops of onchain.rs and multi_asset.rs) as a protocol between three kinds of worker:
    the finality watcher stamps rows, other passes write outcomes, and one pass at a time
    reads a floor, fetches candidates, prices them, flushes, reads the frontier and moves
    its watermark. Every step may interleave with every other. */
module Watermark {
  import opened Checkpoints
  import opened Wrappers

  datatype Asset = ETH | LPT

  datatype Pass = EthPass | LptPass | MultiPass

  type Version = string

  const TWAP_VERSION: Version := "v1_lpt_weth_twap_30min_x_chainlink_eth"
  const DEGRADED_VERSION: Version := "v1_degraded_spot_pre_cardinality"
  const LOOKBACK: int := 600

  /** A pass and the timing it runs under: `span` bounds the time from fetching the
      candidates to reading the frontier, and a row becomes visible at most `behind`
      after and at most `ahead` before the instant it is stamped with. */
  datatype Params = Params(pass: Pass, version: Version, span: nat, behind: nat, ahead: nat)

  // ---------------------------------------------------------------------------
  // Outcomes
  // ---------------------------------------------------------------------------

  datatype Slot = Slot(id: int, version: Version, asset: Asset)

  /** The valuation rows and the failed attempts. */
  datatype Tables = Tables(valuations: set<Slot>, failed: set<Slot>)

  const NOTHING: Tables := Tables({}, {})

  function Union(t: Tables, u: Tables): Tables {
    Tables(t.valuations + u.valuations, t.failed + u.failed)
  }

  predicate Within(t: Tables, u: Tables) {
    t.valuations <= u.valuations && t.failed <= u.failed
  }

  function Minus(t: Tables, u: Tables): Tables {
    Tables(t.valuations - u.valuations, t.failed - u.failed)
  }

  /** The parts of an event a pass has to price. */
  predicate Half(pass: Pass, a: Asset) {
    match pass
    case EthPass => a == ETH
    case LptPass => a == LPT
    case MultiPass => true
  }

  predicate Holds(t: Tables, slot: Slot) { slot in t.valuations || slot in t.failed }

  predicate Settled(p: Params, t: Tables, id: int, a: Asset) {
    Holds(t, Slot(id, p.version, a)) || (p.pass != EthPass && Holds(t, Slot(id, DEGRADED_VERSION, a)))
  }

  /** No candidate query would return the event again. */
  predicate Resolved(p: Params, t: Tables, id: int) {
    (Half(p.pass, ETH) ==> Settled(p, t, id, ETH)) && (Half(p.pass, LPT) ==> Settled(p, t, id, LPT))
  }

  /** One of the versions has a valuation row or a failed attempt for the half. */
  predicate HasRow(t: Tables, id: int, versions: set<Version>, a: Asset) {
    exists v :: v in versions && (Slot(id, v, a) in t.valuations || Slot(id, v, a) in t.failed)
  }

  /** What each candidate query excludes, in the columns it joins: the ETH query looks for its
      own version only, the other two also for the degraded one, and the multi-asset query
      wants both halves. */
  predicate Answered(p: Params, t: Tables, id: int) {
    match p.pass
    case EthPass => HasRow(t, id, {p.version}, ETH)
    case LptPass => HasRow(t, id, {p.version, DEGRADED_VERSION}, LPT)
    case MultiPass => forall a: Asset :: HasRow(t, id, {p.version, DEGRADED_VERSION}, a)
  }

  lemma ResolvedMeans(p: Params, t: Tables, id: int)
    ensures Resolved(p, t, id) <==> Answered(p, t, id)
  {
    SettledMeans(p, t, id, ETH);
    SettledMeans(p, t, id, LPT);
    hide Settled, HasRow;
    if HasRow(t, id, {p.version, DEGRADED_VERSION}, ETH) && HasRow(t, id, {p.version, DEGRADED_VERSION}, LPT) {
      forall a: Asset ensures HasRow(t, id, {p.version, DEGRADED_VERSION}, a) { assert a == ETH || a == LPT; }
    }
  }

  lemma SettledMeans(p: Params, t: Tables, id: int, a: Asset)
    ensures Settled(p, t, id, a) <==>
      if p.pass == EthPass then HasRow(t, id, {p.version}, a) else HasRow(t, id, {p.version, DEGRADED_VERSION}, a)
  {
    assert p.version in {p.version} && p.version in {p.version, DEGRADED_VERSION};
    assert DEGRADED_VERSION in {p.version, DEGRADED_VERSION};
  }

  /** What pricing one half comes to. `Priced` also stands for a zero-amount row. */
  datatype Outcome = Priced | PricedTwap | PricedDegraded | Failed | Transient

  datatype Outcomes = Outcomes(eth: Outcome, lpt: Outcome)

  predicate Possible(p: Params, o: Outcomes) {
    && (o.eth.Priced? || o.eth.Failed? || o.eth.Transient?)
    && (o.lpt.Priced? ==> p.pass.MultiPass?)
  }

  function VersionOf(p: Params, o: Outcome): Version {
    match o
    case PricedTwap => TWAP_VERSION
    case PricedDegraded => DEGRADED_VERSION
    case _ => p.version
  }

  function Write(p: Params, t: Tables, id: int, a: Asset, o: Outcome): Tables {
    if o.Transient? then t
    else Tables(t.valuations + {Slot(id, VersionOf(p, o), a)},
                if o.Failed? then t.failed + {Slot(id, p.version, a)} else t.failed)
  }

  /** The rows one event's outcomes add. */
  function WriteEvent(p: Params, t: Tables, id: int, o: Outcomes): Tables {
    match p.pass
    case EthPass => Write(p, t, id, ETH, o.eth)
    case LptPass => Write(p, t, id, LPT, o.lpt)
    case MultiPass => Write(p, Write(p, t, id, LPT, o.lpt), id, ETH, o.eth)
  }

  /** What pricing one half writes, in columns: nothing after a retryable failure; otherwise
      a valuation row, under the fixed name for a TWAP price, under the degraded one for a
      spot price and under the run's own for the rest; and a failed attempt exactly when
      pricing failed for good. */
  lemma WriteMeans(p: Params, t: Tables, id: int, a: Asset, o: Outcome)
    ensures var after := Write(p, t, id, a, o);
      match o
      case Transient => after == t
      case Priced => after == Tables(t.valuations + {Slot(id, p.version, a)}, t.failed)
      case PricedTwap =>
        after == Tables(t.valuations + {Slot(id, "v1_lpt_weth_twap_30min_x_chainlink_eth", a)}, t.failed)
      case PricedDegraded => after == Tables(t.valuations + {Slot(id, "v1_degraded_spot_pre_cardinality", a)}, t.failed)
      case Failed =>
        after == Tables(t.valuations + {Slot(id, p.version, a)}, t.failed + {Slot(id, p.version, a)})
  {
  }

  /** A pass prices the halves it is for, and is stuck on an event exactly when one of them met
      a retryable failure. */
  lemma EventMeans(p: Params, t: Tables, id: int, o: Outcomes)
    ensures Stuck(p, o) <==>
      (p.pass != LptPass && o.eth == Transient) || (p.pass != EthPass && o.lpt == Transient)
    ensures p.pass == EthPass ==> WriteEvent(p, t, id, o) == Write(p, t, id, ETH, o.eth)
    ensures p.pass == LptPass ==> WriteEvent(p, t, id, o) == Write(p, t, id, LPT, o.lpt)
    ensures p.pass == MultiPass ==>
      WriteEvent(p, t, id, o) == Union(Write(p, t, id, ETH, o.eth), Write(p, t, id, LPT, o.lpt))
  {
  }

  /** Some half met a retryable failure. */
  predicate Stuck(p: Params, o: Outcomes) {
    (Half(p.pass, ETH) && o.eth.Transient?) || (Half(p.pass, LPT) && o.lpt.Transient?)
  }

  function Pin(m: Option<int>, stamp: int): Option<int> {
    Some(if m.None? then stamp else Min(m.value, stamp))
  }

  /** The advance rule. */
  function NextWatermark(minUnresolved: Option<int>, frontier: int): int {
    if minUnresolved.Some? then Min(minUnresolved.value, frontier) else frontier
  }

  /** TWAP rows carry a fixed version name; the candidate query only looks for the run's
      own version and the degraded one. */
  predicate VersionsMatch(p: Params) { p.pass == EthPass || p.version == TWAP_VERSION }

  lemma Monotone(p: Params, t: Tables, u: Tables, id: int)
    requires Within(t, u) && Resolved(p, t, id)
    ensures Resolved(p, u, id)
  {
  }

  /** Pricing both halves without a retryable failure settles the event, for every
      possible outcome, if and only if TWAP rows land under an accepted version. */
  lemma WriteSettles(p: Params, id: int)
    ensures VersionsMatch(p) <==>
      forall t, o | Possible(p, o) && !Stuck(p, o) :: Resolved(p, WriteEvent(p, t, id, o), id)
  {
    if VersionsMatch(p) {
      forall t, o | Possible(p, o) && !Stuck(p, o) ensures Resolved(p, WriteEvent(p, t, id, o), id) {
        WriteSettlesOne(p, t, id, o);
      }
    } else {
      var o := Outcomes(Priced, PricedTwap);
      TwapMissed(p, id);
      assert Possible(p, o) && !Stuck(p, o) && !Resolved(p, WriteEvent(p, NOTHING, id, o), id);
    }
  }

  lemma WriteSettlesOne(p: Params, t: Tables, id: int, o: Outcomes)
    requires VersionsMatch(p) && Possible(p, o) && !Stuck(p, o)
    ensures Resolved(p, WriteEvent(p, t, id, o), id)
  {
  }

  lemma VersionNamesDiffer()
    ensures TWAP_VERSION != DEGRADED_VERSION
  {
    assert TWAP_VERSION[3] != DEGRADED_VERSION[3];
  }

  lemma TwapMissed(p: Params, id: int)
    requires !VersionsMatch(p)
    ensures !Resolved(p, WriteEvent(p, NOTHING, id, Outcomes(Priced, PricedTwap)), id)
  {
    VersionNamesDiffer();
  }

  // ---------------------------------------------------------------------------
  // The protocol
  // ---------------------------------------------------------------------------

  /** A finalized row of the pass's universe. */
  datatype Row = Row(stamp: int, amountKnown: bool, canonical: bool)

  datatype Worker =
    | Idle
    | Floored(floor: int)
    | Pricing(since: int, candidates: set<int>, left: set<int>, pending: Tables, minUnresolved: Option<int>)
    | Closing(since: int, candidates: set<int>, minUnresolved: Option<int>, frontier: Option<int>)

  datatype State = State(now: int, rows: map<int, Row>, tables: Tables, watermark: Option<int>, worker: Worker)

  const START: State := State(0, map[], NOTHING, None, Idle)

  /** An event without an amount is skipped on every pass; the multi-asset pass never skips. */
  predicate Priceable(p: Params, r: Row) { p.pass.MultiPass? || r.amountKnown }

  predicate HasValuations(p: Params, t: Tables) { exists slot :: slot in t.valuations && slot.version == p.version }

  /** Zero, the epoch, means scan everything. */
  function ScanFloor(p: Params, s: State): int {
    if s.watermark.Some? && HasValuations(p, s.tables) then s.watermark.value - LOOKBACK else 0
  }

  predicate Candidate(p: Params, s: State, floor: int, id: int) {
    id in s.rows && s.rows[id].canonical && s.rows[id].stamp >= floor && !Resolved(p, s.tables, id)
  }

  function Candidates(p: Params, s: State, floor: int): set<int> {
    set id | id in s.rows && Candidate(p, s, floor, id)
  }

  predicate NeedsWork(p: Params, s: State, id: int) {
    id in s.rows && s.rows[id].canonical && Priceable(p, s.rows[id]) && !Resolved(p, s.tables, id)
  }

  /** What a fetch returns and what counts as work, in columns: a canonical row at or above
      the floor some half of which has no row yet; work needs an amount unless the pass is the
      multi-asset one. */
  lemma CandidatesMean(p: Params, s: State, floor: int, id: int)
    ensures id in Candidates(p, s, floor) <==>
      id in s.rows && s.rows[id].canonical && floor <= s.rows[id].stamp && !Answered(p, s.tables, id)
    ensures NeedsWork(p, s, id) <==>
      && id in s.rows && s.rows[id].canonical && (s.rows[id].amountKnown || p.pass == MultiPass)
      && !Answered(p, s.tables, id)
  {
    hide Resolved, Answered;
    ResolvedMeans(p, s.tables, id);
  }

  /** The newest stamp among canonical rows. */
  predicate IsFrontier(rows: map<int, Row>, frontier: Option<int>) {
    && (forall id | id in rows && rows[id].canonical :: frontier.Some? && rows[id].stamp <= frontier.value)
    && (frontier.Some? ==> exists id | id in rows :: rows[id].canonical && rows[id].stamp == frontier.value)
  }

  datatype Step =
    | Tick(seconds: nat)
    | Stamp(id: int, stamp: int, amountKnown: bool)
    | Orphan(id: int)
    | Elsewhere(written: Tables)
    | ReadFloor
    | Fetch
    | Handle(id: int, outcomes: Outcomes)
    | Flush(part: Tables)
    | ReadFrontier(frontier: Option<int>)
    | Advance
    | Crash
    | Reset

  predicate Enabled(p: Params, s: State, step: Step) {
    match step
    case Stamp(id, stamp, _) => id !in s.rows && 0 <= stamp && s.now - p.behind <= stamp <= s.now + p.ahead
    case Orphan(id) => id in s.rows
    case ReadFloor => s.worker.Idle?
    case Fetch => s.worker.Floored?
    case Handle(id, o) => s.worker.Pricing? && id in s.worker.left && id in s.rows && Possible(p, o)
    case Flush(part) => s.worker.Pricing? && Within(part, s.worker.pending)
    case ReadFrontier(f) =>
      && s.worker.Pricing? && s.worker.left == {} && s.worker.pending == NOTHING
      && IsFrontier(s.rows, f) && s.now - s.worker.since <= p.span
    case Advance => s.worker.Closing?
    case _ => true
  }

  function Apply(p: Params, s: State, step: Step): State
    requires Enabled(p, s, step)
  {
    match step
    case Tick(d) => s.(now := s.now + d)
    case Stamp(id, stamp, amountKnown) => s.(rows := s.rows[id := Row(stamp, amountKnown, true)])
    case Orphan(id) => s.(rows := s.rows[id := s.rows[id].(canonical := false)])
    case Elsewhere(written) => s.(tables := Union(s.tables, written))
    case ReadFloor => s.(worker := Floored(ScanFloor(p, s)))
    case Fetch =>
      var found := Candidates(p, s, s.worker.floor);
      s.(worker := Pricing(s.now, found, found, NOTHING, None))
    case Handle(id, o) => s.(worker := HandleOne(p, s.worker, id, s.rows[id], o))
    case Flush(part) =>
      s.(tables := Union(s.tables, part), worker := s.worker.(pending := Minus(s.worker.pending, part)))
    case ReadFrontier(f) => s.(worker := Closing(s.worker.since, s.worker.candidates, s.worker.minUnresolved, f))
    case Advance => s.(watermark := AdvanceTo(s), worker := Idle)
    case Crash => s.(worker := Idle)
    case Reset => s.(tables := NOTHING, watermark := None, worker := Idle)
  }

  function HandleOne(p: Params, w: Worker, id: int, r: Row, o: Outcomes): Worker
    requires w.Pricing?
  {
    if !Priceable(p, r) then w.(left := w.left - {id})
    else w.(left := w.left - {id}, pending := WriteEvent(p, w.pending, id, o),
            minUnresolved := if Stuck(p, o) then Pin(w.minUnresolved, r.stamp) else w.minUnresolved)
  }

  function AdvanceTo(s: State): Option<int>
    requires s.worker.Closing?
  {
    if s.worker.frontier.None? then s.watermark
    else Some(NextWatermark(s.worker.minUnresolved, s.worker.frontier.value))
  }

  /** The state a run of steps leads to, if each step is enabled in turn. */
  function RunOf(p: Params, steps: seq<Step>): Option<State> {
    if |steps| == 0 then Some(START)
    else
      var n := |steps| - 1;
      var before := RunOf(p, steps[..n]);
      if before.Some? && Enabled(p, before.value, steps[n]) then Some(Apply(p, before.value, steps[n])) else None
  }

  ghost predicate Reachable(p: Params, s: State) { exists steps :: RunOf(p, steps) == Some(s) }

  lemma Reached(p: Params, s: State, step: Step)
    requires Reachable(p, s) && Enabled(p, s, step)
    ensures Reachable(p, Apply(p, s, step))
  {
    hide Enabled, Apply;
    var steps :| RunOf(p, steps) == Some(s);
    assert (steps + [step])[..|steps|] == steps;
    assert RunOf(p, steps + [step]) == Some(Apply(p, s, step));
  }

  // ---------------------------------------------------------------------------
  // What every step keeps
  // ---------------------------------------------------------------------------

  predicate Pinned(m: Option<int>, stamp: int) { m.Some? && m.value <= stamp }

  /** No watermark, or a floor derived from it, runs ahead of the clock. */
  predicate Bounded(p: Params, s: State) {
    && (forall id | id in s.rows :: 0 <= s.rows[id].stamp <= s.now + p.ahead)
    && (s.watermark.Some? ==> s.watermark.value <= s.now + p.ahead)
    && (match s.worker
        case Idle => true
        case Floored(floor) => floor <= 0 || floor <= s.now + p.ahead - LOOKBACK
        case Pricing(since, _, _, _, _) => since <= s.now
        case Closing(since, _, _, f) =>
          since <= s.now && (f.Some? ==> f.value <= s.now + p.ahead && f.value <= since + p.span + p.ahead))
  }

  lemma StepKeepsBounded(p: Params, s: State, step: Step)
    requires Bounded(p, s) && Enabled(p, s, step)
    ensures Bounded(p, Apply(p, s, step))
  {
    hide Candidates, WriteEvent, Possible, HasValuations, Stuck;
  }

  /** Every candidate a pass has handled is settled by what is written or still buffered,
      or pins the watermark. */
  predicate HandledWell(p: Params, s: State) {
    match s.worker
    case Pricing(_, candidates, left, pending, m) =>
      && left <= candidates <= s.rows.Keys
      && (forall id | id in candidates && id !in left && Priceable(p, s.rows[id]) ::
            Resolved(p, Union(s.tables, pending), id) || Pinned(m, s.rows[id].stamp))
    case Closing(_, candidates, m, _) =>
      && candidates <= s.rows.Keys
      && (forall id | id in candidates && Priceable(p, s.rows[id]) ::
            Resolved(p, s.tables, id) || Pinned(m, s.rows[id].stamp))
    case _ => true
  }

  lemma StepKeepsHandledWell(p: Params, s: State, step: Step)
    requires VersionsMatch(p)
    requires HandledWell(p, s) && Enabled(p, s, step)
    ensures HandledWell(p, Apply(p, s, step))
  {
    hide Resolved, WriteEvent, Possible, Stuck, IsFrontier, HasValuations, VersionsMatch;
    match step {
      case Elsewhere(written) => MoreTables(p, s, written);
      case Handle(id, o) => HandleKeeps(p, s, id, o);
      case Flush(part) => FlushKeeps(p, s, part);
      case ReadFrontier(f) => assert Union(s.tables, NOTHING) == s.tables;
      case _ =>
    }
  }

  lemma MoreTables(p: Params, s: State, written: Tables)
    requires HandledWell(p, s)
    ensures HandledWell(p, s.(tables := Union(s.tables, written)))
  {
    hide Resolved;
    forall id, t | Resolved(p, t, id) && Within(t, Union(s.tables, written))
      ensures Resolved(p, Union(s.tables, written), id)
    {
      Monotone(p, t, Union(s.tables, written), id);
    }
    if s.worker.Pricing? {
      var now, then' := Union(s.tables, s.worker.pending), Union(Union(s.tables, written), s.worker.pending);
      forall id | Resolved(p, now, id) ensures Resolved(p, then', id) { Monotone(p, now, then', id); }
    }
  }

  lemma FlushKeeps(p: Params, s: State, part: Tables)
    requires HandledWell(p, s) && Enabled(p, s, Flush(part))
    ensures HandledWell(p, Apply(p, s, Flush(part)))
  {
    hide Resolved;
    assert Union(Union(s.tables, part), Minus(s.worker.pending, part)) == Union(s.tables, s.worker.pending);
  }

  lemma HandleKeeps(p: Params, s: State, id: int, o: Outcomes)
    requires VersionsMatch(p)
    requires HandledWell(p, s) && Enabled(p, s, Handle(id, o))
    ensures HandledWell(p, Apply(p, s, Handle(id, o)))
  {
    hide Resolved, VersionsMatch, WriteEvent, Stuck, Possible;
    var w, w' := s.worker, HandleOne(p, s.worker, id, s.rows[id], o);
    if Priceable(p, s.rows[id]) {
      var now, then' := Union(s.tables, w.pending), Union(s.tables, w'.pending);
      WriteGrows(p, w.pending, id, o);
      forall i | Resolved(p, now, i) ensures Resolved(p, then', i) { Monotone(p, now, then', i); }
      if !Stuck(p, o) {
        WriteSettlesOne(p, w.pending, id, o);
        Monotone(p, w'.pending, then', id);
      }
    }
  }

  lemma WriteGrows(p: Params, t: Tables, id: int, o: Outcomes)
    ensures Within(t, WriteEvent(p, t, id, o))
  {
  }

  /** The rows a scan from the stored watermark must still see, and the rows the running
      pass is answerable for. */
  ghost predicate NothingLost(p: Params, s: State) {
    && (forall id | NeedsWork(p, s, id) && s.watermark.Some? :: s.watermark.value - LOOKBACK <= s.rows[id].stamp)
    && (match s.worker
        case Idle => true
        case Floored(floor) => forall id | NeedsWork(p, s, id) :: floor <= s.rows[id].stamp
        case Pricing(since, candidates, _, _, _) => Fetched(p, s, since, candidates)
        case Closing(since, candidates, _, _) => Fetched(p, s, since, candidates))
  }

  /** What the fetch missed was stamped no earlier than `behind` before it. */
  ghost predicate Fetched(p: Params, s: State, since: int, candidates: set<int>) {
    forall id | NeedsWork(p, s, id) && id !in candidates :: since - p.behind <= s.rows[id].stamp
  }

  predicate InTime(p: Params) { p.span + p.behind + p.ahead <= LOOKBACK }

  lemma StepKeepsNothingLost(p: Params, s: State, step: Step)
    requires InTime(p)
    requires Bounded(p, s) && HandledWell(p, s) && NothingLost(p, s) && Enabled(p, s, step)
    ensures NothingLost(p, Apply(p, s, step))
  {
    hide Resolved, WriteEvent, Possible, Stuck, IsFrontier, HasValuations;
    match step {
      case Elsewhere(written) =>
        LessWork(p, s, Union(s.tables, written));
      case Flush(part) =>
        LessWork(p, s, Union(s.tables, part));
      case _ =>
    }
  }

  lemma LessWork(p: Params, s: State, t: Tables)
    requires Within(s.tables, t)
    ensures forall id | NeedsWork(p, s.(tables := t), id) :: NeedsWork(p, s, id)
  {
    hide Resolved;
    forall id | Resolved(p, s.tables, id) ensures Resolved(p, t, id) { Monotone(p, s.tables, t, id); }
  }

  // ---------------------------------------------------------------------------
  // Over every run
  // ---------------------------------------------------------------------------

  lemma {:induction false} RunKeeps(p: Params, steps: seq<Step>, s: State)
    requires RunOf(p, steps) == Some(s)
    ensures Bounded(p, s)
    ensures VersionsMatch(p) ==> HandledWell(p, s)
    ensures VersionsMatch(p) && InTime(p) ==> NothingLost(p, s)
  {
    if |steps| > 0 {
      hide Enabled, Apply, Bounded, HandledWell, NothingLost, VersionsMatch, InTime;
      var n := |steps| - 1;
      var before := RunOf(p, steps[..n]).value;
      RunKeeps(p, steps[..n], before);
      StepKeepsBounded(p, before, steps[n]);
      if VersionsMatch(p) { StepKeepsHandledWell(p, before, steps[n]); }
      if VersionsMatch(p) && InTime(p) { StepKeepsNothingLost(p, before, steps[n]); }
    }
  }

  /** No finalized, priceable event that still lacks an outcome lies below the floor the
      next scan would use. */
  ghost predicate FloorSafe(p: Params, s: State) {
    forall id | NeedsWork(p, s, id) :: ScanFloor(p, s) <= s.rows[id].stamp
  }

  /** The scan never skips work, over every interleaving, if and only if the time from
      fetch to frontier plus the stamping skew fits in the lookback and TWAP rows land
      under a version the candidate query looks for. */
  lemma NeverSkipsExactly(p: Params)
    ensures (forall s | Reachable(p, s) :: FloorSafe(p, s)) <==> InTime(p) && VersionsMatch(p)
  {
    hide FloorSafe, Reachable, InTime, VersionsMatch;
    if InTime(p) && VersionsMatch(p) {
      forall s | Reachable(p, s) ensures FloorSafe(p, s) { SafeWhenReached(p, s); }
    } else if !InTime(p) {
      var s := LateStampRun(p);
      assert !FloorSafe(p, s);
    } else {
      var s := OtherVersionRun(p);
      assert !FloorSafe(p, s);
    }
  }

  lemma SafeWhenReached(p: Params, s: State)
    requires Reachable(p, s) && InTime(p) && VersionsMatch(p)
    ensures FloorSafe(p, s)
  {
    hide Reachable, InTime, VersionsMatch;
    WorkInReach(p, s);
  }

  /** Whatever work is left, neither a scan from the epoch nor one from the floor skips it. */
  lemma WorkInReach(p: Params, s: State)
    requires Reachable(p, s) && InTime(p) && VersionsMatch(p)
    ensures forall id | NeedsWork(p, s, id) :: 0 <= s.rows[id].stamp && ScanFloor(p, s) <= s.rows[id].stamp
  {
    hide Enabled, Apply, InTime, VersionsMatch, HasValuations, Resolved, HandledWell;
    var steps :| RunOf(p, steps) == Some(s);
    RunKeeps(p, steps, s);
  }

  /** A pass's fetch returns every event that still needs pricing. */
  lemma FetchFindsAll(p: Params, s: State, id: int)
    requires Reachable(p, s) && InTime(p) && VersionsMatch(p)
    requires s.worker.Floored? && NeedsWork(p, s, id)
    ensures id in Candidates(p, s, s.worker.floor)
  {
    hide Enabled, Apply, InTime, VersionsMatch, Resolved, HandledWell;
    var steps :| RunOf(p, steps) == Some(s);
    RunKeeps(p, steps, s);
  }

  /** After a completed pass every candidate that can be priced has an outcome for each of
      its halves, or was stamped at or after the new watermark and will be scanned again.
      This holds whatever the timing. */
  lemma PassSettles(p: Params, s: State, id: int)
    requires Reachable(p, s) && VersionsMatch(p)
    requires s.worker.Closing? && s.worker.frontier.Some?
    requires id in s.worker.candidates
    ensures var after := Apply(p, s, Advance);
      && id in after.rows
      && (after.rows[id].amountKnown || p.pass == MultiPass ==>
          Answered(p, after.tables, id) || after.watermark.value <= after.rows[id].stamp)
  {
    hide Enabled, Apply, VersionsMatch, Resolved, Answered;
    var steps :| RunOf(p, steps) == Some(s);
    RunKeeps(p, steps, s);
    AdvanceWrites(p, s);
    ResolvedMeans(p, s.tables, id);
  }

  lemma AdvanceWrites(p: Params, s: State)
    requires s.worker.Closing?
    ensures Apply(p, s, Advance) == s.(watermark := AdvanceTo(s), worker := Idle)
  {
  }

  // ---------------------------------------------------------------------------
  // Why each hypothesis is needed
  // ---------------------------------------------------------------------------

  ghost function After(p: Params, s: State, step: Step): (s': State)
    requires Reachable(p, s) && Enabled(p, s, step)
    ensures Reachable(p, s') && s' == Apply(p, s, step)
  {
    Reached(p, s, step);
    Apply(p, s, step)
  }

  lemma StartReachable(p: Params)
    ensures Reachable(p, START)
  {
    assert RunOf(p, []) == Some(START);
  }

  /** A row stamped just after the fetch, with the stamp running behind, and another
      stamped just before the frontier is read, with the stamp running ahead. */
  lemma LateStampRun(p: Params) returns (s: State)
    requires !InTime(p)
    ensures Reachable(p, s) && !FloorSafe(p, s)
  {
    StartReachable(p);
    var last := p.behind + p.span + p.ahead;
    var other := Tables({Slot(0, p.version, ETH)}, {});
    var s1 := After(p, START, Tick(p.behind));
    var s2 := After(p, s1, Elsewhere(other));
    var s3 := After(p, s2, ReadFloor);
    var s4 := After(p, s3, Fetch);
    var s5 := After(p, s4, Stamp(1, 0, true));
    var s6 := After(p, s5, Tick(p.span));
    var s7 := After(p, s6, Stamp(2, last, true));
    assert s4.worker == Pricing(p.behind, {}, {}, NOTHING, None);
    assert IsFrontier(s7.rows, Some(last)) by { assert s7.rows[2] == Row(last, true, true); }
    var s8 := After(p, s7, ReadFrontier(Some(last)));
    var s9 := After(p, s8, Advance);
    LateStampMissed(p, s9, other);
    s := s9;
  }

  lemma LateStampMissed(p: Params, s: State, other: Tables)
    requires !InTime(p)
    requires other == Tables({Slot(0, p.version, ETH)}, {}) && s.tables == Union(NOTHING, other)
    requires s.watermark == Some(p.behind + p.span + p.ahead)
    requires 1 in s.rows && s.rows[1] == Row(0, true, true)
    ensures !FloorSafe(p, s)
  {
    assert Slot(0, p.version, ETH) in s.tables.valuations;
    assert NeedsWork(p, s, 1);
  }

  const MISSED: Row := Row(0, true, true)

  /** Under another version name a TWAP row settles nothing, and the watermark moves on. */
  lemma OtherVersionRun(p: Params) returns (s: State)
    requires !VersionsMatch(p)
    ensures Reachable(p, s) && !FloorSafe(p, s)
  {
    var tables := Tables({Slot(0, p.version, ETH)}, {});
    var fetched := OneCandidate(p, tables);
    s := HandledAndAdvanced(p, fetched, tables, Outcomes(Priced, PricedTwap));
    StillUnsettled(p, s, tables);
  }

  lemma OneCandidate(p: Params, tables: Tables) returns (s: State)
    requires tables == Tables({Slot(0, p.version, ETH)}, {})
    ensures Reachable(p, s)
    ensures s == State(700, map[1 := MISSED], tables, None, Pricing(700, {1}, {1}, NOTHING, None))
  {
    hide Reachable, HasValuations;
    StartReachable(p);
    s := After(p, START, Elsewhere(tables));
    assert Union(NOTHING, tables) == tables;
    s := After(p, s, Stamp(1, 0, true));
    assert s.rows == map[1 := MISSED];
    s := After(p, s, Tick(700));
    s := After(p, s, ReadFloor);
    assert !Holds(s.tables, Slot(1, p.version, ETH)) && !Holds(s.tables, Slot(1, p.version, LPT));
    assert !Holds(s.tables, Slot(1, DEGRADED_VERSION, ETH)) && !Holds(s.tables, Slot(1, DEGRADED_VERSION, LPT));
    assert Candidates(p, s, 0) == {1};
    s := After(p, s, Fetch);
  }

  lemma HandledAndAdvanced(p: Params, fetched: State, tables: Tables, o: Outcomes) returns (s: State)
    requires Reachable(p, fetched) && p.pass != EthPass && o == Outcomes(Priced, PricedTwap)
    requires fetched == State(700, map[1 := MISSED], tables, None, Pricing(700, {1}, {1}, NOTHING, None))
    ensures Reachable(p, s)
    ensures s ==
      State(700, map[1 := MISSED, 2 := Row(700, true, true)], Union(tables, WriteEvent(p, NOTHING, 1, o)), Some(700),
            Idle)
  {
    hide Reachable, HasValuations, WriteEvent;
    s := After(p, fetched, Handle(1, o));
    var part := WriteEvent(p, NOTHING, 1, o);
    assert s.worker == Pricing(700, {1}, {}, part, None);
    s := After(p, s, Flush(part));
    assert Minus(part, part) == NOTHING;
    s := After(p, s, Stamp(2, 700, true));
    assert s.rows == map[1 := MISSED, 2 := Row(700, true, true)];
    assert s.rows[2].stamp == 700;
    s := After(p, s, ReadFrontier(Some(700)));
    s := After(p, s, Advance);
  }

  lemma StillUnsettled(p: Params, s: State, tables: Tables)
    requires !VersionsMatch(p) && tables == Tables({Slot(0, p.version, ETH)}, {})
    requires s.rows == map[1 := MISSED, 2 := Row(700, true, true)] && s.watermark == Some(700)
    requires s.tables == Union(tables, WriteEvent(p, NOTHING, 1, Outcomes(Priced, PricedTwap)))
    ensures !FloorSafe(p, s)
  {
    VersionNamesDiffer();
    assert Slot(0, p.version, ETH) in s.tables.valuations;
    assert !Settled(p, s.tables, 1, LPT);
    assert NeedsWork(p, s, 1);
  }

  /** Emptying the outcome tables without the cursor row: the cold-start guard holds only
      until some other pass writes a valuation of the same version. */
  lemma StaleWatermarkTrusted(p: Params, s: State, id: int, slot: Slot)
    requires s.watermark.Some? && slot.version == p.version && slot.id != id
    requires id in s.rows && s.rows[id].canonical && Priceable(p, s.rows[id]) && s.rows[id].stamp >= 0
    requires s.rows[id].stamp < s.watermark.value - LOOKBACK
    ensures var emptied := s.(tables := NOTHING);
      && ScanFloor(p, emptied) <= s.rows[id].stamp
      && !FloorSafe(p, Apply(p, emptied, Elsewhere(Tables({slot}, {}))))
  {
    var refilled := Apply(p, s.(tables := NOTHING), Elsewhere(Tables({slot}, {})));
    assert slot in refilled.tables.valuations;
    assert NeedsWork(p, refilled, id);
  }
}
