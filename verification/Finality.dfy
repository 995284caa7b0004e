/** Finality (crates/livepeer-finality-watcher/src/runner.rs) and reorg marking
    (crates/livepeer-reorg-watcher/src/runner.rs) as updates of one raw event table that
    the indexer, both watchers and a replay may interleave in any order. */
module Finality {
  import opened Wrappers

  const POSTING_LAG_SECS: int := 600
  const FINALITY_SAFETY_MARGIN_SECS: int := 60
  const WALK_DEPTH: int := 7500

  datatype Level = Tentative | L1Posted | Finalized

  datatype Row = Row(block: int, hash: string, timestamp: int, level: Level, finalizedAt: Option<int>, canonical: bool)

  function Fresh(block: int, hash: string, timestamp: int): Row { Row(block, hash, timestamp, Tentative, None, true) }

  datatype Inputs = Inputs(latest: int, finalized: int)

  datatype State = State(rows: map<int, Row>, inputs: Option<Inputs>)

  const START: State := State(map[], None)

  // ---------------------------------------------------------------------------
  // The single updates
  // ---------------------------------------------------------------------------

  function MarkPosted(rows: map<int, Row>, cutoff: int): map<int, Row> {
    map id | id in rows ::
      if rows[id].level.Tentative? && rows[id].canonical && rows[id].timestamp <= cutoff then
        rows[id].(level := L1Posted)
      else
        rows[id]
  }

  function MarkFinalized(rows: map<int, Row>, cutoff: int, now: int): map<int, Row> {
    map id | id in rows ::
      if !rows[id].level.Finalized? && rows[id].canonical && rows[id].timestamp <= cutoff
      then rows[id].(level := Finalized, finalizedAt := Some(now)) else rows[id]
  }

  /** A divergence marks the whole block, whatever its rows' finality or hash. */
  function Diverge(rows: map<int, Row>, block: int): map<int, Row> {
    map id | id in rows ::
      if rows[id].block == block && rows[id].canonical then rows[id].(canonical := false) else rows[id]
  }

  datatype Step =
    | Ingest(id: int, block: int, hash: string, timestamp: int)
    | Persist(inputs: Inputs)
    | Posted(latest: int)
    | Final(finalized: int, now: int)
    | Orphan(block: int)

  function Apply(s: State, step: Step): State {
    match step
    case Ingest(id, block, hash, timestamp) =>
      if id in s.rows then s else s.(rows := s.rows[id := Fresh(block, hash, timestamp)])
    case Persist(inputs) => s.(inputs := Some(inputs))
    case Posted(latest) => s.(rows := MarkPosted(s.rows, latest - POSTING_LAG_SECS))
    case Final(finalized, now) => s.(rows := MarkFinalized(s.rows, finalized - FINALITY_SAFETY_MARGIN_SECS, now))
    case Orphan(block) => s.(rows := Diverge(s.rows, block))
  }

  function Run(s: State, steps: seq<Step>): State {
    if |steps| == 0 then s else Apply(Run(s, steps[..|steps| - 1]), steps[|steps| - 1])
  }

  // ---------------------------------------------------------------------------
  // What never goes back
  // ---------------------------------------------------------------------------

  function Rank(l: Level): nat { match l case Tentative => 0 case L1Posted => 1 case Finalized => 2 }

  /** A row's identity is fixed, its level never regresses, its finalization time is
      stamped once, and once it is not canonical nothing about it changes. */
  predicate Evolves(a: Row, b: Row) {
    && a.block == b.block && a.hash == b.hash && a.timestamp == b.timestamp
    && Rank(a.level) <= Rank(b.level)
    && (a.finalizedAt.Some? ==> b.finalizedAt == a.finalizedAt)
    && (!a.canonical ==> b == a)
  }

  predicate Grown(a: State, b: State) {
    forall id | id in a.rows :: id in b.rows && Evolves(a.rows[id], b.rows[id])
  }

  /** Exactly the finalized rows carry a finalization time. */
  predicate Stamped(s: State) {
    forall id | id in s.rows :: s.rows[id].finalizedAt.Some? <==> s.rows[id].level.Finalized?
  }

  lemma StepGrows(s: State, step: Step)
    requires Stamped(s)
    ensures Grown(s, Apply(s, step)) && Stamped(Apply(s, step))
  {
  }

  /** Over any interleaving of ingestion, both watchers and replays. */
  lemma {:induction false} RunGrows(s: State, steps: seq<Step>)
    requires Stamped(s)
    ensures Grown(s, Run(s, steps)) && Stamped(Run(s, steps))
  {
    if |steps| > 0 {
      hide Apply, Evolves, Stamped;
      RunGrows(s, steps[..|steps| - 1]);
      var mid := Run(s, steps[..|steps| - 1]);
      StepGrows(mid, steps[|steps| - 1]);
      forall id | id in s.rows ensures Evolves(s.rows[id], Run(s, steps).rows[id]) {
        EvolvesTwice(s.rows[id], mid.rows[id], Run(s, steps).rows[id]);
      }
    } else {
      assert forall id | id in s.rows :: Evolves(s.rows[id], s.rows[id]);
    }
  }

  lemma EvolvesTwice(a: Row, b: Row, c: Row)
    requires Evolves(a, b) && Evolves(b, c)
    ensures Evolves(a, c)
  {
  }

  // ---------------------------------------------------------------------------
  // What a canonical row's finality is, over a whole run
  // ---------------------------------------------------------------------------

  function Max(a: Option<int>, b: int): Option<int> { Some(if a.Some? && b < a.value then a.value else b) }

  /** The furthest each cutoff has reached since the row was ingested. */
  datatype Cutoffs = Cutoffs(posted: Option<int>, finalized: Option<int>)

  function Since(steps: seq<Step>, id: int): Cutoffs {
    if |steps| == 0 then Cutoffs(None, None)
    else
      var n := |steps| - 1;
      var before := Since(steps[..n], id);
      if id !in Run(START, steps[..n]).rows then Cutoffs(None, None)
      else match steps[n]
        case Posted(latest) => before.(posted := Max(before.posted, latest - POSTING_LAG_SECS))
        case Final(finalized, _) => before.(finalized := Max(before.finalized, finalized - FINALITY_SAFETY_MARGIN_SECS))
        case _ => before
  }

  predicate AtMost(t: int, cutoff: Option<int>) { cutoff.Some? && t <= cutoff.value }

  function LevelFor(t: int, c: Cutoffs): Level {
    if AtMost(t, c.finalized) then Finalized else if AtMost(t, c.posted) then L1Posted else Tentative
  }

  /** A canonical row's level depends only on its timestamp and the furthest cutoffs since
      it was ingested, however the watchers interleaved. */
  lemma {:induction false} LevelIs(steps: seq<Step>, id: int)
    requires id in Run(START, steps).rows && Run(START, steps).rows[id].canonical
    ensures var row := Run(START, steps).rows[id]; row.level == LevelFor(row.timestamp, Since(steps, id))
  {
    if |steps| > 0 {
      var n := |steps| - 1;
      var before := Run(START, steps[..n]);
      if id in before.rows {
        assert before.rows[id].canonical;
        LevelIs(steps[..n], id);
      }
    }
  }

  // ---------------------------------------------------------------------------
  // Replay
  // ---------------------------------------------------------------------------

  /** What one pass with the given inputs makes of freshly ingested rows. */
  function ReplayLevel(t: int, inputs: Inputs): Level {
    LevelFor(t, Cutoffs(Some(inputs.latest - POSTING_LAG_SECS), Some(inputs.finalized - FINALITY_SAFETY_MARGIN_SECS)))
  }

  /** Both updates of a pass, with their margins. */
  function ReplayPass(rows: map<int, Row>, inputs: Inputs, now: int): map<int, Row> {
    MarkFinalized(MarkPosted(rows, inputs.latest - POSTING_LAG_SECS), inputs.finalized - FINALITY_SAFETY_MARGIN_SECS,
                  now)
  }

  lemma ReplayPassIs(rows: map<int, Row>, inputs: Inputs, now: int, id: int)
    requires id in rows && rows[id].level.Tentative? && rows[id].canonical
    ensures id in ReplayPass(rows, inputs, now)
    ensures ReplayPass(rows, inputs, now)[id].level == ReplayLevel(rows[id].timestamp, inputs)
  {
  }

  /** The later of two cutoffs. */
  function Furthest(c: Cutoffs): Option<int> {
    if c.posted.None? then c.finalized else if c.finalized.None? then c.posted else Max(c.posted, c.finalized.value)
  }

  /** One replay pass gives every timestamp the level the live run gave it if and only if
      the replayed inputs are as far as the live cutoffs ever got. */
  lemma ReplayExactly(c: Cutoffs, inputs: Inputs)
    ensures (forall t :: ReplayLevel(t, inputs) == LevelFor(t, c)) <==>
      && c.finalized == Some(inputs.finalized - FINALITY_SAFETY_MARGIN_SECS)
      && Furthest(c) == Max(Some(inputs.latest - POSTING_LAG_SECS), inputs.finalized - FINALITY_SAFETY_MARGIN_SECS)
  {
    var f, p := inputs.finalized - FINALITY_SAFETY_MARGIN_SECS, inputs.latest - POSTING_LAG_SECS;
    var furthest := Max(Some(p), f).value;
    if forall t :: ReplayLevel(t, inputs) == LevelFor(t, c) {
      assert ReplayLevel(f, inputs).Finalized?;
      assert LevelFor(f, c) == ReplayLevel(f, inputs) && LevelFor(f + 1, c) == ReplayLevel(f + 1, inputs);
      assert LevelFor(furthest, c) == ReplayLevel(furthest, inputs)
        && LevelFor(furthest + 1, c) == ReplayLevel(furthest + 1, inputs);
      assert LevelFor(c.finalized.value, c) == ReplayLevel(c.finalized.value, inputs);
      if c.posted.Some? {
        assert LevelFor(c.posted.value, c) == ReplayLevel(c.posted.value, inputs);
      }
    }
  }

  predicate NotBefore(b: Inputs, a: Inputs) { a.latest <= b.latest && a.finalized <= b.finalized }

  /** The step fits the inputs last persisted. */
  predicate LiveStep(inputs: Option<Inputs>, step: Step) {
    match step
    case Persist(next) => inputs.Some? ==> NotBefore(next, inputs.value)
    case Posted(latest) => inputs.Some? && latest == inputs.value.latest
    case Final(finalized, _) => inputs.Some? && finalized == inputs.value.finalized
    case _ => true
  }

  /** Every update of a run belongs to a pass: it uses the inputs last persisted, and L1 times
      never go back. Rows may be ingested or orphaned between any two updates, and a pass may
      stop after any of its three writes. */
  predicate LivePasses(steps: seq<Step>) {
    if |steps| == 0 then true
    else
      var n := |steps| - 1;
      LivePasses(steps[..n]) && LiveStep(Run(START, steps[..n]).inputs, steps[n])
  }

  /** What may come next in a run of live passes: inputs no earlier than the last persisted, a
      write that uses those, or any ingest or orphan. */
  lemma LiveMeans(steps: seq<Step>, step: Step)
    ensures LivePasses([])
    ensures LivePasses(steps + [step]) ==> LivePasses(steps)
    ensures LivePasses(steps) ==>
      var last := Run(START, steps).inputs;
      LivePasses(steps + [step]) ==
      match step
      case Persist(next) =>
        last.None? || (last.value.latest <= next.latest && last.value.finalized <= next.finalized)
      case Posted(latest) => last.Some? && last.value.latest == latest
      case Final(finalized, _) => last.Some? && last.value.finalized == finalized
      case Ingest(_, _, _, _) => true
      case Orphan(_) => true
  {
    assert (steps + [step])[..|steps|] == steps;
    hide Run;
  }

  /** What the steps beside a pass do: an event is stored once, tentative, unstamped and
      canonical, and a divergence orphans every row of its block. */
  lemma OtherStepsMean(s: State, id: int, block: int, hash: string, timestamp: int)
    ensures Apply(s, Ingest(id, block, hash, timestamp)) ==
      if id in s.rows then s else s.(rows := s.rows[id := Row(block, hash, timestamp, Tentative, None, true)])
    ensures var after := Apply(s, Orphan(block));
      && after.inputs == s.inputs && after.rows.Keys == s.rows.Keys
      && forall i | i in s.rows ::
          after.rows[i] == if s.rows[i].block == block then s.rows[i].(canonical := false) else s.rows[i]
  {
  }

  function Pass(inputs: Inputs, now: int): seq<Step> {
    [Persist(inputs), Posted(inputs.latest), Final(inputs.finalized, now)]
  }

  /** A whole pass with inputs no earlier than the last extends a run of live passes. */
  lemma PassIsLive(steps: seq<Step>, inputs: Inputs, now: int)
    requires LivePasses(steps)
    requires Run(START, steps).inputs.Some? ==> NotBefore(inputs, Run(START, steps).inputs.value)
    ensures LivePasses(steps + Pass(inputs, now))
    ensures Run(START, steps + Pass(inputs, now)).inputs == Some(inputs)
  {
    hide MarkPosted, MarkFinalized, Diverge, LivePasses;
    var a, b, c := Persist(inputs), Posted(inputs.latest), Final(inputs.finalized, now);
    assert steps + Pass(inputs, now) == ((steps + [a]) + [b]) + [c];
    OneMoreLive(steps, a);
    OneMoreLive(steps + [a], b);
    OneMoreLive((steps + [a]) + [b], c);
  }

  lemma OneMoreLive(steps: seq<Step>, step: Step)
    ensures Run(START, steps + [step]) == Apply(Run(START, steps), step)
    ensures LivePasses(steps) && LiveStep(Run(START, steps).inputs, step) ==> LivePasses(steps + [step])
  {
    hide Apply;
    assert (steps + [step])[..|steps|] == steps;
  }

  /** The last persisted inputs are as late as those of any pass. */
  lemma {:induction false} LastIsLatest(steps: seq<Step>)
    requires LivePasses(steps)
    ensures var last := Run(START, steps).inputs;
      && (last.Some? ==> NeverBeyond(steps, last.value))
      && (last.None? ==> forall step | step in steps :: !step.Persist? && !step.Posted? && !step.Final?)
  {
    if |steps| > 0 {
      hide MarkPosted, MarkFinalized, Diverge;
      var n := |steps| - 1;
      LastIsLatest(steps[..n]);
      assert steps == steps[..n] + [steps[n]];
      var last := Run(START, steps).inputs;
      if last.Some? {
        forall step | step in steps
          ensures step.Posted? ==> step.latest <= last.value.latest
          ensures step.Final? ==> step.finalized <= last.value.finalized
        {
          if step in steps[..n] {} else { assert step == steps[n]; }
        }
      }
    }
  }

  /** For non-decreasing L1 times, one replay with the last persisted inputs gives each row
      that stayed canonical the finality of the whole live run, if a pass with those inputs
      ran after the row was ingested. */
  lemma ReplayMatchesLive(steps: seq<Step>, id: int)
    requires LivePasses(steps)
    requires id in Run(START, steps).rows && Run(START, steps).rows[id].canonical
    requires var last := Run(START, steps).inputs; last.Some? && PassedOver(steps, id, last.value)
    ensures var s := Run(START, steps); s.rows[id].level == ReplayLevel(s.rows[id].timestamp, s.inputs.value)
  {
    hide Run, Since, NeverBeyond, PassedOver, LivePasses;
    LastIsLatest(steps);
    LevelIs(steps, id);
    SinceIs(steps, id, Run(START, steps).inputs.value);
  }

  /** The rows ingested again, as a rebuild starts. */
  function Reingested(rows: map<int, Row>): map<int, Row> {
    map id | id in rows && rows[id].canonical :: Fresh(rows[id].block, rows[id].hash, rows[id].timestamp)
  }

  /** After any live run ending in a whole pass, a rebuild's single replay pass restores the
      finality of every row that stayed canonical. */
  lemma ReplayRebuilds(steps: seq<Step>, inputs: Inputs, now: int, replayedAt: int)
    requires LivePasses(steps)
    requires Run(START, steps).inputs.Some? ==> NotBefore(inputs, Run(START, steps).inputs.value)
    ensures Run(START, steps + Pass(inputs, now)).inputs == Some(inputs)
    ensures var live := Run(START, steps + Pass(inputs, now));
      var replayed := ReplayPass(Reingested(live.rows), live.inputs.value, replayedAt);
      && replayed.Keys == Reingested(live.rows).Keys
      && forall id | id in replayed :: replayed[id].level == live.rows[id].level
  {
    PassIsLive(steps, inputs, now);
    hide LivePasses, ReplayPass, ReplayLevel;
    var all := steps + Pass(inputs, now);
    var live := Run(START, all);
    var again := Reingested(live.rows);
    SameIds(again, inputs, replayedAt);
    forall id | id in again
      ensures ReplayPass(again, inputs, replayedAt)[id].level == live.rows[id].level
    {
      LastPassCovers(steps, inputs, now, id);
      ReplayMatchesLive(all, id);
      ReplayPassIs(again, inputs, replayedAt, id);
    }
  }

  lemma SameIds(rows: map<int, Row>, inputs: Inputs, now: int)
    ensures ReplayPass(rows, inputs, now).Keys == rows.Keys
  {
  }

  /** Every row present after a whole pass was there for both of its updates. */
  lemma LastPassCovers(steps: seq<Step>, inputs: Inputs, now: int, id: int)
    requires id in Run(START, steps + Pass(inputs, now)).rows
    ensures PassedOver(steps + Pass(inputs, now), id, inputs)
  {
    hide MarkPosted, MarkFinalized, Diverge;
    var a, b, c := Persist(inputs), Posted(inputs.latest), Final(inputs.finalized, now);
    var all := steps + Pass(inputs, now);
    var n := |steps|;
    OneMoreLive(steps, a);
    OneMoreLive(steps + [a], b);
    OneMoreLive((steps + [a]) + [b], c);
    assert all == ((steps + [a]) + [b]) + [c];
    assert all[..n + 1] == steps + [a] && all[..n + 2] == (steps + [a]) + [b];
    PassKeepsIds(Run(START, steps + [a]), inputs, now);
    assert all[n + 1] == b && id in Run(START, all[..n + 1]).rows;
    assert all[n + 2] == c && id in Run(START, all[..n + 2]).rows;
  }

  lemma PassKeepsIds(s: State, inputs: Inputs, now: int)
    ensures Apply(s, Posted(inputs.latest)).rows.Keys == s.rows.Keys
    ensures Apply(Apply(s, Posted(inputs.latest)), Final(inputs.finalized, now)).rows.Keys == s.rows.Keys
  {
  }

  /** No pass ran with later L1 times than the persisted ones. */
  predicate NeverBeyond(steps: seq<Step>, inputs: Inputs) {
    forall step | step in steps ::
      && (step.Posted? ==> step.latest <= inputs.latest)
      && (step.Final? ==> step.finalized <= inputs.finalized)
  }

  /** The pass with the persisted inputs ran after the row was ingested. */
  predicate PassedOver(steps: seq<Step>, id: int, inputs: Inputs) {
    && (exists i :: 0 <= i < |steps| && steps[i] == Posted(inputs.latest) && id in Run(START, steps[..i]).rows)
    && (exists i ::
          && 0 <= i < |steps| && steps[i].Final? && steps[i].finalized == inputs.finalized
          && id in Run(START, steps[..i]).rows)
  }

  /** A run whose L1 times go back: the row is finalized live, and a replay with the last
      persisted inputs leaves it tentative. */
  lemma TimesGoBackExample()
    ensures var steps := [Ingest(1, 5, "a", 0)] + Pass(Inputs(1000, 1000), 7) + Pass(Inputs(100, 0), 8);
      var s := Run(START, steps);
      && s.inputs == Some(Inputs(100, 0))
      && 1 in s.rows && s.rows[1].canonical && PassedOver(steps, 1, Inputs(100, 0))
      && s.rows[1].level == Finalized && ReplayLevel(s.rows[1].timestamp, s.inputs.value) == Tentative
  {
    var first := [Ingest(1, 5, "a", 0)];
    var second := first + Pass(Inputs(1000, 1000), 7);
    assert [] + first == first;
    OneMoreLive([], Ingest(1, 5, "a", 0));
    PassRun(first, Inputs(1000, 1000), 7);
    PassRun(second, Inputs(100, 0), 8);
    LastPassCovers(second, Inputs(100, 0), 8, 1);
  }

  lemma PassRun(steps: seq<Step>, inputs: Inputs, now: int)
    ensures Run(START, steps + Pass(inputs, now)) ==
      State(ReplayPass(Run(START, steps).rows, inputs, now), Some(inputs))
  {
    hide MarkPosted, MarkFinalized;
    var a, b, c := Persist(inputs), Posted(inputs.latest), Final(inputs.finalized, now);
    assert steps + Pass(inputs, now) == ((steps + [a]) + [b]) + [c];
    OneMoreLive(steps, a);
    OneMoreLive(steps + [a], b);
    OneMoreLive((steps + [a]) + [b], c);
  }

  /** What a live pass does to a row, in its columns: it finalizes a canonical row a minute
      behind the finalized L1 block and stamps it with its own instant, marks a tentative one
      ten minutes behind the latest, and leaves every other column and row alone. */
  lemma PassMeans(s: State, inputs: Inputs, now: int, id: int)
    requires id in s.rows
    ensures var before, after := s.rows[id], Run(s, Pass(inputs, now)).rows;
      && after.Keys == s.rows.Keys
      && (if before.canonical && before.timestamp <= inputs.finalized - 60 && before.level != Finalized then
            after[id] == before.(level := Finalized, finalizedAt := Some(now))
          else if before.canonical && before.timestamp <= inputs.latest - 600 && before.level == Tentative then
            after[id] == before.(level := L1Posted)
          else after[id] == before)
  {
    var a, b, c := Persist(inputs), Posted(inputs.latest), Final(inputs.finalized, now);
    RunThree(s, a, b, c);
  }

  /** Some pass found the row not yet finalized and stamped it with its own instant. */
  predicate StampedBy(steps: seq<Step>, i: nat, id: int, stamp: int)
    requires i < |steps|
  {
    && steps[i].Final? && steps[i].now == stamp
    && id in Run(START, steps[..i]).rows && Run(START, steps[..i]).rows[id].finalizedAt.None?
    && id in Run(START, steps[..i + 1]).rows && Run(START, steps[..i + 1]).rows[id].finalizedAt == Some(stamp)
  }

  /** Over any run a finalization time is the instant of the pass that finalized the row. */
  lemma {:induction false} StampIsAPass(steps: seq<Step>, id: int)
    requires id in Run(START, steps).rows && Run(START, steps).rows[id].finalizedAt.Some?
    ensures exists i :: 0 <= i < |steps| && StampedBy(steps, i, id, Run(START, steps).rows[id].finalizedAt.value)
  {
    if |steps| > 0 {
      hide Apply, StampedBy, Stamped, Grown;
      var n := |steps| - 1;
      var before := Run(START, steps[..n]);
      StartStamped();
      RunGrows(START, steps[..n]);
      StepStamps(before, steps[n], id);
      if before.rows[id].finalizedAt.Some? {
        hide Run;
        StampIsAPass(steps[..n], id);
        var stamp := before.rows[id].finalizedAt.value;
        var i :| 0 <= i < n && StampedBy(steps[..n], i, id, stamp);
        SameStamp(steps, n, i, id, stamp);
      } else {
        LastStamps(steps, id);
      }
    }
  }

  lemma StartStamped()
    ensures Stamped(START)
  {
  }

  lemma StepStamps(s: State, step: Step, id: int)
    requires id in Apply(s, step).rows && Apply(s, step).rows[id].finalizedAt.Some?
    ensures id in s.rows
    ensures s.rows[id].finalizedAt.None? ==> step.Final? && Apply(s, step).rows[id].finalizedAt == Some(step.now)
    ensures s.rows[id].finalizedAt.Some? && Stamped(s) ==>
      Apply(s, step).rows[id].finalizedAt == s.rows[id].finalizedAt
  {
  }

  lemma SameStamp(steps: seq<Step>, n: nat, i: nat, id: int, stamp: int)
    requires i < n < |steps| && StampedBy(steps[..n], i, id, stamp)
    ensures StampedBy(steps, i, id, stamp)
  {
    assert steps[..n][..i] == steps[..i] && steps[..n][..i + 1] == steps[..i + 1];
  }

  lemma LastStamps(steps: seq<Step>, id: int)
    requires |steps| > 0 && id in Run(START, steps).rows && Run(START, steps).rows[id].finalizedAt.Some?
    requires var before := Run(START, steps[..|steps| - 1]).rows; id in before && before[id].finalizedAt.None?
    ensures StampedBy(steps, |steps| - 1, id, Run(START, steps).rows[id].finalizedAt.value)
  {
    hide Apply;
    var n := |steps| - 1;
    assert steps[..n + 1] == steps;
    StepStamps(Run(START, steps[..n]), steps[n], id);
  }

  lemma {:induction false} RowsStay(steps: seq<Step>, i: nat, id: int)
    requires i <= |steps| && id in Run(START, steps[..i]).rows
    ensures id in Run(START, steps).rows
  {
    if i == |steps| {
      assert steps[..i] == steps;
    } else {
      var n := |steps| - 1;
      assert steps[..n][..i] == steps[..i];
      RowsStay(steps[..n], i, id);
    }
  }

  lemma {:induction false} SinceCovers(steps: seq<Step>, i: nat, id: int)
    requires i < |steps| && id in Run(START, steps[..i]).rows
    ensures steps[i].Posted? ==> AtMost(steps[i].latest - POSTING_LAG_SECS, Since(steps, id).posted)
    ensures steps[i].Final? ==> AtMost(steps[i].finalized - FINALITY_SAFETY_MARGIN_SECS, Since(steps, id).finalized)
  {
    hide Run;
    var n := |steps| - 1;
    if i < n {
      assert steps[..n][..i] == steps[..i] && steps[..n][i] == steps[i];
      SinceCovers(steps[..n], i, id);
      RowsStay(steps[..n], i, id);
    }
  }

  lemma {:induction false} SinceWithin(steps: seq<Step>, id: int, inputs: Inputs)
    requires NeverBeyond(steps, inputs)
    ensures var c := Since(steps, id);
      && (c.posted.Some? ==> c.posted.value <= inputs.latest - POSTING_LAG_SECS)
      && (c.finalized.Some? ==> c.finalized.value <= inputs.finalized - FINALITY_SAFETY_MARGIN_SECS)
  {
    if |steps| > 0 {
      var n := |steps| - 1;
      assert steps[n] in steps && forall x | x in steps[..n] :: x in steps;
      SinceWithin(steps[..n], id, inputs);
    }
  }

  lemma SinceIs(steps: seq<Step>, id: int, inputs: Inputs)
    requires NeverBeyond(steps, inputs) && PassedOver(steps, id, inputs)
    ensures Since(steps, id) ==
      Cutoffs(Some(inputs.latest - POSTING_LAG_SECS), Some(inputs.finalized - FINALITY_SAFETY_MARGIN_SECS))
  {
    hide Run, Since;
    SinceWithin(steps, id, inputs);
    hide NeverBeyond;
    var i :| 0 <= i < |steps| && steps[i] == Posted(inputs.latest) && id in Run(START, steps[..i]).rows;
    SinceCovers(steps, i, id);
    var j :| 0 <= j < |steps| && steps[j].Final? && steps[j].finalized == inputs.finalized
      && id in Run(START, steps[..j]).rows;
    SinceCovers(steps, j, id);
  }

  // ---------------------------------------------------------------------------
  // The watchers
  // ---------------------------------------------------------------------------

  /** A stored block hash the reorg watcher compares with the chain. */
  datatype Stored = Stored(block: int, hash: string)

  function WindowStart(head: nat): int { if head < WALK_DEPTH then 0 else head - WALK_DEPTH }

  predicate Walked(row: Row, head: nat) {
    row.level.Tentative? && row.canonical && WindowStart(head) <= row.block <= head
  }

  function StoredBlocks(rows: map<int, Row>, head: nat): set<Stored> {
    set id | id in rows && Walked(rows[id], head) :: Stored(rows[id].block, rows[id].hash)
  }

  /** Some walked row of the block carries a hash the chain does not have. */
  predicate Diverged(stored: set<Stored>, header: int -> Option<string>, block: int) {
    exists b :: b in stored && b.block == block && header(block) != Some(b.hash)
  }

  function Orphaned(rows: map<int, Row>, stored: set<Stored>, header: int -> Option<string>): map<int, Row> {
    map id | id in rows ::
      if rows[id].canonical && Diverged(stored, header, rows[id].block) then rows[id].(canonical := false) else rows[id]
  }

  lemma OrphanOne(rows: map<int, Row>, done: set<Stored>, header: int -> Option<string>, b: Stored)
    ensures Orphaned(rows, done + {b}, header) ==
      if header(b.block) != Some(b.hash) then Diverge(Orphaned(rows, done, header), b.block)
      else Orphaned(rows, done, header)
  {
    forall block ensures Diverged(done + {b}, header, block) <==>
        Diverged(done, header, block) || (block == b.block && header(b.block) != Some(b.hash))
    {
      if Diverged(done, header, block) {
        var x :| x in done && x.block == block && header(block) != Some(x.hash);
        assert x in done + {b};
      }
      assert b in done + {b};
    }
  }

  function Divergent(stored: set<Stored>, header: int -> Option<string>): set<Stored> {
    set b | b in stored && header(b.block) != Some(b.hash)
  }

  lemma NoneDivergent(header: int -> Option<string>)
    ensures Divergent({}, header) == {}
  {
  }

  lemma OneMoreDivergent(done: set<Stored>, header: int -> Option<string>, b: Stored)
    requires b !in done
    ensures |Divergent(done + {b}, header)| ==
      |Divergent(done, header)| + if header(b.block) != Some(b.hash) then 1 else 0
  {
    assert Divergent(done + {b}, header) ==
      Divergent(done, header) + if header(b.block) != Some(b.hash) then {b} else {};
  }

  lemma OrphanNone(rows: map<int, Row>, header: int -> Option<string>)
    ensures Orphaned(rows, {}, header) == rows
  {
    assert forall block :: !Diverged({}, header, block);
  }

  lemma {:induction false} LowestExists(s: set<Stored>) returns (low: Stored)
    requires s != {}
    ensures low in s && forall x | x in s :: low.block <= x.block
  {
    var a :| a in s;
    low := a;
    var rest := s - {a};
    if rest != {} {
      var b := LowestExists(rest);
      if b.block < a.block { low := b; }
    }
    forall x | x in s ensures low.block <= x.block { assert x == a || x in rest; }
  }

  class Watchers {
    var rows: map<int, Row>
    var inputs: Option<Inputs>
    var checkpoint: Option<int>

    constructor ()
      ensures State(rows, inputs) == START && checkpoint == None
    {
      rows, inputs, checkpoint := map[], None, None;
    }

    method RunWithTimestamps(latest: int, finalized: int, now: int)
      modifies this`rows, this`checkpoint
      ensures State(rows, inputs) == Apply(Apply(State(old(rows), inputs), Posted(latest)), Final(finalized, now))
      ensures checkpoint == Max(old(checkpoint), finalized - FINALITY_SAFETY_MARGIN_SECS)
    {
      var postedCutoff := latest - POSTING_LAG_SECS;
      var finalizedCutoff := finalized - FINALITY_SAFETY_MARGIN_SECS;
      rows := MarkPosted(rows, postedCutoff);
      rows := MarkFinalized(rows, finalizedCutoff, now);
      checkpoint := Max(checkpoint, finalizedCutoff);
    }

    /** A live pass: the inputs are persisted before they are applied. */
    method RunOnce(latest: int, finalized: int, now: int)
      modifies this
      ensures State(rows, inputs) == Run(State(old(rows), old(inputs)), Pass(Inputs(latest, finalized), now))
    {
      inputs := Some(Inputs(latest, finalized));
      RunWithTimestamps(latest, finalized, now);
      RunThree(State(old(rows), old(inputs)), Persist(Inputs(latest, finalized)), Posted(latest),
               Final(finalized, now));
    }

    /** A replay pass; it fails when no inputs were ever persisted. */
    method RunReplay(now: int) returns (ok: bool)
      modifies this
      ensures ok == old(inputs).Some? && inputs == old(inputs)
      ensures !ok ==> rows == old(rows) && checkpoint == old(checkpoint)
      ensures ok ==> rows == ReplayPass(old(rows), inputs.value, now)
      ensures ok ==> forall id | id in rows && old(rows)[id].level.Tentative? && old(rows)[id].canonical ::
          rows[id].level == ReplayLevel(rows[id].timestamp, inputs.value)
    {
      if inputs.None? { return false; }
      RunWithTimestamps(inputs.value.latest, inputs.value.finalized, now);
      return true;
    }

    /** One reorg walk. When every header can be read, exactly the blocks holding a walked
        row whose hash the chain does not have are orphaned, whole; a header that cannot be
        read stops the walk with the earlier blocks already marked. */
    method RunReorg(head: nat, header: int -> Option<string>) returns (ok: bool, divergences: nat)
      modifies this`rows
      ensures ok <==> forall b | b in StoredBlocks(old(rows), head) :: header(b.block).Some?
      ensures ok ==> rows == Orphaned(old(rows), StoredBlocks(old(rows), head), header)
      ensures ok ==> divergences == |Divergent(StoredBlocks(old(rows), head), header)|
      ensures exists done :: done <= StoredBlocks(old(rows), head) && rows == Orphaned(old(rows), done, header)
    {
      hide Diverge, Orphaned, StoredBlocks, Divergent;
      NoneDivergent(header);
      var todo := StoredBlocks(rows, head);
      ghost var all := todo;
      divergences := 0;
      OrphanNone(rows, header);
      assert all - todo == {};
      while todo != {}
        invariant todo <= all && rows == Orphaned(old(rows), all - todo, header)
        invariant forall b | b in all - todo :: header(b.block).Some?
        invariant divergences == |Divergent(all - todo, header)|
      {
        ghost var low := LowestExists(todo);
        var b :| b in todo && forall x | x in todo :: b.block <= x.block;
        var chainHash := header(b.block);
        if chainHash.None? { return false, divergences; }
        OrphanOne(old(rows), all - todo, header, b);
        OneMoreDivergent(all - todo, header, b);
        assert all - (todo - {b}) == (all - todo) + {b};
        if chainHash.value != b.hash {
          divergences := divergences + 1;
          rows := Diverge(rows, b.block);
        }
        todo := todo - {b};
      }
      assert all - todo == all;
      return true, divergences;
    }
  }

  lemma RunSnoc(s: State, steps: seq<Step>, step: Step)
    ensures Run(s, steps + [step]) == Apply(Run(s, steps), step) && Run(s, []) == s
  {
    assert (steps + [step])[..|steps|] == steps;
  }

  lemma RunThree(s: State, a: Step, b: Step, c: Step)
    ensures Run(s, [a, b, c]) == Apply(Apply(Apply(s, a), b), c)
  {
    hide Apply, Run;
    RunSnoc(s, [], a);
    RunSnoc(s, [a], b);
    RunSnoc(s, [a, b], c);
    assert [] + [a] == [a] && [a] + [b] == [a, b] && [a, b] + [c] == [a, b, c];
  }

  /** After a complete walk a canonical row stays canonical if and only if no tentative
      canonical row of its block, at most 7500 blocks behind the head, has a hash the chain
      does not have; nothing else of any row changes. */
  lemma KeptExactly(rows: map<int, Row>, head: nat, header: int -> Option<string>, id: int)
    requires id in rows
    ensures var after := Orphaned(rows, StoredBlocks(rows, head), header);
      && after.Keys == rows.Keys && after[id] == rows[id].(canonical := after[id].canonical)
      && (after[id].canonical <==>
          && rows[id].canonical
          && forall other | other in rows && rows[other].level == Tentative && rows[other].canonical
            && 0 <= rows[other].block && head - 7500 <= rows[other].block <= head
            && rows[other].block == rows[id].block ::
            header(rows[id].block) == Some(rows[other].hash))
  {
    var stored := StoredBlocks(rows, head);
    forall other ensures other in rows && Walked(rows[other], head) <==>
        && other in rows && rows[other].level == Tentative && rows[other].canonical
        && 0 <= rows[other].block && head - 7500 <= rows[other].block <= head
    {
    }
    hide Walked;
    forall other | other in rows && Walked(rows[other], head)
      ensures Stored(rows[other].block, rows[other].hash) in stored
    {
    }
  }

  /** A finalized row with the chain's own hash is orphaned with its block when a late
      tentative row of that block carries another hash. */
  lemma FinalizedRowOrphaned()
    ensures var rows := map[1 := Row(5, "a", 0, Finalized, Some(100), true), 2 := Fresh(5, "b", 0)];
      !Orphaned(rows, StoredBlocks(rows, 10), block => Some("a"))[1].canonical
  {
    var rows := map[1 := Row(5, "a", 0, Finalized, Some(100), true), 2 := Fresh(5, "b", 0)];
    KeptExactly(rows, 10, block => Some("a"), 1);
    assert Walked(rows[2], 10) && rows[2].hash[0] != "a"[0];
  }
}