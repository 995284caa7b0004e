/** The pricing loop shared by the three on-chain passes
    (crates/livepeer-valuator/src/onchain.rs, crates/livepeer-valuator/src/multi_asset.rs):
    each candidate's oracle answers become buffered rows, a retryable failure pins the
    watermark, and the buffers are empty before the frontier is read. */
module PassLoop {
  import opened Sets
  import opened Wrappers
  import opened OnConflict
  import opened Watermark
  import opened Bulk

  const STATUS_PRICED: string := "priced"

  /** LIKE 'failed_%'. */
  predicate IsFailed(status: string) { |status| >= 7 && status[..6] == "failed" }

  /** What the oracle reads for one half come to, with the row to record. */
  datatype Answer = Answer(outcome: Outcome, row: Valuation, detail: string, prices: seq<(PriceKey, real)>)

  predicate WellFormed(a: Answer) {
    && (a.outcome == Failed ==> IsFailed(a.row.status) && a.row.nativeUsdPrice.None? && a.row.amountUsd.None?)
    && (a.outcome != Failed && a.outcome != Transient ==> a.row.status == STATUS_PRICED)
  }

  datatype Candidate = Candidate(id: int, finalizedAt: Option<int>, amountKnown: bool, eth: Answer, lpt: Answer)

  function OutcomesOf(c: Candidate): Outcomes { Outcomes(c.eth.outcome, c.lpt.outcome) }

  lemma IsFailedMeans(status: string)
    ensures IsFailed(status) <==> exists rest :: rest != "" && status == "failed" + rest
  {
    if IsFailed(status) { assert status == "failed" + status[6..]; }
    forall rest | rest != "" && status == "failed" + rest ensures IsFailed(status) {
      assert ("failed" + rest)[..6] == "failed";
    }
  }

  predicate Skipped(p: Params, c: Candidate) { !p.pass.MultiPass? && !c.amountKnown }

  // ---------------------------------------------------------------------------
  // What the loop comes to
  // ---------------------------------------------------------------------------

  /** The slots written once the candidates have been handled one by one. */
  function Sheet(p: Params, t: Tables, cs: seq<Candidate>): Tables {
    if |cs| == 0 then t
    else
      var n := |cs| - 1;
      var before := Sheet(p, t, cs[..n]);
      if Skipped(p, cs[n]) then before else WriteEvent(p, before, cs[n].id, OutcomesOf(cs[n]))
  }

  /** The oldest stamp among the candidates that met a retryable failure. */
  function OldestStuck(p: Params, cs: seq<Candidate>): Option<int> {
    if |cs| == 0 then None
    else
      var n := |cs| - 1;
      var before := OldestStuck(p, cs[..n]);
      if !Skipped(p, cs[n]) && Stuck(p, OutcomesOf(cs[n])) && cs[n].finalizedAt.Some? then
        Pin(before, cs[n].finalizedAt.value)
      else
        before
  }

  lemma {:induction false} OldestStuckIs(p: Params, cs: seq<Candidate>)
    ensures var m := OldestStuck(p, cs);
      && (forall c | c in cs && !Skipped(p, c) && Stuck(p, OutcomesOf(c)) && c.finalizedAt.Some? ::
          Pinned(m, c.finalizedAt.value))
      && (m.Some? ==> exists c :: c in cs && !Skipped(p, c) && Stuck(p, OutcomesOf(c)) && c.finalizedAt == m)
  {
    if |cs| > 0 {
      var n := |cs| - 1;
      OldestStuckIs(p, cs[..n]);
      assert cs == cs[..n] + [cs[n]];
      assert cs[n] in cs;
    }
  }

  function IdsOf(cs: seq<Candidate>): set<int> { set c | c in cs :: c.id }

  /** A pricing worker once it has handled the candidates. */
  function Handled(p: Params, s: State, cs: seq<Candidate>): State
    requires s.worker.Pricing?
  {
    var left := s.worker.left - IdsOf(cs);
    s.(worker := Pricing(s.worker.since, s.worker.candidates, left, Sheet(p, NOTHING, cs), OldestStuck(p, cs)))
  }

  predicate Matches(s: State, c: Candidate) {
    && s.worker.Pricing? && c.id in s.worker.left && c.id in s.rows
    && c.finalizedAt == Some(s.rows[c.id].stamp) && c.amountKnown == s.rows[c.id].amountKnown
  }

  /** The loop is a run of the protocol's handling steps over its candidates, in any order
      of completion: nothing is left, and what it buffered and pinned is what the protocol
      has pending and pinned. */
  lemma {:induction false} LoopIsHandling(p: Params, s: State, cs: seq<Candidate>)
    requires Reachable(p, s) && s.worker.Pricing? && s.worker.pending == NOTHING && s.worker.minUnresolved == None
    requires forall c | c in cs :: Matches(s, c) && Possible(p, OutcomesOf(c))
    requires forall i, j | 0 <= i < j < |cs| :: cs[i].id != cs[j].id
    ensures Reachable(p, Handled(p, s, cs))
  {
    if |cs| == 0 {
      assert s.worker.left - {} == s.worker.left;
      assert Handled(p, s, cs) == s;
    } else {
      hide Reachable, Possible, Enabled, Apply, Handled;
      var n := |cs| - 1;
      var c := cs[n];
      assert c in cs && forall x | x in cs[..n] :: x in cs;
      LoopIsHandling(p, s, cs[..n]);
      forall x | x in cs[..n] ensures x.id != c.id { var i :| 0 <= i < n && cs[i] == x; }
      HandleNext(p, s, cs[..n], c);
      assert cs[..n] + [c] == cs;
      Reached(p, Handled(p, s, cs[..n]), Handle(c.id, OutcomesOf(c)));
    }
  }

  lemma HandleNext(p: Params, s: State, done: seq<Candidate>, c: Candidate)
    requires Matches(s, c) && Possible(p, OutcomesOf(c))
    requires forall x | x in done :: x.id != c.id
    ensures var before, step := Handled(p, s, done), Handle(c.id, OutcomesOf(c));
      Enabled(p, before, step) && Apply(p, before, step) == Handled(p, s, done + [c])
  {
    hide WriteEvent, Stuck, Possible, Pin;
    var cs := done + [c];
    assert cs[..|done|] == done;
    assert IdsOf(cs) == IdsOf(done) + {c.id};
    assert s.worker.left - (IdsOf(done) + {c.id}) == (s.worker.left - IdsOf(done)) - {c.id};
    CanHandle(p, Handled(p, s, done), c);
  }

  lemma CanHandle(p: Params, s: State, c: Candidate)
    requires s.worker.Pricing? && c.id in s.worker.left && c.id in s.rows && Possible(p, OutcomesOf(c))
    ensures Enabled(p, s, Handle(c.id, OutcomesOf(c)))
  {
  }

  // ---------------------------------------------------------------------------
  // The rows
  // ---------------------------------------------------------------------------

  /** Rows on their way to the three tables. */
  datatype Rows = Rows(valuations: seq<(Slot, Valuation)>, attempts: seq<AttemptRow>, prices: seq<(PriceKey, real)>)

  const NO_ROWS: Rows := Rows([], [], [])

  function Join(a: Rows, b: Rows): Rows {
    Rows(a.valuations + b.valuations, a.attempts + b.attempts, a.prices + b.prices)
  }

  /** What one half's answer leaves: nothing after a retryable failure, an unpriced row and a
      failed attempt with its detail after a permanent one, and otherwise the priced row, its
      attempt and the oracle prices it came from. */
  function AnswerRows(p: Params, id: int, asset: Asset, a: Answer): Rows {
    var slot := Slot(id, VersionOf(p, a.outcome), asset);
    match a.outcome
    case Transient => NO_ROWS
    case Failed => Rows([(slot, a.row.(nativeUsdPrice := None, amountUsd := None))],
                        [(slot, Attempt(a.row.status, Some(a.detail)))], [])
    case _ => Rows([(slot, a.row)], [(slot, Attempt(a.row.status, None))], a.prices)
  }

  /** A multi-asset event's rewards come before its fees. */
  function EventRows(p: Params, c: Candidate): Rows {
    match p.pass
    case EthPass => AnswerRows(p, c.id, ETH, c.eth)
    case LptPass => AnswerRows(p, c.id, LPT, c.lpt)
    case MultiPass => Join(AnswerRows(p, c.id, LPT, c.lpt), AnswerRows(p, c.id, ETH, c.eth))
  }

  function LoopRows(p: Params, cs: seq<Candidate>): Rows {
    if |cs| == 0 then NO_ROWS
    else
      var n := |cs| - 1;
      if Skipped(p, cs[n]) then LoopRows(p, cs[..n]) else Join(LoopRows(p, cs[..n]), EventRows(p, cs[n]))
  }

  function AnswerFor(c: Candidate, asset: Asset): Answer { match asset case ETH => c.eth case LPT => c.lpt }

  /** The pass prices this half of the candidate. */
  predicate Prices(p: Params, c: Candidate, asset: Asset) {
    && (c.amountKnown || p.pass == MultiPass)
    && (asset == ETH ==> p.pass != LptPass) && (asset == LPT ==> p.pass != EthPass)
  }

  /** An outcome is recorded under this version: a TWAP price under the fixed name, a spot
      price under the degraded one, the rest under the run's own. */
  predicate RecordedAs(p: Params, o: Outcome, version: Version) {
    match o
    case Transient => false
    case PricedTwap => version == "v1_lpt_weth_twap_30min_x_chainlink_eth"
    case PricedDegraded => version == "v1_degraded_spot_pre_cardinality"
    case _ => version == p.version
  }

  /** The candidate's answer for the slot's half asks for this valuation row. */
  predicate Records(p: Params, c: Candidate, slot: Slot, v: Valuation) {
    var a := AnswerFor(c, slot.asset);
    && slot.id == c.id && Prices(p, c, slot.asset) && RecordedAs(p, a.outcome, slot.version)
    && v == if a.outcome == Failed then a.row.(nativeUsdPrice := None, amountUsd := None) else a.row
  }

  /** It asks for this attempt: its status, with the detail of a permanent failure. */
  predicate Logs(p: Params, c: Candidate, slot: Slot, t: Attempt) {
    var a := AnswerFor(c, slot.asset);
    && slot.id == c.id && Prices(p, c, slot.asset) && RecordedAs(p, a.outcome, slot.version)
    && t == Attempt(a.row.status, if a.outcome == Failed then Some(a.detail) else None)
  }

  /** The loop writes exactly the rows and attempts its candidates' answers ask for. */
  lemma {:induction false} LoopRowsMean(p: Params, cs: seq<Candidate>, slot: Slot, v: Valuation, t: Attempt)
    ensures (slot, v) in LoopRows(p, cs).valuations <==> exists c :: c in cs && Records(p, c, slot, v)
    ensures (slot, t) in LoopRows(p, cs).attempts <==> exists c :: c in cs && Logs(p, c, slot, t)
  {
    if |cs| > 0 {
      hide *;
      var n := |cs| - 1;
      var c := cs[n];
      LoopRowsMean(p, cs[..n], slot, v, t);
      EventRowsMean(p, c, slot, v, t);
      OneMoreRow(p, cs[..n], c, slot, v, t);
      assert cs == cs[..n] + [c];
    }
  }

  lemma OneMoreRow(p: Params, cs: seq<Candidate>, c: Candidate, slot: Slot, v: Valuation, t: Attempt)
    ensures (slot, v) in LoopRows(p, cs + [c]).valuations <==>
      (slot, v) in LoopRows(p, cs).valuations || (!Skipped(p, c) && (slot, v) in EventRows(p, c).valuations)
    ensures (slot, t) in LoopRows(p, cs + [c]).attempts <==>
      (slot, t) in LoopRows(p, cs).attempts || (!Skipped(p, c) && (slot, t) in EventRows(p, c).attempts)
  {
    hide EventRows, Skipped;
    assert (cs + [c])[..|cs|] == cs;
  }

  lemma EventRowsMean(p: Params, c: Candidate, slot: Slot, v: Valuation, t: Attempt)
    ensures (slot, v) in EventRows(p, c).valuations && !Skipped(p, c) <==> Records(p, c, slot, v)
    ensures (slot, t) in EventRows(p, c).attempts && !Skipped(p, c) <==> Logs(p, c, slot, t)
  {
    AnswerRowsMean(p, c.id, ETH, c.eth, slot, v, t);
    AnswerRowsMean(p, c.id, LPT, c.lpt, slot, v, t);
    hide AnswerRows, RecordedAs;
  }

  lemma AnswerRowsMean(p: Params, id: int, asset: Asset, a: Answer, slot: Slot, v: Valuation, t: Attempt)
    ensures (slot, v) in AnswerRows(p, id, asset, a).valuations <==>
      slot.id == id && slot.asset == asset && RecordedAs(p, a.outcome, slot.version) &&
      v == if a.outcome == Failed then a.row.(nativeUsdPrice := None, amountUsd := None) else a.row
    ensures (slot, t) in AnswerRows(p, id, asset, a).attempts <==>
      slot.id == id && slot.asset == asset && RecordedAs(p, a.outcome, slot.version) &&
      t == Attempt(a.row.status, if a.outcome == Failed then Some(a.detail) else None)
  {
  }

  // ---------------------------------------------------------------------------
  // The loop
  // ---------------------------------------------------------------------------

  predicate HasFailed(ms: multiset<Attempt>) { exists a :: a in ms && IsFailed(a.status) }

  /** The slots the tables will show once the buffers are flushed. */
  ghost predicate Books(db: Database, buffers: BulkBuffers, t: Tables)
    reads db, buffers
  {
    && buffers.Valuations(db).Keys == t.valuations
    && forall slot :: slot in t.failed <==> HasFailed(buffers.Attempts(db, slot))
  }

  function Buffered(buffers: BulkBuffers): Rows
    reads buffers
  {
    Rows(buffers.valuations, buffers.attempts, buffers.prices)
  }

  /** No stored row is lost or changed. */
  predicate Extends(a: map<Slot, Valuation>, b: map<Slot, Valuation>) {
    forall slot | slot in a :: slot in b && b[slot] == a[slot]
  }

  /** The slots the tables show. */
  ghost predicate Shows(db: Database, t: Tables)
    reads db
  {
    && db.valuations.Keys == t.valuations
    && forall slot :: slot in t.failed <==> HasFailed(multiset(db.history(slot)))
  }

  lemma OneMoreFailed(ms: multiset<Attempt>, a: Attempt)
    ensures HasFailed(ms + multiset{a}) <==> HasFailed(ms) || IsFailed(a.status)
  {
    if HasFailed(ms) {
      var x :| x in ms && IsFailed(x.status);
      assert x in ms + multiset{a};
    }
    assert a in ms + multiset{a};
  }

  lemma PushedAttempt(history: seq<Attempt>, rows: seq<AttemptRow>, row: AttemptRow, slot: Slot)
    ensures multiset(history + ForKey(rows + [row], slot)) ==
      if row.0 == slot then multiset(history + ForKey(rows, slot)) + multiset{row.1}
      else multiset(history + ForKey(rows, slot))
  {
    ForKeySnoc(rows, row, slot);
  }

  lemma PushedValuation(table: map<Slot, Valuation>, rows: seq<(Slot, Valuation)>, row: (Slot, Valuation))
    ensures FirstWins(table, rows + [row]).Keys == FirstWins(table, rows).Keys + {row.0}
    ensures Extends(FirstWins(table, rows), FirstWins(table, rows + [row]))
  {
    assert (rows + [row])[..|rows|] == rows;
  }

  /** The rows one half pushes. */
  method PushAnswer(p: Params, id: int, asset: Asset, a: Answer, buffers: BulkBuffers, db: Database, ghost t: Tables)
    requires WellFormed(a) && Books(db, buffers, t) && db.Valid()
    modifies buffers
    ensures Books(db, buffers, Write(p, t, id, asset, a.outcome))
    ensures Extends(old(buffers.Valuations(db)), buffers.Valuations(db))
    ensures Buffered(buffers) == Join(old(Buffered(buffers)), AnswerRows(p, id, asset, a))
  {
    hide FirstWins, ForKey, IsFailed, HasFailed, WellFormed, Write, Extends;
    ghost var was := Buffered(buffers);
    AnswerBooked(p, id, asset, a, db.valuations, db.history, was, t);
    if a.outcome.Transient? {
      assert Join(was, NO_ROWS) == was;
      return;
    }
    var slot := Slot(id, VersionOf(p, a.outcome), asset);
    if a.outcome.Failed? {
      buffers.PushFailedOutcome(slot, a.row.pricingMethod, a.row.source, a.row.amountNative, a.row.status, a.detail);
      assert Buffered(buffers).prices == was.prices + [];
    } else {
      for i := 0 to |a.prices|
        invariant buffers.attempts == was.attempts && buffers.valuations == was.valuations
        invariant buffers.prices == was.prices + a.prices[..i]
      {
        assert a.prices[..i + 1] == a.prices[..i] + [a.prices[i]];
        buffers.PushPrice(a.prices[i].0, a.prices[i].1);
      }
      assert a.prices[..|a.prices|] == a.prices;
      buffers.PushPriced(slot, a.row);
    }
  }

  /** With an answer's rows appended, the books show what the answer writes. */
  lemma AnswerBooked(p: Params, id: int, asset: Asset, a: Answer, table: map<Slot, Valuation>,
                     history: Slot -> seq<Attempt>, was: Rows, t: Tables)
    requires WellFormed(a) && FirstWins(table, was.valuations).Keys == t.valuations
    requires forall s :: s in t.failed <==> HasFailed(multiset(history(s) + ForKey(was.attempts, s)))
    ensures var now, u := Join(was, AnswerRows(p, id, asset, a)), Write(p, t, id, asset, a.outcome);
      && FirstWins(table, now.valuations).Keys == u.valuations
      && (forall s :: s in u.failed <==> HasFailed(multiset(history(s) + ForKey(now.attempts, s))))
      && Extends(FirstWins(table, was.valuations), FirstWins(table, now.valuations))
  {
    hide FirstWins, ForKey, IsFailed, HasFailed, WellFormed;
    var rows := AnswerRows(p, id, asset, a);
    if a.outcome.Transient? {
      assert Join(was, NO_ROWS) == was;
    } else {
      var slot, v, attempt := rows.valuations[0].0, rows.valuations[0].1, rows.attempts[0].1;
      StatusFailed(a, attempt);
      PushedValuation(table, was.valuations, (slot, v));
      BooksPushed(table, history, was.valuations, was.attempts, slot, v, attempt, t);
    }
  }

  lemma BooksPushed(table: map<Slot, Valuation>, history: Slot -> seq<Attempt>, was: seq<(Slot, Valuation)>,
                    rows: seq<AttemptRow>,
                    slot: Slot, v: Valuation, attempt: Attempt, t: Tables)
    requires FirstWins(table, was).Keys == t.valuations
    requires forall s :: s in t.failed <==> HasFailed(multiset(history(s) + ForKey(rows, s)))
    ensures FirstWins(table, was + [(slot, v)]).Keys == t.valuations + {slot}
    ensures forall s :: s in (if IsFailed(attempt.status) then t.failed + {slot} else t.failed) <==>
        HasFailed(multiset(history(s) + ForKey(rows + [(slot, attempt)], s)))
  {
    hide FirstWins, ForKey, IsFailed, HasFailed;
    PushedValuation(table, was, (slot, v));
    forall s ensures HasFailed(multiset(history(s) + ForKey(rows + [(slot, attempt)], s))) <==>
        HasFailed(multiset(history(s) + ForKey(rows, s))) || (s == slot && IsFailed(attempt.status))
    {
      PushedAttempt(history(s), rows, (slot, attempt), s);
      OneMoreFailed(multiset(history(s) + ForKey(rows, s)), attempt);
    }
  }

  lemma StatusFailed(a: Answer, attempt: Attempt)
    requires WellFormed(a) && !a.outcome.Transient? && attempt.status == a.row.status
    ensures IsFailed(attempt.status) <==> a.outcome.Failed?
  {
    assert STATUS_PRICED[0] != 'f' && "failed"[0] == 'f';
    if |attempt.status| >= 7 { assert attempt.status[..6][0] == attempt.status[0]; }
  }

  method RunLoop(p: Params, candidates: seq<Candidate>, db: Database, ghost t: Tables)
    returns (minUnresolved: Option<int>)
    requires db.Valid() && Shows(db, t)
    requires forall c | c in candidates :: WellFormed(c.eth) && WellFormed(c.lpt)
    modifies db
    ensures db.Valid() && Shows(db, Sheet(p, t, candidates))
    ensures minUnresolved == OldestStuck(p, candidates)
    ensures Extends(old(db.valuations), db.valuations)
    ensures Stored(old(TabledOf(db)), LoopRows(p, candidates), TabledOf(db))
  {
    hide Shows, WriteEvent, Write, Stuck, WellFormed, HasFailed, FirstWins, ForKey, Numbered, OutcomesOf, Pin;
    var buffers := new BulkBuffers();
    minUnresolved := None;
    ShownIsBooked(db, buffers, t);
    NoRowsStore(TabledOf(db));
    for i := 0 to |candidates|
      invariant db.Valid()
      invariant Books(db, buffers, Sheet(p, t, candidates[..i]))
      invariant minUnresolved == OldestStuck(p, candidates[..i])
      invariant Extends(old(db.valuations), buffers.Valuations(db))
      invariant WillStore(old(TabledOf(db)), LoopRows(p, candidates[..i]), TabledOf(db), Buffered(buffers))
    {
      var c := candidates[i];
      assert candidates[..i + 1][..i] == candidates[..i];
      if !Skipped(p, c) {
        StoresMore(old(TabledOf(db)), LoopRows(p, candidates[..i]), TabledOf(db), Buffered(buffers), EventRows(p, c));
        PushEvent(p, c, buffers, db, Sheet(p, t, candidates[..i]));
        if Stuck(p, OutcomesOf(c)) && c.finalizedAt.Some? {
          minUnresolved := Pin(minUnresolved, c.finalizedAt.value);
        }
      }
      ghost var now, buffered := TabledOf(db), Buffered(buffers);
      buffers.MaybeFlush(db);
      StillStores(old(TabledOf(db)), LoopRows(p, candidates[..i + 1]), now, buffered, TabledOf(db), Buffered(buffers));
    }
    assert candidates[..|candidates|] == candidates;
    ghost var now, buffered := TabledOf(db), Buffered(buffers);
    buffers.Flush(db);
    StillStores(old(TabledOf(db)), LoopRows(p, candidates), now, buffered, TabledOf(db), Buffered(buffers));
    BookedIsShown(db, buffers, Sheet(p, t, candidates));
  }

  /** The three tables at one moment, the attempts by key. */
  datatype Tabled =
    Tabled(valuations: map<Slot, Valuation>, prices: map<PriceKey, real>, history: Slot -> seq<Attempt>)

  ghost function TabledOf(db: Database): Tabled
    reads db
  {
    Tabled(db.valuations, db.prices, db.history)
  }

  /** The rows are in the tables, over what was there: first wins for valuations and prices,
      and every attempt is logged after the earlier ones of its key. */
  ghost predicate Stored(was: Tabled, rows: Rows, now: Tabled) {
    && now.valuations == FirstWins(was.valuations, rows.valuations) && now.prices == FirstWins(was.prices, rows.prices)
    && forall slot :: multiset(now.history(slot)) == multiset(was.history(slot) + ForKey(rows.attempts, slot))
        && was.history(slot) <= now.history(slot)
  }

  /** They will be once what is buffered is flushed. */
  ghost predicate WillStore(was: Tabled, rows: Rows, now: Tabled, buffered: Rows) {
    && FirstWins(now.valuations, buffered.valuations) == FirstWins(was.valuations, rows.valuations)
    && FirstWins(now.prices, buffered.prices) == FirstWins(was.prices, rows.prices)
    && forall slot ::
        && multiset(now.history(slot) + ForKey(buffered.attempts, slot)) ==
          multiset(was.history(slot) + ForKey(rows.attempts, slot))
        && was.history(slot) <= now.history(slot)
  }

  lemma StoresMore(was: Tabled, rows: Rows, now: Tabled, buffered: Rows, more: Rows)
    requires WillStore(was, rows, now, buffered)
    ensures WillStore(was, Join(rows, more), now, Join(buffered, more))
  {
    hide FirstWins, ForKey;
    FirstWinsConcat(now.valuations, buffered.valuations, more.valuations);
    FirstWinsConcat(was.valuations, rows.valuations, more.valuations);
    FirstWinsConcat(now.prices, buffered.prices, more.prices);
    FirstWinsConcat(was.prices, rows.prices, more.prices);
    forall slot ensures multiset(now.history(slot) + ForKey(buffered.attempts + more.attempts, slot)) ==
        multiset(was.history(slot) + ForKey(rows.attempts + more.attempts, slot))
    {
      SameMore(now.history(slot), buffered.attempts, was.history(slot), rows.attempts, more.attempts, slot);
    }
  }

  lemma SameMore(a: seq<Attempt>, xs: seq<AttemptRow>, b: seq<Attempt>, ys: seq<AttemptRow>, more: seq<AttemptRow>,
                 slot: Slot)
    requires multiset(a + ForKey(xs, slot)) == multiset(b + ForKey(ys, slot))
    ensures multiset(a + ForKey(xs + more, slot)) == multiset(b + ForKey(ys + more, slot))
  {
    hide ForKey;
    ForKeyConcat(xs, more, slot);
    ForKeyConcat(ys, more, slot);
    AppendBoth(a, ForKey(xs, slot), ForKey(more, slot));
    AppendBoth(b, ForKey(ys, slot), ForKey(more, slot));
  }

  lemma AppendBoth(a: seq<Attempt>, x: seq<Attempt>, more: seq<Attempt>)
    ensures multiset(a + (x + more)) == multiset(a + x) + multiset(more)
  {
    assert a + (x + more) == (a + x) + more;
  }

  lemma StillStores(was: Tabled, rows: Rows, now: Tabled, buffered: Rows, now': Tabled, buffered': Rows)
    requires WillStore(was, rows, now, buffered)
    requires FirstWins(now'.valuations, buffered'.valuations) == FirstWins(now.valuations, buffered.valuations)
    requires FirstWins(now'.prices, buffered'.prices) == FirstWins(now.prices, buffered.prices)
    requires forall slot ::
      && multiset(now'.history(slot) + ForKey(buffered'.attempts, slot)) ==
        multiset(now.history(slot) + ForKey(buffered.attempts, slot))
      && now.history(slot) <= now'.history(slot)
    ensures WillStore(was, rows, now', buffered')
    ensures buffered' == NO_ROWS ==> Stored(was, rows, now')
  {
    hide FirstWins, ForKey;
    if buffered' == NO_ROWS {
      NoRowsStore(now');
      forall slot ensures now'.history(slot) + [] == now'.history(slot) {}
    }
  }

  lemma NoRowsStore(now: Tabled)
    ensures FirstWins(now.valuations, []) == now.valuations && FirstWins(now.prices, []) == now.prices
    ensures forall slot :: ForKey([], slot) == []
    ensures WillStore(now, NO_ROWS, now, NO_ROWS)
  {
  }

  lemma ShownIsBooked(db: Database, buffers: BulkBuffers, t: Tables)
    requires Shows(db, t) && buffers.Pending() == 0
    ensures Books(db, buffers, t) && buffers.Valuations(db) == db.valuations
  {
    NothingBuffered(db);
  }

  lemma BookedIsShown(db: Database, buffers: BulkBuffers, t: Tables)
    requires Books(db, buffers, t) && buffers.Pending() == 0
    ensures Shows(db, t)
  {
    NothingBuffered(db);
  }

  method PushEvent(p: Params, c: Candidate, buffers: BulkBuffers, db: Database, ghost t: Tables)
    requires WellFormed(c.eth) && WellFormed(c.lpt) && Books(db, buffers, t) && db.Valid()
    modifies buffers
    ensures Books(db, buffers, WriteEvent(p, t, c.id, OutcomesOf(c)))
    ensures Extends(old(buffers.Valuations(db)), buffers.Valuations(db))
    ensures Buffered(buffers) == Join(old(Buffered(buffers)), EventRows(p, c))
  {
    hide Books, WellFormed, AnswerRows;
    match p.pass
    case EthPass => PushAnswer(p, c.id, ETH, c.eth, buffers, db, t);
    case LptPass => PushAnswer(p, c.id, LPT, c.lpt, buffers, db, t);
    case MultiPass =>
      PushAnswer(p, c.id, LPT, c.lpt, buffers, db, t);
      PushAnswer(p, c.id, ETH, c.eth, buffers, db, Write(p, t, c.id, LPT, c.lpt.outcome));
  }

  // ---------------------------------------------------------------------------
  // A whole pass
  // ---------------------------------------------------------------------------

  /** The slots the candidate query sees. */
  function TablesOf(db: Database): Tables
    reads db
  {
    Tables(db.valuations.Keys, set key | key in db.attempts && IsFailed(db.attempts[key].status) :: key.0)
  }

  lemma TablesShown(db: Database)
    requires db.Valid()
    ensures Shows(db, TablesOf(db))
    ensures forall t | Shows(db, t) :: t == TablesOf(db)
  {
    hide IsFailed;
    forall slot ensures slot in TablesOf(db).failed <==> HasFailed(multiset(db.history(slot))) {
      if HasFailed(multiset(db.history(slot))) {
        var a :| a in multiset(db.history(slot)) && IsFailed(a.status);
        var i :| 0 <= i < |db.history(slot)| && db.history(slot)[i] == a;
        assert (slot, i + 1) in db.attempts;
      }
      if slot in TablesOf(db).failed {
        var key :| key in db.attempts && IsFailed(db.attempts[key].status) && key.0 == slot;
        assert (slot, key.1) in db.attempts;
        assert db.history(slot)[key.1 - 1] in multiset(db.history(slot));
      }
    }
  }

  /** Every handled candidate is settled or stuck. */
  lemma {:induction false} SheetSettles(p: Params, t: Tables, cs: seq<Candidate>)
    requires VersionsMatch(p) && forall c | c in cs :: Possible(p, OutcomesOf(c))
    ensures Within(t, Sheet(p, t, cs))
    ensures forall c | c in cs && !Skipped(p, c) :: Resolved(p, Sheet(p, t, cs), c.id) || Stuck(p, OutcomesOf(c))
  {
    hide Resolved, VersionsMatch, Possible, WriteEvent, Stuck;
    if |cs| > 0 {
      var n := |cs| - 1;
      var c := cs[n];
      assert c in cs && forall x | x in cs[..n] :: x in cs;
      SheetSettles(p, t, cs[..n]);
      var before, after := Sheet(p, t, cs[..n]), Sheet(p, t, cs);
      WriteGrows(p, before, c.id, OutcomesOf(c));
      forall id | Resolved(p, before, id) ensures Resolved(p, after, id) { Monotone(p, before, after, id); }
      if !Skipped(p, c) && !Stuck(p, OutcomesOf(c)) { WriteSettlesOne(p, before, c.id, OutcomesOf(c)); }
      assert cs == cs[..n] + [c];
    }
  }

  /** The oracle's answers, by event. */
  datatype Answers = Answers(eth: Answer, lpt: Answer)

  class Valuator {
    const p: Params
    const db: Database
    var watermark: Option<int>

    constructor (p: Params, db: Database)
      ensures this.p == p && this.db == db && watermark == None
    {
      this.p, this.db, watermark := p, db, None;
    }

    /** The floor of the next scan, the protocol's own: whatever reachable state these tables
        and this watermark belong to, none of the work left in it lies below. */
    method FloorOfScan(includeTentative: bool) returns (floor: int)
      ensures includeTentative ==> floor == 0
      ensures !includeTentative ==>
        forall s: State | s.tables == TablesOf(db) && s.watermark == watermark :: floor == ScanFloor(p, s)
      ensures InTime(p) && VersionsMatch(p) ==>
        forall s: State | Reachable(p, s) && s.tables == TablesOf(db) && s.watermark == watermark ::
          forall id | NeedsWork(p, s, id) :: floor <= s.rows[id].stamp
    {
      hide Reachable, InTime, VersionsMatch, Resolved;
      if InTime(p) && VersionsMatch(p) {
        forall s: State | Reachable(p, s) && s.tables == TablesOf(db) && s.watermark == watermark
          ensures forall id | NeedsWork(p, s, id) :: 0 <= s.rows[id].stamp && ScanFloor(p, s) <= s.rows[id].stamp
        {
          WorkInReach(p, s);
        }
      }
      if includeTentative || watermark.None? { return 0; }
      if exists slot :: slot in db.valuations && slot.version == p.version {
        return watermark.value - LOOKBACK;
      }
      return 0;
    }

    /** The new watermark passes neither the newest stamp nor the oldest stuck one, and stops
        at one of them; a tentative pass, or one without canonical rows, leaves it alone. */
    method AdvanceWatermark(minUnresolved: Option<int>, frontier: Option<int>, includeTentative: bool)
      modifies this`watermark
      ensures includeTentative || frontier.None? ==> watermark == old(watermark)
      ensures !includeTentative && frontier.Some? ==>
        && watermark.Some? && watermark.value <= frontier.value
        && (minUnresolved.Some? ==> watermark.value <= minUnresolved.value)
        && (watermark == frontier || watermark == minUnresolved)
    {
      if includeTentative || frontier.None? { return; }
      if minUnresolved.Some? && minUnresolved.value < frontier.value {
        watermark := minUnresolved;
      } else {
        watermark := frontier;
      }
    }

    /** MAX(finalized_at) over the canonical rows. */
    method Frontier(rows: map<int, Row>) returns (frontier: Option<int>)
      ensures IsFrontier(rows, frontier)
    {
      frontier := None;
      var todo: set<int> := rows.Keys;
      while todo != {}
        invariant todo <= rows.Keys
        invariant forall id | id in rows && id !in todo && rows[id].canonical ::
          frontier.Some? && rows[id].stamp <= frontier.value
        invariant frontier.Some? ==> exists id | id in rows :: rows[id].canonical && rows[id].stamp == frontier.value
      {
        HasMember(todo);
        var id :| id in todo;
        todo := todo - {id};
        if rows[id].canonical && (frontier.None? || frontier.value < rows[id].stamp) {
          frontier := Some(rows[id].stamp);
        }
      }
    }

    method FetchCandidates(rows: map<int, Row>, answers: map<int, Answers>, floor: int) returns (cs: seq<Candidate>)
      requires forall id | id in rows :: id in answers
      ensures IdsOf(cs) == Candidates(p, State(0, rows, TablesOf(db), watermark, Idle), floor)
      ensures forall c | c in cs ::
        && c.id in rows
        && c == Candidate(c.id, Some(rows[c.id].stamp), rows[c.id].amountKnown, answers[c.id].eth, answers[c.id].lpt)
    {
      hide Resolved;
      var todo: set<int> := Candidates(p, State(0, rows, TablesOf(db), watermark, Idle), floor);
      ghost var all := todo;
      cs := [];
      assert IdsOf(cs) == {};
      while todo != {}
        invariant todo <= all && IdsOf(cs) == all - todo
        invariant forall c | c in cs ::
          && c.id in rows
          && c == Candidate(c.id, Some(rows[c.id].stamp), rows[c.id].amountKnown, answers[c.id].eth, answers[c.id].lpt)
      {
        var id: int :| id in todo;
        var c := Candidate(id, Some(rows[id].stamp), rows[id].amountKnown, answers[id].eth, answers[id].lpt);
        ghost var before := cs;
        cs := cs + [c];
        assert IdsOf(cs) == IdsOf(before) + {id};
        todo := todo - {id};
      }
    }

    /** A pass over the rows as they are at the fetch, closing with the rows as they are
        when the frontier is read. */
    method RunPass(atFetch: map<int, Row>, answers: map<int, Answers>, atFrontier: map<int, Row>)
      returns (frontier: Option<int>, ghost cs: seq<Candidate>)
      requires db.Valid()
      requires forall id | id in atFetch :: id in answers && WellFormed(answers[id].eth) && WellFormed(answers[id].lpt)
      requires forall id | id in atFetch :: Possible(p, Outcomes(answers[id].eth.outcome, answers[id].lpt.outcome))
      modifies this`watermark, db
      ensures db.Valid() && Extends(old(db.valuations), db.valuations)
      ensures IdsOf(cs) ==
        old(Candidates(p, State(0, atFetch, TablesOf(db), watermark, Idle),
                       ScanFloor(p, State(0, atFetch, TablesOf(db), watermark, Idle))))
      ensures forall c | c in cs ::
        && c.id in atFetch
        && c == Candidate(c.id, Some(atFetch[c.id].stamp), atFetch[c.id].amountKnown, answers[c.id].eth,
                          answers[c.id].lpt)
      ensures TablesOf(db) == Sheet(p, old(TablesOf(db)), cs)
      ensures Stored(old(TabledOf(db)), LoopRows(p, cs), TabledOf(db))
      ensures IsFrontier(atFrontier, frontier)
      ensures watermark ==
        if frontier.None? then old(watermark) else Some(NextWatermark(OldestStuck(p, cs), frontier.value))
      ensures VersionsMatch(p) && (exists id | id in atFrontier :: atFrontier[id].canonical) ==>
        forall id | id in old(Candidates(p, State(0, atFetch, TablesOf(db), watermark, Idle),
                                         ScanFloor(p, State(0, atFetch, TablesOf(db), watermark, Idle)))) ::
          atFetch[id].amountKnown || p.pass == MultiPass ==>
          Answered(p, TablesOf(db), id) || (watermark.Some? && watermark.value <= atFetch[id].stamp)
    {
      hide Resolved, Answered, WellFormed, Possible, Shows, VersionsMatch, Stuck, Stored, LoopRows;
      var floor := FloorOfScan(false);
      var candidates := FetchCandidates(atFetch, answers, floor);
      cs := candidates;
      TablesShown(db);
      ghost var t := TablesOf(db);
      var minUnresolved := RunLoop(p, candidates, db, t);
      TablesShown(db);
      OldestStuckIs(p, cs);
      if VersionsMatch(p) { SheetSettles(p, t, cs); }
      forall id { ResolvedMeans(p, TablesOf(db), id); }
      frontier := Frontier(atFrontier);
      AdvanceWatermark(minUnresolved, frontier, false);
    }
  }
}
