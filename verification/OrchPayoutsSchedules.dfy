/** Schedules of the payout rollup over a ledger that changes between passes
    (crates/livepeer-rollups/src/orch_payouts.rs): events and their valuations arrive, fee
    shares are updated, rows mutate or are orphaned, and queued mutations are repaired. */
module OrchPayoutsSchedules {
  import opened Checkpoints
  import opened Wrappers
  import opened OrchPayouts
  import opened OrchPayoutsPasses

  /** One pass over the ledger as it is then, with the mutations queued by then. */
  datatype Tick = Tick(shares: Shares, ledger: seq<Row>, raw: Orchestrators, queued: set<int>, limit: nat)

  predicate Sorted(ledger: seq<Row>) { Ledger(ledger) && IdsInOrder(View(ledger)) }

  predicate LedgersInOrder(ticks: seq<Tick>) {
    forall t | t in ticks :: Sorted(t.ledger)
  }

  /** Ledgers whose rows are ordered by id have ordered views. */
  lemma SortedIs(ledger: seq<Row>)
    ensures Sorted(ledger) <==> Ledger(ledger)
  {
    if Ledger(ledger) { ViewRows(ledger); }
  }

  function PlayFrom(s: State, ticks: seq<Tick>): State
    requires LedgersInOrder(ticks)
  {
    if |ticks| == 0 then s
    else
      var n := |ticks| - 1;
      Pass(ticks[n].shares, ticks[n].ledger, ticks[n].raw, PlayFrom(s, ticks[..n]), ticks[n].queued, ticks[n].limit)
  }

  function LedgerAfter(start: seq<Row>, ticks: seq<Tick>): seq<Row> {
    if |ticks| == 0 then start else ticks[|ticks| - 1].ledger
  }

  function SharesAfter(ticks: seq<Tick>): Shares {
    if |ticks| == 0 then map[] else ticks[|ticks| - 1].shares
  }

  /** Every pass of a schedule consumes the next rows it finds, as many as its limit allows,
      and passes over more if and only if the limit falls inside an event. */
  lemma TickConsumes(s: State, ticks: seq<Tick>, t: Tick)
    requires LedgersInOrder(ticks) && Sorted(t.ledger)
    ensures LedgersInOrder(ticks + [t]) && PlayFrom(s, []) == s && Orderly([])
    ensures var rows := View(t.ledger);
      var p, q := Position(rows, PlayFrom(s, ticks).checkpoint), Position(rows, PlayFrom(s, ticks + [t]).checkpoint);
      var end := Min(p + t.limit, |rows|);
      end <= q && (end < q <==> p < end < |rows| && rows[end].id == rows[end - 1].id)
  {
    hide View, Position, Repair, RepairKeys;
    assert (ticks + [t])[..|ticks|] == ticks;
    var before := PlayFrom(s, ticks);
    var keys := RepairKeys(t.ledger, t.raw, before.daily, t.queued);
    RunCheckpoint(t.shares, t.ledger, before.(daily := Repair(t.shares, t.ledger, before.daily, keys)), t.limit);
    PositionAfterRun(View(t.ledger), before.checkpoint, t.limit);
  }

  // ---------------------------------------------------------------------------
  // Ledgers that change between passes
  // ---------------------------------------------------------------------------

  /** No fee share already applied changes, each pass finds the queue naming a mutation for
      every key whose covered rows changed since the last, and comes right. */
  ghost predicate Orderly(ticks: seq<Tick>)
    requires LedgersInOrder(ticks)
  {
    if |ticks| == 0 then true
    else
      var n := |ticks| - 1;
      var t := ticks[n];
      var s := PlayFrom(START, ticks[..n]);
      var was := LedgerAfter([], ticks[..n]);
      && Orderly(ticks[..n])
      && Sorted(was)
      && (forall r | r in Consumed(was, s.checkpoint) :: ShareOf(SharesAfter(ticks[..n]), r) == ShareOf(t.shares, r))
      && RestUnchanged(was, t.ledger, s.checkpoint, RepairKeys(t.ledger, t.raw, s.daily, t.queued))
      && PassComesRight(t.ledger, t.raw, s, t.queued, t.limit)
  }

  lemma {:induction false} SumBySharesOf(a: Shares, b: Shares, rows: seq<Row>)
    requires forall r | r in rows :: ShareOf(a, r) == ShareOf(b, r)
    ensures Sum(a, rows) == Sum(b, rows)
  {
    if |rows| > 0 {
      hide ShareOf, Commission;
      var n := |rows| - 1;
      assert rows[n] in rows && forall r | r in rows[..n] :: r in rows;
      SumBySharesOf(a, b, rows[..n]);
    }
  }

  /** The rebuild depends on the fee shares only through the ones its rows apply. */
  lemma BuildBySharesOf(a: Shares, b: Shares, rows: seq<Row>)
    requires forall r | r in rows :: ShareOf(a, r) == ShareOf(b, r)
    ensures Build(a, rows) == Build(b, rows)
  {
    hide ShareOf, Sum, Group;
    forall k ensures Sum(a, Group(rows, k)) == Sum(b, Group(rows, k)) {
      GroupMembers(rows, k);
      SumBySharesOf(a, b, Group(rows, k));
    }
  }

  /** Over every such schedule the accumulated table is the rebuild of the rows consumed so
      far, fee splits and distinct gateways included. */
  lemma {:induction false} PassesExact(ticks: seq<Tick>)
    requires LedgersInOrder(ticks) && Orderly(ticks)
    ensures Sorted(LedgerAfter([], ticks))
    ensures Faithful(SharesAfter(ticks), LedgerAfter([], ticks), PlayFrom(START, ticks))
  {
    if |ticks| == 0 {
      assert KeysOf([]) == {};
    } else {
      hide View, Pass, PassComesRight, Sorted, ShareOf, Build, RestUnchanged, RepairKeys;
      var n := |ticks| - 1;
      var t := ticks[n];
      assert t in ticks;
      PassesExact(ticks[..n]);
      var s := PlayFrom(START, ticks[..n]);
      var was := LedgerAfter([], ticks[..n]);
      SharesKept(SharesAfter(ticks[..n]), t.shares, was, s);
      OnePass(t, was, s);
    }
  }

  lemma SharesKept(a: Shares, b: Shares, was: seq<Row>, s: State)
    requires Sorted(was) && Faithful(a, was, s)
    requires forall r | r in Consumed(was, s.checkpoint) :: ShareOf(a, r) == ShareOf(b, r)
    ensures Faithful(b, was, s)
  {
    hide View, ShareOf, Build, Position;
    BuildBySharesOf(a, b, Consumed(was, s.checkpoint));
  }

  lemma OnePass(t: Tick, was: seq<Row>, s: State)
    requires Sorted(was) && Sorted(t.ledger) && Faithful(t.shares, was, s)
    requires RestUnchanged(was, t.ledger, s.checkpoint, RepairKeys(t.ledger, t.raw, s.daily, t.queued))
    ensures Faithful(t.shares, t.ledger, Pass(t.shares, t.ledger, t.raw, s, t.queued, t.limit)) <==>
      PassComesRight(t.ledger, t.raw, s, t.queued, t.limit)
  {
    hide View, Pass, PassComesRight, Faithful, Ledger, RestUnchanged, RepairKeys;
    PassAfterExactly(t.shares, was, t.ledger, t.raw, s, t.queued, t.limit);
  }

  lemma NoRepairKeys(ledger: seq<Row>, raw: Orchestrators, daily: map<Key, Aggregate>)
    ensures RepairKeys(ledger, raw, daily, {}) == {}
  {
  }

  /** Without mutations a pass comes right exactly when its batch splits no event and holds
      no suppressed row. */
  lemma QuietComesRight(ledger: seq<Row>, raw: Orchestrators, s: State, limit: nat)
    requires IdsInOrder(View(ledger))
    ensures var rows := View(ledger);
      PassComesRight(ledger, raw, s, {}, limit) <==>
      && !Splits(rows, s.checkpoint, limit)
      && NoneSuppressed(ledger, Position(rows, s.checkpoint), BatchEnd(rows, s.checkpoint, limit))
  {
    hide View, Suppressed, Splits, IdsInOrder, RepairKeys;
    var rows, keys := View(ledger), RepairKeys(ledger, raw, s.daily, {});
    var p, q := Position(rows, s.checkpoint), BatchEnd(rows, s.checkpoint, limit);
    var q' := Position(rows, NextCheckpoint(s.checkpoint, rows[p..q]));
    PositionAfterRun(rows, s.checkpoint, limit);
    NoRepairKeys(ledger, raw, s.daily);
    if PassComesRight(ledger, raw, s, {}, limit) {
      assert q < |rows| ==> KeyComesRight(ledger, p, q, q', rows[q].key, rows[q].key in keys);
      forall i | p <= i < q ensures !Suppressed(ledger, i) {
        assert KeyComesRight(ledger, p, q, q', rows[i].key, rows[i].key in keys);
      }
    }
  }

  /** Below a visible row every canonical row is visible: rows become visible in id order. */
  predicate VisibleInOrder(ledger: seq<Row>) {
    forall e, f | e in ledger && f in ledger && Shown(e) && f.canonical && f.id < e.id :: f.visible
  }

  /** Visibility in id order leaves the anti-join nothing to be fooled by, whatever order
      valuations arrive in. */
  lemma InOrderNoneSuppressed(ledger: seq<Row>)
    requires Ledger(ledger) && VisibleInOrder(ledger)
    ensures NoneSuppressed(ledger, 0, |View(ledger)|)
  {
    hide View;
    forall i | 0 <= i < |View(ledger)| ensures !Suppressed(ledger, i) { NotSuppressed(ledger, i); }
  }

  lemma NotSuppressed(ledger: seq<Row>, i: nat)
    requires Ledger(ledger) && VisibleInOrder(ledger) && i < |View(ledger)|
    ensures !Suppressed(ledger, i)
  {
    ViewRows(ledger);
    hide View, Ledger, Gateways, IdsInOrder;
    var rows := View(ledger);
    assert rows[i] in rows;
    if PriorSeen(ledger, rows[i]) {
      var e :| e in ledger && e.canonical && e.id < rows[i].id && e.gateway == rows[i].gateway && e.key == rows[i].key;
      assert Shown(e);
      EarlierGateway(rows, i, e);
    }
  }

  lemma EarlierGateway(rows: seq<Row>, i: nat, e: Row)
    requires IdsInOrder(rows) && i < |rows| && e in rows && e.id < rows[i].id && e.key == rows[i].key
    ensures e.gateway in Gateways(rows[..i], rows[i].key)
  {
    var j :| 0 <= j < |rows| && rows[j] == e;
    assert j < i;
    assert rows[..i][j] == e && e in rows[..i];
  }
}
