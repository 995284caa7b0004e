/** What the payout rollup adds up, in the columns of its rows
    (crates/livepeer-rollups/src/orch_payouts.rs): the fee share in force, the split of the
    face value, what a key's row of the table holds, and what the queries return. */
module OrchPayoutsMeaning {
  import opened Wrappers
  import opened OrchPayouts
  import opened OrchPayoutsPasses

  // ---------------------------------------------------------------------------
  // The fee share in force
  // ---------------------------------------------------------------------------

  /** The update is at or before the position: an earlier block, or the same block and a log
      index not after. */
  predicate Reached(point: Point, block: int, logIndex: int) {
    point.block < block || (point.block == block && point.logIndex <= logIndex)
  }

  /** The share at a position is that of the last update it has reached. */
  lemma {:induction false} ShareMeans(points: seq<Point>, block: int, logIndex: int, i: nat)
    requires i < |points| && Reached(points[i], block, logIndex)
    requires forall j | i < j < |points| :: !Reached(points[j], block, logIndex)
    ensures ShareAt(points, block, logIndex) == points[i].share
  {
    var n := |points| - 1;
    if i < n {
      assert !Reached(points[n], block, logIndex);
      ShareMeans(points[..n], block, logIndex, i);
    }
  }

  /** Before the first update the share is zero. */
  lemma {:induction false} NoShareYet(points: seq<Point>, block: int, logIndex: int)
    requires forall i | 0 <= i < |points| :: !Reached(points[i], block, logIndex)
    ensures ShareAt(points, block, logIndex) == 0.0
  {
    if |points| > 0 {
      assert !Reached(points[|points| - 1], block, logIndex);
      NoShareYet(points[..|points| - 1], block, logIndex);
    }
  }

  /** A ticket is split by its own orchestrator's updates at its own position. */
  lemma ShareOfMeans(shares: Shares, r: Row)
    ensures r.key.orchestrator in shares ==>
      ShareOf(shares, r) == ShareAt(shares[r.key.orchestrator], r.block, r.logIndex)
    ensures r.key.orchestrator !in shares ==> ShareOf(shares, r) == 0.0
  {
  }

  // ---------------------------------------------------------------------------
  // The sums
  // ---------------------------------------------------------------------------

  datatype Currency = Native | Usd

  /** A row's face value; an unpriced row has none in USD. */
  function FaceOf(r: Row, c: Currency): real {
    match c
    case Native => r.faceNative
    case Usd => match r.faceUsd case Some(usd) => usd case None => 0.0
  }

  function FaceValues(rows: seq<Row>, c: Currency): real {
    if |rows| == 0 then 0.0 else FaceValues(rows[..|rows| - 1], c) + FaceOf(rows[|rows| - 1], c)
  }

  /** What the orchestrator keeps of a row: the face value less the fee share in force. */
  function KeptOf(shares: Shares, r: Row, c: Currency): real {
    FaceOf(r, c) * ((1000000.0 - ShareOf(shares, r)) / 1000000.0)
  }

  /** What the delegators get of it: the fee share in force. */
  function SharedOf(shares: Shares, r: Row, c: Currency): real { FaceOf(r, c) * (ShareOf(shares, r) / 1000000.0) }

  function Kept(shares: Shares, rows: seq<Row>, c: Currency): real {
    if |rows| == 0 then 0.0 else Kept(shares, rows[..|rows| - 1], c) + KeptOf(shares, rows[|rows| - 1], c)
  }

  function Shared(shares: Shares, rows: seq<Row>, c: Currency): real {
    if |rows| == 0 then 0.0 else Shared(shares, rows[..|rows| - 1], c) + SharedOf(shares, rows[|rows| - 1], c)
  }

  /** Each sum of a key's money, row by row, in both currencies. */
  lemma SumMeans(shares: Shares, rows: seq<Row>)
    ensures var m := Sum(shares, rows);
      && m.tickets == |rows| && m.usdPriced == Priced(rows)
      && m.faceNative == FaceValues(rows, Native) && m.faceUsd == FaceValues(rows, Usd)
      && m.commissionNative == Kept(shares, rows, Native) && m.commissionUsd == Kept(shares, rows, Usd)
      && m.delegatorsNative == Shared(shares, rows, Native) && m.delegatorsUsd == Shared(shares, rows, Usd)
      && (forall r | r in rows :: r.id <= m.maxId) && (m.maxId == 0 || exists r :: r in rows && r.id == m.maxId)
  {
    MoneyMeans(shares, rows);
    IdsMean(shares, rows);
    SumConserves(shares, rows);
    hide Sum, FaceValues, Kept, Shared;
  }

  lemma {:induction false} MoneyMeans(shares: Shares, rows: seq<Row>)
    ensures var m := Sum(shares, rows);
      && m.faceNative == FaceValues(rows, Native) && m.faceUsd == FaceValues(rows, Usd)
      && m.commissionNative == Kept(shares, rows, Native) && m.commissionUsd == Kept(shares, rows, Usd)
      && m.delegatorsNative == Shared(shares, rows, Native) && m.delegatorsUsd == Shared(shares, rows, Usd)
  {
    if |rows| > 0 {
      hide ShareOf, OfRow, FaceOf, KeptOf, SharedOf;
      MoneyMeans(shares, rows[..|rows| - 1]);
      RowMeans(shares, rows[|rows| - 1]);
    }
  }

  lemma {:induction false} IdsMean(shares: Shares, rows: seq<Row>)
    ensures var m := Sum(shares, rows).maxId;
      (forall r | r in rows :: r.id <= m) && (m == 0 || exists r :: r in rows && r.id == m)
  {
    if |rows| > 0 {
      hide ShareOf, OfRow;
      var n := |rows| - 1;
      IdsMean(shares, rows[..n]);
      RowMeans(shares, rows[n]);
      assert rows == rows[..n] + [rows[n]];
    }
  }

  lemma RowMeans(shares: Shares, r: Row)
    ensures var m := OfRow(shares, r);
      && m.tickets == 1 && m.faceNative == FaceOf(r, Native) && m.faceUsd == FaceOf(r, Usd) && m.maxId == r.id
      && m.commissionNative == KeptOf(shares, r, Native) && m.commissionUsd == KeptOf(shares, r, Usd)
      && m.delegatorsNative == SharedOf(shares, r, Native) && m.delegatorsUsd == SharedOf(shares, r, Usd)
      && m.usdPriced == if r.faceUsd.Some? then 1 else 0
  {
    hide ShareOf;
    SplitMeans(FaceOf(r, Native), ShareOf(shares, r));
    SplitMeans(FaceOf(r, Usd), ShareOf(shares, r));
  }

  lemma SplitMeans(amount: real, share: real)
    ensures Commission(amount, share) == amount * ((1000000.0 - share) / 1000000.0)
    ensures amount - Commission(amount, share) == amount * (share / 1000000.0)
  {
    assert (1000000.0 - share) / 1000000.0 == 1.0 - share / 1000000.0;
    assert amount * (1.0 - share / 1000000.0) == amount - amount * (share / 1000000.0);
  }

  // ---------------------------------------------------------------------------
  // The table
  // ---------------------------------------------------------------------------

  /** The rows of a key the query shows: canonical, visible and with a gateway. */
  function Paid(ledger: seq<Row>, key: Key): seq<Row> {
    if |ledger| == 0 then []
    else
      var r := ledger[|ledger| - 1];
      Paid(ledger[..|ledger| - 1], key)
      + if r.canonical && r.visible && r.gateway != None && r.key == key then [r] else []
  }

  lemma {:induction false} PaidIs(ledger: seq<Row>, key: Key)
    ensures Group(View(ledger), key) == Paid(ledger, key)
  {
    if |ledger| > 0 {
      var n := |ledger| - 1;
      PaidIs(ledger[..n], key);
      assert ledger == ledger[..n] + [ledger[n]];
      ViewSnoc(ledger[..n], ledger[n]);
      if Shown(ledger[n]) {
        GroupSnoc(View(ledger[..n]), ledger[n], key);
      } else {
        assert View(ledger[..n]) + [] == View(ledger[..n]);
      }
    }
  }

  /** The rebuild has a row for a key exactly when some row of it is paid, with the money of
      those rows and as many gateways as they name. */
  lemma BuildMeans(shares: Shares, ledger: seq<Row>, key: Key)
    ensures var paid := Paid(ledger, key);
      && (key in Build(shares, View(ledger)) <==> paid != [])
      && (key in Build(shares, View(ledger)) ==>
          && Build(shares, View(ledger))[key].money == Sum(shares, paid)
          && Build(shares, View(ledger))[key].distinctGateways == |set r | r in paid :: r.gateway|)
  {
    hide View, Sum, Paid;
    PaidIs(ledger, key);
    NoGroup(View(ledger), key);
    GroupMembers(View(ledger), key);
    hide Group;
    assert Gateways(View(ledger), key) == set r | r in Paid(ledger, key) :: r.gateway;
  }

  /** The anti-join looks for an earlier canonical row of the gateway under the same day,
      orchestrator and version, visible or not, when a gateway has one kind. */
  lemma PriorMeans(ledger: seq<Row>, r: Row)
    requires r in ledger
    requires forall a, b | a in ledger && b in ledger && a.gateway == b.gateway :: a.key.kind == b.key.kind
    ensures PriorSeen(ledger, r) <==>
      exists e :: e in ledger && e.canonical && e.id < r.id && e.gateway == r.gateway
        && e.key.day == r.key.day && e.key.orchestrator == r.key.orchestrator && e.key.version == r.key.version
  {
  }

  /** The next batch is the first visible rows above the checkpoint, up to the limit. */
  lemma BatchMeans(ledger: seq<Row>, cp: Option<int>, limit: nat)
    requires IdsInOrder(ledger) && IdsInOrder(View(ledger))
    ensures var rows := View(ledger);
      var batch := rows[Position(rows, cp)..BatchEnd(rows, cp, limit)];
      && |batch| <= limit
      && (forall r | r in batch ::
          && r in ledger && r.canonical && r.visible && r.gateway != None && (cp.Some? ==> cp.value < r.id))
      && (forall r | r in ledger && r.canonical && r.visible && r.gateway != None && (cp.Some? ==> cp.value < r.id)
          && r !in batch :: |batch| == limit && forall b | b in batch :: b.id <= r.id)
  {
    ViewRows(ledger);
    hide View, IdsInOrder;
    FirstAbove(View(ledger), cp, limit);
    hide Position, BatchEnd;
  }

  lemma FirstAbove(rows: seq<Row>, cp: Option<int>, limit: nat)
    requires IdsInOrder(rows)
    ensures var batch := rows[Position(rows, cp)..BatchEnd(rows, cp, limit)];
      && |batch| <= limit
      && (forall r | r in batch :: r in rows && (cp.Some? ==> cp.value < r.id))
      && (forall r | r in rows && (cp.Some? ==> cp.value < r.id) && r !in batch ::
          |batch| == limit && forall b | b in batch :: b.id <= r.id)
  {
    var p, q := Position(rows, cp), BatchEnd(rows, cp, limit);
    forall r | r in rows[p..q] ensures exists i :: p <= i < q && rows[i] == r { InWindow(rows, p, q, r); }
    forall r | r in rows && (cp.Some? ==> cp.value < r.id) && r !in rows[p..q]
      ensures |rows[p..q]| == limit && forall b | b in rows[p..q] :: b.id <= r.id
    {
      NoneSkipped(rows, cp, limit, r);
    }
  }

  lemma NoneSkipped(rows: seq<Row>, cp: Option<int>, limit: nat, r: Row)
    requires IdsInOrder(rows) && r in rows && (cp.Some? ==> cp.value < r.id)
    requires r !in rows[Position(rows, cp)..BatchEnd(rows, cp, limit)]
    ensures var batch := rows[Position(rows, cp)..BatchEnd(rows, cp, limit)];
      |batch| == limit && forall b | b in batch :: b.id <= r.id
  {
    var p, q := Position(rows, cp), BatchEnd(rows, cp, limit);
    var i :| 0 <= i < |rows| && rows[i] == r;
    forall j | p <= j < q ensures rows[j] in rows[p..q] { assert rows[p..q][j - p] == rows[j]; }
    assert q <= i;
    forall b | b in rows[p..q] ensures b.id <= r.id {
      InWindow(rows, p, q, b);
    }
  }

  lemma InWindow(rows: seq<Row>, p: nat, q: nat, r: Row)
    requires p <= q <= |rows| && r in rows[p..q]
    ensures exists i :: p <= i < q && rows[i] == r
  {
    var i :| 0 <= i < q - p && rows[p..q][i] == r;
    assert rows[p + i] == r;
  }

  /** The keys a repair rebuilds, in columns. */
  lemma RepairKeysMean(ledger: seq<Row>, raw: Orchestrators, daily: map<Key, Aggregate>, ids: set<int>, key: Key)
    ensures key in RepairKeys(ledger, raw, daily, ids) <==>
      || (key in daily
          && exists id :: id in ids && id in raw && raw[id] == key.orchestrator && id <= daily[key].money.maxId)
      || (exists r :: r in ledger && r.id in ids && r.key == key && r.canonical && r.visible)
  {
    assert key in CurrentKeys(ledger, ids) <==>
      exists r :: r in ledger && r.id in ids && r.key == key && r.canonical && r.visible;
  }

  // ---------------------------------------------------------------------------
  // Tables without fee-share updates
  // ---------------------------------------------------------------------------

  /** Everything goes to the orchestrator. */
  predicate AllCommission(m: Money) {
    && m.commissionNative == m.faceNative && m.delegatorsNative == 0.0
    && m.commissionUsd == m.faceUsd && m.delegatorsUsd == 0.0
  }

  predicate AllToOrchestrators(daily: map<Key, Aggregate>) { forall k | k in daily :: AllCommission(daily[k].money) }

  /** While no orchestrator has updated its fee share, every row of the table gives all of the
      face value to the orchestrator, after any runs, split or suppressed ones included. */
  lemma {:induction false} NoUpdatesNoShare(ledger: seq<Row>, limits: seq<nat>)
    requires IdsInOrder(View(ledger))
    ensures AllToOrchestrators(Runs(map[], ledger, START, limits).daily)
  {
    if |limits| > 0 {
      hide Run, View, AllToOrchestrators;
      var n := |limits| - 1;
      NoUpdatesNoShare(ledger, limits[..n]);
      RunGivesAll(ledger, Runs(map[], ledger, START, limits[..n]), limits[n]);
    }
  }

  lemma RunGivesAll(ledger: seq<Row>, s: State, limit: nat)
    requires IdsInOrder(View(ledger)) && AllToOrchestrators(s.daily)
    ensures AllToOrchestrators(Run(map[], ledger, s, limit).daily)
  {
    hide View, BatchAggregate, Position, BatchEnd, NextCheckpoint;
    var rows := View(ledger);
    var batch := rows[Position(rows, s.checkpoint)..BatchEnd(rows, s.checkpoint, limit)];
    forall k | k in KeysOf(batch) ensures AllCommission(BatchAggregate(map[], ledger, batch, k).money) {
      BatchGivesAll(ledger, batch, k);
    }
  }

  lemma BatchGivesAll(ledger: seq<Row>, batch: seq<Row>, k: Key)
    ensures AllCommission(BatchAggregate(map[], ledger, batch, k).money)
  {
    hide Group, Counted, AllCommission;
    SumGivesAll(Group(batch, k));
  }

  lemma {:induction false} SumGivesAll(rows: seq<Row>)
    ensures AllCommission(Sum(map[], rows))
  {
    if |rows| > 0 { SumGivesAll(rows[..|rows| - 1]); }
  }
}
