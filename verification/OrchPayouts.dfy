/** The daily orchestrator payout rollup (crates/livepeer-rollups/src/orch_payouts.rs).
    Unlike tickets, its source is one row per valuation of an event, so the LIMIT of a
    batch can fall between two rows of one event, and each row splits its face value by
    the fee share in force at the ticket's position. */
module OrchPayouts {
  import opened Checkpoints
  import opened Sets
  import opened Wrappers

  type Address = string

  const FEE_SHARE_DENOMINATOR: real := 1000000.0

  datatype Key = Key(day: int, orchestrator: Address, version: string, kind: string)

  /** One ticket event under one valuation version; `visible` is the finality filter. */
  datatype Row = Row(
    id: int,
    block: int,
    logIndex: int,
    key: Key,
    gateway: Option<Address>,
    faceNative: real,
    faceUsd: Option<real>,
    canonical: bool,
    visible: bool)

  /** The ticket query returns the row. */
  predicate Shown(r: Row) { r.canonical && r.visible && r.gateway.Some? }

  datatype Point = Point(block: int, logIndex: int, share: real)

  /** Each orchestrator's fee-share updates in position order. */
  type Shares = map<Address, seq<Point>>

  // ---------------------------------------------------------------------------
  // The fee share in force
  // ---------------------------------------------------------------------------

  predicate After(aBlock: int, aLog: int, bBlock: int, bLog: int) {
    aBlock > bBlock || (aBlock == bBlock && aLog > bLog)
  }

  predicate InOrder(points: seq<Point>) {
    forall i, j | 0 <= i < j < |points| ::
      !After(points[i].block, points[i].logIndex, points[j].block, points[j].logIndex)
  }

  /** The share of the last update at or before a position, zero before the first. */
  function ShareAt(points: seq<Point>, block: int, logIndex: int): real {
    if |points| == 0 then 0.0
    else if !After(points[|points| - 1].block, points[|points| - 1].logIndex, block, logIndex) then
      points[|points| - 1].share
    else ShareAt(points[..|points| - 1], block, logIndex)
  }

  /** The forward scan that stops at the first later update finds the same share. */
  method FeeShareRawAtBlock(points: seq<Point>, block: int, logIndex: int) returns (selected: real)
    requires InOrder(points)
    ensures selected == ShareAt(points, block, logIndex)
  {
    selected := 0.0;
    for i := 0 to |points|
      invariant selected == ShareAt(points[..i], block, logIndex)
    {
      assert points[..i + 1][..i] == points[..i];
      if After(points[i].block, points[i].logIndex, block, logIndex) {
        AllLater(points, i, block, logIndex, |points|);
        assert points[..|points|] == points;
        return;
      }
      selected := points[i].share;
    }
    assert points[..|points|] == points;
  }

  lemma {:induction false} AllLater(points: seq<Point>, i: nat, block: int, logIndex: int, n: nat)
    requires InOrder(points) && i < n <= |points| && After(points[i].block, points[i].logIndex, block, logIndex)
    ensures ShareAt(points[..n], block, logIndex) == ShareAt(points[..i], block, logIndex)
  {
    assert points[..n][..n - 1] == points[..n - 1];
    if n > i + 1 { AllLater(points, i, block, logIndex, n - 1); }
  }

  function Commission(amount: real, share: real): real {
    amount * ((FEE_SHARE_DENOMINATOR - share) / FEE_SHARE_DENOMINATOR)
  }

  /** A share within its range splits an amount into two parts of the amount. */
  lemma CommissionBounds(amount: real, share: real)
    requires 0.0 <= amount && 0.0 <= share <= FEE_SHARE_DENOMINATOR
    ensures 0.0 <= Commission(amount, share) <= amount
    ensures amount - Commission(amount, share) == amount * (share / FEE_SHARE_DENOMINATOR)
  {
    var cut := (FEE_SHARE_DENOMINATOR - share) / FEE_SHARE_DENOMINATOR;
    var rest := share / FEE_SHARE_DENOMINATOR;
    assert cut == 1.0 - rest && 0.0 <= cut <= 1.0;
    assert Commission(amount, share) == amount * cut;
    Part(amount, cut);
    assert 1.0 - cut == rest;
    assert amount * (1.0 - cut) == amount * (share / FEE_SHARE_DENOMINATOR);
  }

  lemma Part(amount: real, cut: real)
    requires 0.0 <= amount && 0.0 <= cut <= 1.0
    ensures 0.0 <= amount * cut <= amount && amount - amount * cut == amount * (1.0 - cut)
  {
    assert 0.0 <= amount * (1.0 - cut);
  }

  // ---------------------------------------------------------------------------
  // Sums
  // ---------------------------------------------------------------------------

  datatype Money = Money(
    tickets: nat,
    faceNative: real,
    faceUsd: real,
    commissionNative: real,
    commissionUsd: real,
    delegatorsNative: real,
    delegatorsUsd: real,
    usdPriced: nat,
    maxId: int)

  const NO_MONEY: Money := Money(0, 0.0, 0.0, 0.0, 0.0, 0.0, 0.0, 0, 0)

  function Plus(a: Money, b: Money): Money {
    Money(a.tickets + b.tickets, a.faceNative + b.faceNative, a.faceUsd + b.faceUsd,
          a.commissionNative + b.commissionNative, a.commissionUsd + b.commissionUsd,
          a.delegatorsNative + b.delegatorsNative, a.delegatorsUsd + b.delegatorsUsd,
          a.usdPriced + b.usdPriced, Max(a.maxId, b.maxId))
  }

  function ShareOf(shares: Shares, r: Row): real {
    if r.key.orchestrator in shares then ShareAt(shares[r.key.orchestrator], r.block, r.logIndex) else 0.0
  }

  /** What one row adds; an unpriced row adds nothing in USD. */
  function OfRow(shares: Shares, r: Row): Money {
    var share := ShareOf(shares, r);
    var c := Commission(r.faceNative, share);
    match r.faceUsd
    case None => Money(1, r.faceNative, 0.0, c, 0.0, r.faceNative - c, 0.0, 0, r.id)
    case Some(usd) =>
      var u := Commission(usd, share);
      Money(1, r.faceNative, usd, c, u, r.faceNative - c, usd - u, 1, r.id)
  }

  function Sum(shares: Shares, rows: seq<Row>): Money {
    if |rows| == 0 then NO_MONEY else Plus(Sum(shares, rows[..|rows| - 1]), OfRow(shares, rows[|rows| - 1]))
  }

  function Group(rows: seq<Row>, key: Key): seq<Row> {
    if |rows| == 0 then []
    else Group(rows[..|rows| - 1], key) + (if rows[|rows| - 1].key == key then [rows[|rows| - 1]] else [])
  }

  function Gateways(rows: seq<Row>, key: Key): set<Option<Address>> { set r | r in rows && r.key == key :: r.gateway }

  datatype Aggregate = Aggregate(money: Money, distinctGateways: nat)

  /** The true aggregate of a key. */
  function Total(shares: Shares, rows: seq<Row>, key: Key): Aggregate {
    Aggregate(Sum(shares, Group(rows, key)), |Gateways(rows, key)|)
  }

  function KeysOf(rows: seq<Row>): set<Key> { set r | r in rows :: r.key }

  /** The table rebuilt from scratch. */
  function Build(shares: Shares, rows: seq<Row>): map<Key, Aggregate> {
    map k | k in KeysOf(rows) :: Total(shares, rows, k)
  }

  /** Commission and delegators' share add up to the face value, in both currencies. */
  predicate Conserves(m: Money) {
    && m.commissionNative + m.delegatorsNative == m.faceNative
    && m.commissionUsd + m.delegatorsUsd == m.faceUsd
    && m.usdPriced <= m.tickets
  }

  function Priced(rows: seq<Row>): nat {
    if |rows| == 0 then 0 else Priced(rows[..|rows| - 1]) + if rows[|rows| - 1].faceUsd.Some? then 1 else 0
  }

  lemma {:induction false} SumConserves(shares: Shares, rows: seq<Row>)
    ensures Conserves(Sum(shares, rows))
    ensures Sum(shares, rows).tickets == |rows| && Sum(shares, rows).usdPriced == Priced(rows)
    ensures Sum(shares, rows).maxId >= 0
  {
    if |rows| > 0 {
      hide Commission, ShareOf;
      SumConserves(shares, rows[..|rows| - 1]);
    }
  }

  lemma PlusAssociates(a: Money, b: Money, c: Money)
    ensures Plus(Plus(a, b), c) == Plus(a, Plus(b, c))
  {
  }

  lemma SumSnoc(shares: Shares, rows: seq<Row>, r: Row)
    ensures Sum(shares, rows + [r]) == Plus(Sum(shares, rows), OfRow(shares, r))
  {
    assert (rows + [r])[..|rows|] == rows;
  }

  lemma {:induction false} SumConcat(shares: Shares, a: seq<Row>, b: seq<Row>)
    ensures Sum(shares, a + b) == Plus(Sum(shares, a), Sum(shares, b))
  {
    hide OfRow, Conserves, Plus, Sum;
    if |b| == 0 {
      assert a + b == a && b == [];
      NothingToAdd(shares, a);
    } else {
      var n := |b| - 1;
      SumConcat(shares, a, b[..n]);
      assert a + b == (a + b[..n]) + [b[n]] && b == b[..n] + [b[n]];
      SumSnoc(shares, a + b[..n], b[n]);
      SumSnoc(shares, b[..n], b[n]);
      PlusAssociates(Sum(shares, a), Sum(shares, b[..n]), OfRow(shares, b[n]));
    }
  }

  lemma NothingToAdd(shares: Shares, a: seq<Row>)
    ensures Plus(Sum(shares, a), Sum(shares, [])) == Sum(shares, a)
  {
    SumConserves(shares, a);
    hide Conserves, OfRow;
    SumOfNone(shares);
    PlusNothing(Sum(shares, a));
  }

  lemma SumOfNone(shares: Shares)
    ensures Sum(shares, []) == NO_MONEY
  {
  }

  lemma PlusNothing(m: Money)
    requires m.maxId >= 0
    ensures Plus(m, NO_MONEY) == m
  {
  }

  lemma {:induction false} GroupConcat(a: seq<Row>, b: seq<Row>, key: Key)
    ensures Group(a + b, key) == Group(a, key) + Group(b, key)
  {
    if |b| == 0 {
      assert a + b == a;
    } else {
      var n := |b| - 1;
      GroupConcat(a, b[..n], key);
      assert (a + b)[..|a| + n] == a + b[..n];
    }
  }

  lemma {:induction false} GroupMembers(rows: seq<Row>, key: Key)
    ensures forall r :: r in Group(rows, key) <==> r in rows && r.key == key
  {
    if |rows| > 0 {
      var n := |rows| - 1;
      GroupMembers(rows[..n], key);
      assert rows == rows[..n] + [rows[n]];
    }
  }

  lemma NoGroup(rows: seq<Row>, key: Key)
    ensures Group(rows, key) == [] <==> key !in KeysOf(rows)
    ensures key !in KeysOf(rows) ==> Gateways(rows, key) == {}
  {
    GroupMembers(rows, key);
    if Group(rows, key) != [] {
      assert Group(rows, key)[0] in Group(rows, key);
    }
  }

  // ---------------------------------------------------------------------------
  // Batches
  // ---------------------------------------------------------------------------

  /** The rows the run can see, in id order. */
  function View(ledger: seq<Row>): seq<Row> {
    if |ledger| == 0 then []
    else View(ledger[..|ledger| - 1]) + (if Shown(ledger[|ledger| - 1]) then [ledger[|ledger| - 1]] else [])
  }

  predicate IdsInOrder(rows: seq<Row>) {
    && (forall i | 0 <= i < |rows| :: rows[i].id >= 1)
    && (forall i, j | 0 <= i < j < |rows| :: rows[i].id <= rows[j].id)
  }

  lemma {:induction false} ViewRows(ledger: seq<Row>)
    requires IdsInOrder(ledger)
    ensures IdsInOrder(View(ledger))
    ensures forall r :: r in View(ledger) <==> r in ledger && Shown(r)
  {
    if |ledger| > 0 {
      var n := |ledger| - 1;
      ViewRows(ledger[..n]);
      assert ledger == ledger[..n] + [ledger[n]];
      var rest := View(ledger[..n]);
      forall i | 0 <= i < |rest| ensures rest[i].id <= ledger[n].id { assert rest[i] in rest; }
    }
  }

  /** How many rows lie at or below the checkpoint. */
  function Position(rows: seq<Row>, cp: Option<int>): (p: nat)
    requires IdsInOrder(rows)
    ensures p <= |rows|
    ensures forall i | 0 <= i < p :: cp.Some? && rows[i].id <= cp.value
    ensures forall i | p <= i < |rows| :: cp.None? || cp.value < rows[i].id
  {
    if |rows| == 0 || cp.None? then 0
    else if rows[|rows| - 1].id <= cp.value then |rows|
    else Position(rows[..|rows| - 1], cp)
  }

  function BatchEnd(rows: seq<Row>, cp: Option<int>, limit: nat): (q: nat)
    requires IdsInOrder(rows)
    ensures Position(rows, cp) <= q <= |rows|
  {
    Position(rows, cp) + Min(limit, |rows| - Position(rows, cp))
  }

  /** The anti-join finds an earlier ticket of the gateway under the key, visible or not. */
  predicate PriorSeen(ledger: seq<Row>, r: Row) {
    exists e :: e in ledger && e.canonical && e.id < r.id && e.gateway == r.gateway && e.key == r.key
  }

  predicate NewGateway(ledger: seq<Row>, before: seq<Row>, r: Row) {
    r.gateway !in Gateways(before, r.key) && !PriorSeen(ledger, r)
  }

  /** The gateways a batch adds to a key's distinct count. */
  function Counted(ledger: seq<Row>, batch: seq<Row>, key: Key): set<Option<Address>> {
    if |batch| == 0 then {}
    else
      var n := |batch| - 1;
      Counted(ledger, batch[..n], key)
        + if batch[n].key == key && NewGateway(ledger, batch[..n], batch[n]) then {batch[n].gateway} else {}
  }

  function BatchAggregate(shares: Shares, ledger: seq<Row>, batch: seq<Row>, key: Key): Aggregate {
    Aggregate(Sum(shares, Group(batch, key)), |Counted(ledger, batch, key)|)
  }

  function Add(a: Aggregate, b: Aggregate): Aggregate {
    Aggregate(Plus(a.money, b.money), a.distinctGateways + b.distinctGateways)
  }

  /** The table after a batch's upserts. */
  function ApplyBatch(shares: Shares, ledger: seq<Row>, daily: map<Key, Aggregate>, batch: seq<Row>)
    : map<Key, Aggregate>
  {
    map k | k in daily.Keys + KeysOf(batch) ::
      if k !in KeysOf(batch) then daily[k]
      else if k in daily then Add(daily[k], BatchAggregate(shares, ledger, batch, k))
      else BatchAggregate(shares, ledger, batch, k)
  }

  datatype State = State(daily: map<Key, Aggregate>, checkpoint: Option<int>)

  function NextCheckpoint(cp: Option<int>, batch: seq<Row>): Option<int> {
    var start := if cp.Some? then cp.value else 0;
    AdvanceCheckpoint(cp, if |batch| == 0 then start else Max(start, batch[|batch| - 1].id))
  }

  function Run(shares: Shares, ledger: seq<Row>, s: State, limit: nat): State
    requires IdsInOrder(View(ledger))
  {
    var rows := View(ledger);
    var batch := rows[Position(rows, s.checkpoint)..BatchEnd(rows, s.checkpoint, limit)];
    State(ApplyBatch(shares, ledger, s.daily, batch), NextCheckpoint(s.checkpoint, batch))
  }

  // ---------------------------------------------------------------------------
  // The batch that splits an event
  // ---------------------------------------------------------------------------

  /** The LIMIT falls between two rows of one event. */
  predicate Splits(rows: seq<Row>, cp: Option<int>, limit: nat)
    requires IdsInOrder(rows)
  {
    var p, q := Position(rows, cp), BatchEnd(rows, cp, limit);
    p < q < |rows| && rows[q].id == rows[q - 1].id
  }

  lemma PositionIs(rows: seq<Row>, cp: Option<int>, p: nat)
    requires IdsInOrder(rows) && p <= |rows|
    requires forall i | 0 <= i < p :: cp.Some? && rows[i].id <= cp.value
    requires forall i | p <= i < |rows| :: cp.None? || cp.value < rows[i].id
    ensures Position(rows, cp) == p
  {
    var c := Position(rows, cp);
    assert c < |rows| ==> cp.None? || cp.value < rows[c].id;
    assert p < |rows| ==> cp.None? || cp.value < rows[p].id;
    if |rows| > 0 { assert rows[0].id >= 1; }
  }

  /** The checkpoint covers exactly the fetched rows if and only if the batch does not
      split an event; otherwise it also covers rows the run never saw. */
  lemma PositionAfterRun(rows: seq<Row>, cp: Option<int>, limit: nat)
    requires IdsInOrder(rows)
    ensures var p, q := Position(rows, cp), BatchEnd(rows, cp, limit);
      var after := Position(rows, NextCheckpoint(cp, rows[p..q]));
      after >= q && (after == q <==> !Splits(rows, cp, limit))
  {
    var p, q := Position(rows, cp), BatchEnd(rows, cp, limit);
    var batch := rows[p..q];
    var next := NextCheckpoint(cp, batch);
    if p < q {
      assert batch[|batch| - 1] == rows[q - 1];
      assert next == Some(rows[q - 1].id);
      var after := Position(rows, next);
      assert q - 1 < after;
      if !Splits(rows, cp, limit) { PositionIs(rows, next, q); }
    } else {
      PositionIs(rows, next, p);
    }
  }

  // ---------------------------------------------------------------------------
  // The distinct count
  // ---------------------------------------------------------------------------

  /** An event has at most one row per valuation version. */
  predicate OneRowPerVersion(ledger: seq<Row>) {
    forall i, j | 0 <= i < j < |ledger| :: !(ledger[i].id == ledger[j].id && ledger[i].key == ledger[j].key)
  }

  lemma {:induction false} ViewOneRow(ledger: seq<Row>)
    requires OneRowPerVersion(ledger)
    ensures OneRowPerVersion(View(ledger)) && forall r | r in View(ledger) :: r in ledger
  {
    if |ledger| > 0 {
      var n := |ledger| - 1;
      ViewOneRow(ledger[..n]);
      var rest := View(ledger[..n]);
      forall i | 0 <= i < |rest| ensures !(rest[i].id == ledger[n].id && rest[i].key == ledger[n].key) {
        assert rest[i] in rest;
        var j :| 0 <= j < n && ledger[j] == rest[i];
      }
    }
  }

  /** The gateway's first visible row under its key, and the anti-join finds an earlier
      ticket all the same. */
  predicate Suppressed(ledger: seq<Row>, i: nat)
    requires i < |View(ledger)|
  {
    var rows := View(ledger);
    rows[i].gateway !in Gateways(rows[..i], rows[i].key) && PriorSeen(ledger, rows[i])
  }

  predicate NoneSuppressed(ledger: seq<Row>, lo: nat, hi: nat)
    requires hi <= |View(ledger)|
  {
    forall i | lo <= i < hi :: !Suppressed(ledger, i)
  }

  predicate KeyUnsuppressed(ledger: seq<Row>, lo: nat, hi: nat, key: Key)
    requires hi <= |View(ledger)|
  {
    forall i | lo <= i < hi && View(ledger)[i].key == key :: !Suppressed(ledger, i)
  }

  predicate Ledger(ledger: seq<Row>) { IdsInOrder(ledger) && OneRowPerVersion(ledger) }

  lemma SeenBeforeIsPrior(ledger: seq<Row>, i: nat, p: nat)
    requires Ledger(ledger) && p <= i < |View(ledger)|
    requires var rows := View(ledger); rows[i].gateway in Gateways(rows[..p], rows[i].key)
    ensures PriorSeen(ledger, View(ledger)[i])
  {
    hide View;
    var rows := View(ledger);
    ViewRows(ledger);
    ViewOneRow(ledger);
    var r :| r in rows[..p] && r.key == rows[i].key && r.gateway == rows[i].gateway;
    var j :| 0 <= j < p && rows[j] == r;
    assert rows[j] in rows;
    assert rows[j].id != rows[i].id;
  }

  lemma CountedSnoc(ledger: seq<Row>, batch: seq<Row>, r: Row, key: Key)
    ensures Counted(ledger, batch + [r], key) ==
      Counted(ledger, batch, key) + if r.key == key && NewGateway(ledger, batch, r) then {r.gateway} else {}
    ensures Gateways(batch + [r], key) == Gateways(batch, key) + if r.key == key then {r.gateway} else {}
  {
    assert (batch + [r])[..|batch|] == batch;
    assert forall x :: x in batch + [r] <==> x in batch || x == r;
  }

  lemma GatewaysConcat(a: seq<Row>, b: seq<Row>, key: Key)
    ensures Gateways(a + b, key) == Gateways(a, key) + Gateways(b, key)
  {
  }

  /** The batch counts gateways new to the key, and all of them if and only if none of the
      key's batch rows is suppressed. */
  lemma {:induction false} CountedExactly(ledger: seq<Row>, p: nat, q: nat, key: Key)
    requires Ledger(ledger) && p <= q <= |View(ledger)|
    ensures var rows := View(ledger);
      var counted, added := Counted(ledger, rows[p..q], key), Gateways(rows[p..q], key) - Gateways(rows[..p], key);
      counted <= added && (counted == added <==> KeyUnsuppressed(ledger, p, q, key))
    decreases q
  {
    hide View, Suppressed, Counted, Gateways, KeyUnsuppressed;
    var rows := View(ledger);
    if p == q {
      assert rows[p..q] == [];
      NothingCounted(ledger, p, key);
    } else {
      var n := q - 1;
      CountedExactly(ledger, p, n, key);
      OneMoreUnsuppressed(ledger, p, n, key);
      assert rows[p..q] == rows[p..n] + [rows[n]];
      CountedSnoc(ledger, rows[p..n], rows[n], key);
      if rows[n].key == key { CountedStep(ledger, p, n); }
    }
  }

  lemma NothingCounted(ledger: seq<Row>, p: nat, key: Key)
    requires p <= |View(ledger)|
    ensures Counted(ledger, [], key) == {} == Gateways([], key) && KeyUnsuppressed(ledger, p, p, key)
  {
    hide View;
  }

  lemma OneMoreUnsuppressed(ledger: seq<Row>, p: nat, n: nat, key: Key)
    requires p <= n < |View(ledger)|
    ensures KeyUnsuppressed(ledger, p, n + 1, key) <==>
      KeyUnsuppressed(ledger, p, n, key) && (View(ledger)[n].key == key ==> !Suppressed(ledger, n))
  {
    hide View, Suppressed;
  }

  lemma CountedStep(ledger: seq<Row>, p: nat, n: nat)
    requires Ledger(ledger) && p <= n < |View(ledger)|
    requires var rows := View(ledger);
      Counted(ledger, rows[p..n], rows[n].key) <= Gateways(rows[p..n], rows[n].key) - Gateways(rows[..p], rows[n].key)
    ensures var rows := View(ledger);
      var key := rows[n].key;
      var counted := Counted(ledger, rows[p..n + 1], key);
      var added := Gateways(rows[p..n + 1], key) - Gateways(rows[..p], key);
      && counted <= added
      && (counted == added <==>
          Counted(ledger, rows[p..n], key) == Gateways(rows[p..n], key) - Gateways(rows[..p], key)
            && !Suppressed(ledger, n))
  {
    hide View, Suppressed, Counted, Gateways, NewGateway, PriorSeen, Ledger;
    var rows := View(ledger);
    var r := rows[n];
    assert rows[p..n + 1] == rows[p..n] + [r];
    CountedSnoc(ledger, rows[p..n], r, r.key);
    SuppressedIs(ledger, p, n);
    if r.gateway in Gateways(rows[..p], r.key) { SeenBeforeIsPrior(ledger, n, p); }
    NewGatewayIs(ledger, rows[p..n], r);
    OneMoreName(Counted(ledger, rows[p..n], r.key), Gateways(rows[p..n], r.key), Gateways(rows[..p], r.key), r.gateway,
                PriorSeen(ledger, r), Counted(ledger, rows[p..n + 1], r.key));
  }

  lemma NewGatewayIs(ledger: seq<Row>, before: seq<Row>, r: Row)
    ensures NewGateway(ledger, before, r) <==> r.gateway !in Gateways(before, r.key) && !PriorSeen(ledger, r)
  {
  }

  lemma SuppressedIs(ledger: seq<Row>, p: nat, n: nat)
    requires p <= n < |View(ledger)|
    ensures var rows := View(ledger);
      Suppressed(ledger, n) <==>
      rows[n].gateway !in Gateways(rows[..p], rows[n].key) + Gateways(rows[p..n], rows[n].key)
        && PriorSeen(ledger, rows[n])
  {
    hide View, PriorSeen;
    var rows := View(ledger);
    assert rows[..n] == rows[..p] + rows[p..n];
    GatewaysConcat(rows[..p], rows[p..n], rows[n].key);
  }

  // ---------------------------------------------------------------------------
  // Incremental against rebuilt
  // ---------------------------------------------------------------------------

  lemma KeyExactly(shares: Shares, ledger: seq<Row>, p: nat, q: nat, key: Key)
    requires Ledger(ledger) && p <= q <= |View(ledger)|
    ensures var rows := View(ledger);
      var sum := Add(Total(shares, rows[..p], key), BatchAggregate(shares, ledger, rows[p..q], key));
      && sum.money == Total(shares, rows[..q], key).money
      && (sum == Total(shares, rows[..q], key) <==> KeyUnsuppressed(ledger, p, q, key))
  {
    hide View, Suppressed, Sum, Group, Counted, Plus, Gateways, KeyUnsuppressed;
    var rows := View(ledger);
    var done, batch := rows[..p], rows[p..q];
    assert rows[..q] == done + batch;
    GroupConcat(done, batch, key);
    SumConcat(shares, Group(done, key), Group(batch, key));
    GatewaysConcat(done, batch, key);
    CountedExactly(ledger, p, q, key);
    UnionSize(Gateways(done, key), Gateways(batch, key), Counted(ledger, batch, key));
  }

  lemma TableKey(shares: Shares, ledger: seq<Row>, p: nat, q: nat, k: Key)
    requires Ledger(ledger) && p <= q <= |View(ledger)| && k in KeysOf(View(ledger)[..q])
    ensures var rows := View(ledger);
      var next := ApplyBatch(shares, ledger, Build(shares, rows[..p]), rows[p..q]);
      && k in next
      && next[k].money == Total(shares, rows[..q], k).money
      && (next[k] == Total(shares, rows[..q], k) <==> KeyUnsuppressed(ledger, p, q, k))
  {
    hide View, Suppressed, Total, BatchAggregate, Add;
    var rows := View(ledger);
    var done, batch := rows[..p], rows[p..q];
    assert rows[..q] == done + batch;
    assert KeysOf(done + batch) == KeysOf(done) + KeysOf(batch);
    KeyExactly(shares, ledger, p, q, k);
    if k in KeysOf(batch) {
      ZeroDone(shares, done, BatchAggregate(shares, ledger, batch, k), k);
      AddKeepsIds(shares, ledger, batch, k);
    } else {
      NothingAdded(shares, ledger, done, batch, k);
      forall i | p <= i < q ensures rows[i].key != k { assert batch[i - p] == rows[i]; }
    }
  }

  lemma AddKeepsIds(shares: Shares, ledger: seq<Row>, batch: seq<Row>, k: Key)
    ensures BatchAggregate(shares, ledger, batch, k).money.maxId >= 0
  {
    SumConserves(shares, Group(batch, k));
  }

  lemma ZeroDone(shares: Shares, done: seq<Row>, added: Aggregate, k: Key)
    ensures k !in KeysOf(done) && added.money.maxId >= 0 ==> Add(Total(shares, done, k), added) == added
  {
    NoGroup(done, k);
  }

  lemma NothingAdded(shares: Shares, ledger: seq<Row>, done: seq<Row>, batch: seq<Row>, k: Key)
    requires k !in KeysOf(batch)
    ensures Total(shares, done + batch, k) == Total(shares, done, k)
  {
    NoGroup(batch, k);
    GroupConcat(done, batch, k);
    GatewaysConcat(done, batch, k);
    assert Group(done, k) + [] == Group(done, k) && Gateways(done, k) + {} == Gateways(done, k);
  }

  predicate Faithful(shares: Shares, ledger: seq<Row>, s: State)
    requires IdsInOrder(View(ledger))
  {
    s.daily == Build(shares, View(ledger)[..Position(View(ledger), s.checkpoint)])
  }

  /** Applying a batch gives the rebuild of the rows through its end if and only if none of
      its rows is suppressed; either way the money is exact for every key. */
  lemma BatchExactly(shares: Shares, ledger: seq<Row>, p: nat, q: nat)
    requires Ledger(ledger) && p <= q <= |View(ledger)|
    ensures var rows := View(ledger);
      var next := ApplyBatch(shares, ledger, Build(shares, rows[..p]), rows[p..q]);
      && next.Keys == KeysOf(rows[..q])
      && (forall k | k in next :: next[k].money == Total(shares, rows[..q], k).money)
      && (next == Build(shares, rows[..q]) <==> NoneSuppressed(ledger, p, q))
  {
    hide View, Suppressed, Total, BatchAggregate, Add, KeyUnsuppressed, NoneSuppressed, Ledger;
    var rows := View(ledger);
    var done, batch := rows[..p], rows[p..q];
    SameKeys(shares, ledger, rows, p, q);
    var next, whole := ApplyBatch(shares, ledger, Build(shares, done), batch), Build(shares, rows[..q]);
    hide ApplyBatch, KeysOf;
    forall k | k in whole.Keys
      ensures next[k].money == Total(shares, rows[..q], k).money
      ensures next[k] == whole[k] <==> KeyUnsuppressed(ledger, p, q, k)
    {
      TableKey(shares, ledger, p, q, k);
    }
    KeysUnsuppressed(ledger, p, q);
  }

  lemma SameKeys(shares: Shares, ledger: seq<Row>, rows: seq<Row>, p: nat, q: nat)
    requires p <= q <= |rows|
    ensures ApplyBatch(shares, ledger, Build(shares, rows[..p]), rows[p..q]).Keys == KeysOf(rows[..q])
  {
    hide Total, BatchAggregate, Add;
    assert rows[..q] == rows[..p] + rows[p..q];
    assert KeysOf(rows[..p] + rows[p..q]) == KeysOf(rows[..p]) + KeysOf(rows[p..q]);
  }

  lemma KeysUnsuppressed(ledger: seq<Row>, p: nat, q: nat)
    requires p <= q <= |View(ledger)|
    ensures NoneSuppressed(ledger, p, q) <==>
      forall k | k in KeysOf(View(ledger)[..q]) :: KeyUnsuppressed(ledger, p, q, k)
  {
    hide View, Suppressed;
    var rows := View(ledger);
    forall i | p <= i < q
      ensures rows[i].key in KeysOf(rows[..q])
    {
      assert rows[..q][i] == rows[i] && rows[i] in rows[..q];
    }
    if forall k | k in KeysOf(rows[..q]) :: KeyUnsuppressed(ledger, p, q, k) {
      forall i | p <= i < q ensures !Suppressed(ledger, i) { assert KeyUnsuppressed(ledger, p, q, rows[i].key); }
    }
  }

  /** The table of a longer prefix counts strictly more tickets under some key. */
  lemma LongerDiffers(shares: Shares, rows: seq<Row>, q: nat, after: nat)
    requires q < after <= |rows|
    ensures var k := rows[q].key;
      Total(shares, rows[..q], k).money.tickets < Total(shares, rows[..after], k).money.tickets
    ensures rows[q].key in KeysOf(rows[..after])
  {
    var k := rows[q].key;
    var rest := rows[q..after];
    assert rows[..after] == rows[..q] + rest;
    assert rest[0] == rows[q] && rows[q] in rest && rows[q] in rows[..after];
    GroupConcat(rows[..q], rest, k);
    GroupMembers(rest, k);
    assert rows[q] in Group(rest, k);
    SumConserves(shares, Group(rows[..q], k));
    SumConserves(shares, Group(rows[..after], k));
  }

  /** A run keeps the table equal to the rebuild of the rows its checkpoint covers if and
      only if its batch neither splits an event nor holds a suppressed row. */
  lemma RunExactly(shares: Shares, ledger: seq<Row>, s: State, limit: nat)
    requires Ledger(ledger) && IdsInOrder(View(ledger)) && Faithful(shares, ledger, s)
    ensures var rows := View(ledger);
      Faithful(shares, ledger, Run(shares, ledger, s, limit)) <==>
      && !Splits(rows, s.checkpoint, limit)
      && NoneSuppressed(ledger, Position(rows, s.checkpoint), BatchEnd(rows, s.checkpoint, limit))
  {
    hide View, Suppressed, NoneSuppressed, Total, ApplyBatch, IdsInOrder, Splits;
    var rows := View(ledger);
    var p, q := Position(rows, s.checkpoint), BatchEnd(rows, s.checkpoint, limit);
    var after := Position(rows, NextCheckpoint(s.checkpoint, rows[p..q]));
    PositionAfterRun(rows, s.checkpoint, limit);
    BatchExactly(shares, ledger, p, q);
    if Splits(rows, s.checkpoint, limit) {
      var k := rows[q].key;
      LongerDiffers(shares, rows, q, after);
      var next, whole := ApplyBatch(shares, ledger, Build(shares, rows[..p]), rows[p..q]), Build(shares, rows[..after]);
      assert k in whole && (k in next ==> next[k] != whole[k]);
    }
  }

  /** The rows a split leaves behind are never fetched again: whatever limits later runs
      use, they start past every row of the split event. */
  lemma {:induction false} SplitRowsAreLost(shares: Shares, ledger: seq<Row>, s: State, limit: nat, later: seq<nat>)
    requires IdsInOrder(View(ledger)) && Splits(View(ledger), s.checkpoint, limit)
    ensures var rows := View(ledger);
      var q := BatchEnd(rows, s.checkpoint, limit);
      rows[q].id == rows[q - 1].id
        && q < Position(rows, Runs(shares, ledger, Run(shares, ledger, s, limit), later).checkpoint)
  {
    var rows := View(ledger);
    if |later| == 0 {
      PositionAfterRun(rows, s.checkpoint, limit);
    } else {
      hide Run, View;
      var n := |later| - 1;
      SplitRowsAreLost(shares, ledger, s, limit, later[..n]);
      var before := Runs(shares, ledger, Run(shares, ledger, s, limit), later[..n]);
      PositionAfterRun(rows, before.checkpoint, later[n]);
      RunCheckpoint(shares, ledger, before, later[n]);
    }
  }

  function Runs(shares: Shares, ledger: seq<Row>, s: State, limits: seq<nat>): State
    requires IdsInOrder(View(ledger))
  {
    if |limits| == 0 then s
    else Run(shares, ledger, Runs(shares, ledger, s, limits[..|limits| - 1]), limits[|limits| - 1])
  }

  lemma RunCheckpoint(shares: Shares, ledger: seq<Row>, s: State, limit: nat)
    requires IdsInOrder(View(ledger))
    ensures var rows := View(ledger);
      Run(shares, ledger, s, limit).checkpoint ==
        NextCheckpoint(s.checkpoint, rows[Position(rows, s.checkpoint)..BatchEnd(rows, s.checkpoint, limit)])
  {
  }

  /** No run of the sequence splits an event. */
  predicate NeverSplits(shares: Shares, ledger: seq<Row>, s: State, limits: seq<nat>)
    requires IdsInOrder(View(ledger))
  {
    forall n | 0 <= n < |limits| ::
      !Splits(View(ledger), Runs(shares, ledger, s, limits[..n]).checkpoint, limits[n])
  }

  const START: State := State(map[], None)

  /** For any way of cutting the rows into batches that keep each event whole, the
      accumulated table is the rebuild of the rows consumed, distinct gateways included, and
      they are as many as the limits allow. */
  lemma {:induction false} WholeEventBatchesExact(shares: Shares, ledger: seq<Row>, limits: seq<nat>)
    requires Ledger(ledger) && IdsInOrder(View(ledger))
    requires NoneSuppressed(ledger, 0, |View(ledger)|) && NeverSplits(shares, ledger, START, limits)
    ensures Faithful(shares, ledger, Runs(shares, ledger, START, limits))
    ensures Position(View(ledger), Runs(shares, ledger, START, limits).checkpoint) ==
      Min(Asked(limits), |View(ledger)|)
  {
    hide View, Suppressed, Run, Splits, Total;
    if |limits| == 0 {
      assert View(ledger)[..0] == [] && KeysOf([]) == {};
    } else {
      var n := |limits| - 1;
      EarlierUnsplit(shares, ledger, limits);
      WholeEventBatchesExact(shares, ledger, limits[..n]);
      var before := Runs(shares, ledger, START, limits[..n]);
      RunExactly(shares, ledger, before, limits[n]);
      RunCheckpoint(shares, ledger, before, limits[n]);
      PositionAfterRun(View(ledger), before.checkpoint, limits[n]);
    }
  }

  lemma EarlierUnsplit(shares: Shares, ledger: seq<Row>, limits: seq<nat>)
    requires IdsInOrder(View(ledger)) && NeverSplits(shares, ledger, START, limits) && |limits| > 0
    ensures var n := |limits| - 1;
      && NeverSplits(shares, ledger, START, limits[..n])
      && !Splits(View(ledger), Runs(shares, ledger, START, limits[..n]).checkpoint, limits[n])
  {
    hide View, Splits, Runs;
    var fewer := limits[..|limits| - 1];
    forall n | 0 <= n < |fewer|
      ensures !Splits(View(ledger), Runs(shares, ledger, START, fewer[..n]).checkpoint, fewer[n])
    {
      assert fewer[..n] == limits[..n] && fewer[n] == limits[n];
    }
  }

  ghost predicate TableConserves(daily: map<Key, Aggregate>) { forall k | k in daily :: Conserves(daily[k].money) }

  /** Commission and delegators' share add up to the face value in every row of the table,
      over any runs, even those that split an event or are suppressed. */
  lemma {:induction false} RunsConserve(shares: Shares, ledger: seq<Row>, limits: seq<nat>)
    requires IdsInOrder(View(ledger))
    ensures TableConserves(Runs(shares, ledger, START, limits).daily)
  {
    hide Run, TableConserves, View;
    if |limits| > 0 {
      var n := |limits| - 1;
      RunsConserve(shares, ledger, limits[..n]);
      RunConserves(shares, ledger, Runs(shares, ledger, START, limits[..n]), limits[n]);
    } else {
      NothingConserves();
    }
  }

  lemma NothingConserves()
    ensures TableConserves(START.daily)
  {
  }

  lemma RunConserves(shares: Shares, ledger: seq<Row>, s: State, limit: nat)
    requires IdsInOrder(View(ledger)) && TableConserves(s.daily)
    ensures TableConserves(Run(shares, ledger, s, limit).daily)
  {
    hide View, Conserves, BatchAggregate, Add, Position, BatchEnd, NextCheckpoint;
    var rows := View(ledger);
    var batch := rows[Position(rows, s.checkpoint)..BatchEnd(rows, s.checkpoint, limit)];
    forall k | k in KeysOf(batch) ensures Conserves(BatchAggregate(shares, ledger, batch, k).money) {
      BatchConserves(shares, ledger, batch, k);
    }
    forall k | k in s.daily && k in KeysOf(batch)
      ensures Conserves(Add(s.daily[k], BatchAggregate(shares, ledger, batch, k)).money)
    {
      AddConserves(s.daily[k], BatchAggregate(shares, ledger, batch, k));
    }
  }

  lemma BatchConserves(shares: Shares, ledger: seq<Row>, batch: seq<Row>, k: Key)
    ensures Conserves(BatchAggregate(shares, ledger, batch, k).money)
  {
    hide Conserves;
    SumConserves(shares, Group(batch, k));
  }

  lemma AddConserves(a: Aggregate, b: Aggregate)
    requires Conserves(a.money) && Conserves(b.money)
    ensures Conserves(Add(a, b).money)
  {
  }

  /** One event valued under two versions, and a batch of one row. */
  const ONE: Row := Row(1, 0, 0, Key(0, "o", "a", "k"), Some("g"), 1.0, None, true, true)
  const OTHER: Row := Row(1, 0, 0, Key(0, "o", "b", "k"), Some("g"), 1.0, None, true, true)

  lemma SplitExample(shares: Shares, later: seq<nat>)
    ensures var ledger := [ONE, OTHER];
      && IdsInOrder(View(ledger)) && OTHER in View(ledger)
      && OTHER.key !in Runs(shares, ledger, Run(shares, ledger, START, 1), later).daily
  {
    var ledger := [ONE, OTHER];
    assert ledger[..1] == [ONE] && [ONE][..0] == [];
    assert View([ONE]) == [ONE] && View(ledger) == ledger;
    FirstOnly(shares, ledger);
    NothingMore(shares, ledger, Run(shares, ledger, START, 1), later);
  }

  lemma FirstOnly(shares: Shares, ledger: seq<Row>)
    requires ledger == [ONE, OTHER] && View(ledger) == ledger
    ensures var s := Run(shares, ledger, START, 1);
      Position(ledger, s.checkpoint) == 2 && OTHER.key !in s.daily
  {
    hide View, BatchAggregate;
    assert ledger[0..1] == [ONE];
    PositionIs(ledger, None, 0);
    assert OTHER.key != ONE.key by { assert "a"[0] != "b"[0]; }
    PositionIs(ledger, Some(1), 2);
  }

  lemma {:induction false} NothingMore(shares: Shares, ledger: seq<Row>, s: State, later: seq<nat>)
    requires IdsInOrder(View(ledger)) && Position(View(ledger), s.checkpoint) == |View(ledger)|
    ensures Runs(shares, ledger, s, later).daily == s.daily
    ensures Position(View(ledger), Runs(shares, ledger, s, later).checkpoint) == |View(ledger)|
  {
    if |later| > 0 {
      hide Run, View, Position, NextCheckpoint;
      var n := |later| - 1;
      NothingMore(shares, ledger, s, later[..n]);
      RunNothing(shares, ledger, Runs(shares, ledger, s, later[..n]), later[n]);
    }
  }

  lemma RunNothing(shares: Shares, ledger: seq<Row>, s: State, limit: nat)
    requires IdsInOrder(View(ledger)) && Position(View(ledger), s.checkpoint) == |View(ledger)|
    ensures var after := Run(shares, ledger, s, limit);
      after.daily == s.daily && Position(View(ledger), after.checkpoint) == |View(ledger)|
  {
    hide View, BatchAggregate;
    PositionAfterRun(View(ledger), s.checkpoint, limit);
    assert KeysOf([]) == {};
  }
}
