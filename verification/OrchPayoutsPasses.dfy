/** Whole passes and schedules of the payout rollup
    (crates/livepeer-rollups/src/orch_payouts.rs): the reorg repair, whose candidates are
    restricted to the mutated event's orchestrator, followed by a batch that may split an
    event. */
module OrchPayoutsPasses {
  import opened Checkpoints
  import opened Wrappers
  import opened OrchPayouts

  // ---------------------------------------------------------------------------
  // Repair
  // ---------------------------------------------------------------------------

  /** The orchestrator of each raw ticket event, by id. */
  type Orchestrators = map<int, Address>

  /** Every row's key names its event's orchestrator. */
  predicate Joined(ledger: seq<Row>, raw: Orchestrators) {
    forall r | r in ledger :: r.id in raw && raw[r.id] == r.key.orchestrator
  }

  /** Table rows of a mutated event's orchestrator whose largest event id reaches the event. */
  function Candidates(raw: Orchestrators, daily: map<Key, Aggregate>, ids: set<int>): set<Key> {
    set k, id | k in daily && id in ids && id in raw && raw[id] == k.orchestrator && daily[k].money.maxId >= id :: k
  }

  /** The keys the mutated events have now, with or without a gateway. */
  function CurrentKeys(ledger: seq<Row>, ids: set<int>): set<Key> {
    set r | r in ledger && r.canonical && r.visible && r.id in ids :: r.key
  }

  /** The keys a repair rebuilds. */
  function RepairKeys(ledger: seq<Row>, raw: Orchestrators, daily: map<Key, Aggregate>, ids: set<int>): set<Key> {
    Candidates(raw, daily, ids) + CurrentKeys(ledger, ids)
  }

  /** Rebuild each of the keys over every visible row, dropping the ones without rows. */
  function Repair(shares: Shares, ledger: seq<Row>, daily: map<Key, Aggregate>, keys: set<Key>): map<Key, Aggregate> {
    var rows := View(ledger);
    map k | k in (daily.Keys - keys) + (keys * KeysOf(rows)) :: if k in keys then Total(shares, rows, k) else daily[k]
  }

  /** The ledger before and after mutations of the events with the given ids; their
      orchestrator does not change. */
  predicate MutatedOnly(before: seq<Row>, after: seq<Row>, ids: set<int>) {
    && |before| == |after|
    && forall i | 0 <= i < |before| ::
        && before[i].id == after[i].id && before[i].key.orchestrator == after[i].key.orchestrator
        && (before[i] == after[i] || before[i].id in ids)
  }

  /** The rows the checkpoint covers. */
  function Consumed(ledger: seq<Row>, cp: Option<int>): seq<Row>
    requires IdsInOrder(View(ledger))
  {
    View(ledger)[..Position(View(ledger), cp)]
  }

  /** The covered rows of a key, read off the ledger. */
  function Covered(ledger: seq<Row>, cp: Option<int>, key: Key): seq<Row> {
    if |ledger| == 0 then []
    else
      var r := ledger[|ledger| - 1];
      Covered(ledger[..|ledger| - 1], cp, key) + (if InCovered(r, cp, key) then [r] else [])
  }

  predicate InCovered(r: Row, cp: Option<int>, key: Key) { Shown(r) && r.key == key && cp.Some? && r.id <= cp.value }

  lemma ViewSnoc(ledger: seq<Row>, r: Row)
    ensures View(ledger + [r]) == View(ledger) + (if Shown(r) then [r] else [])
  {
    assert (ledger + [r])[..|ledger|] == ledger;
  }

  lemma GroupSnoc(rows: seq<Row>, r: Row, key: Key)
    ensures Group(rows + [r], key) == Group(rows, key) + (if r.key == key then [r] else [])
  {
    assert (rows + [r])[..|rows|] == rows;
  }

  lemma OrderPrefix(ledger: seq<Row>)
    requires IdsInOrder(ledger) && |ledger| > 0
    ensures IdsInOrder(ledger[..|ledger| - 1])
    ensures forall r | r in ledger :: r.id <= ledger[|ledger| - 1].id
  {
  }

  /** The rows of a key the checkpoint covers are those of the ledger at or below it. */
  lemma {:induction false} CoveredIs(ledger: seq<Row>, cp: Option<int>, key: Key)
    requires IdsInOrder(ledger) && IdsInOrder(View(ledger))
    ensures Group(View(ledger)[..Position(View(ledger), cp)], key) == Covered(ledger, cp, key)
  {
    hide View, Shown, Group, IdsInOrder;
    if |ledger| == 0 {
      NothingCovered(ledger, cp, key);
    } else {
      var n := |ledger| - 1;
      var r := ledger[n];
      OrderPrefix(ledger);
      ViewOrdered(ledger[..n]);
      CoveredIs(ledger[..n], cp, key);
      assert ledger == ledger[..n] + [r];
      ViewSnoc(ledger[..n], r);
      var before := Covered(ledger[..n], cp, key);
      assert before + [] == before && View(ledger[..n]) + [] == View(ledger[..n]);
      if Shown(r) { CutOneMore(View(ledger[..n]), r, cp, key); }
    }
  }

  lemma NothingCovered(ledger: seq<Row>, cp: Option<int>, key: Key)
    requires |ledger| == 0
    ensures View(ledger) == [] && Group([], key) == []
  {
  }

  lemma ViewOrdered(ledger: seq<Row>)
    requires IdsInOrder(ledger)
    ensures IdsInOrder(View(ledger))
  {
    ViewRows(ledger);
  }

  lemma CutOneMore(rows: seq<Row>, r: Row, cp: Option<int>, key: Key)
    requires IdsInOrder(rows) && IdsInOrder(rows + [r])
    ensures Group((rows + [r])[..Position(rows + [r], cp)], key) ==
      Group(rows[..Position(rows, cp)], key) + (if r.key == key && cp.Some? && r.id <= cp.value then [r] else [])
  {
    hide Group, IdsInOrder;
    var p := Position(rows, cp);
    var longer := rows + [r];
    PositionOneMore(rows, r, cp);
    if cp.Some? && r.id <= cp.value {
      assert longer[..|longer|] == longer && rows[..|rows|] == rows;
      GroupSnoc(rows, r, key);
      assert Group(rows, key) + [] == Group(rows, key);
    } else {
      assert longer[..p] == rows[..p];
      assert Group(rows[..p], key) + [] == Group(rows[..p], key);
    }
  }

  lemma PositionOneMore(rows: seq<Row>, r: Row, cp: Option<int>)
    requires IdsInOrder(rows) && IdsInOrder(rows + [r])
    ensures if cp.Some? && r.id <= cp.value then Position(rows + [r], cp) == |rows| + 1 && Position(rows, cp) == |rows|
      else Position(rows + [r], cp) == Position(rows, cp)
  {
    var longer := rows + [r];
    assert longer[..|rows|] == rows && longer[|rows|] == r;
    if cp.Some? && r.id <= cp.value {
      forall i | 0 <= i < |rows| ensures rows[i].id <= cp.value { assert longer[i].id <= longer[|rows|].id; }
      PositionIs(rows, cp, |rows|);
    }
  }

  lemma {:induction false} CoveredMembers(ledger: seq<Row>, cp: Option<int>, key: Key)
    ensures forall r :: r in Covered(ledger, cp, key) <==> r in ledger && InCovered(r, cp, key)
  {
    if |ledger| > 0 {
      hide InCovered;
      CoveredMembers(ledger[..|ledger| - 1], cp, key);
      assert ledger == ledger[..|ledger| - 1] + [ledger[|ledger| - 1]];
    }
  }

  /** A key none of the mutated rows belongs to, before or after, keeps its covered rows. */
  lemma {:induction false} UntouchedCovered(before: seq<Row>, after: seq<Row>, ids: set<int>, cp: Option<int>, key: Key)
    requires MutatedOnly(before, after, ids)
    requires forall r | r in before && InCovered(r, cp, key) :: r.id !in ids
    requires forall r | r in after && InCovered(r, cp, key) :: r.id !in ids
    ensures Covered(before, cp, key) == Covered(after, cp, key)
  {
    if |before| > 0 {
      hide InCovered;
      var n := |before| - 1;
      assert before[n] in before && after[n] in after;
      assert forall r | r in before[..n] :: r in before;
      assert forall r | r in after[..n] :: r in after;
      UntouchedCovered(before[..n], after[..n], ids, cp, key);
    }
  }

  lemma {:induction false} MaxIdBounds(shares: Shares, rows: seq<Row>)
    ensures forall r | r in rows :: r.id <= Sum(shares, rows).maxId
  {
    if |rows| > 0 {
      hide ShareOf, Commission;
      MaxIdBounds(shares, rows[..|rows| - 1]);
      assert rows == rows[..|rows| - 1] + [rows[|rows| - 1]];
    }
  }

  /** The candidate queries cover every key whose covered rows a mutation changed. */
  lemma RepairKeysSuffice(shares: Shares, before: seq<Row>, after: seq<Row>, raw: Orchestrators, s: State,
                          ids: set<int>, key: Key)
    requires Ledger(before) && Ledger(after) && IdsInOrder(View(before)) && IdsInOrder(View(after))
    requires MutatedOnly(before, after, ids) && Joined(before, raw) && Faithful(shares, before, s)
    requires key !in RepairKeys(after, raw, s.daily, ids)
    ensures Group(View(before)[..Position(View(before), s.checkpoint)], key) ==
      Group(View(after)[..Position(View(after), s.checkpoint)], key)
  {
    hide View, Position, Group, Sum, Gateways, RepairKeys;
    var covered := View(before)[..Position(View(before), s.checkpoint)];
    CoveredIs(before, s.checkpoint, key);
    CoveredIs(after, s.checkpoint, key);
    CoveredMembers(before, s.checkpoint, key);
    MaxIdBounds(shares, Group(covered, key));
    GroupMembers(covered, key);
    forall r | r in before && InCovered(r, s.checkpoint, key) ensures r.id !in ids {
      assert r in Group(covered, key);
      assert key in KeysOf(covered) && s.daily[key].money.maxId >= r.id;
      CandidateKey(after, raw, s.daily, ids, key, r.id);
    }
    forall r | r in after && InCovered(r, s.checkpoint, key) ensures r.id !in ids {
      CurrentKey(after, raw, s.daily, ids, r);
    }
    UntouchedCovered(before, after, ids, s.checkpoint, key);
  }

  lemma CandidateKey(ledger: seq<Row>, raw: Orchestrators, daily: map<Key, Aggregate>, ids: set<int>, key: Key, id: int)
    requires key in daily && daily[key].money.maxId >= id && id in raw && raw[id] == key.orchestrator
    ensures id in ids ==> key in RepairKeys(ledger, raw, daily, ids)
  {
  }

  lemma CurrentKey(ledger: seq<Row>, raw: Orchestrators, daily: map<Key, Aggregate>, ids: set<int>, r: Row)
    requires r in ledger && Shown(r)
    ensures r.id in ids ==> r.key in RepairKeys(ledger, raw, daily, ids)
  {
  }

  // ---------------------------------------------------------------------------
  // Passes
  // ---------------------------------------------------------------------------

  /** A whole pass: repair what the mutated events may have changed, then run one batch. */
  function Pass(shares: Shares, ledger: seq<Row>, raw: Orchestrators, s: State, ids: set<int>, limit: nat): State
    requires IdsInOrder(View(ledger))
  {
    Run(shares, ledger, s.(daily := Repair(shares, ledger, s.daily, RepairKeys(ledger, raw, s.daily, ids))), limit)
  }

  /** Two tables agree on a key. */
  predicate Agree(a: map<Key, Aggregate>, b: map<Key, Aggregate>, k: Key) {
    (k in a <==> k in b) && (k in a && k in b ==> a[k] == b[k])
  }

  lemma AgreeExactly(a: map<Key, Aggregate>, b: map<Key, Aggregate>)
    ensures a == b <==> forall k :: Agree(a, b, k)
  {
    if forall k :: Agree(a, b, k) {
      forall k ensures k in a <==> k in b { assert Agree(a, b, k); }
      assert a.Keys == b.Keys;
      forall k | k in a ensures a[k] == b[k] { assert Agree(a, b, k); }
    }
  }

  /** What a pass needs of a key, with the batch at [p, q) and the new checkpoint at q': a
      rebuilt key must have its rows consumed or passed over by the split, any other must
      lose no row to the split and have none suppressed. */
  predicate KeyComesRight(ledger: seq<Row>, p: nat, q: nat, q': nat, key: Key, rebuilt: bool)
    requires p <= q <= q' <= |View(ledger)|
  {
    var rows := View(ledger);
    if rebuilt then forall i | p <= i < |rows| && rows[i].key == key :: q <= i < q'
    else (forall i | q <= i < q' :: rows[i].key != key) && KeyUnsuppressed(ledger, p, q, key)
  }

  /** A key without rows in a range keeps its total. */
  lemma RangeExactly(shares: Shares, rows: seq<Row>, a: nat, b: nat, key: Key)
    requires a <= b <= |rows|
    ensures Total(shares, rows[..a], key).money.tickets <= Total(shares, rows[..b], key).money.tickets
    ensures Total(shares, rows[..a], key).money.tickets == |Group(rows[..a], key)|
    ensures Total(shares, rows[..b], key).money.tickets == |Group(rows[..a], key)| + |Group(rows[a..b], key)|
    ensures Group(rows[a..b], key) == [] <==> forall i | a <= i < b :: rows[i].key != key
    ensures Group(rows[a..b], key) == [] ==>
      Total(shares, rows[..a], key) == Total(shares, rows[..b], key)
        && (key in KeysOf(rows[..a]) <==> key in KeysOf(rows[..b]))
    ensures Group(rows[a..b], key) != [] ==> key in KeysOf(rows[..b])
  {
    hide Sum, Group, Gateways, KeysOf;
    RangeTickets(shares, rows, a, b, key);
    RangeEmpty(rows, a, b, key);
    if Group(rows[a..b], key) == [] {
      assert Group(rows[..a], key) + [] == Group(rows[..a], key);
      SameTotal(shares, rows[..a], rows[..b], key);
    } else {
      NoGroup(rows[..b], key);
    }
  }

  lemma RangeTickets(shares: Shares, rows: seq<Row>, a: nat, b: nat, key: Key)
    requires a <= b <= |rows|
    ensures Group(rows[..b], key) == Group(rows[..a], key) + Group(rows[a..b], key)
    ensures Total(shares, rows[..a], key).money.tickets == |Group(rows[..a], key)|
    ensures Total(shares, rows[..b], key).money.tickets == |Group(rows[..a], key)| + |Group(rows[a..b], key)|
  {
    hide Sum, Group, Gateways;
    assert rows[..b] == rows[..a] + rows[a..b];
    GroupConcat(rows[..a], rows[a..b], key);
    SumConserves(shares, Group(rows[..a], key));
    SumConserves(shares, Group(rows[..b], key));
  }

  lemma RangeEmpty(rows: seq<Row>, a: nat, b: nat, key: Key)
    requires a <= b <= |rows|
    ensures Group(rows[a..b], key) == [] <==> forall i | a <= i < b :: rows[i].key != key
  {
    hide Group, Gateways;
    NoGroup(rows[a..b], key);
    var range := rows[a..b];
    if key !in KeysOf(range) {
      forall i | a <= i < b ensures rows[i].key != key { assert range[i - a] == rows[i] && rows[i] in range; }
    } else {
      var r :| r in range && r.key == key;
      var i :| 0 <= i < |range| && range[i] == r;
      assert rows[a + i] == r;
    }
  }

  /** A rebuilt key: its table row is the total of every visible row, plus whatever the batch
      adds again. */
  lemma RebuiltComesRight(shares: Shares, ledger: seq<Row>, daily: map<Key, Aggregate>, keys: set<Key>, p: nat, q: nat,
                          q': nat, k: Key)
    requires p <= q <= q' <= |View(ledger)| && k in keys
    ensures var rows := View(ledger);
      var next := ApplyBatch(shares, ledger, Repair(shares, ledger, daily, keys), rows[p..q]);
      Agree(next, Build(shares, rows[..q']), k) <==>
      KeyComesRight(ledger, p, q, q', k, true)
  {
    hide View, Group, Gateways, KeyUnsuppressed, Sum, Counted;
    var rows := View(ledger);
    var n := |rows|;
    assert rows[..n] == rows;
    RangeExactly(shares, rows, p, q, k);
    RangeExactly(shares, rows, q', n, k);
    RangeExactly(shares, rows, q, q', k);
    NoGroup(rows[p..q], k);
    NoGroup(rows, k);
    BatchTickets(shares, ledger, rows[p..q], k);
    RowsInRanges(ledger, p, q, q', k);
    hide Total, BatchAggregate;
    assert forall r | r in rows[p..q] :: r in rows;
  }

  lemma BatchTickets(shares: Shares, ledger: seq<Row>, batch: seq<Row>, k: Key)
    ensures BatchAggregate(shares, ledger, batch, k).money.tickets == |Group(batch, k)|
  {
    SumConserves(shares, Group(batch, k));
  }

  lemma RowsInRanges(ledger: seq<Row>, p: nat, q: nat, q': nat, k: Key)
    requires p <= q <= q' <= |View(ledger)|
    ensures var rows := View(ledger);
      KeyComesRight(ledger, p, q, q', k, true) <==>
      (forall i | p <= i < q :: rows[i].key != k) && (forall i | q' <= i < |rows| :: rows[i].key != k)
  {
    hide View;
  }

  /** Any other key: its table row is the total of the rows consumed before, plus the batch. */
  lemma OtherComesRight(shares: Shares, ledger: seq<Row>, daily: map<Key, Aggregate>, p: nat, q: nat, q': nat, k: Key)
    requires Ledger(ledger) && p <= q <= q' <= |View(ledger)|
    requires Agree(daily, Build(shares, View(ledger)[..p]), k)
    ensures var rows := View(ledger);
      Agree(ApplyBatch(shares, ledger, daily, rows[p..q]), Build(shares, rows[..q']), k) <==>
      KeyComesRight(ledger, p, q, q', k, false)
  {
    hide View, Group, Gateways, Suppressed, Sum, Counted;
    var rows := View(ledger);
    var from := ApplyBatch(shares, ledger, Build(shares, rows[..p]), rows[p..q]);
    AgreeBatch(shares, ledger, daily, Build(shares, rows[..p]), rows[p..q], k);
    RangeExactly(shares, rows, q, q', k);
    if k in KeysOf(rows[..q]) {
      TableKey(shares, ledger, p, q, k);
      hide KeyUnsuppressed, Total, BatchAggregate, ApplyBatch, Ledger;
    } else {
      NoSuchRows(shares, ledger, p, q, k);
      hide KeyUnsuppressed, Total, BatchAggregate, ApplyBatch, Ledger;
    }
  }

  lemma NoSuchRows(shares: Shares, ledger: seq<Row>, p: nat, q: nat, k: Key)
    requires p <= q <= |View(ledger)| && k !in KeysOf(View(ledger)[..q])
    ensures KeyUnsuppressed(ledger, p, q, k)
    ensures k !in ApplyBatch(shares, ledger, Build(shares, View(ledger)[..p]), View(ledger)[p..q])
  {
    hide View, Suppressed, Total, BatchAggregate;
    var rows := View(ledger);
    assert rows[..q] == rows[..p] + rows[p..q];
    forall i | p <= i < q ensures rows[i].key != k { assert rows[..q][i] == rows[i] && rows[i] in rows[..q]; }
    assert forall r | r in rows[..p] :: r in rows[..q];
    assert forall r | r in rows[p..q] :: r in rows[..q];
  }

  lemma AgreeBatch(shares: Shares, ledger: seq<Row>, a: map<Key, Aggregate>, b: map<Key, Aggregate>, batch: seq<Row>,
                   k: Key)
    requires Agree(a, b, k)
    ensures Agree(ApplyBatch(shares, ledger, a, batch), ApplyBatch(shares, ledger, b, batch), k)
  {
    hide BatchAggregate;
  }

  lemma UntouchedAgrees(shares: Shares, before: seq<Row>, after: seq<Row>, s: State, keys: set<Key>, k: Key)
    requires IdsInOrder(View(before)) && IdsInOrder(View(after)) && Faithful(shares, before, s) && k !in keys
    requires Group(Consumed(before, s.checkpoint), k) == Group(Consumed(after, s.checkpoint), k)
    ensures Agree(Repair(shares, after, s.daily, keys), Build(shares, Consumed(after, s.checkpoint)), k)
  {
    hide View, Position, Group, Gateways, Sum;
    SameTotal(shares, Consumed(before, s.checkpoint), Consumed(after, s.checkpoint), k);
  }

  lemma SameTotal(shares: Shares, a: seq<Row>, b: seq<Row>, key: Key)
    requires Group(a, key) == Group(b, key)
    ensures Total(shares, a, key) == Total(shares, b, key) && (key in KeysOf(a) <==> key in KeysOf(b))
  {
    NoGroup(a, key);
    NoGroup(b, key);
    GroupMembers(a, key);
    GroupMembers(b, key);
    hide Group, Sum;
    assert forall r :: r in a && r.key == key <==> r in b && r.key == key;
    assert Gateways(a, key) == Gateways(b, key);
  }

  /** Whether the pass comes right for every key. */
  ghost predicate PassComesRight(ledger: seq<Row>, raw: Orchestrators, s: State, ids: set<int>, limit: nat)
    requires IdsInOrder(View(ledger))
  {
    var rows := View(ledger);
    var p, q := Position(rows, s.checkpoint), BatchEnd(rows, s.checkpoint, limit);
    var q' := Position(rows, NextCheckpoint(s.checkpoint, rows[p..q]));
    p <= q <= q' && forall k :: KeyComesRight(ledger, p, q, q', k, k in RepairKeys(ledger, raw, s.daily, ids))
  }

  /** No key the pass leaves alone gained, lost or changed a covered row. */
  ghost predicate RestUnchanged(before: seq<Row>, after: seq<Row>, cp: Option<int>, keys: set<Key>)
    requires IdsInOrder(View(before)) && IdsInOrder(View(after))
  {
    forall k: Key :: k !in keys ==> Group(Consumed(before, cp), k) == Group(Consumed(after, cp), k)
  }

  /** Whatever changed in the keys it rebuilds, a whole pass keeps the table equal to the
      rebuild of the rows its checkpoint covers if and only if it comes right for every key:
      rebuilt keys have no row left that this or a later batch adds again, and the others
      lose none to a split and suppress none. */
  lemma PassAfterExactly(shares: Shares, before: seq<Row>, after: seq<Row>, raw: Orchestrators, s: State,
                         queued: set<int>, limit: nat)
    requires Ledger(after) && IdsInOrder(View(before)) && IdsInOrder(View(after)) && Faithful(shares, before, s)
    requires RestUnchanged(before, after, s.checkpoint, RepairKeys(after, raw, s.daily, queued))
    ensures Faithful(shares, after, Pass(shares, after, raw, s, queued, limit)) <==>
      PassComesRight(after, raw, s, queued, limit)
  {
    hide View, RepairKeys, Repair, ApplyBatch, Build, KeyComesRight, Ledger, IdsInOrder, Agree;
    var rows := View(after);
    var keys := RepairKeys(after, raw, s.daily, queued);
    var p, q := Position(rows, s.checkpoint), BatchEnd(rows, s.checkpoint, limit);
    var q' := Position(rows, NextCheckpoint(s.checkpoint, rows[p..q]));
    PositionAfterRun(rows, s.checkpoint, limit);
    var repaired := Repair(shares, after, s.daily, keys);
    var next, whole := ApplyBatch(shares, after, repaired, rows[p..q]), Build(shares, rows[..q']);
    forall k ensures Agree(next, whole, k) <==> KeyComesRight(after, p, q, q', k, k in keys) {
      if k in keys {
        RebuiltComesRight(shares, after, s.daily, keys, p, q, q', k);
      } else {
        UntouchedAgrees(shares, before, after, s, keys, k);
        OtherComesRight(shares, after, repaired, p, q, q', k);
      }
    }
    AgreeExactly(next, whole);
  }

  /** What the queue is for: when it names every mutated event, the keys a repair leaves alone
      keep their covered rows. */
  lemma QueuedIsUnchanged(shares: Shares, before: seq<Row>, after: seq<Row>, raw: Orchestrators, s: State,
                          queued: set<int>)
    requires Ledger(before) && Ledger(after) && IdsInOrder(View(before)) && IdsInOrder(View(after))
    requires MutatedOnly(before, after, queued) && Joined(before, raw) && Faithful(shares, before, s)
    ensures RestUnchanged(before, after, s.checkpoint, RepairKeys(after, raw, s.daily, queued))
  {
    hide View, Position, RepairKeys, Build, Ledger, IdsInOrder, Group;
    forall k: Key | k !in RepairKeys(after, raw, s.daily, queued)
      ensures Group(Consumed(before, s.checkpoint), k) == Group(Consumed(after, s.checkpoint), k)
    {
      RepairKeysSuffice(shares, before, after, raw, s, queued, k);
    }
  }

  /** When every mutated event is queued, that is the exact condition of a whole pass. */
  lemma PassExactly(shares: Shares, before: seq<Row>, after: seq<Row>, raw: Orchestrators, s: State, ids: set<int>,
                    limit: nat)
    requires Ledger(before) && Ledger(after) && IdsInOrder(View(before)) && IdsInOrder(View(after))
    requires MutatedOnly(before, after, ids) && Joined(before, raw) && Faithful(shares, before, s)
    ensures Faithful(shares, after, Pass(shares, after, raw, s, ids, limit)) <==>
      PassComesRight(after, raw, s, ids, limit)
  {
    hide View, RepairKeys, Pass, Ledger, IdsInOrder, Faithful, PassComesRight, RestUnchanged;
    QueuedIsUnchanged(shares, before, after, raw, s, ids);
    PassAfterExactly(shares, before, after, raw, s, ids, limit);
  }

  /** Without a split this is the ticket rollup's condition: every rebuilt key fully consumed
      and no other key's fetched row suppressed. */
  lemma UnsplitComesRight(ledger: seq<Row>, raw: Orchestrators, s: State, ids: set<int>, limit: nat)
    requires IdsInOrder(View(ledger)) && !Splits(View(ledger), s.checkpoint, limit)
    ensures var rows, keys := View(ledger), RepairKeys(ledger, raw, s.daily, ids);
      PassComesRight(ledger, raw, s, ids, limit) <==>
      && (forall i | Position(rows, s.checkpoint) <= i < |rows| :: rows[i].key !in keys)
      && NoneSuppressed(ledger, Position(rows, s.checkpoint), BatchEnd(rows, s.checkpoint, limit))
  {
    hide View, Suppressed, RepairKeys, Splits, IdsInOrder;
    var rows, keys := View(ledger), RepairKeys(ledger, raw, s.daily, ids);
    var p, q := Position(rows, s.checkpoint), BatchEnd(rows, s.checkpoint, limit);
    PositionAfterRun(rows, s.checkpoint, limit);
    if PassComesRight(ledger, raw, s, ids, limit) {
      forall i | p <= i < |rows| ensures rows[i].key !in keys {
        assert KeyComesRight(ledger, p, q, q, rows[i].key, rows[i].key in keys);
      }
      forall i | p <= i < q ensures !Suppressed(ledger, i) {
        assert KeyComesRight(ledger, p, q, q, rows[i].key, rows[i].key in keys);
      }
    }
  }
}
