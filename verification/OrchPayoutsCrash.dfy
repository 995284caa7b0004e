/** A payout rollup worker that stops between its upserts and its checkpoint
    (crates/livepeer-rollups/src/orch_payouts.rs). */
module OrchPayoutsCrash {
  import opened Wrappers
  import opened OrchPayouts
  import opened OrchPayoutsPasses
  import opened OrchPayoutsRollup
  import opened OrchPayoutsSchedules
  import C = OrchPayoutsChanges

  function NextBatch(ledger: seq<Row>, cp: Option<int>, limit: nat): seq<Row>
    requires IdsInOrder(View(ledger))
  {
    View(ledger)[Position(View(ledger), cp)..BatchEnd(View(ledger), cp, limit)]
  }

  /** The next pass makes up for the key's first upsert: a queued mutation makes it rebuild the
      key, and would have all the same, or the rebuild is what the key should hold. */
  predicate Recovers(shares: Shares, later: seq<Row>, raw: Orchestrators, s: State, crashed: State, queued: set<int>,
                     limit: nat, k: Key)
    requires IdsInOrder(View(later))
  {
    var batch := NextBatch(later, s.checkpoint, limit);
    && k in RepairKeys(later, raw, crashed.daily, queued)
    && (|| k in RepairKeys(later, raw, s.daily, queued)
        || Agree(ApplyBatch(shares, later, Build(shares, View(later)), batch),
                 ApplyBatch(shares, later, s.daily, batch), k))
  }

  /** A crash after some keys were upserted and before the checkpoint moved: whatever the
      ledger has become, whatever is queued and whatever the limit, the next whole pass leaves
      what it would have without the crash if and only if it makes up for every key upserted. */
  lemma CrashExactly(shares: Shares, ledger: seq<Row>, s: State, rows: seq<Row>, aggregates: map<Key, Aggregate>,
                     done: set<Key>, later: seq<Row>, raw: Orchestrators, queued: set<int>, limit: nat)
    requires BatchFolded(shares, ledger, rows, aggregates) && done <= aggregates.Keys && IdsInOrder(View(later))
    ensures var crashed := State(Merged(s.daily, aggregates, done), s.checkpoint);
      Pass(shares, later, raw, crashed, queued, limit) == Pass(shares, later, raw, s, queued, limit) <==>
      forall k | k in done :: Recovers(shares, later, raw, s, crashed, queued, limit, k)
  {
    hide View, ApplyBatch, Merged, BatchFolded, NextCheckpoint, Repair, RepairKeys, Agree, Recovers, Build, Position,
      BatchEnd;
    var crashed := State(Merged(s.daily, aggregates, done), s.checkpoint);
    var batch := NextBatch(later, s.checkpoint, limit);
    var a := Repair(shares, later, crashed.daily, RepairKeys(later, raw, crashed.daily, queued));
    var b := Repair(shares, later, s.daily, RepairKeys(later, raw, s.daily, queued));
    forall k
      ensures Agree(ApplyBatch(shares, later, a, batch), ApplyBatch(shares, later, b, batch), k) <==>
        (k in done ==> Recovers(shares, later, raw, s, crashed, queued, limit, k))
    {
      if k in done {
        UpsertedKey(shares, ledger, s, rows, aggregates, done, later, raw, queued, limit, k);
      } else {
        OtherKey(shares, s, aggregates, done, later, raw, queued, batch, k);
      }
    }
    AgreeExactly(ApplyBatch(shares, later, a, batch), ApplyBatch(shares, later, b, batch));
  }

  lemma RepairKeysAre(ledger: seq<Row>, raw: Orchestrators, daily: map<Key, Aggregate>, ids: set<int>, k: Key)
    ensures k in RepairKeys(ledger, raw, daily, ids) <==>
      || (k in daily
          && exists id :: id in ids && id in raw && raw[id] == k.orchestrator && daily[k].money.maxId >= id)
      || k in CurrentKeys(ledger, ids)
  {
    hide CurrentKeys;
  }

  lemma OtherKey(shares: Shares, s: State, aggregates: map<Key, Aggregate>, done: set<Key>, later: seq<Row>,
                 raw: Orchestrators, queued: set<int>, batch: seq<Row>, k: Key)
    requires done <= aggregates.Keys && k !in done
    ensures var crashed := Merged(s.daily, aggregates, done);
      var a := Repair(shares, later, crashed, RepairKeys(later, raw, crashed, queued));
      var b := Repair(shares, later, s.daily, RepairKeys(later, raw, s.daily, queued));
      Agree(ApplyBatch(shares, later, a, batch), ApplyBatch(shares, later, b, batch), k)
  {
    hide View, Total, ApplyBatch, CurrentKeys;
    var crashed := Merged(s.daily, aggregates, done);
    RepairKeysAre(later, raw, crashed, queued, k);
    RepairKeysAre(later, raw, s.daily, queued, k);
    hide RepairKeys;
    AgreeBatch(shares, later, Repair(shares, later, crashed, RepairKeys(later, raw, crashed, queued)),
               Repair(shares, later, s.daily, RepairKeys(later, raw, s.daily, queued)), batch, k);
  }

  lemma UpsertedKey(shares: Shares, ledger: seq<Row>, s: State, rows: seq<Row>, aggregates: map<Key, Aggregate>,
                    done: set<Key>, later: seq<Row>, raw: Orchestrators, queued: set<int>, limit: nat, k: Key)
    requires BatchFolded(shares, ledger, rows, aggregates) && done <= aggregates.Keys && k in done
    requires IdsInOrder(View(later))
    ensures var crashed := State(Merged(s.daily, aggregates, done), s.checkpoint);
      var a := Repair(shares, later, crashed.daily, RepairKeys(later, raw, crashed.daily, queued));
      var b := Repair(shares, later, s.daily, RepairKeys(later, raw, s.daily, queued));
      var batch := NextBatch(later, s.checkpoint, limit);
      Agree(ApplyBatch(shares, later, a, batch), ApplyBatch(shares, later, b, batch), k) <==>
      Recovers(shares, later, raw, s, crashed, queued, limit, k)
  {
    hide View, ApplyBatch, Repair, RepairKeys, Agree, BatchFolded, Merged, Build, NextBatch;
    var crashed := State(Merged(s.daily, aggregates, done), s.checkpoint);
    var c, u := RepairKeys(later, raw, crashed.daily, queued), RepairKeys(later, raw, s.daily, queued);
    var a, b := Repair(shares, later, crashed.daily, c), Repair(shares, later, s.daily, u);
    var batch := NextBatch(later, s.checkpoint, limit);
    var built := Build(shares, View(later));
    FoldedCounts(shares, ledger, rows, aggregates, k);
    MoreCandidates(s.daily, aggregates, done, later, raw, queued, k);
    if k in c {
      RebuiltIs(shares, later, crashed.daily, c, k);
      AgreeBatch(shares, later, a, built, batch, k);
      if k in u {
        RebuiltIs(shares, later, s.daily, u, k);
        AgreeBatch(shares, later, b, built, batch, k);
        Transitive(ApplyBatch(shares, later, a, batch), ApplyBatch(shares, later, built, batch),
                   ApplyBatch(shares, later, b, batch), k);
      } else {
        C.NotRebuilt(shares, later, s.daily, u, k);
        AgreeBatch(shares, later, b, s.daily, batch, k);
        C.SameEntry(ApplyBatch(shares, later, a, batch), ApplyBatch(shares, later, built, batch),
                    ApplyBatch(shares, later, b, batch), k);
        SameOther(ApplyBatch(shares, later, built, batch), ApplyBatch(shares, later, b, batch),
                  ApplyBatch(shares, later, s.daily, batch), k);
      }
    } else {
      C.NotRebuilt(shares, later, crashed.daily, c, k);
      C.NotRebuilt(shares, later, s.daily, u, k);
      CountsMore(s.daily, aggregates, done, k);
      C.TicketsAfterBatch(shares, later, a, batch, k);
      C.TicketsAfterBatch(shares, later, b, batch, k);
      SameCount(a, crashed.daily, k);
      SameCount(b, s.daily, k);
      OtherCount(ApplyBatch(shares, later, a, batch), ApplyBatch(shares, later, b, batch), k);
    }
  }

  lemma MoreCandidates(daily: map<Key, Aggregate>, aggregates: map<Key, Aggregate>, done: set<Key>, later: seq<Row>,
                       raw: Orchestrators, queued: set<int>, k: Key)
    requires done <= aggregates.Keys
    ensures k in RepairKeys(later, raw, daily, queued) ==>
      k in RepairKeys(later, raw, Merged(daily, aggregates, done), queued)
  {
    RepairKeysAre(later, raw, daily, queued, k);
    RepairKeysAre(later, raw, Merged(daily, aggregates, done), queued, k);
    hide RepairKeys, CurrentKeys;
  }

  lemma RebuiltIs(shares: Shares, later: seq<Row>, daily: map<Key, Aggregate>, keys: set<Key>, k: Key)
    requires k in keys
    ensures Agree(Repair(shares, later, daily, keys), Build(shares, View(later)), k)
  {
    hide View, Total;
  }

  lemma Transitive(a: map<Key, Aggregate>, b: map<Key, Aggregate>, c: map<Key, Aggregate>, k: Key)
    requires Agree(a, b, k) && Agree(c, b, k)
    ensures Agree(a, c, k)
  {
  }

  lemma SameOther(a: map<Key, Aggregate>, b: map<Key, Aggregate>, c: map<Key, Aggregate>, k: Key)
    requires Agree(b, c, k)
    ensures Agree(a, b, k) <==> Agree(a, c, k)
  {
  }

  lemma SameCount(a: map<Key, Aggregate>, b: map<Key, Aggregate>, k: Key)
    requires Agree(a, b, k)
    ensures C.Tickets(a, k) == C.Tickets(b, k)
  {
  }

  lemma OtherCount(a: map<Key, Aggregate>, b: map<Key, Aggregate>, k: Key)
    ensures C.Tickets(a, k) != C.Tickets(b, k) ==> !Agree(a, b, k)
  {
  }

  lemma CountsMore(daily: map<Key, Aggregate>, aggregates: map<Key, Aggregate>, done: set<Key>, k: Key)
    requires done <= aggregates.Keys && k in done && aggregates[k].money.tickets >= 1
    ensures C.Tickets(Merged(daily, aggregates, done), k) > C.Tickets(daily, k)
  {
  }

  lemma FoldedCounts(shares: Shares, ledger: seq<Row>, rows: seq<Row>, aggregates: map<Key, Aggregate>, k: Key)
    requires BatchFolded(shares, ledger, rows, aggregates) && k in aggregates
    ensures aggregates[k].money.tickets >= 1
  {
    hide Sum, Group, Counted;
    NoGroup(rows, k);
    BatchTickets(shares, ledger, rows, k);
  }

  /** With nothing queued a crash is harmless only before the first upsert. */
  lemma UnqueuedCrashExactly(shares: Shares, ledger: seq<Row>, s: State, rows: seq<Row>,
                             aggregates: map<Key, Aggregate>, done: set<Key>, later: seq<Row>, raw: Orchestrators,
                             limit: nat)
    requires BatchFolded(shares, ledger, rows, aggregates) && done <= aggregates.Keys && IdsInOrder(View(later))
    ensures var crashed := State(Merged(s.daily, aggregates, done), s.checkpoint);
      Pass(shares, later, raw, crashed, {}, limit) == Pass(shares, later, raw, s, {}, limit) <==> done == {}
  {
    hide View, ApplyBatch, Merged, BatchFolded, Pass, RepairKeys, Agree, Build, NextBatch;
    var crashed := State(Merged(s.daily, aggregates, done), s.checkpoint);
    CrashExactly(shares, ledger, s, rows, aggregates, done, later, raw, {}, limit);
    NoRepairKeys(later, raw, crashed.daily);
    if done != {} {
      var k :| k in done;
      assert !Recovers(shares, later, raw, s, crashed, {}, limit, k);
    }
  }
}
