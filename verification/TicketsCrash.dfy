/** A ticket rollup worker that stops between its upserts and its checkpoint
    (crates/livepeer-rollups/src/tickets.rs). */
module TicketsCrash {
  import opened Checkpoints
  import opened Wrappers
  import opened Tickets
  import opened TicketsChanges
  import opened TicketsRollup

  /** The next pass makes up for the key's first upsert: a queued mutation makes it rebuild the
      key, and would have all the same, or the rebuild is what the key should hold. */
  predicate Recovers(cfg: Config, later: seq<Event>, s: State, crashed: State, queued: set<int>, limit: nat, k: Key)
    requires EventsInOrder(later)
  {
    ViewRows(cfg, later);
    var batch := Fetch(View(cfg, later), s.checkpoint, limit);
    && k in RepairKeys(cfg, later, crashed.daily, queued)
    && (|| k in RepairKeys(cfg, later, s.daily, queued)
        || Agree(ApplyBatch(cfg, later, Build(View(cfg, later)), batch), ApplyBatch(cfg, later, s.daily, batch), k))
  }

  /** A crash after some keys were upserted and before the checkpoint moved: whatever the raw
      table has become, whatever is queued and whatever the limit, the next whole pass leaves
      what it would have without the crash if and only if it makes up for every key upserted. */
  lemma CrashExactly(cfg: Config, events: seq<Event>, s: State, rows: seq<Row>, aggregates: map<Key, Aggregate>,
                     done: set<Key>, later: seq<Event>, queued: set<int>, limit: nat)
    requires BatchFolded(cfg, events, rows, aggregates) && done <= aggregates.Keys && EventsInOrder(later)
    ensures var crashed := State(Merged(s.daily, aggregates, done), s.checkpoint);
      Pass(cfg, later, crashed, queued, limit) == Pass(cfg, later, s, queued, limit) <==>
      forall k | k in done :: Recovers(cfg, later, s, crashed, queued, limit, k)
  {
    hide View, Fetch, ApplyBatch, Merged, BatchFolded, NextCheckpoint, Repair, RepairKeys, Agree, Recovers, Build;
    ViewRows(cfg, later);
    var crashed := State(Merged(s.daily, aggregates, done), s.checkpoint);
    var batch := Fetch(View(cfg, later), s.checkpoint, limit);
    var a := Repair(cfg, later, crashed.daily, RepairKeys(cfg, later, crashed.daily, queued));
    var b := Repair(cfg, later, s.daily, RepairKeys(cfg, later, s.daily, queued));
    RunIs(cfg, later, crashed.(daily := a), limit);
    RunIs(cfg, later, s.(daily := b), limit);
    forall k
      ensures Agree(ApplyBatch(cfg, later, a, batch), ApplyBatch(cfg, later, b, batch), k) <==>
        (k in done ==> Recovers(cfg, later, s, crashed, queued, limit, k))
    {
      if k in done {
        UpsertedKey(cfg, events, s, rows, aggregates, done, later, queued, limit, k);
      } else {
        OtherKey(cfg, s, aggregates, done, later, queued, batch, k);
      }
    }
    AgreeExactly(ApplyBatch(cfg, later, a, batch), ApplyBatch(cfg, later, b, batch));
  }

  lemma AgreeExactly(a: map<Key, Aggregate>, b: map<Key, Aggregate>)
    ensures a == b <==> forall k: Key :: Agree(a, b, k)
  {
    if forall k: Key :: Agree(a, b, k) { AgreeEverywhere(a, b); }
  }

  lemma AgreeBatch(cfg: Config, events: seq<Event>, a: map<Key, Aggregate>, b: map<Key, Aggregate>, batch: seq<Row>,
                   k: Key)
    requires Agree(a, b, k)
    ensures Agree(ApplyBatch(cfg, events, a, batch), ApplyBatch(cfg, events, b, batch), k)
  {
    hide BatchAggregate;
  }

  /** The key of some queued event as it is now. */
  predicate CurrentKey(cfg: Config, events: seq<Event>, ids: set<int>, k: Key) {
    exists e :: e in events && Visible(cfg, e) && e.id in ids && KeyOf(cfg, e) == k
  }

  lemma RepairKeysAre(cfg: Config, events: seq<Event>, daily: map<Key, Aggregate>, ids: set<int>, k: Key)
    ensures k in RepairKeys(cfg, events, daily, ids) <==>
      || (k in daily && exists id :: id in ids && daily[k].sourceMaxEventId >= id)
      || CurrentKey(cfg, events, ids, k)
  {
    hide Visible, KeyOf;
  }

  lemma OtherKey(cfg: Config, s: State, aggregates: map<Key, Aggregate>, done: set<Key>, later: seq<Event>,
                 queued: set<int>, batch: seq<Row>, k: Key)
    requires done <= aggregates.Keys && k !in done
    ensures var crashed := Merged(s.daily, aggregates, done);
      var a := Repair(cfg, later, crashed, RepairKeys(cfg, later, crashed, queued));
      var b := Repair(cfg, later, s.daily, RepairKeys(cfg, later, s.daily, queued));
      Agree(ApplyBatch(cfg, later, a, batch), ApplyBatch(cfg, later, b, batch), k)
  {
    hide View, Total, ApplyBatch, CurrentKey;
    var crashed := Merged(s.daily, aggregates, done);
    RepairKeysAre(cfg, later, crashed, queued, k);
    RepairKeysAre(cfg, later, s.daily, queued, k);
    hide RepairKeys;
    AgreeBatch(cfg, later, Repair(cfg, later, crashed, RepairKeys(cfg, later, crashed, queued)),
               Repair(cfg, later, s.daily, RepairKeys(cfg, later, s.daily, queued)), batch, k);
  }

  lemma UpsertedKey(cfg: Config, events: seq<Event>, s: State, rows: seq<Row>, aggregates: map<Key, Aggregate>,
                    done: set<Key>, later: seq<Event>, queued: set<int>, limit: nat, k: Key)
    requires BatchFolded(cfg, events, rows, aggregates) && done <= aggregates.Keys && EventsInOrder(later) && k in done
    requires RowsInOrder(View(cfg, later))
    ensures var crashed := State(Merged(s.daily, aggregates, done), s.checkpoint);
      var a := Repair(cfg, later, crashed.daily, RepairKeys(cfg, later, crashed.daily, queued));
      var b := Repair(cfg, later, s.daily, RepairKeys(cfg, later, s.daily, queued));
      var batch := Fetch(View(cfg, later), s.checkpoint, limit);
      Agree(ApplyBatch(cfg, later, a, batch), ApplyBatch(cfg, later, b, batch), k) <==>
      Recovers(cfg, later, s, crashed, queued, limit, k)
  {
    hide View, Fetch, ApplyBatch, Repair, RepairKeys, Agree, BatchFolded, Merged, Build;
    var crashed := State(Merged(s.daily, aggregates, done), s.checkpoint);
    var c, u := RepairKeys(cfg, later, crashed.daily, queued), RepairKeys(cfg, later, s.daily, queued);
    var a, b := Repair(cfg, later, crashed.daily, c), Repair(cfg, later, s.daily, u);
    var batch := Fetch(View(cfg, later), s.checkpoint, limit);
    var built := Build(View(cfg, later));
    FoldedCounts(cfg, events, rows, aggregates, k);
    MoreCandidates(cfg, s.daily, aggregates, done, later, queued, k);
    if k in c {
      RebuiltIs(cfg, later, crashed.daily, c, k);
      AgreeBatch(cfg, later, a, built, batch, k);
      if k in u {
        RebuiltIs(cfg, later, s.daily, u, k);
        AgreeBatch(cfg, later, b, built, batch, k);
        Transitive(ApplyBatch(cfg, later, a, batch), ApplyBatch(cfg, later, built, batch),
                   ApplyBatch(cfg, later, b, batch), k);
      } else {
        NotRebuilt(cfg, later, s.daily, u, k);
        AgreeBatch(cfg, later, b, s.daily, batch, k);
        SameEntry(ApplyBatch(cfg, later, a, batch), ApplyBatch(cfg, later, built, batch),
                  ApplyBatch(cfg, later, b, batch), k);
        SameOther(ApplyBatch(cfg, later, built, batch), ApplyBatch(cfg, later, b, batch),
                  ApplyBatch(cfg, later, s.daily, batch), k);
      }
    } else {
      NotRebuilt(cfg, later, crashed.daily, c, k);
      NotRebuilt(cfg, later, s.daily, u, k);
      CountsMore(s.daily, aggregates, done, k);
      CountAfterBatch(cfg, later, a, batch, k);
      CountAfterBatch(cfg, later, b, batch, k);
      SameCount(a, crashed.daily, k);
      SameCount(b, s.daily, k);
      OtherCount(ApplyBatch(cfg, later, a, batch), ApplyBatch(cfg, later, b, batch), k);
    }
  }

  lemma MoreCandidates(cfg: Config, daily: map<Key, Aggregate>, aggregates: map<Key, Aggregate>, done: set<Key>,
                       later: seq<Event>, queued: set<int>, k: Key)
    requires done <= aggregates.Keys
    ensures k in RepairKeys(cfg, later, daily, queued) ==>
      k in RepairKeys(cfg, later, Merged(daily, aggregates, done), queued)
  {
    RepairKeysAre(cfg, later, daily, queued, k);
    RepairKeysAre(cfg, later, Merged(daily, aggregates, done), queued, k);
    hide RepairKeys, CurrentKey;
  }

  lemma RebuiltIs(cfg: Config, later: seq<Event>, daily: map<Key, Aggregate>, keys: set<Key>, k: Key)
    requires k in keys
    ensures Agree(Repair(cfg, later, daily, keys), Build(View(cfg, later)), k)
  {
    hide View, Total;
  }

  lemma Transitive(a: map<Key, Aggregate>, b: map<Key, Aggregate>, c: map<Key, Aggregate>, k: Key)
    requires Agree(a, b, k) && Agree(c, b, k)
    ensures Agree(a, c, k)
  {
  }

  lemma SameOther(a: map<Key, Aggregate>, b: map<Key, Aggregate>, c: map<Key, Aggregate>, k: Key)
    requires Agree(b, c, k)
    ensures Agree(a, b, k) <==> Agree(a, c, k)
  {
  }

  lemma SameCount(a: map<Key, Aggregate>, b: map<Key, Aggregate>, k: Key)
    requires Agree(a, b, k)
    ensures Count(a, k) == Count(b, k)
  {
  }

  lemma OtherCount(a: map<Key, Aggregate>, b: map<Key, Aggregate>, k: Key)
    ensures Count(a, k) != Count(b, k) ==> !Agree(a, b, k)
  {
  }

  lemma CountsMore(daily: map<Key, Aggregate>, aggregates: map<Key, Aggregate>, done: set<Key>, k: Key)
    requires done <= aggregates.Keys && k in done && aggregates[k].ticketCount >= 1
    ensures Count(Merged(daily, aggregates, done), k) > Count(daily, k)
  {
  }

  lemma FoldedCounts(cfg: Config, events: seq<Event>, rows: seq<Row>, aggregates: map<Key, Aggregate>, k: Key)
    requires BatchFolded(cfg, events, rows, aggregates) && k in aggregates
    ensures aggregates[k].ticketCount >= 1
  {
    hide BatchAggregate;
    AtLeastOne(cfg, events, rows, k);
  }

  /** With nothing queued a crash is harmless only before the first upsert. */
  lemma UnqueuedCrashExactly(cfg: Config, events: seq<Event>, s: State, rows: seq<Row>,
                             aggregates: map<Key, Aggregate>, done: set<Key>, later: seq<Event>, limit: nat)
    requires BatchFolded(cfg, events, rows, aggregates) && done <= aggregates.Keys && EventsInOrder(later)
    ensures var crashed := State(Merged(s.daily, aggregates, done), s.checkpoint);
      Pass(cfg, later, crashed, {}, limit) == Pass(cfg, later, s, {}, limit) <==> done == {}
  {
    hide View, Fetch, ApplyBatch, Merged, BatchFolded, Pass, RepairKeys, Agree, Build;
    var crashed := State(Merged(s.daily, aggregates, done), s.checkpoint);
    CrashExactly(cfg, events, s, rows, aggregates, done, later, {}, limit);
    NothingToRepair(cfg, later, crashed.daily);
    if done != {} {
      var k :| k in done;
      assert !Recovers(cfg, later, s, crashed, {}, limit, k);
    }
  }

  /** From the empty tables: the only key is upserted, the worker crashes, and the next run
      makes one ticket count as two. */
  lemma CrashExample()
    ensures var events := [Ticket(1, true)];
      var agg := Aggregate(1, 1, 1, 1);
      && BatchFolded(FinalizedOnly, events, View(FinalizedOnly, events), map[KEY := agg])
      && Run(FinalizedOnly, events, State(Merged(map[], map[KEY := agg], {KEY}), None), 10).daily ==
        map[KEY := Aggregate(2, 2, 2, 1)]
      && Build(View(FinalizedOnly, events)) == map[KEY := agg]
  {
    hide View, Build, Run, BatchAggregate, Merged;
    var events := [Ticket(1, true)];
    var row := Row(1, KEY, "gateway", "orchestrator");
    EmptyView(FinalizedOnly);
    ViewSnoc(FinalizedOnly, [], Ticket(1, true));
    assert [] + [Ticket(1, true)] == events && View(FinalizedOnly, events) == [row];
    assert !PriorSeen(FinalizedOnly, events, row, Gateway) && !PriorSeen(FinalizedOnly, events, row, Orchestrator);
    SingleRow(FinalizedOnly, events, row);
    assert KeysOf([row]) == {KEY};
    assert Merged(map[], map[KEY := Aggregate(1, 1, 1, 1)], {KEY}) == map[KEY := Aggregate(1, 1, 1, 1)] by {
      MergedOne(Aggregate(1, 1, 1, 1));
    }
    FirstRun(FinalizedOnly, events, map[KEY := Aggregate(1, 1, 1, 1)], None, row, 10);
  }

  lemma MergedOne(agg: Aggregate)
    ensures Merged(map[], map[KEY := agg], {KEY}) == map[KEY := agg]
  {
  }
}
