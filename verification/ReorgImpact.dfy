/** The rollups over the raw table as the watchers update it
    (crates/livepeer-finality-watcher/src/runner.rs, crates/livepeer-reorg-watcher/src/runner.rs).
    Neither watcher queues a mutation, so every pass finds an empty queue. */
module ReorgImpact {
  import opened SortedRows
  import opened Tickets
  import opened TicketsChanges
  import opened Wrappers
  import Finality

  // ---------------------------------------------------------------------------
  // The tickets of the raw table
  // ---------------------------------------------------------------------------

  /** A ticket with the two columns the watchers own. */
  function Stamp(row: Finality.Row, e: Event): Event {
    e.(canonical := row.canonical, finalized := row.level.Finalized?)
  }

  /** The events ingested so far. */
  function Stamped(rows: map<int, Finality.Row>, events: seq<Event>): seq<Event> {
    if |events| == 0 then []
    else
      var n := |events| - 1;
      Stamped(rows, events[..n]) + if events[n].id in rows then [Stamp(rows[events[n].id], events[n])] else []
  }

  lemma {:induction false} StampedAre(rows: map<int, Finality.Row>, events: seq<Event>)
    ensures forall e :: e in Stamped(rows, events) <==>
      exists p :: p in events && p.id in rows && e == Stamp(rows[p.id], p)
  {
    if |events| > 0 {
      hide Stamp;
      var n := |events| - 1;
      StampedAre(rows, events[..n]);
      assert events == events[..n] + [events[n]];
    }
  }

  lemma {:induction false} StampedInOrder(rows: map<int, Finality.Row>, events: seq<Event>)
    requires EventsInOrder(events)
    ensures EventsInOrder(Stamped(rows, events))
  {
    if |events| > 0 {
      var n := |events| - 1;
      StampedInOrder(rows, events[..n]);
      StampedAre(rows, events[..n]);
      var rest := Stamped(rows, events[..n]);
      forall i | 0 <= i < |rest| ensures rest[i].id < events[n].id {
        assert rest[i] in rest;
        var p :| p in events[..n] && p.id in rows && rest[i] == Stamp(rows[p.id], p);
      }
    }
  }

  /** A ticket is shown exactly when it was ingested, is canonical, names both parties, and is
      finalized unless tentative ones count. */
  lemma ShownMeans(cfg: Config, rows: map<int, Finality.Row>, events: seq<Event>, e: Event)
    requires EventsInOrder(events) && e in events
    ensures (exists r :: r in View(cfg, Stamped(rows, events)) && r.id == e.id) <==>
      && e.isTicket && e.gateway.Some? && e.orchestrator.Some?
      && e.id in rows && rows[e.id].canonical && (cfg.includeTentative || rows[e.id].level == Finality.Finalized)
  {
    StampedInOrder(rows, events);
    StampedAre(rows, events);
    ViewRows(cfg, Stamped(rows, events));
    hide View, Stamped, KeyOf, EventsInOrder;
    var shown := View(cfg, Stamped(rows, events));
    if r :| r in shown && r.id == e.id {
      var f :| f in Stamped(rows, events) && Visible(cfg, f) && r == RowOf(cfg, f);
      var p :| p in events && p.id in rows && f == Stamp(rows[p.id], p);
      OneEvent(events, p, e);
    }
    if e.id in rows {
      var f := Stamp(rows[e.id], e);
      assert f in Stamped(rows, events);
      if Visible(cfg, f) { assert RowOf(cfg, f) in shown; }
    }
  }

  lemma OneEvent(events: seq<Event>, a: Event, b: Event)
    requires EventsInOrder(events) && a in events && b in events && a.id == b.id
    ensures a == b
  {
    var i :| 0 <= i < |events| && events[i] == a;
    var j :| 0 <= j < |events| && events[j] == b;
  }

  // ---------------------------------------------------------------------------
  // Any single update
  // ---------------------------------------------------------------------------

  /** Every row stays, its finality only rises, and it stays canonical. */
  predicate Rises(before: map<int, Finality.Row>, after: map<int, Finality.Row>) {
    forall id | id in before ::
      && id in after && after[id].canonical == before[id].canonical
      && (before[id].level.Finalized? ==> after[id].level.Finalized?)
  }

  /** Rows only stop being canonical. */
  predicate Marks(before: map<int, Finality.Row>, after: map<int, Finality.Row>) {
    && before.Keys == after.Keys
    && forall id | id in before :: after[id] == before[id] || after[id] == before[id].(canonical := false)
  }

  lemma StepRisesOrMarks(s: Finality.State, step: Finality.Step)
    ensures if step.Orphan? then Marks(s.rows, Finality.Apply(s, step).rows)
      else Rises(s.rows, Finality.Apply(s, step).rows)
  {
  }

  lemma StampedRises(cfg: Config, before: map<int, Finality.Row>, after: map<int, Finality.Row>, events: seq<Event>)
    requires EventsInOrder(events) && Rises(before, after)
    ensures EventsInOrder(Stamped(before, events)) && EventsInOrder(Stamped(after, events))
    ensures Within(View(cfg, Stamped(before, events)), View(cfg, Stamped(after, events)))
  {
    StampedInOrder(before, events);
    StampedInOrder(after, events);
    StampedAre(before, events);
    StampedAre(after, events);
    ViewRows(cfg, Stamped(before, events));
    ViewRows(cfg, Stamped(after, events));
    hide View, Stamped, EventsInOrder;
    forall r | r in View(cfg, Stamped(before, events)) ensures r in View(cfg, Stamped(after, events)) {
      var e :| e in Stamped(before, events) && Visible(cfg, e) && r == RowOf(cfg, e);
      var p :| p in events && p.id in before && e == Stamp(before[p.id], p);
      var e' := Stamp(after[p.id], p);
      assert e' in Stamped(after, events) && Visible(cfg, e') && r == RowOf(cfg, e');
    }
  }

  lemma {:induction false} StampedMarks(before: map<int, Finality.Row>, after: map<int, Finality.Row>,
                                        events: seq<Event>)
    requires Marks(before, after)
    ensures Orphaned(Stamped(before, events), Stamped(after, events))
  {
    if |events| > 0 { StampedMarks(before, after, events[..|events| - 1]); }
  }

  /** Every update of the raw table, by whichever worker, only shows tickets or only hides
      them; so, with nothing queued, it leaves the next pass right if and only if it shows
      and hides none at or below the checkpoint and none fetched is suppressed. */
  lemma StepExactly(cfg: Config, events: seq<Event>, raw: Finality.State, step: Finality.Step, s: State, limit: nat)
    requires EventsInOrder(events) && EventsInOrder(Stamped(raw.rows, events))
    requires EventsInOrder(Stamped(Finality.Apply(raw, step).rows, events))
    requires Faithful(cfg, Stamped(raw.rows, events), s)
    ensures var before, after := Stamped(raw.rows, events), Stamped(Finality.Apply(raw, step).rows, events);
      Faithful(cfg, after, Pass(cfg, after, s, {}, limit)) <==>
      && Covered(cfg, before, s.checkpoint) == Covered(cfg, after, s.checkpoint)
      && NoneSuppressed(cfg, after, Position(cfg, after, s.checkpoint), BatchEnd(cfg, after, s.checkpoint, limit))
  {
    hide View, Stamped, EventsInOrder, Faithful, Pass, Covered, Position, BatchEnd, NoneSuppressed, Finality.Apply;
    var rows' := Finality.Apply(raw, step).rows;
    var before, after := Stamped(raw.rows, events), Stamped(rows', events);
    StepRisesOrMarks(raw, step);
    if step.Orphan? {
      StampedMarks(raw.rows, rows', events);
      OrphanedWithin(cfg, before, after);
    } else {
      StampedRises(cfg, raw.rows, rows', events);
    }
    UnqueuedExactly(cfg, before, after, s, limit);
  }

  // ---------------------------------------------------------------------------
  // A reorg walk
  // ---------------------------------------------------------------------------

  /** A block with a divergent row holds a visible ticket the rollup has consumed. */
  predicate WalkTakes(cfg: Config, events: seq<Event>, rows: map<int, Finality.Row>, stored: set<Finality.Stored>,
                      header: int -> Option<string>, cp: Option<int>)
  {
    exists p :: p in events && p.id in rows && Visible(cfg, Stamp(rows[p.id], p)) && cp.Some? && p.id <= cp.value
      && Finality.Diverged(stored, header, rows[p.id].block)
  }

  lemma WalkMarks(rows: map<int, Finality.Row>, stored: set<Finality.Stored>, header: int -> Option<string>)
    ensures Marks(rows, Finality.Orphaned(rows, stored, header))
  {
  }

  /** A walk of the reorg-watcher, stopped early or not, keeps the ticket table right over the
      next pass if and only if no block it orphans holds a consumed ticket, finalized or
      not, and none fetched is suppressed. */
  lemma WalkExactly(cfg: Config, events: seq<Event>, rows: map<int, Finality.Row>, stored: set<Finality.Stored>,
                    header: int -> Option<string>, s: State, limit: nat)
    requires EventsInOrder(events) && EventsInOrder(Stamped(rows, events))
    requires EventsInOrder(Stamped(Finality.Orphaned(rows, stored, header), events))
    requires Faithful(cfg, Stamped(rows, events), s)
    ensures var after := Stamped(Finality.Orphaned(rows, stored, header), events);
      Faithful(cfg, after, Pass(cfg, after, s, {}, limit)) <==>
      && !WalkTakes(cfg, events, rows, stored, header, s.checkpoint)
      && NoneSuppressed(cfg, after, Position(cfg, after, s.checkpoint), BatchEnd(cfg, after, s.checkpoint, limit))
  {
    hide View, Stamped, EventsInOrder, Faithful, Pass, Position, BatchEnd, NoneSuppressed, Finality.Orphaned,
      TakesCovered, WalkTakes;
    var rows' := Finality.Orphaned(rows, stored, header);
    WalkMarks(rows, stored, header);
    StampedMarks(rows, rows', events);
    WalkTakesIs(cfg, events, rows, stored, header, s.checkpoint);
    OrphansExactly(cfg, Stamped(rows, events), Stamped(rows', events), s, limit);
  }

  lemma {:induction false} WalkTakesIs(cfg: Config, events: seq<Event>, rows: map<int, Finality.Row>,
                                       stored: set<Finality.Stored>, header: int -> Option<string>, cp: Option<int>)
    requires var rows' := Finality.Orphaned(rows, stored, header); |Stamped(rows, events)| == |Stamped(rows', events)|
    ensures var rows' := Finality.Orphaned(rows, stored, header);
      TakesCovered(cfg, Stamped(rows, events), Stamped(rows', events), cp) <==>
      WalkTakes(cfg, events, rows, stored, header, cp)
  {
    if |events| > 0 {
      var n := |events| - 1;
      var rows' := Finality.Orphaned(rows, stored, header);
      WalkMarks(rows, stored, header);
      StampedMarks(rows, rows', events[..n]);
      WalkTakesIs(cfg, events[..n], rows, stored, header, cp);
      OneMoreTaken(cfg, events, rows, stored, header, cp);
      TakesSnoc(cfg, Stamped(rows, events[..n]), Stamped(rows', events[..n]), Stamped(rows, events),
                Stamped(rows', events), cp);
    }
  }

  /** One more event on each side. */
  lemma TakesSnoc(cfg: Config, b: seq<Event>, a: seq<Event>, before: seq<Event>, after: seq<Event>, cp: Option<int>)
    requires |b| == |a|
    requires |before| == |after| && (if |before| == |b| then before == b && after == a
      else |before| == |b| + 1 && before[..|b|] == b && after[..|b|] == a)
    ensures TakesCovered(cfg, before, after, cp) <==>
      || TakesCovered(cfg, b, a, cp)
      || (&& |before| > |b| && after[|b|] != before[|b|] && Visible(cfg, before[|b|]) && cp.Some?
          && before[|b|].id <= cp.value)
  {
    hide Visible;
    if TakesCovered(cfg, b, a, cp) {
      var i :| 0 <= i < |b| && a[i] != b[i] && Visible(cfg, b[i]) && cp.Some? && b[i].id <= cp.value;
      assert before[i] == b[i] && after[i] == a[i];
    }
    if TakesCovered(cfg, before, after, cp) {
      var i :| 0 <= i < |before| && after[i] != before[i] && Visible(cfg, before[i]) && cp.Some?
        && before[i].id <= cp.value;
      assert i < |b| ==> before[i] == b[i] && after[i] == a[i];
    }
  }

  lemma OneMoreTaken(cfg: Config, events: seq<Event>, rows: map<int, Finality.Row>, stored: set<Finality.Stored>,
                     header: int -> Option<string>, cp: Option<int>)
    requires |events| > 0
    ensures var p := events[|events| - 1];
      WalkTakes(cfg, events, rows, stored, header, cp) <==>
      || WalkTakes(cfg, events[..|events| - 1], rows, stored, header, cp)
      || (&& p.id in rows && Visible(cfg, Stamp(rows[p.id], p)) && cp.Some? && p.id <= cp.value
          && Finality.Diverged(stored, header, rows[p.id].block))
  {
    hide Visible, Finality.Diverged, Stamp;
    assert events == events[..|events| - 1] + [events[|events| - 1]];
  }

  /** The finalized ticket of block 5 is consumed; a late tentative row of the block carries
      another hash, and the walk orphans both. The ticket stays in the table. */
  lemma FinalizedTicketStays(limit: nat)
    ensures var rows := map[1 := Finality.Row(5, "a", 0, Finality.Finalized, Some(100), true),
                            2 := Finality.Fresh(5, "b", 0)];
      var walked := Finality.Orphaned(rows, Finality.StoredBlocks(rows, 10), block => Some("a"));
      var before, after := Stamped(rows, [Ticket(1, false)]), Stamped(walked, [Ticket(1, false)]);
      && EventsInOrder(before) && EventsInOrder(after)
      && var s := Run(FinalizedOnly, before, State(map[], None), 10);
      && s.daily == map[KEY := Aggregate(1, 1, 1, 1)]
      && Pass(FinalizedOnly, after, s, {}, limit) == s
      && Build(View(FinalizedOnly, after)) == map[]
  {
    hide View, Build, Run, Pass, Finality.Orphaned, Finality.StoredBlocks;
    var rows := map[1 := Finality.Row(5, "a", 0, Finality.Finalized, Some(100), true),
                    2 := Finality.Fresh(5, "b", 0)];
    var walked := Finality.Orphaned(rows, Finality.StoredBlocks(rows, 10), block => Some("a"));
    Finality.FinalizedRowOrphaned();
    WalkMarks(rows, Finality.StoredBlocks(rows, 10), block => Some("a"));
    StampedOne(rows, Ticket(1, false));
    StampedOne(walked, Ticket(1, false));
    OrphanedTicketStays(limit);
  }

  lemma StampedOne(rows: map<int, Finality.Row>, e: Event)
    requires e.id in rows
    ensures Stamped(rows, [e]) == [Stamp(rows[e.id], e)]
  {
    assert [e][..0] == [];
  }
}
