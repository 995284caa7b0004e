/** The payout rollup over the raw table as the watchers update it
    (crates/livepeer-finality-watcher/src/runner.rs, crates/livepeer-reorg-watcher/src/runner.rs). */
module ReorgImpactPayouts {
  import opened OrchPayouts
  import opened OrchPayoutsChanges
  import opened OrchPayoutsPasses
  import opened OrchPayoutsSchedules
  import opened ReorgImpact
  import opened SortedRows
  import opened Wrappers
  import Finality

  /** A valued row with the two columns the watchers own, seen through the finality filter. */
  function StampRow(row: Finality.Row, includeTentative: bool, r: Row): Row {
    r.(canonical := row.canonical, visible := includeTentative || row.level.Finalized?)
  }

  /** The valued rows of the events ingested so far. */
  function StampedRows(rows: map<int, Finality.Row>, includeTentative: bool, valued: seq<Row>): seq<Row> {
    if |valued| == 0 then []
    else
      var n := |valued| - 1;
      StampedRows(rows, includeTentative, valued[..n])
      + if valued[n].id in rows then [StampRow(rows[valued[n].id], includeTentative, valued[n])] else []
  }

  lemma {:induction false} StampedRowsAre(rows: map<int, Finality.Row>, includeTentative: bool, valued: seq<Row>)
    ensures forall r :: r in StampedRows(rows, includeTentative, valued) <==>
      exists v :: v in valued && v.id in rows && r == StampRow(rows[v.id], includeTentative, v)
  {
    if |valued| > 0 {
      hide StampRow;
      var n := |valued| - 1;
      StampedRowsAre(rows, includeTentative, valued[..n]);
      assert valued == valued[..n] + [valued[n]];
    }
  }

  /** A valued row is paid exactly when its event was ingested and is canonical, it names a
      gateway, and it is finalized unless tentative ones count. */
  lemma PaidMeans(rows: map<int, Finality.Row>, includeTentative: bool, valued: seq<Row>, v: Row)
    requires Ledger(valued) && v in valued
    ensures (exists r :: r in View(StampedRows(rows, includeTentative, valued)) && r.id == v.id && r.key == v.key) <==>
      && v.gateway.Some? && v.id in rows && rows[v.id].canonical
      && (includeTentative || rows[v.id].level == Finality.Finalized)
  {
    var ledger := StampedRows(rows, includeTentative, valued);
    StampedLedger(rows, includeTentative, valued);
    StampedRowsAre(rows, includeTentative, valued);
    ViewRows(ledger);
    hide View, StampedRows;
    if r :| r in View(ledger) && r.id == v.id && r.key == v.key {
      var w :| w in valued && w.id in rows && r == StampRow(rows[w.id], includeTentative, w);
      OneRow(valued, v, w);
    }
    if v.id in rows {
      var r := StampRow(rows[v.id], includeTentative, v);
      assert r in ledger;
      if Shown(r) { assert r in View(ledger); }
    }
  }

  lemma OneRow(valued: seq<Row>, a: Row, b: Row)
    requires Ledger(valued) && a in valued && b in valued && a.id == b.id && a.key == b.key
    ensures a == b
  {
    var i :| 0 <= i < |valued| && valued[i] == a;
    var j :| 0 <= j < |valued| && valued[j] == b;
  }

  lemma StampedSorted(rows: map<int, Finality.Row>, includeTentative: bool, valued: seq<Row>)
    requires Ledger(valued)
    ensures Sorted(StampedRows(rows, includeTentative, valued))
  {
    hide View, Ledger;
    StampedLedger(rows, includeTentative, valued);
    SortedIs(StampedRows(rows, includeTentative, valued));
  }

  lemma {:induction false} StampedLedger(rows: map<int, Finality.Row>, includeTentative: bool, valued: seq<Row>)
    requires Ledger(valued)
    ensures Ledger(StampedRows(rows, includeTentative, valued))
  {
    if |valued| > 0 {
      var n := |valued| - 1;
      StampedLedger(rows, includeTentative, valued[..n]);
      StampedRowsAre(rows, includeTentative, valued[..n]);
      var rest := StampedRows(rows, includeTentative, valued[..n]);
      hide StampedRows;
      forall r | r in rest ensures r.id <= valued[n].id && !(r.id == valued[n].id && r.key == valued[n].key) {
        var v :| v in valued[..n] && v.id in rows && r == StampRow(rows[v.id], includeTentative, v);
        var j :| 0 <= j < n && valued[j] == v;
      }
      StampedSnoc(rows, includeTentative, valued);
      if valued[n].id in rows { LedgerSnoc(rest, StampRow(rows[valued[n].id], includeTentative, valued[n])); }
    }
  }

  lemma StampedSnoc(rows: map<int, Finality.Row>, includeTentative: bool, valued: seq<Row>)
    requires |valued| > 0
    ensures var n := |valued| - 1;
      var rest := StampedRows(rows, includeTentative, valued[..n]);
      StampedRows(rows, includeTentative, valued) ==
      if valued[n].id in rows then rest + [StampRow(rows[valued[n].id], includeTentative, valued[n])] else rest
  {
  }

  lemma LedgerSnoc(rest: seq<Row>, r: Row)
    requires Ledger(rest) && r.id >= 1
    requires forall x | x in rest :: x.id <= r.id && !(x.id == r.id && x.key == r.key)
    ensures Ledger(rest + [r])
  {
    forall i | 0 <= i < |rest| ensures rest[i].id <= r.id && !(rest[i].id == r.id && rest[i].key == r.key) {
      assert rest[i] in rest;
    }
  }

  lemma RowsRise(before: map<int, Finality.Row>, after: map<int, Finality.Row>, includeTentative: bool,
                 valued: seq<Row>)
    requires Ledger(valued) && Rises(before, after)
    ensures Within(View(StampedRows(before, includeTentative, valued)),
                   View(StampedRows(after, includeTentative, valued)))
  {
    StampedSorted(before, includeTentative, valued);
    StampedSorted(after, includeTentative, valued);
    StampedRowsAre(before, includeTentative, valued);
    StampedRowsAre(after, includeTentative, valued);
    ViewRows(StampedRows(before, includeTentative, valued));
    ViewRows(StampedRows(after, includeTentative, valued));
    hide View, StampedRows, Ledger, IdsInOrder, OneRowPerVersion;
    var b, a := View(StampedRows(before, includeTentative, valued)), View(StampedRows(after, includeTentative, valued));
    forall r | r in b ensures r in a {
      var v :| v in valued && v.id in before && r == StampRow(before[v.id], includeTentative, v);
      assert r == StampRow(after[v.id], includeTentative, v);
    }
  }

  lemma {:induction false} RowsMarked(before: map<int, Finality.Row>, after: map<int, Finality.Row>,
                                      includeTentative: bool, valued: seq<Row>)
    requires Marks(before, after)
    ensures Orphaned(StampedRows(before, includeTentative, valued), StampedRows(after, includeTentative, valued))
  {
    if |valued| > 0 { RowsMarked(before, after, includeTentative, valued[..|valued| - 1]); }
  }

  /** Every update of the raw table, by whichever worker, only shows rows or only hides them;
      so, with nothing queued, a pass that splits no event is right if and only if the update
      shows and hides none at or below the checkpoint and none fetched is suppressed. */
  lemma StepExactly(shares: Shares, valued: seq<Row>, includeTentative: bool, table: Finality.State,
                    step: Finality.Step, raw: Orchestrators, s: State, limit: nat)
    requires Ledger(valued) && Sorted(StampedRows(table.rows, includeTentative, valued))
    requires var after := StampedRows(Finality.Apply(table, step).rows, includeTentative, valued);
      Sorted(after) && !Splits(View(after), s.checkpoint, limit)
    requires Faithful(shares, StampedRows(table.rows, includeTentative, valued), s)
    ensures var before := StampedRows(table.rows, includeTentative, valued);
      var after := StampedRows(Finality.Apply(table, step).rows, includeTentative, valued);
      var rows := View(after);
      Faithful(shares, after, Pass(shares, after, raw, s, {}, limit)) <==>
      && RestUnchanged(before, after, s.checkpoint, {})
      && NoneSuppressed(after, Position(rows, s.checkpoint), BatchEnd(rows, s.checkpoint, limit))
  {
    hide View, StampedRows, Ledger, IdsInOrder, Faithful, Pass, Position, BatchEnd, NoneSuppressed, Splits,
      Finality.Apply, RestUnchanged;
    var rows' := Finality.Apply(table, step).rows;
    var before, after :=
      StampedRows(table.rows, includeTentative, valued), StampedRows(rows', includeTentative, valued);
    StepRisesOrMarks(table, step);
    if step.Orphan? {
      RowsMarked(table.rows, rows', includeTentative, valued);
      OrphanedWithin(before, after);
    } else {
      RowsRise(table.rows, rows', includeTentative, valued);
    }
    NoRepairKeys(after, raw, s.daily);
    ChangedPassExactly(shares, before, after, raw, s, {}, limit);
  }

  /** The row's block is one the walk orphans. */
  predicate Taken(table: map<int, Finality.Row>, stored: set<Finality.Stored>, header: int -> Option<string>, r: Row) {
    r.canonical && r.id in table && Finality.Diverged(stored, header, table[r.id].block)
  }

  /** A walk of the reorg-watcher, stopped early or not, keeps the payout table right over the
      next unsplit pass if and only if it takes no consumed row and none fetched is
      suppressed. */
  lemma WalkExactly(shares: Shares, valued: seq<Row>, includeTentative: bool, table: map<int, Finality.Row>,
                    stored: set<Finality.Stored>, header: int -> Option<string>, raw: Orchestrators, s: State,
                    limit: nat)
    requires Ledger(valued) && Sorted(StampedRows(table, includeTentative, valued))
    requires var after := StampedRows(Finality.Orphaned(table, stored, header), includeTentative, valued);
      Sorted(after) && !Splits(View(after), s.checkpoint, limit)
    requires Faithful(shares, StampedRows(table, includeTentative, valued), s)
    ensures var before := StampedRows(table, includeTentative, valued);
      var after := StampedRows(Finality.Orphaned(table, stored, header), includeTentative, valued);
      var rows := View(after);
      Faithful(shares, after, Pass(shares, after, raw, s, {}, limit)) <==>
      && (forall r | r in before && Taken(table, stored, header, r) && Shown(r) ::
          s.checkpoint.None? || s.checkpoint.value < r.id)
      && NoneSuppressed(after, Position(rows, s.checkpoint), BatchEnd(rows, s.checkpoint, limit))
  {
    hide View, StampedRows, Ledger, IdsInOrder, Faithful, Pass, Position, BatchEnd, NoneSuppressed, Splits,
      Finality.Orphaned, TakesCovered;
    var table' := Finality.Orphaned(table, stored, header);
    var before, after := StampedRows(table, includeTentative, valued), StampedRows(table', includeTentative, valued);
    WalkMarks(table, stored, header);
    RowsMarked(table, table', includeTentative, valued);
    TakesIs(table, stored, header, includeTentative, valued, s.checkpoint);
    OrphansExactly(shares, before, after, raw, s, limit);
  }

  lemma TakesIs(table: map<int, Finality.Row>, stored: set<Finality.Stored>, header: int -> Option<string>,
                includeTentative: bool, valued: seq<Row>, cp: Option<int>)
    requires var table' := Finality.Orphaned(table, stored, header);
      Orphaned(StampedRows(table, includeTentative, valued), StampedRows(table', includeTentative, valued))
    ensures var before := StampedRows(table, includeTentative, valued);
      var after := StampedRows(Finality.Orphaned(table, stored, header), includeTentative, valued);
      TakesCovered(before, after, cp) <==>
      !(forall r | r in before && Taken(table, stored, header, r) && Shown(r) :: cp.None? || cp.value < r.id)
  {
    var before := StampedRows(table, includeTentative, valued);
    var after := StampedRows(Finality.Orphaned(table, stored, header), includeTentative, valued);
    forall i | 0 <= i < |before| ensures after[i] != before[i] <==> Taken(table, stored, header, before[i]) {
      MarkedIs(table, stored, header, includeTentative, valued, i);
    }
    hide Taken, Finality.Orphaned, StampedRows;
  }

  lemma {:induction false} MarkedIs(table: map<int, Finality.Row>, stored: set<Finality.Stored>,
                                    header: int -> Option<string>, includeTentative: bool, valued: seq<Row>, i: nat)
    requires i < |StampedRows(table, includeTentative, valued)|
    ensures var before := StampedRows(table, includeTentative, valued);
      var after := StampedRows(Finality.Orphaned(table, stored, header), includeTentative, valued);
      && |after| == |before|
      && (after[i] != before[i] <==> Taken(table, stored, header, before[i]))
  {
    hide Finality.Diverged;
    var n := |valued| - 1;
    var table' := Finality.Orphaned(table, stored, header);
    WalkMarks(table, stored, header);
    RowsMarked(table, table', includeTentative, valued[..n]);
    if i < |StampedRows(table, includeTentative, valued[..n])| {
      MarkedIs(table, stored, header, includeTentative, valued[..n], i);
    }
  }
}
