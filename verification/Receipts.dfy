/** The transaction-receipt drain (crates/livepeer-staker/src/tx_receipts.rs): each
    iteration fetches the next missing transactions at or above a block checkpoint. */
module Receipts {
  import opened Checkpoints
  import opened Wrappers

  datatype Tx = Tx(hash: string, block: nat)

  /** What the archive answers for a transaction. */
  datatype Reply = Receipt(feeWei: nat) | Null | Unreadable

  datatype State = State(stored: map<string, nat>, checkpoint: nat)

  const START: State := State(map[], 0)

  /** The distinct transactions in block order. */
  predicate Ordered(txs: seq<Tx>) {
    forall i, j | 0 <= i < j < |txs| :: txs[i].block <= txs[j].block && txs[i].hash != txs[j].hash
  }

  predicate Missing(s: State, t: Tx) { t.hash !in s.stored }

  function Eligible(txs: seq<Tx>, s: State): seq<Tx> {
    if |txs| == 0 then []
    else
      var t := txs[|txs| - 1];
      Eligible(txs[..|txs| - 1], s) + (if t.block >= s.checkpoint && Missing(s, t) then [t] else [])
  }

  function Candidates(txs: seq<Tx>, s: State, limit: nat): seq<Tx> {
    var all := Eligible(txs, s);
    all[..Min(limit, |all|)]
  }

  predicate Readable(cs: seq<Tx>, archive: string -> Reply) { forall t | t in cs :: !archive(t.hash).Unreadable? }

  /** The rows of the receipts that exist. */
  function Rows(cs: seq<Tx>, archive: string -> Reply): map<string, nat> {
    if |cs| == 0 then map[]
    else
      var t := cs[|cs| - 1];
      var before := Rows(cs[..|cs| - 1], archive);
      if archive(t.hash).Receipt? && t.hash !in before then before[t.hash := archive(t.hash).feeWei] else before
  }

  /** One iteration; an unreadable receipt aborts it before anything is written. */
  function Iterate(txs: seq<Tx>, s: State, archive: string -> Reply, limit: nat): State {
    var cs := Candidates(txs, s, limit);
    if |cs| == 0 || !Readable(cs, archive) then s
    else State(Rows(cs, archive) + s.stored, Max(s.checkpoint, cs[|cs| - 1].block))
  }

  lemma {:induction false} EligibleAre(txs: seq<Tx>, s: State)
    requires Ordered(txs)
    ensures Ordered(Eligible(txs, s))
    ensures forall t :: t in Eligible(txs, s) <==> t in txs && t.block >= s.checkpoint && Missing(s, t)
  {
    if |txs| > 0 {
      var n := |txs| - 1;
      EligibleAre(txs[..n], s);
      assert txs == txs[..n] + [txs[n]];
      var before := Eligible(txs[..n], s);
      forall i | 0 <= i < |before| ensures before[i].block <= txs[n].block && before[i].hash != txs[n].hash {
        assert before[i] in before;
        var j :| 0 <= j < n && txs[j] == before[i];
      }
    }
  }

  lemma {:induction false} RowsAre(cs: seq<Tx>, archive: string -> Reply)
    ensures forall h :: h in Rows(cs, archive) <==> (exists t :: t in cs && t.hash == h) && archive(h).Receipt?
    ensures forall h | h in Rows(cs, archive) :: Rows(cs, archive)[h] == archive(h).feeWei
  {
    if |cs| > 0 {
      var n := |cs| - 1;
      RowsAre(cs[..n], archive);
      assert cs == cs[..n] + [cs[n]];
      assert cs[n] in cs && forall t | t in cs[..n] :: t in cs;
    }
  }

  lemma PrefixIs(all: seq<Tx>, k: nat)
    requires Ordered(all) && k <= |all|
    ensures Ordered(all[..k])
    ensures forall t | t in all[..k] :: t in all && t.block <= all[k - 1].block
    ensures forall t | t in all && t !in all[..k] :: k < |all| && (k > 0 ==> all[k - 1].block <= t.block)
  {
    forall t | t in all[..k] ensures t in all && t.block <= all[k - 1].block {
      var i :| 0 <= i < k && all[..k][i] == t;
      assert all[i] == t;
    }
    forall t | t in all ensures t in all[..k] || (k < |all| && (k > 0 ==> all[k - 1].block <= t.block)) {
      var i :| 0 <= i < |all| && all[i] == t;
      if i < k { assert all[..k][i] == t; }
    }
  }

  lemma CandidatesAre(txs: seq<Tx>, s: State, limit: nat)
    requires Ordered(txs)
    ensures var cs := Candidates(txs, s, limit);
      && Ordered(cs)
      && (forall t | t in cs :: t in txs && t.block >= s.checkpoint && Missing(s, t) && t.block <= cs[|cs| - 1].block)
      && (forall t | t in txs && t.block >= s.checkpoint && Missing(s, t) && t !in cs :: |cs| > 0 || limit == 0)
      && (forall t | t in txs && t.block >= s.checkpoint && Missing(s, t) && t !in cs && |cs| > 0 ::
          cs[|cs| - 1].block <= t.block)
  {
    EligibleAre(txs, s);
    hide Eligible, Ordered;
    var all := Eligible(txs, s);
    PrefixIs(all, Min(limit, |all|));
  }

  /** Every transaction still missing is at or above the checkpoint, so it will be seen. */
  predicate NothingBehind(txs: seq<Tx>, s: State) { forall t | t in txs && Missing(s, t) :: t.block >= s.checkpoint }

  /** The candidate whose receipt does not exist and that the checkpoint passes. */
  predicate Dropped(cs: seq<Tx>, archive: string -> Reply) {
    exists t :: t in cs && archive(t.hash).Null? && t.block < cs[|cs| - 1].block
  }

  /** An iteration leaves nothing behind if and only if no candidate below its last block
      has a null receipt: a block larger than the limit is revisited, a null is not. */
  lemma IterationExactly(txs: seq<Tx>, s: State, archive: string -> Reply, limit: nat)
    requires Ordered(txs) && NothingBehind(txs, s)
    ensures var cs := Candidates(txs, s, limit);
      NothingBehind(txs, Iterate(txs, s, archive, limit)) <==> !(Readable(cs, archive) && Dropped(cs, archive))
  {
    hide Candidates, Rows, Ordered;
    var cs := Candidates(txs, s, limit);
    CandidatesAre(txs, s, limit);
    RowsAre(cs, archive);
    var after := Iterate(txs, s, archive, limit);
    if Readable(cs, archive) && Dropped(cs, archive) {
      var t :| t in cs && archive(t.hash).Null? && t.block < cs[|cs| - 1].block;
      assert t in txs && Missing(after, t) && t.block < after.checkpoint;
    } else if |cs| > 0 && Readable(cs, archive) {
      forall t | t in txs && Missing(after, t) ensures t.block >= after.checkpoint {
        assert Missing(s, t);
        if t in cs { assert t.hash !in Rows(cs, archive); assert archive(t.hash).Null?; }
      }
    }
  }

  function Hashes(txs: seq<Tx>): set<string> { set t | t in txs :: t.hash }

  function MissingHashes(txs: seq<Tx>, s: State): set<string> { set t | t in txs && Missing(s, t) :: t.hash }

  predicate AllReceipts(txs: seq<Tx>, archive: string -> Reply) { forall t | t in txs :: archive(t.hash).Receipt? }

  /** With receipts for everything, a non-empty iteration stores every candidate. */
  lemma IterationShrinks(txs: seq<Tx>, s: State, archive: string -> Reply, limit: nat)
    requires Ordered(txs) && NothingBehind(txs, s) && AllReceipts(txs, archive) && limit >= 1
    ensures var after := Iterate(txs, s, archive, limit);
      && NothingBehind(txs, after)
      && (if MissingHashes(txs, s) == {} then after == s else MissingHashes(txs, after) < MissingHashes(txs, s))
  {
    hide Candidates, Rows, Ordered;
    var cs := Candidates(txs, s, limit);
    CandidatesAre(txs, s, limit);
    RowsAre(cs, archive);
    IterationExactly(txs, s, archive, limit);
    var after := Iterate(txs, s, archive, limit);
    if |cs| > 0 {
      var t := cs[0];
      assert t in cs && t.hash in MissingHashes(txs, s);
      assert t.hash in Rows(cs, archive);
      assert t.hash !in MissingHashes(txs, after);
    }
    if MissingHashes(txs, s) != {} {
      var h :| h in MissingHashes(txs, s);
    }
  }

  function Iterations(txs: seq<Tx>, s: State, archive: string -> Reply, limit: nat, n: nat): State {
    if n == 0 then s else Iterate(txs, Iterations(txs, s, archive, limit, n - 1), archive, limit)
  }

  /** Exactly the transactions not missing are stored, with the archive's receipts. */
  predicate StoredRight(txs: seq<Tx>, archive: string -> Reply, s: State) {
    && s.stored.Keys == Hashes(txs) - MissingHashes(txs, s)
    && forall h | h in s.stored :: archive(h) == Receipt(s.stored[h])
  }

  /** For any batch limit of at least one, as many iterations as there are transactions
      end with exactly one row per transaction. */
  lemma {:induction false} DrainCompletes(txs: seq<Tx>, archive: string -> Reply, limit: nat, n: nat)
    requires Ordered(txs) && AllReceipts(txs, archive) && limit >= 1
    ensures var s := Iterations(txs, START, archive, limit, n);
      && NothingBehind(txs, s) && StoredRight(txs, archive, s)
      && |MissingHashes(txs, s)| + n <= Max(n, |Hashes(txs)|)
  {
    if n == 0 {
      assert MissingHashes(txs, START) == Hashes(txs);
    } else {
      hide Candidates, Rows, Ordered, Iterate, AllReceipts, StoredRight, NothingBehind, MissingHashes, Hashes;
      DrainCompletes(txs, archive, limit, n - 1);
      var s := Iterations(txs, START, archive, limit, n - 1);
      IterationShrinks(txs, s, archive, limit);
      IterationStores(txs, s, archive, limit);
      var a, b := MissingHashes(txs, Iterate(txs, s, archive, limit)), MissingHashes(txs, s);
      Smaller(a, b);
    }
  }

  lemma Smaller(a: set<string>, b: set<string>)
    ensures a < b ==> |a| < |b|
  {
    if a < b {
      assert b == a + (b - a);
      assert |b| == |a| + |b - a|;
      assert b - a != {};
    }
  }

  lemma IterationStores(txs: seq<Tx>, s: State, archive: string -> Reply, limit: nat)
    requires Ordered(txs) && StoredRight(txs, archive, s)
    ensures StoredRight(txs, archive, Iterate(txs, s, archive, limit))
  {
    hide Candidates, Rows, Ordered;
    CandidatesAre(txs, s, limit);
    RowsAre(Candidates(txs, s, limit), archive);
  }

  /** A transaction that appears below the checkpoint is never fetched, however often the
      drain runs. */
  lemma {:induction false} LateTransactionLost(txs: seq<Tx>, s: State, archive: string -> Reply, limit: nat, n: nat,
                                               late: Tx)
    requires Ordered(txs) && late in txs && Missing(s, late) && late.block < s.checkpoint
    ensures var after := Iterations(txs, s, archive, limit, n);
      Missing(after, late) && s.checkpoint <= after.checkpoint
  {
    if n > 0 {
      hide Iterate, Ordered, Missing;
      LateTransactionLost(txs, s, archive, limit, n - 1, late);
      LateStaysLost(txs, Iterations(txs, s, archive, limit, n - 1), archive, limit, late);
    }
  }

  lemma LateStaysLost(txs: seq<Tx>, s: State, archive: string -> Reply, limit: nat, late: Tx)
    requires Ordered(txs) && late in txs && Missing(s, late) && late.block < s.checkpoint
    ensures var after := Iterate(txs, s, archive, limit);
      Missing(after, late) && s.checkpoint <= after.checkpoint
  {
    hide Candidates, Rows, Ordered;
    var cs := Candidates(txs, s, limit);
    CandidatesAre(txs, s, limit);
    RowsAre(cs, archive);
    forall t | t in cs ensures t.hash != late.hash { SameHash(txs, t, late); }
  }

  const TWO: seq<Tx> := [Tx("a", 1), Tx("b", 2)]

  /** A null receipt below the last block of its batch: the first iteration passes it, and
      however many follow, even once the archive has the receipt, it is never stored. */
  lemma NullReceiptExample(archive: string -> Reply, later: string -> Reply, limit: nat, n: nat)
    requires archive("a") == Null && archive("b") == Receipt(7)
    ensures var s := Iterate(TWO, START, archive, 2);
      && Ordered(TWO) && NothingBehind(TWO, START)
      && s == State(map["b" := 7], 2)
      && Missing(Iterations(TWO, s, later, limit, n), Tx("a", 1))
  {
    hide Iterate, Iterations;
    assert "a"[0] != "b"[0];
    FirstIteration(archive);
    assert Tx("a", 1) == TWO[0] && Tx("a", 1) in TWO;
    LateTransactionLost(TWO, State(map["b" := 7], 2), later, limit, n, Tx("a", 1));
  }

  lemma FirstIteration(archive: string -> Reply)
    requires archive("a") == Null && archive("b") == Receipt(7)
    ensures Iterate(TWO, START, archive, 2) == State(map["b" := 7], 2)
  {
    BothEligible();
    hide Eligible, Rows;
    assert TWO[..2] == TWO;
    assert Candidates(TWO, START, 2) == TWO;
    RowsOfTwo(archive);
    assert map["b" := 7] + map[] == map["b" := 7];
  }

  lemma BothEligible()
    ensures Eligible(TWO, START) == TWO
  {
    assert TWO[..1] == [Tx("a", 1)] && [Tx("a", 1)][..0] == [];
    assert Eligible([Tx("a", 1)], START) == [Tx("a", 1)];
  }

  lemma RowsOfTwo(archive: string -> Reply)
    requires archive("a") == Null && archive("b") == Receipt(7)
    ensures Rows(TWO, archive) == map["b" := 7]
  {
    assert TWO[..1] == [Tx("a", 1)] && [Tx("a", 1)][..0] == [];
    assert Rows([Tx("a", 1)], archive) == map[];
  }

  lemma SameHash(txs: seq<Tx>, a: Tx, b: Tx)
    requires Ordered(txs) && a in txs && b in txs
    ensures a.hash == b.hash ==> a == b
  {
    var i :| 0 <= i < |txs| && txs[i] == a;
    var j :| 0 <= j < |txs| && txs[j] == b;
  }

  /** How many of the receipts do not exist. */
  function Nulls(cs: seq<Tx>, archive: string -> Reply): nat {
    if |cs| == 0 then 0 else Nulls(cs[..|cs| - 1], archive) + if archive(cs[|cs| - 1].hash).Null? then 1 else 0
  }

  lemma RowsSnoc(cs: seq<Tx>, archive: string -> Reply, i: nat)
    requires i < |cs|
    ensures var before := Rows(cs[..i], archive);
      Rows(cs[..i + 1], archive) ==
      if archive(cs[i].hash).Receipt? && cs[i].hash !in before then before[cs[i].hash := archive(cs[i].hash).feeWei]
      else before
    ensures Nulls(cs[..i + 1], archive) == Nulls(cs[..i], archive) + if archive(cs[i].hash).Null? then 1 else 0
  {
    assert cs[..i + 1][..i] == cs[..i];
  }

  class Worker {
    var txs: seq<Tx>
    var stored: map<string, nat>
    var checkpoint: nat

    constructor (txs: seq<Tx>)
      ensures this.txs == txs && State(stored, checkpoint) == START
    {
      this.txs, stored, checkpoint := txs, map[], 0;
    }

    /** One iteration: fetch, skip null receipts, insert, advance. */
    method RunIteration(archive: string -> Reply, limit: nat) returns (ok: bool, rowsWritten: nat, skipped: nat)
      modifies this`stored, this`checkpoint
      ensures State(stored, checkpoint) == Iterate(txs, State(old(stored), old(checkpoint)), archive, limit)
      ensures ok == Readable(Candidates(txs, State(old(stored), old(checkpoint)), limit), archive)
      ensures rowsWritten == |stored| - |old(stored)|
      ensures ok ==> skipped == Nulls(Candidates(txs, State(old(stored), old(checkpoint)), limit), archive)
    {
      hide Candidates, Rows, Nulls, Iterate, Readable;
      rowsWritten, skipped := 0, 0;
      var candidates := Candidates(txs, State(stored, checkpoint), limit);
      IterateIs(txs, State(stored, checkpoint), archive, limit);
      if |candidates| == 0 { return true, 0, 0; }
      var rows;
      ok, rows, skipped := FetchReceipts(candidates, archive);
      if !ok { return; }
      InsertGrows(rows, stored);
      rowsWritten := |rows + stored| - |stored|;
      stored := rows + stored;
      checkpoint := Max(checkpoint, candidates[|candidates| - 1].block);
    }

    /** The receipts of a batch in order, stopping at the first that cannot be read. */
    method FetchReceipts(candidates: seq<Tx>, archive: string -> Reply)
      returns (ok: bool, rows: map<string, nat>, skipped: nat)
      ensures ok == Readable(candidates, archive)
      ensures ok ==> rows == Rows(candidates, archive) && skipped == Nulls(candidates, archive)
    {
      hide Rows, Nulls;
      NoRows(archive);
      rows, skipped := map[], 0;
      assert candidates[..0] == [];
      for i := 0 to |candidates|
        invariant rows == Rows(candidates[..i], archive) && skipped == Nulls(candidates[..i], archive)
        invariant forall j | 0 <= j < i :: !archive(candidates[j].hash).Unreadable?
      {
        RowsSnoc(candidates, archive, i);
        match archive(candidates[i].hash) {
          case Unreadable =>
            assert candidates[i] in candidates;
            return false, rows, skipped;
          case Null => skipped := skipped + 1;
          case Receipt(fee) => if candidates[i].hash !in rows { rows := rows[candidates[i].hash := fee]; }
        }
      }
      assert candidates[..|candidates|] == candidates;
      return true, rows, skipped;
    }
  }

  /** What an iteration leaves, by case. */
  lemma IterateIs(txs: seq<Tx>, s: State, archive: string -> Reply, limit: nat)
    ensures var cs := Candidates(txs, s, limit);
      && (cs == [] ==> Iterate(txs, s, archive, limit) == s && Readable(cs, archive) && Nulls(cs, archive) == 0)
      && (!Readable(cs, archive) ==> Iterate(txs, s, archive, limit) == s)
      && (cs != [] && Readable(cs, archive) ==>
          Iterate(txs, s, archive, limit) ==
          State(Rows(cs, archive) + s.stored, Max(s.checkpoint, cs[|cs| - 1].block)))
  {
    hide Candidates, Rows;
  }

  lemma InsertGrows(rows: map<string, nat>, stored: map<string, nat>)
    ensures |rows + stored| >= |stored|
  {
    assert (rows + stored).Keys == stored.Keys + (rows.Keys - stored.Keys);
  }

  lemma NoRows(archive: string -> Reply)
    ensures Rows([], archive) == map[] && Nulls([], archive) == 0
  {
  }
}
