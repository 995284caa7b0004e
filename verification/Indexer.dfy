/** The chunked log backfill (crates/livepeer-indexer/src/backfill.rs) and the loop that
    drives it (crates/livepeer-daemon/src/supervisor.rs): one contract's checkpoint, its
    stored events and dead letters, and the adaptive, retrying walk over a block range. */
module Indexer {
  import opened Checkpoints
  import opened Wrappers
  import opened OnConflict

  const DEFAULT_BATCH_BLOCKS: nat := 5000
  const MAX_BATCH_BLOCKS: nat := 9000
  const MIN_BATCH_BLOCKS: nat := 100
  const MAX_RETRIES_PER_CHUNK: nat := 50
  const HEAD_DEPTH_BLOCKS: nat := 10
  const PER_TICK_BLOCKS: nat := 1000

  /** What dispatching a log comes to. */
  datatype Verdict = Decoded | FailedStrict | FailedLenient | UnknownTopic

  datatype Key = Key(tx: string, index: int)

  datatype Log = Log(key: Key, block: nat, verdict: Verdict)

  // ---------------------------------------------------------------------------
  // The contract's store
  // ---------------------------------------------------------------------------

  datatype Store = Store(events: map<Key, Log>, deadLetters: map<Key, Log>, checkpoint: Option<nat>)

  const EMPTY: Store := Store(map[], map[], None)

  function AdvanceBlock(cp: Option<nat>, block: nat): Option<nat> {
    Some(if cp.Some? then Max(cp.value, block) else block)
  }

  /** eth_getLogs over a block range. */
  function InRange(chain: seq<Log>, from: nat, to: nat): seq<Log> {
    if |chain| == 0 then []
    else
      var n := |chain| - 1;
      InRange(chain[..n], from, to) + (if from <= chain[n].block <= to then [chain[n]] else [])
  }

  function Prepared(logs: seq<Log>): seq<(Key, Log)> {
    if |logs| == 0 then []
    else
      var n := |logs| - 1;
      Prepared(logs[..n]) + (if logs[n].verdict.Decoded? then [(logs[n].key, logs[n])] else [])
  }

  function Rejected(logs: seq<Log>): seq<(Key, Log)> {
    if |logs| == 0 then []
    else
      var n := |logs| - 1;
      Rejected(logs[..n])
        + (if logs[n].verdict.FailedLenient? || logs[n].verdict.UnknownTopic? then [(logs[n].key, logs[n])] else [])
  }

  predicate AnyStrict(logs: seq<Log>) { exists l :: l in logs && l.verdict.FailedStrict? }

  /** One committed chunk: events, dead letters and checkpoint together. */
  function Commit(s: Store, logs: seq<Log>, end: nat): Store {
    Store(FirstWins(s.events, Prepared(logs)), FirstWins(s.deadLetters, Rejected(logs)),
          AdvanceBlock(s.checkpoint, end))
  }

  /** How far the checkpoint reaches when scanning starts at genesis. */
  function Reach(s: Store, genesis: nat): int { if s.checkpoint.Some? then s.checkpoint.value else genesis - 1 }

  predicate UniqueKeys(chain: seq<Log>) {
    forall i, j | 0 <= i < j < |chain| :: chain[i].key != chain[j].key
  }

  predicate StoredOnce(s: Store, l: Log) {
    match l.verdict
    case Decoded => l.key in s.events && s.events[l.key] == l && l.key !in s.deadLetters
    case FailedStrict => false
    case _ => l.key in s.deadLetters && s.deadLetters[l.key] == l && l.key !in s.events
  }

  /** Nothing is stored but the chain's own logs up to the checkpoint. */
  ghost predicate NothingBeyond(s: Store, chain: seq<Log>, genesis: nat) {
    && (forall k | k in s.events ::
          && s.events[k].key == k && s.events[k] in chain && s.events[k].verdict.Decoded?
          && genesis <= s.events[k].block <= Reach(s, genesis))
    && (forall k | k in s.deadLetters :: s.deadLetters[k].key == k && s.deadLetters[k] in chain
          && (s.deadLetters[k].verdict.FailedLenient? || s.deadLetters[k].verdict.UnknownTopic?)
         && genesis <= s.deadLetters[k].block <= Reach(s, genesis))
  }

  /** Every log up to the checkpoint is stored exactly once, as an event or a dead letter;
      so none of them failed to decode strictly. */
  predicate NoGap(s: Store, chain: seq<Log>, genesis: nat) {
    forall l | l in chain && genesis <= l.block <= Reach(s, genesis) :: StoredOnce(s, l)
  }

  ghost predicate Sound(s: Store, chain: seq<Log>, genesis: nat) {
    UniqueKeys(chain) && Reach(s, genesis) >= genesis - 1 && NothingBeyond(s, chain, genesis)
      && NoGap(s, chain, genesis)
  }

  lemma {:induction false} InRangeAre(chain: seq<Log>, from: nat, to: nat)
    ensures forall l :: l in InRange(chain, from, to) <==> l in chain && from <= l.block <= to
  {
    if |chain| > 0 {
      var n := |chain| - 1;
      InRangeAre(chain[..n], from, to);
      assert chain == chain[..n] + [chain[n]];
    }
  }

  lemma {:induction false} PreparedAre(logs: seq<Log>)
    ensures forall row :: row in Prepared(logs) <==> row.1 in logs && row.1.verdict.Decoded? && row.0 == row.1.key
    ensures forall row :: row in Rejected(logs) <==>
        row.1 in logs && (row.1.verdict.FailedLenient? || row.1.verdict.UnknownTopic?) && row.0 == row.1.key
  {
    if |logs| > 0 {
      var n := |logs| - 1;
      PreparedAre(logs[..n]);
      assert logs == logs[..n] + [logs[n]];
    }
  }

  lemma SameKeySameLog(chain: seq<Log>, a: Log, b: Log)
    requires UniqueKeys(chain) && a in chain && b in chain && a.key == b.key
    ensures a == b
  {
    var i :| 0 <= i < |chain| && chain[i] == a;
    var j :| 0 <= j < |chain| && chain[j] == b;
  }

  /** What a first-wins insert of rows named by their own key leaves. */
  lemma InsertedAre(table: map<Key, Log>, rows: seq<(Key, Log)>, k: Key)
    ensures var after := FirstWins(table, rows);
      && (k in table ==> k in after && after[k] == table[k])
      && (k in after && k !in table ==> (k, after[k]) in rows)
      && (k !in after ==> forall l :: (k, l) !in rows)
  {
    FirstWinsIs(table, rows, k);
    forall l ensures (k, l) in rows ==> exists i :: 0 <= i < |rows| && rows[i].0 == k {
      if (k, l) in rows {
        var i :| 0 <= i < |rows| && rows[i] == (k, l);
        assert rows[i].0 == k;
      }
    }
  }

  /** No log lies strictly between the checkpoint and the chunk. */
  predicate NoHole(s: Store, chain: seq<Log>, genesis: nat, from: nat) {
    forall l | l in chain :: !(Reach(s, genesis) < l.block < from)
  }

  /** Committing a chunk keeps the store sound if and only if the chunk leaves no log
      behind between the checkpoint and its own start. */
  lemma CommitExactly(s: Store, chain: seq<Log>, genesis: nat, from: nat, to: nat)
    requires Sound(s, chain, genesis) && genesis <= from <= to
    requires !AnyStrict(InRange(chain, from, to))
    ensures Sound(Commit(s, InRange(chain, from, to), to), chain, genesis) <==> NoHole(s, chain, genesis, from)
    ensures Reach(Commit(s, InRange(chain, from, to), to), genesis) ==
      if Reach(s, genesis) < to then to else Reach(s, genesis)
  {
    hide FirstWins, InRange, Prepared, Rejected, StoredOnce, UniqueKeys, NoGap, NothingBeyond, AnyStrict;
    var logs := InRange(chain, from, to);
    var after := Commit(s, logs, to);
    CommitStoresOnly(s, chain, genesis, from, to);
    forall l | l in chain && genesis <= l.block <= Reach(after, genesis)
      ensures StoredOnce(after, l) <==> !(Reach(s, genesis) < l.block < from)
    {
      CommitStores(s, chain, genesis, from, to, l);
    }
    GapOrNot(s, after, chain, genesis, from);
  }

  lemma GapOrNot(s: Store, after: Store, chain: seq<Log>, genesis: nat, from: nat)
    requires forall l | l in chain && genesis <= l.block <= Reach(after, genesis) ::
      StoredOnce(after, l) <==> !(Reach(s, genesis) < l.block < from)
    requires Reach(s, genesis) >= genesis - 1 && from - 1 <= Reach(after, genesis)
    ensures NoGap(after, chain, genesis) <==> NoHole(s, chain, genesis, from)
  {
    hide StoredOnce;
  }

  lemma CommitStoresOnly(s: Store, chain: seq<Log>, genesis: nat, from: nat, to: nat)
    requires Sound(s, chain, genesis) && genesis <= from <= to
    ensures NothingBeyond(Commit(s, InRange(chain, from, to), to), chain, genesis)
  {
    hide FirstWins, InRange, Prepared, Rejected, StoredOnce, UniqueKeys;
    var logs := InRange(chain, from, to);
    var after := Commit(s, logs, to);
    InRangeAre(chain, from, to);
    PreparedAre(logs);
    forall k | k in after.events
      ensures after.events[k].key == k && after.events[k] in chain && after.events[k].verdict.Decoded?
      ensures genesis <= after.events[k].block <= Reach(after, genesis)
    {
      InsertedAre(s.events, Prepared(logs), k);
    }
    forall k | k in after.deadLetters
      ensures after.deadLetters[k].key == k && after.deadLetters[k] in chain
      ensures after.deadLetters[k].verdict.FailedLenient? || after.deadLetters[k].verdict.UnknownTopic?
      ensures genesis <= after.deadLetters[k].block <= Reach(after, genesis)
    {
      InsertedAre(s.deadLetters, Rejected(logs), k);
    }
  }

  /** A log within reach ends up stored exactly once unless the chunk jumped over it. */
  lemma CommitStores(s: Store, chain: seq<Log>, genesis: nat, from: nat, to: nat, l: Log)
    requires Sound(s, chain, genesis) && genesis <= from <= to
    requires !AnyStrict(InRange(chain, from, to))
    requires var after := Commit(s, InRange(chain, from, to), to);
      l in chain && genesis <= l.block <= Reach(after, genesis)
    ensures StoredOnce(Commit(s, InRange(chain, from, to), to), l) <==> !(Reach(s, genesis) < l.block < from)
  {
    hide FirstWins, InRange, Prepared, Rejected, UniqueKeys;
    var logs := InRange(chain, from, to);
    var after := Commit(s, logs, to);
    InRangeAre(chain, from, to);
    PreparedAre(logs);
    InsertedAre(s.events, Prepared(logs), l.key);
    InsertedAre(s.deadLetters, Rejected(logs), l.key);
    if l.key in after.events {
      assert after.events[l.key] in chain;
      SameKeySameLog(chain, l, after.events[l.key]);
    }
    if l.key in after.deadLetters {
      assert after.deadLetters[l.key] in chain;
      SameKeySameLog(chain, l, after.deadLetters[l.key]);
    }
    assert (l.key, l) in Prepared(logs) <==> l in logs && l.verdict.Decoded?;
    assert (l.key, l) in Rejected(logs) <==> l in logs && (l.verdict.FailedLenient? || l.verdict.UnknownTopic?);
    assert l in logs ==> !l.verdict.FailedStrict?;
  }

  /** From the empty store, a chunk that starts past the checkpoint leaves the log between
      them out for good: the next scan resumes after it. */
  lemma SkippedLogExample()
    ensures var early := Log(Key("a", 0), 5, Decoded);
      var after := Commit(EMPTY, InRange([early], 10, 20), 20);
      && Sound(EMPTY, [early], 0)
      && !Sound(after, [early], 0)
      && early.key !in after.events && early.key !in after.deadLetters && early.block <= Reach(after, 0)
  {
    var early := Log(Key("a", 0), 5, Decoded);
    assert [early][..0] == [];
    assert InRange([early], 10, 20) == [];
    assert early in [early];
    assert !StoredOnce(Commit(EMPTY, [], 20), early);
  }

  // ---------------------------------------------------------------------------
  // What a drive over a range looks like
  // ---------------------------------------------------------------------------

  datatype Error = StrictHalt | Remote(transient: bool)

  predicate IsTransient(e: Error) { e == Remote(true) }

  /** What the provider and the database answer to one chunk. A commit may land although
      its acknowledgement is lost. */
  datatype Reply = Answered | Broken(transient: bool) | Unacknowledged(transient: bool)

  datatype Attempt = Attempt(start: nat, end: nat, error: Option<Error>)

  /** Each attempt starts where the last success ended; `next` is where the following one
      would start. */
  predicate Tiles(trace: seq<Attempt>, from: nat, next: nat) {
    if |trace| == 0 then next == from
    else
      var last := trace[|trace| - 1];
      Tiles(trace[..|trace| - 1], from, last.start) && next == if last.error.None? then last.end + 1 else last.start
  }

  /** How many attempts in a row have just failed, all at the same start. */
  function Streak(trace: seq<Attempt>): nat {
    if |trace| == 0 || trace[|trace| - 1].error.None? then 0 else 1 + Streak(trace[..|trace| - 1])
  }

  function Successes(trace: seq<Attempt>): nat {
    if |trace| == 0 then 0
    else Successes(trace[..|trace| - 1]) + if trace[|trace| - 1].error.None? then 1 else 0
  }

  /** Every request lies in the range and spans at most 9000 blocks, and at least 100
      unless it ends the range. */
  predicate WithinLimits(trace: seq<Attempt>, to: nat) {
    forall i | 0 <= i < |trace| ::
      && trace[i].start <= trace[i].end <= to
      && trace[i].end - trace[i].start + 1 <= 9000
      && (trace[i].end < to ==> trace[i].end - trace[i].start + 1 >= 100)
  }

  /** How many blocks the next request asks for: 5000 at first, twice as many after a success
      up to 9000, half as many after a failure down to 100. */
  function BatchAfter(trace: seq<Attempt>): nat {
    if |trace| == 0 then 5000
    else
      var batch := BatchAfter(trace[..|trace| - 1]);
      if trace[|trace| - 1].error.None? then Min(2 * batch, 9000) else Max(batch / 2, 100)
  }

  /** A request spans the batch or what is left of the range, and ends as its reply and its
      logs make it end. */
  predicate IsRequest(a: Attempt, batch: nat, chain: seq<Log>, to: nat, reply: Reply) {
    a.end == Min(a.start + batch - 1, to) && a.error == ChunkError(chain, a.start, a.end, reply)
  }

  predicate Requests(trace: seq<Attempt>, chain: seq<Log>, to: nat, replies: nat -> Reply) {
    forall i | 0 <= i < |trace| :: IsRequest(trace[i], BatchAfter(trace[..i]), chain, to, replies(i))
  }

  /** What every drive over a range does: its successes tile the range from the start, within
      the limits, with the batch sizes and the answers it got, and it stops in time. */
  predicate Drives(trace: seq<Attempt>, chain: seq<Log>, from: nat, next: nat, to: nat, replies: nat -> Reply) {
    Tiles(trace, from, next) && WithinLimits(trace, to) && StopsInTime(trace) && Requests(trace, chain, to, replies)
  }

  /** The store after the attempts of a drive, each on the store the one before it left. */
  function StoreAfter(s: Store, chain: seq<Log>, trace: seq<Attempt>, replies: nat -> Reply): Store {
    if |trace| == 0 then s
    else
      var n := |trace| - 1;
      AfterChunk(StoreAfter(s, chain, trace[..n], replies), chain, trace[n].start, trace[n].end, replies(n))
  }

  lemma RequestsSnoc(trace: seq<Attempt>, a: Attempt, chain: seq<Log>, to: nat, replies: nat -> Reply)
    requires Requests(trace, chain, to, replies)
    requires IsRequest(a, BatchAfter(trace), chain, to, replies(|trace|))
    ensures Requests(trace + [a], chain, to, replies)
  {
    hide IsRequest, BatchAfter;
    var longer := trace + [a];
    forall i | 0 <= i < |longer| ensures IsRequest(longer[i], BatchAfter(longer[..i]), chain, to, replies(i)) {
      if i == |trace| {
        assert longer[..i] == trace;
      } else {
        assert longer[..i] == trace[..i] && longer[i] == trace[i];
      }
    }
  }

  lemma BatchSnoc(trace: seq<Attempt>, a: Attempt)
    ensures BatchAfter(trace + [a]) == if a.error.None? then Min(2 * BatchAfter(trace), 9000)
      else Max(BatchAfter(trace) / 2, 100)
  {
    assert (trace + [a])[..|trace|] == trace;
  }

  lemma StoreSnoc(s: Store, chain: seq<Log>, trace: seq<Attempt>, a: Attempt, replies: nat -> Reply)
    ensures StoreAfter(s, chain, trace + [a], replies) ==
      AfterChunk(StoreAfter(s, chain, trace, replies), chain, a.start, a.end, replies(|trace|))
  {
    hide AfterChunk;
    assert (trace + [a])[..|trace|] == trace;
  }

  /** No attempt follows a failure that is final: one that is not transient, or the
      fiftieth in a row. */
  predicate StopsInTime(trace: seq<Attempt>) {
    forall i | 0 <= i < |trace| ::
      Streak(trace[..i]) < 50
        && (i > 0 && trace[i - 1].error.Some? ==> trace[i - 1].error == Some(Remote(true)))
  }

  lemma TraceSnoc(trace: seq<Attempt>, a: Attempt)
    ensures Streak(trace + [a]) == if a.error.None? then 0 else 1 + Streak(trace)
    ensures Successes(trace + [a]) == Successes(trace) + if a.error.None? then 1 else 0
    ensures forall from, next ::
      Tiles(trace + [a], from, next) <==>
      Tiles(trace, from, a.start) && next == if a.error.None? then a.end + 1 else a.start
  {
    assert (trace + [a])[..|trace|] == trace;
  }

  lemma StopsSnoc(trace: seq<Attempt>, a: Attempt)
    requires StopsInTime(trace) && Streak(trace) < MAX_RETRIES_PER_CHUNK
    requires |trace| > 0 && trace[|trace| - 1].error.Some? ==> IsTransient(trace[|trace| - 1].error.value)
    ensures StopsInTime(trace + [a])
  {
    var longer := trace + [a];
    forall i | 0 <= i < |longer|
      ensures Streak(longer[..i]) < MAX_RETRIES_PER_CHUNK
        && (i > 0 && longer[i - 1].error.Some? ==> IsTransient(longer[i - 1].error.value))
    {
      assert longer[..i] == trace[..i];
      if i == |trace| { assert trace[..i] == trace; }
    }
  }

  lemma {:induction false} AttemptsPerChunk(trace: seq<Attempt>)
    requires StopsInTime(trace)
    ensures |trace| <= MAX_RETRIES_PER_CHUNK * Successes(trace) + Streak(trace)
  {
    if |trace| > 0 {
      var n := |trace| - 1;
      assert forall i | 0 <= i <= n :: trace[..n][..i] == trace[..i];
      assert StopsInTime(trace[..n]);
      AttemptsPerChunk(trace[..n]);
      assert Streak(trace[..n]) < MAX_RETRIES_PER_CHUNK;
    }
  }

  lemma {:induction false} ChunksCover(trace: seq<Attempt>, from: nat, next: nat, to: nat)
    requires Tiles(trace, from, next) && WithinLimits(trace, to)
    ensures from <= next && (|trace| > 0 ==> next <= to + 1)
    ensures next <= to ==> MIN_BATCH_BLOCKS * Successes(trace) <= next - from
    ensures |trace| > 0 && next == to + 1 ==> MIN_BATCH_BLOCKS * Successes(trace) <= to - from + MIN_BATCH_BLOCKS
  {
    if |trace| > 0 {
      var n := |trace| - 1;
      assert WithinLimits(trace[..n], to) by { assert forall i | 0 <= i < n :: trace[..n][i] == trace[i]; }
      ChunksCover(trace[..n], from, trace[n].start, to);
    }
  }

  /** Any drive over n blocks makes at most fifty times ceil(n / 100) attempts. */
  lemma AttemptsBounded(trace: seq<Attempt>, from: nat, next: nat, to: nat)
    requires Tiles(trace, from, next) && WithinLimits(trace, to) && StopsInTime(trace)
    requires from <= to && Streak(trace) <= MAX_RETRIES_PER_CHUNK
    ensures |trace| <= MAX_RETRIES_PER_CHUNK * ((to - from + 1 + 99) / 100)
  {
    hide StopsInTime, WithinLimits;
    AttemptsPerChunk(trace);
    ChunksCover(trace, from, next, to);
    var k := (to - from + 1 + 99) / 100;
    if next == to + 1 && |trace| > 0 {
      FinishedStreak(trace, from, to);
      assert Successes(trace) <= k;
    } else {
      assert Successes(trace) + 1 <= k;
    }
  }

  lemma FinishedStreak(trace: seq<Attempt>, from: nat, to: nat)
    requires |trace| > 0 && Tiles(trace, from, to + 1) && WithinLimits(trace, to)
    ensures Streak(trace) == 0
  {
  }

  lemma DrivesSnoc(trace: seq<Attempt>, a: Attempt, chain: seq<Log>, from: nat, to: nat, replies: nat -> Reply)
    requires Drives(trace, chain, from, a.start, to, replies) && a.start <= to
    requires IsRequest(a, BatchAfter(trace), chain, to, replies(|trace|)) && Streak(trace) < 50
    requires |trace| > 0 && trace[|trace| - 1].error.Some? ==> IsTransient(trace[|trace| - 1].error.value)
    ensures Drives(trace + [a], chain, from, if a.error.None? then a.end + 1 else a.start, to, replies)
    ensures Streak(trace + [a]) == if a.error.None? then 0 else 1 + Streak(trace)
    ensures Successes(trace + [a]) == Successes(trace) + if a.error.None? then 1 else 0
    ensures BatchAfter(trace + [a]) == if a.error.None? then Min(2 * BatchAfter(trace), 9000)
      else Max(BatchAfter(trace) / 2, 100)
  {
    hide Tiles, WithinLimits, StopsInTime, Requests, Streak, Successes, BatchAfter, ChunkError, Cap;
    BatchShrinks(trace);
    RequestsSnoc(trace, a, chain, to, replies);
    BatchSnoc(trace, a);
    TraceSnoc(trace, a);
    StopsSnoc(trace, a);
    LimitsSnoc(trace, to, a);
  }

  lemma DriveEnds(trace: seq<Attempt>, chain: seq<Log>, from: nat, next: nat, to: nat, replies: nat -> Reply)
    requires Drives(trace, chain, from, next, to, replies) && from <= to && Streak(trace) <= 50
    ensures |trace| <= 50 * ((to - from + 1 + 99) / 100)
    ensures |trace| > 0 && next == to + 1 ==> Streak(trace) == 0
  {
    hide Tiles, WithinLimits, StopsInTime, Requests, Streak;
    AttemptsBounded(trace, from, next, to);
    if |trace| > 0 && next == to + 1 { FinishedStreak(trace, from, to); }
  }

  // ---------------------------------------------------------------------------
  // The driver
  // ---------------------------------------------------------------------------

  datatype ChunkSummary = ChunkSummary(logsSeen: nat, eventsInserted: nat, deadLettered: nat)

  datatype DriveSummary = DriveSummary(chunks: nat, logsSeen: nat, eventsInserted: nat, deadLettered: nat,
                                       finalBatchSize: nat)

  /** The store after a chunk was attempted. */
  function AfterChunk(s: Store, chain: seq<Log>, start: nat, end: nat, reply: Reply): Store {
    if reply.Broken? || AnyStrict(InRange(chain, start, end)) then s else Commit(s, InRange(chain, start, end), end)
  }

  function ChunkError(chain: seq<Log>, start: nat, end: nat, reply: Reply): Option<Error> {
    match reply
    case Broken(transient) => Some(Remote(transient))
    case _ =>
      if AnyStrict(InRange(chain, start, end)) then Some(StrictHalt)
      else if reply.Unacknowledged? then Some(Remote(reply.transient)) else None
  }

  lemma LogsSnoc(logs: seq<Log>, i: nat)
    requires i < |logs|
    ensures Prepared(logs[..i + 1]) ==
      Prepared(logs[..i]) + if logs[i].verdict.Decoded? then [(logs[i].key, logs[i])] else []
    ensures Rejected(logs[..i + 1]) == Rejected(logs[..i]) +
      if logs[i].verdict.FailedLenient? || logs[i].verdict.UnknownTopic? then [(logs[i].key, logs[i])] else []
    ensures AnyStrict(logs[..i + 1]) <==> AnyStrict(logs[..i]) || logs[i].verdict.FailedStrict?
  {
    assert logs[..i + 1][..i] == logs[..i];
    assert logs[..i + 1] == logs[..i] + [logs[i]];
    assert logs[i] in logs[..i + 1];
  }

  lemma NoneStrict()
    ensures !AnyStrict([])
  {
  }

  method InsertRows(table: map<Key, Log>, rows: seq<(Key, Log)>) returns (after: map<Key, Log>, inserted: nat)
    ensures after == FirstWins(table, rows) && |after| == |table| + inserted
  {
    after, inserted := table, 0;
    for i := 0 to |rows|
      invariant after == FirstWins(table, rows[..i]) && |after| == |table| + inserted
    {
      assert rows[..i + 1][..i] == rows[..i];
      if rows[i].0 !in after {
        after := after[rows[i].0 := rows[i].1];
        inserted := inserted + 1;
      }
    }
    assert rows[..|rows|] == rows;
  }

  /** What is stored stays, and what is new lies within the blocks. */
  predicate GrewWithin(before: Store, after: Store, from: int, to: int) {
    && (forall k | k in before.events :: k in after.events && after.events[k] == before.events[k])
    && (forall k | k in before.deadLetters :: k in after.deadLetters && after.deadLetters[k] == before.deadLetters[k])
    && (forall k | k in after.events && k !in before.events :: from <= after.events[k].block <= to)
    && (forall k | k in after.deadLetters && k !in before.deadLetters :: from <= after.deadLetters[k].block <= to)
  }

  lemma ChunkGrows(s: Store, chain: seq<Log>, start: nat, end: nat, reply: Reply)
    ensures GrewWithin(s, AfterChunk(s, chain, start, end, reply), start, end)
  {
    hide FirstWins, InRange, Prepared, Rejected, AnyStrict;
    var logs := InRange(chain, start, end);
    var after := Commit(s, logs, end);
    InRangeAre(chain, start, end);
    PreparedAre(logs);
    forall k ensures k in s.events ==> k in after.events && after.events[k] == s.events[k]
      ensures k in after.events && k !in s.events ==> start <= after.events[k].block <= end
      ensures k in s.deadLetters ==> k in after.deadLetters && after.deadLetters[k] == s.deadLetters[k]
      ensures k in after.deadLetters && k !in s.deadLetters ==> start <= after.deadLetters[k].block <= end
    {
      InsertedAre(s.events, Prepared(logs), k);
      InsertedAre(s.deadLetters, Rejected(logs), k);
    }
  }

  lemma GrewOn(a: Store, b: Store, c: Store, from: int, start: int, end: int, to: int)
    requires GrewWithin(a, b, from, to) && GrewWithin(b, c, start, end) && from <= start && end <= to
    ensures GrewWithin(a, c, from, to)
  {
  }

  /** The checkpoint has not gone back nor past the range, and what is new lies in it. */
  predicate Advanced(before: Store, after: Store, genesis: nat, from: int, to: int) {
    && Reach(before, genesis) <= Reach(after, genesis) <= Max(Reach(before, genesis), to)
    && GrewWithin(before, after, from, to)
  }

  lemma NotYetAdvanced(s: Store, genesis: nat, from: int, to: int)
    ensures Advanced(s, s, genesis, from, to)
  {
  }

  lemma ChunkAdvances(origin: Store, s: Store, chain: seq<Log>, genesis: nat, from: int, start: nat, end: nat, to: int,
                      reply: Reply)
    requires Sound(s, chain, genesis) && genesis <= start <= Reach(s, genesis) + 1 && from <= start <= end <= to
    requires Advanced(origin, s, genesis, from, to)
    ensures var after := AfterChunk(s, chain, start, end, reply);
      && Sound(after, chain, genesis) && Advanced(origin, after, genesis, from, to)
      && start <= Reach(after, genesis) + 1
      && (ChunkError(chain, start, end, reply).None? ==> end <= Reach(after, genesis))
  {
    hide Sound, AfterChunk, ChunkError, GrewWithin;
    ChunkKeeps(s, chain, genesis, start, end, reply);
    ChunkGrows(s, chain, start, end, reply);
    GrewOn(origin, s, AfterChunk(s, chain, start, end, reply), from, start, end, to);
  }

  /** How many logs lie in the blocks scanned so far. */
  function Seen(chain: seq<Log>, from: nat, at: nat): nat { if at <= from then 0 else |InRange(chain, from, at - 1)| }

  lemma {:induction false} SeenSnoc(chain: seq<Log>, from: nat, at: nat, end: nat)
    requires from <= at <= end
    ensures Seen(chain, from, end + 1) == Seen(chain, from, at) + |InRange(chain, at, end)|
  {
    if |chain| > 0 { SeenSnoc(chain[..|chain| - 1], from, at, end); }
  }

  lemma SeenAll(chain: seq<Log>, from: nat, to: nat)
    ensures from <= to ==> Seen(chain, from, to + 1) == |InRange(chain, from, to)|
  {
  }

  /** What a drive counted as inserted is what the tables gained, except that it does not count
      what a lost acknowledgement hid. */
  predicate Counts(summary: DriveSummary, before: Store, after: Store, acknowledged: bool) {
    && |before.events| + summary.eventsInserted <= |after.events|
    && |before.deadLetters| + summary.deadLettered <= |after.deadLetters|
    && (acknowledged ==>
        && |before.events| + summary.eventsInserted == |after.events|
        && |before.deadLetters| + summary.deadLettered == |after.deadLetters|)
  }

  lemma NothingCounted(s: Store, acknowledged: bool)
    ensures Counts(DriveSummary(0, 0, 0, 0, 0), s, s, acknowledged)
  {
  }

  lemma CountsSnoc(summary: DriveSummary, origin: Store, before: Store, after: Store, inserted: nat, dead: nat,
                   more: DriveSummary, acknowledged: bool)
    requires Counts(summary, origin, before, acknowledged)
    requires more.eventsInserted == summary.eventsInserted + inserted
    requires more.deadLettered == summary.deadLettered + dead
    requires |before.events| + inserted <= |after.events| && |before.deadLetters| + dead <= |after.deadLetters|
    requires acknowledged ==>
      |before.events| + inserted == |after.events| && |before.deadLetters| + dead == |after.deadLetters|
    ensures Counts(more, origin, after, acknowledged)
  {
  }

  class Driver {
    const chain: seq<Log>
    const genesis: nat
    var store: Store

    constructor (chain: seq<Log>, genesis: nat)
      requires UniqueKeys(chain)
      ensures this.chain == chain && this.genesis == genesis && store == EMPTY && Valid()
    {
      this.chain, this.genesis, this.store := chain, genesis, EMPTY;
    }

    ghost predicate Valid()
      reads this
    {
      Sound(store, chain, genesis)
    }

    /** One chunk: all of it is committed, or nothing is. */
    method BackfillChunk(start: nat, end: nat, reply: Reply) returns (r: Result<ChunkSummary, Error>)
      modifies this`store
      ensures store == AfterChunk(old(store), chain, start, end, reply)
      ensures ChunkError(chain, start, end, reply) == if r.Failure? then Some(r.error) else None
      ensures r.Success? ==>
        && r.value.logsSeen == |InRange(chain, start, end)|
        && |store.events| == |old(store).events| + r.value.eventsInserted
        && |store.deadLetters| == |old(store).deadLetters| + r.value.deadLettered
      ensures |old(store).events| <= |store.events| && |old(store).deadLetters| <= |store.deadLetters|
      ensures r.Failure? && !reply.Unacknowledged? ==> store == old(store)
    {
      hide InRange, FirstWins, AnyStrict;
      if reply.Broken? { return Failure(Remote(reply.transient)); }
      var logs := InRange(chain, start, end);
      var prepared: seq<(Key, Log)> := [];
      var deadLetters: seq<(Key, Log)> := [];
      var strictFailures := 0;
      NoneStrict();
      assert logs[..0] == [];
      for i := 0 to |logs|
        invariant prepared == Prepared(logs[..i]) && deadLetters == Rejected(logs[..i])
        invariant strictFailures > 0 <==> AnyStrict(logs[..i])
        invariant store == old(store)
      {
        LogsSnoc(logs, i);
        match logs[i].verdict {
          case Decoded => prepared := prepared + [(logs[i].key, logs[i])];
          case FailedStrict => strictFailures := strictFailures + 1;
          case FailedLenient => deadLetters := deadLetters + [(logs[i].key, logs[i])];
          case UnknownTopic => deadLetters := deadLetters + [(logs[i].key, logs[i])];
        }
      }
      assert logs[..|logs|] == logs;
      if strictFailures > 0 { return Failure(StrictHalt); }
      var events, eventsInserted := InsertRows(store.events, prepared);
      var dead, deadInserted := InsertRows(store.deadLetters, deadLetters);
      store := Store(events, dead, AdvanceBlock(store.checkpoint, end));
      if reply.Unacknowledged? { return Failure(Remote(reply.transient)); }
      return Success(ChunkSummary(|logs|, eventsInserted, deadInserted));
    }

    /** Walk the range in chunks: halve and retry on transient failures, double after a
        success, halt on anything else. */
    method DriveBackfill(from: nat, to: nat, replies: nat -> Reply)
      returns (r: Result<DriveSummary, Error>, ghost trace: seq<Attempt>, ghost next: nat)
      requires Valid() && genesis <= from <= Reach(store, genesis) + 1
      modifies this`store
      ensures Valid() && Advanced(old(store), store, genesis, from, to)
      ensures Drives(trace, chain, from, next, to, replies) && store == StoreAfter(old(store), chain, trace, replies)
      ensures r.Success? ==> next == Max(from, to + 1) && Streak(trace) == 0
      ensures r.Success? ==> Reach(store, genesis) >= to && r.value.chunks == Successes(trace)
      ensures r.Failure? ==> |trace| > 0 && trace[|trace| - 1].error == Some(r.error)
      ensures r.Failure? && r.error == Remote(true) ==> Streak(trace) == 50
      ensures r.Success? && from <= to ==>
        && r.value.logsSeen == |InRange(chain, from, to)| && r.value.finalBatchSize == BatchAfter(trace)
      ensures r.Success? ==> Counts(r.value, old(store), store, forall i :: !replies(i).Unacknowledged?)
      ensures from > to ==> r == Success(DriveSummary(0, 0, 0, 0, 0)) && store == old(store)
      ensures from <= to ==> |trace| <= 50 * ((to - from + 1 + 99) / 100)
    {
      hide Sound, AfterChunk, ChunkError, Streak, Successes, Advanced, Drives, StoreAfter, BatchAfter, Seen, Counts,
        InRange, Cap, FirstWins, Commit, AdvanceBlock, AnyStrict, UniqueKeys;
      SeenAll(chain, from, to);
      ghost var acknowledged := forall i :: !replies(i).Unacknowledged?;
      NothingCounted(store, acknowledged);
      StartOfTrace(store, chain, from, to, replies);
      NotYetAdvanced(store, genesis, from, to);
      trace, next := [], from;
      var summary := DriveSummary(0, 0, 0, 0, 0);
      if to < from { return Success(summary), trace, next; }
      var currentBatch := DEFAULT_BATCH_BLOCKS;
      var at := from;
      var retriesInARow := 0;
      var attempts := 0;
      while at <= to
        invariant Valid() && Advanced(old(store), store, genesis, from, to)
        invariant from <= at <= Reach(store, genesis) + 1 && at <= to + 1
        invariant currentBatch == BatchAfter(trace)
        invariant next == at && Drives(trace, chain, from, at, to, replies)
        invariant store == StoreAfter(old(store), chain, trace, replies)
        invariant retriesInARow == Streak(trace) < MAX_RETRIES_PER_CHUNK
        invariant attempts == |trace| && (attempts == 0 ==> at == from)
        invariant summary.chunks == Successes(trace) && summary.finalBatchSize == 0
        invariant summary.logsSeen == Seen(chain, from, at)
        invariant Counts(summary, old(store), store, acknowledged)
        invariant |trace| > 0 && trace[|trace| - 1].error.Some? ==> IsTransient(trace[|trace| - 1].error.value)
        decreases 1 + to - at, MAX_RETRIES_PER_CHUNK - retriesInARow
      {
        BatchShrinks(trace);
        var chunkEnd := Min(at + currentBatch - 1, to);
        var reply := replies(attempts);
        attempts := attempts + 1;
        ghost var before := store;
        var chunk := BackfillChunk(at, chunkEnd, reply);
        ghost var attempt := Attempt(at, chunkEnd, ChunkError(chain, at, chunkEnd, reply));
        ChunkAdvances(old(store), before, chain, genesis, from, at, chunkEnd, to, reply);
        DrivesSnoc(trace, attempt, chain, from, to, replies);
        StoreSnoc(old(store), chain, trace, attempt, replies);
        SeenSnoc(chain, from, at, chunkEnd);
        trace := trace + [attempt];
        if chunk.Success? {
          ghost var so := summary;
          summary := DriveSummary(summary.chunks + 1, summary.logsSeen + chunk.value.logsSeen,
                                  summary.eventsInserted + chunk.value.eventsInserted,
                                  summary.deadLettered + chunk.value.deadLettered, 0);
          CountsSnoc(so, old(store), before, store, chunk.value.eventsInserted, chunk.value.deadLettered, summary,
                     acknowledged);
          at := chunkEnd + 1;
          next := at;
          retriesInARow := 0;
          if currentBatch < MAX_BATCH_BLOCKS { currentBatch := Min(currentBatch * 2, MAX_BATCH_BLOCKS); }
        } else if IsTransient(chunk.error) && retriesInARow >= MAX_RETRIES_PER_CHUNK {
          // The budget check before halving: the streak never gets this far.
          assert false;
        } else if IsTransient(chunk.error) && currentBatch > MIN_BATCH_BLOCKS {
          CountsSnoc(summary, old(store), before, store, 0, 0, summary, acknowledged);
          currentBatch := Max(currentBatch / 2, MIN_BATCH_BLOCKS);
          retriesInARow := retriesInARow + 1;
        } else if IsTransient(chunk.error) {
          CountsSnoc(summary, old(store), before, store, 0, 0, summary, acknowledged);
          retriesInARow := retriesInARow + 1;
          if retriesInARow >= MAX_RETRIES_PER_CHUNK {
            DriveEnds(trace, chain, from, next, to, replies);
            return Failure(chunk.error), trace, next;
          }
        } else {
          DriveEnds(trace, chain, from, next, to, replies);
          return Failure(chunk.error), trace, next;
        }
      }
      DriveEnds(trace, chain, from, next, to, replies);
      CountsSnoc(summary, old(store), store, store, 0, 0, summary.(finalBatchSize := currentBatch), acknowledged);
      return Success(summary.(finalBatchSize := currentBatch)), trace, next;
    }

    /** Where the next scan starts: past everything stored, with every requested log before it
        stored, and leaving a hole only if the request itself starts past one. */
    method ResumeFrom(requestedFrom: nat) returns (from: nat)
      requires Valid()
      ensures requestedFrom <= from && (from == requestedFrom || store.checkpoint == Some(from - 1))
      ensures forall l | l in chain && genesis <= l.block && requestedFrom <= l.block < from :: StoredOnce(store, l)
      ensures forall k | k in store.events :: store.events[k].block < from
      ensures genesis <= requestedFrom ==>
        && (NoHole(store, chain, genesis, from) <==> NoHole(store, chain, genesis, requestedFrom))
        && Reach(store, genesis) < from
        && (requestedFrom <= Reach(store, genesis) + 1 ==> from == Reach(store, genesis) + 1)
    {
      if store.checkpoint.Some? && store.checkpoint.value >= requestedFrom { return store.checkpoint.value + 1; }
      return requestedFrom;
    }

    /** One iteration of the loop: at most a thousand blocks, never within ten of the head.
        Whatever the replies, nothing is skipped, the checkpoint does not go back, and
        nothing beyond the tenth block behind the head is scanned or stored; a tick that
        succeeds with blocks to scan moves the checkpoint as far as it may. */
    method Tick(head: nat, replies: nat -> Reply) returns (r: Result<DriveSummary, Error>)
      requires Valid()
      modifies this`store
      ensures Valid() && Reach(old(store), genesis) <= Reach(store, genesis)
      ensures Reach(store, genesis) <= Reach(old(store), genesis) + 1000
      ensures Reach(store, genesis) <= Max(Reach(old(store), genesis), Max(head - 10, 0))
      ensures GrewWithin(old(store), store, Reach(old(store), genesis) + 1, Max(head - 10, 0))
      ensures r.Success? && Reach(old(store), genesis) < head - 10 ==>
        Reach(store, genesis) == Min(Reach(old(store), genesis) + 1000, head - 10)
      ensures Reach(old(store), genesis) >= Max(head - 10, 0) ==>
        r == Success(DriveSummary(0, 0, 0, 0, 0)) && store == old(store)
    {
      hide NoGap, NothingBeyond, Drives, StoreAfter;
      var to := if head < HEAD_DEPTH_BLOCKS then 0 else head - HEAD_DEPTH_BLOCKS;
      var from := ResumeFrom(genesis);
      if from > to { return Success(DriveSummary(0, 0, 0, 0, 0)); }
      var boundedTo := Min(from + PER_TICK_BLOCKS - 1, to);
      ghost var trace, next;
      r, trace, next := DriveBackfill(from, boundedTo, replies);
    }
  }

  function Cap(retries: nat): nat { if retries == 0 then MAX_BATCH_BLOCKS else Cap(retries - 1) / 2 }

  lemma {:induction false} CapShrinks(retries: nat)
    ensures retries >= 7 ==> Cap(retries) < MIN_BATCH_BLOCKS
  {
    if retries == 7 {
      assert Cap(1) == 4500 && Cap(2) == 2250 && Cap(3) == 1125 && Cap(4) == 562 && Cap(5) == 281 && Cap(6) == 140;
    } else if retries > 7 {
      CapShrinks(retries - 1);
    }
  }

  /** Each retry at least halves the batch until it is at its minimum, so the batch is at
      its minimum well before the retry budget is spent. */
  lemma {:induction false} BatchShrinks(trace: seq<Attempt>)
    ensures 100 <= BatchAfter(trace) <= 9000
    ensures BatchAfter(trace) == 100 || BatchAfter(trace) <= Cap(Streak(trace))
    ensures Streak(trace) >= 7 ==> BatchAfter(trace) == 100
  {
    if |trace| > 0 { BatchShrinks(trace[..|trace| - 1]); }
    CapShrinks(Streak(trace));
  }

  lemma StartOfTrace(s: Store, chain: seq<Log>, from: nat, to: nat, replies: nat -> Reply)
    ensures Drives([], chain, from, from, to, replies) && StoreAfter(s, chain, [], replies) == s
    ensures Streak([]) == 0 && Successes([]) == 0 && BatchAfter([]) == 5000 && Seen(chain, from, from) == 0
  {
  }

  lemma LimitsSnoc(trace: seq<Attempt>, to: nat, a: Attempt)
    requires WithinLimits(trace, to)
    requires a.start <= a.end <= to && a.end - a.start + 1 <= MAX_BATCH_BLOCKS
      && (a.end < to ==> a.end - a.start + 1 >= MIN_BATCH_BLOCKS)
    ensures WithinLimits(trace + [a], to)
  {
  }

  /** Whatever happens to a chunk that starts no later than the block after the
      checkpoint, the store stays sound and the checkpoint does not go back. */
  lemma ChunkKeeps(s: Store, chain: seq<Log>, genesis: nat, start: nat, end: nat, reply: Reply)
    requires Sound(s, chain, genesis) && genesis <= start <= Reach(s, genesis) + 1 && start <= end
    ensures var after := AfterChunk(s, chain, start, end, reply);
      && Sound(after, chain, genesis) && Reach(s, genesis) <= Reach(after, genesis) <= Max(Reach(s, genesis), end)
      && (ChunkError(chain, start, end, reply).None? ==> end <= Reach(after, genesis))
  {
    if !reply.Broken? && !AnyStrict(InRange(chain, start, end)) {
      hide InRange, Commit, AnyStrict, Sound;
      CommitExactly(s, chain, genesis, start, end);
    }
  }
}