/** Buffered outcome writes (crates/livepeer-valuator/src/bulk.rs) over the outcome tables
    and the single-row guarded insert beside them (crates/livepeer-valuator/src/persist.rs).
    Whatever the flush points, the tables end as if every push had been committed alone. */
module Bulk {
  import opened Wrappers
  import opened OnConflict
  import opened Watermark

  const FLUSH_THRESHOLD: nat := 500

  const DETERMINISM_VIOLATION: string := "failed_determinism_violation"

  datatype Valuation = Valuation(
    pricingMethod: string,
    source: string,
    status: string,
    amountNative: real,
    nativeUsdPrice: Option<real>,
    amountUsd: Option<real>)

  datatype Attempt = Attempt(status: string, detail: Option<string>)

  datatype PriceKey = PriceKey(asset: Asset, quote: string, block: int, source: string)

  // ---------------------------------------------------------------------------
  // Ranking a chunk of attempts
  // ---------------------------------------------------------------------------

  type AttemptRow = (Slot, Attempt)

  predicate StringAtMost(a: string, b: string) {
    a == "" || (b != "" && (a[0] < b[0] || (a[0] == b[0] && StringAtMost(a[1..], b[1..]))))
  }

  /** The order of one key's rows in a chunk: by status, then by detail with NULL first. */
  predicate AtMost(a: Attempt, b: Attempt) {
    if a.status != b.status then StringAtMost(a.status, b.status)
    else a.detail.None? || (b.detail.Some? && StringAtMost(a.detail.value, b.detail.value))
  }

  function InsertRanked(row: AttemptRow, ranked: seq<AttemptRow>): seq<AttemptRow> {
    if |ranked| == 0 || AtMost(ranked[|ranked| - 1].1, row.1) then ranked + [row]
    else InsertRanked(row, ranked[..|ranked| - 1]) + [ranked[|ranked| - 1]]
  }

  function Ranked(chunk: seq<AttemptRow>): seq<AttemptRow> {
    if |chunk| == 0 then [] else InsertRanked(chunk[|chunk| - 1], Ranked(chunk[..|chunk| - 1]))
  }

  predicate InRank(rows: seq<AttemptRow>) {
    forall i, j | 0 <= i < j < |rows| :: AtMost(rows[i].1, rows[j].1)
  }

  lemma {:induction false} StringOrder(a: string, b: string, c: string)
    ensures StringAtMost(a, b) || StringAtMost(b, a)
    ensures StringAtMost(a, b) && StringAtMost(b, c) ==> StringAtMost(a, c)
    ensures StringAtMost(a, b) && StringAtMost(b, a) ==> a == b
    decreases |a|
  {
    if a != "" && b != "" {
      StringOrder(a[1..], b[1..], if c == "" then "" else c[1..]);
      if a[0] == b[0] && a[1..] == b[1..] { assert a == [a[0]] + a[1..] && b == [b[0]] + b[1..]; }
    }
  }

  lemma AttemptOrder(a: Attempt, b: Attempt, c: Attempt)
    ensures AtMost(a, b) || AtMost(b, a)
    ensures AtMost(a, b) && AtMost(b, c) ==> AtMost(a, c)
  {
    hide StringAtMost;
    StringOrder(a.status, b.status, c.status);
    StringOrder(b.status, c.status, a.status);
    StringOrder(c.status, a.status, b.status);
    if a.detail.Some? && b.detail.Some? {
      StringOrder(a.detail.value, b.detail.value, if c.detail.Some? then c.detail.value else "");
    }
  }

  lemma {:induction false} InsertInRank(row: AttemptRow, ranked: seq<AttemptRow>)
    requires InRank(ranked)
    ensures InRank(InsertRanked(row, ranked))
    ensures forall r :: r in InsertRanked(row, ranked) <==> r == row || r in ranked
  {
    hide AtMost;
    var n := |ranked| - 1;
    if |ranked| == 0 || AtMost(ranked[n].1, row.1) {
      forall i | 0 <= i < |ranked| ensures AtMost(ranked[i].1, row.1) {
        AttemptOrder(ranked[i].1, ranked[n].1, row.1);
      }
    } else {
      AttemptOrder(ranked[n].1, row.1, row.1);
      InsertInRank(row, ranked[..n]);
      var front := InsertRanked(row, ranked[..n]);
      forall i | 0 <= i < |front| ensures AtMost(front[i].1, ranked[n].1) {
        assert front[i] in front;
        assert front[i] == row || exists j | 0 <= j < n :: ranked[j] == front[i];
      }
    }
  }

  /** The ranks follow the query's order. */
  lemma {:induction false} RankedInOrder(chunk: seq<AttemptRow>)
    ensures InRank(Ranked(chunk))
  {
    if |chunk| > 0 {
      RankedInOrder(chunk[..|chunk| - 1]);
      InsertInRank(chunk[|chunk| - 1], Ranked(chunk[..|chunk| - 1]));
    }
  }

  /** The attempts offered for a key, in order. */
  function ForKey(rows: seq<AttemptRow>, slot: Slot): seq<Attempt> {
    if |rows| == 0 then []
    else ForKey(rows[..|rows| - 1], slot) + (if rows[|rows| - 1].0 == slot then [rows[|rows| - 1].1] else [])
  }

  lemma ForKeySnoc(rows: seq<AttemptRow>, row: AttemptRow, slot: Slot)
    ensures ForKey(rows + [row], slot) == ForKey(rows, slot) + (if row.0 == slot then [row.1] else [])
  {
    assert (rows + [row])[..|rows|] == rows;
  }

  lemma {:induction false} ForKeyConcat(a: seq<AttemptRow>, b: seq<AttemptRow>, slot: Slot)
    ensures ForKey(a + b, slot) == ForKey(a, slot) + ForKey(b, slot)
  {
    if |b| == 0 {
      assert a + b == a;
    } else {
      var n := |b| - 1;
      ForKeyConcat(a, b[..n], slot);
      assert (a + b)[..|a| + n] == a + b[..n];
    }
  }

  lemma {:induction false} InsertKeeps(row: AttemptRow, ranked: seq<AttemptRow>, slot: Slot)
    ensures multiset(ForKey(InsertRanked(row, ranked), slot)) ==
      multiset(ForKey(ranked, slot) + if row.0 == slot then [row.1] else [])
  {
    if |ranked| == 0 || AtMost(ranked[|ranked| - 1].1, row.1) {
      ForKeySnoc(ranked, row, slot);
    } else {
      var n := |ranked| - 1;
      InsertKeeps(row, ranked[..n], slot);
      ForKeySnoc(InsertRanked(row, ranked[..n]), ranked[n], slot);
    }
  }

  /** Ranking reorders a key's attempts and loses none. */
  lemma {:induction false} RankedKeeps(chunk: seq<AttemptRow>, slot: Slot)
    ensures multiset(ForKey(Ranked(chunk), slot)) == multiset(ForKey(chunk, slot))
  {
    if |chunk| > 0 {
      var n := |chunk| - 1;
      RankedKeeps(chunk[..n], slot);
      InsertKeeps(chunk[n], Ranked(chunk[..n]), slot);
    }
  }

  // ---------------------------------------------------------------------------
  // What the ranking means
  // ---------------------------------------------------------------------------

  /** The order of strings: a prefix first, otherwise by the first character that differs. */
  lemma {:induction false} StringAtMostMeans(a: string, b: string)
    ensures StringAtMost(a, b) <==>
      a <= b || exists k :: 0 <= k < |a| && k < |b| && a[..k] == b[..k] && a[k] < b[k]
  {
    if a == "" {
      assert a <= b;
    } else if b != "" {
      StringAtMostMeans(a[1..], b[1..]);
      SameHead(a, b);
    }
  }

  lemma SamePrefix(a: string, b: string, k: nat)
    requires k < |a| && k < |b| && a[0] == b[0]
    ensures a[1..][..k] == b[1..][..k] <==> a[..k + 1] == b[..k + 1]
  {
    var x, y := a[1..][..k], b[1..][..k];
    assert a[..k + 1] == [a[0]] + x && b[..k + 1] == [b[0]] + y;
    assert a[..k + 1][1..] == x && b[..k + 1][1..] == y;
  }

  lemma SameHead(a: string, b: string)
    requires a != "" && b != ""
    ensures a <= b <==> a[0] == b[0] && a[1..] <= b[1..]
    ensures (exists k :: 0 <= k < |a| && k < |b| && a[..k] == b[..k] && a[k] < b[k]) <==>
      || a[0] < b[0]
      || (a[0] == b[0]
          && exists k :: 0 <= k < |a[1..]| && k < |b[1..]| && a[1..][..k] == b[1..][..k] && a[1..][k] < b[1..][k])
  {
    if a[0] == b[0] && a[1..] <= b[1..] { assert a == [a[0]] + a[1..] && b == [b[0]] + b[1..]; }
    if a <= b { assert a[0] == b[0] && a[1..] <= b[1..]; }
    if a[0] < b[0] { assert a[..0] == b[..0]; }
    forall k | 0 <= k < |a[1..]| && k < |b[1..]| && a[0] == b[0]
      ensures a[1..][..k] == b[1..][..k] <==> a[..k + 1] == b[..k + 1]
    {
      SamePrefix(a, b, k);
    }
    if k :| 0 <= k < |a| && k < |b| && a[..k] == b[..k] && a[k] < b[k] && k > 0 {
      assert a[0] == a[..k][0] == b[0];
      assert 0 <= k - 1 < |a[1..]| && k - 1 < |b[1..]|;
    }
  }

  /** Attempts are ranked by status first, and within a status by detail, without one first. */
  lemma AtMostMeans(a: Attempt, b: Attempt)
    ensures a.status != b.status ==> (AtMost(a, b) <==> StringAtMost(a.status, b.status))
    ensures a.status == b.status ==>
      (AtMost(a, b) <==> a == b || match a.detail
         case None => b.detail.Some?
         case Some(x) => match b.detail case Some(y) => StringAtMost(x, y) case None => false)
  {
    if a.detail.Some? { StringOrder(a.detail.value, a.detail.value, a.detail.value); }
  }

  /** The order in which a flush numbers its attempts: each chunk of them ranked on its own. */
  function Chunked(rows: seq<AttemptRow>): seq<AttemptRow>
    decreases |rows|
  {
    if |rows| <= FLUSH_THRESHOLD then Ranked(rows)
    else Ranked(rows[..FLUSH_THRESHOLD]) + Chunked(rows[FLUSH_THRESHOLD..])
  }

  /** Every five hundred rows, as buffered, come out together and in rank order. */
  lemma {:induction false} ChunkedMeans(rows: seq<AttemptRow>, k: nat)
    requires 500 * k <= |rows|
    ensures |Chunked(rows)| == |rows| && multiset(Chunked(rows)[..500 * k]) == multiset(rows[..500 * k])
    ensures InRank(Chunked(rows)[500 * k..ChunkEnd(rows, k)])
    decreases |rows|
  {
    hide Ranked, InRank;
    if |rows| <= 500 {
      LastChunk(rows, k);
    } else {
      var first, rest := Ranked(rows[..500]), Chunked(rows[500..]);
      RankedAll(rows[..500]);
      RankedInOrder(rows[..500]);
      ChunkedMeans(rows[500..], if k == 0 then 0 else k - 1);
      hide Chunked;
      if k == 0 { Shifted(first, rest, 0, 0); } else { LaterChunk(first, rest, rows, k); }
    }
  }

  lemma LaterChunk(first: seq<AttemptRow>, rest: seq<AttemptRow>, rows: seq<AttemptRow>, k: nat)
    requires 0 < k && 500 * k <= |rows| && |first| == 500 && |rest| == |rows| - 500
    requires multiset(first) == multiset(rows[..500])
    requires multiset(rest[..500 * (k - 1)]) == multiset(rows[500..][..500 * (k - 1)])
    requires InRank(rest[500 * (k - 1)..ChunkEnd(rows[500..], k - 1)])
    ensures multiset((first + rest)[..500 * k]) == multiset(rows[..500 * k])
    ensures InRank((first + rest)[500 * k..ChunkEnd(rows, k)])
  {
    hide InRank;
    var n := 500 * (k - 1);
    Shifted(first, rest, n, ChunkEnd(rows[500..], k - 1));
    Shifted(rows[..500], rows[500..], n, n);
    assert rows == rows[..500] + rows[500..];
  }

  function ChunkEnd(rows: seq<AttemptRow>, k: nat): nat { if 500 * k + 500 < |rows| then 500 * k + 500 else |rows| }

  lemma LastChunk(rows: seq<AttemptRow>, k: nat)
    requires 500 * k <= |rows| <= 500
    ensures |Chunked(rows)| == |rows| && multiset(Chunked(rows)[..500 * k]) == multiset(rows[..500 * k])
    ensures InRank(Chunked(rows)[500 * k..ChunkEnd(rows, k)])
  {
    hide Ranked;
    RankedAll(rows);
    RankedInOrder(rows);
    assert Ranked(rows)[0..|rows|] == Ranked(rows) == Ranked(rows)[..|rows|] && rows[..|rows|] == rows;
  }

  lemma Shifted(first: seq<AttemptRow>, rest: seq<AttemptRow>, n: nat, end: nat)
    requires |first| == 500 && n <= end <= |rest|
    ensures (first + rest)[..500 + n] == first + rest[..n] && (first + rest)[500 + n..500 + end] == rest[n..end]
    ensures (first + rest)[0..500] == first
  {
  }

  lemma {:induction false} RankedAll(chunk: seq<AttemptRow>)
    ensures |Ranked(chunk)| == |chunk| && multiset(Ranked(chunk)) == multiset(chunk)
  {
    if |chunk| > 0 {
      var n := |chunk| - 1;
      RankedAll(chunk[..n]);
      InsertOne(chunk[n], Ranked(chunk[..n]));
      assert chunk == chunk[..n] + [chunk[n]];
    }
  }

  lemma {:induction false} InsertOne(row: AttemptRow, ranked: seq<AttemptRow>)
    ensures |InsertRanked(row, ranked)| == |ranked| + 1
    ensures multiset(InsertRanked(row, ranked)) == multiset(ranked) + multiset{row}
  {
    hide AtMost;
    if |ranked| > 0 {
      var n := |ranked| - 1;
      InsertOne(row, ranked[..n]);
      assert ranked == ranked[..n] + [ranked[n]];
    }
  }

  // ---------------------------------------------------------------------------
  // The outcome tables
  // ---------------------------------------------------------------------------

  type Log = map<(Slot, nat), Attempt>

  predicate IsHighest(log: Log, slot: Slot, n: nat) {
    (n == 0 || (slot, n) in log) && forall key | key in log && key.0 == slot :: key.1 <= n
  }

  /** The attempt log holds exactly the numbers 1..n of each key's history. */
  ghost predicate Numbered(log: Log, history: Slot -> seq<Attempt>) {
    && (forall slot, n | (slot, n) in log :: 1 <= n <= |history(slot)| && log[(slot, n)] == history(slot)[n - 1])
    && (forall slot, n: nat | 1 <= n <= |history(slot)| :: (slot, n) in log)
  }

  lemma HighestIsLength(log: Log, history: Slot -> seq<Attempt>, slot: Slot, n: nat)
    requires Numbered(log, history) && IsHighest(log, slot, n)
    ensures n == |history(slot)|
  {
    if |history(slot)| > 0 { assert (slot, |history(slot)|) in log; }
  }

  method MaxAttempt(log: Log, slot: Slot) returns (n: nat)
    ensures IsHighest(log, slot, n)
  {
    n := 0;
    var keys := log.Keys;
    while keys != {}
      invariant keys <= log.Keys
      invariant n == 0 || (slot, n) in log
      invariant forall key | key in log && key.0 == slot && key !in keys :: key.1 <= n
    {
      var key :| key in keys;
      keys := keys - {key};
      if key.0 == slot && n < key.1 { n := key.1; }
    }
  }

  ghost function Extend(history: Slot -> seq<Attempt>, rows: seq<AttemptRow>): Slot -> seq<Attempt> {
    slot => history(slot) + ForKey(rows, slot)
  }

  lemma NumberedSnoc(log: Log, h: Slot -> seq<Attempt>, h': Slot -> seq<Attempt>, slot: Slot, attempt: Attempt)
    requires Numbered(log, h)
    requires h'(slot) == h(slot) + [attempt] && forall s | s != slot :: h'(s) == h(s)
    ensures (slot, |h(slot)| + 1) !in log && Numbered(log[(slot, |h(slot)| + 1) := attempt], h')
  {
    var log' := log[(slot, |h(slot)| + 1) := attempt];
    forall s, n: nat | 1 <= n <= |h'(s)| ensures (s, n) in log' {
      if s != slot || n <= |h(slot)| { assert 1 <= n <= |h(s)| && (s, n) in log; }
    }
    forall s, n | (s, n) in log' ensures 1 <= n <= |h'(s)| && log'[(s, n)] == h'(s)[n - 1] {
      if (s, n) in log { assert 1 <= n <= |h(s)| && log[(s, n)] == h(s)[n - 1]; }
    }
  }

  predicate Ranks(ranks: map<Slot, nat>, rows: seq<AttemptRow>, slot: Slot) {
    (if slot in ranks then ranks[slot] else 0) == |ForKey(rows, slot)|
  }

  lemma ExtendSnoc(history: Slot -> seq<Attempt>, ranked: seq<AttemptRow>, i: nat, slot: Slot)
    requires i < |ranked|
    ensures ForKey(ranked[..i + 1], slot) ==
      ForKey(ranked[..i], slot) + (if ranked[i].0 == slot then [ranked[i].1] else [])
    ensures Extend(history, ranked[..i + 1])(slot) ==
      Extend(history, ranked[..i])(slot) + (if ranked[i].0 == slot then [ranked[i].1] else [])
  {
    hide ForKey;
    assert ranked[..i + 1] == ranked[..i] + [ranked[i]];
    ForKeySnoc(ranked[..i], ranked[i], slot);
  }

  /** How one checked insert ended. */
  datatype Determinism = Inserted | Idempotent | Violation

  function Logged(r: Determinism, v: Valuation, diff: string): seq<Attempt> {
    match r
    case Inserted => [Attempt(v.status, None)]
    case Idempotent => []
    case Violation => [Attempt("failed_determinism_violation", Some(diff))]
  }

  class Database {
    var valuations: map<Slot, Valuation>
    var prices: map<PriceKey, real>
    var attempts: Log
    ghost var history: Slot -> seq<Attempt>

    ghost predicate Valid()
      reads this
    {
      Numbered(attempts, history)
    }

    constructor ()
      ensures Valid() && valuations == map[] && prices == map[] && forall slot :: history(slot) == []
    {
      valuations, prices, attempts := map[], map[], map[];
      history := slot => [];
    }

    method InsertValuations(rows: seq<(Slot, Valuation)>)
      modifies this`valuations
      ensures valuations == FirstWins(old(valuations), rows)
    {
      for i := 0 to |rows|
        invariant valuations == FirstWins(old(valuations), rows[..i])
      {
        assert rows[..i + 1][..i] == rows[..i];
        if rows[i].0 !in valuations { valuations := valuations[rows[i].0 := rows[i].1]; }
      }
      assert rows[..|rows|] == rows;
    }

    method InsertPrices(rows: seq<(PriceKey, real)>)
      modifies this`prices
      ensures prices == FirstWins(old(prices), rows)
    {
      for i := 0 to |rows|
        invariant prices == FirstWins(old(prices), rows[..i])
      {
        assert rows[..i + 1][..i] == rows[..i];
        if rows[i].0 !in prices { prices := prices[rows[i].0 := rows[i].1]; }
      }
      assert rows[..|rows|] == rows;
    }

    /** One chunk: every row is numbered by its key's stored maximum plus its rank among
        the chunk's rows of that key. The conflict clause never has anything to do. */
    method InsertAttempts(chunk: seq<AttemptRow>)
      requires Valid()
      modifies this`attempts, this`history
      ensures Valid()
      ensures forall slot :: history(slot) == old(history)(slot) + ForKey(Ranked(chunk), slot)
    {
      hide Ranked, ForKey, Numbered, IsHighest, Extend;
      var ranked := Ranked(chunk);
      var stored := attempts;
      ghost var before := history;
      var ranks: map<Slot, nat> := map[];
      NothingRanked(attempts, before);
      assert ranked[..0] == [];
      history := Extend(before, ranked[..0]);
      for i := 0 to |ranked|
        invariant history == Extend(before, ranked[..i])
        invariant Numbered(attempts, Extend(before, ranked[..i]))
        invariant forall slot :: Ranks(ranks, ranked[..i], slot)
      {
        var row := ranked[i];
        var rank := (if row.0 in ranks then ranks[row.0] else 0) + 1;
        var highest := MaxAttempt(stored, row.0);
        HighestIsLength(stored, before, row.0, highest);
        forall slot
          ensures ForKey(ranked[..i + 1], slot) == ForKey(ranked[..i], slot) + (if row.0 == slot then [row.1] else [])
          ensures Extend(before, ranked[..i + 1])(slot) ==
            Extend(before, ranked[..i])(slot) + (if row.0 == slot then [row.1] else [])
        {
          ExtendSnoc(before, ranked, i, slot);
        }
        assert Ranks(ranks, ranked[..i], row.0);
        ExtendIs(before, ranked[..i], row.0);
        NumberedSnoc(attempts, Extend(before, ranked[..i]), Extend(before, ranked[..i + 1]), row.0, row.1);
        if (row.0, highest + rank) !in attempts {
          attempts := attempts[(row.0, highest + rank) := row.1];
        }
        ghost var ranksBefore := ranks;
        ranks := ranks[row.0 := rank];
        ghost var done := ranked[..i + 1];
        history := Extend(before, done);
        forall slot ensures Ranks(ranks, done, slot) { assert Ranks(ranksBefore, ranked[..i], slot); }
      }
      assert ranked[..|ranked|] == ranked;
      forall slot ensures history(slot) == before(slot) + ForKey(ranked, slot) { ExtendIs(before, ranked, slot); }
    }

    /** The single-row insert: the key's next number. */
    method InsertAttempt(slot: Slot, attempt: Attempt)
      requires Valid()
      modifies this`attempts, this`history
      ensures Valid()
      ensures forall s :: history(s) == old(history)(s) + if s == slot then [attempt] else []
    {
      var highest := MaxAttempt(attempts, slot);
      HighestIsLength(attempts, history, slot, highest);
      if (slot, highest + 1) !in attempts {
        attempts := attempts[(slot, highest + 1) := attempt];
      }
      ghost var before := history;
      history := s => before(s) + if s == slot then [attempt] else [];
      NumberedSnoc(old(attempts), before, history, slot, attempt);
    }

    /** The determinism guard: the stored row always survives, and one attempt is logged
        for an insert or a disagreement, none for a match. */
    method InsertValuationChecked(slot: Slot, v: Valuation, diff: string) returns (r: Determinism)
      requires Valid()
      modifies this`valuations, this`attempts, this`history
      ensures Valid()
      ensures valuations == FirstWins(old(valuations), [(slot, v)])
      ensures r ==
        if slot !in old(valuations) then Inserted else if old(valuations)[slot] == v then Idempotent else Violation
      ensures forall s :: history(s) == old(history)(s) + (if s == slot then Logged(r, v, diff) else [])
    {
      assert [(slot, v)][..0] == [];
      if slot in valuations {
        if valuations[slot] == v {
          return Idempotent;
        }
        InsertAttempt(slot, Attempt(DETERMINISM_VIOLATION, Some(diff)));
        return Violation;
      }
      InsertValuations([(slot, v)]);
      InsertAttempt(slot, Attempt(v.status, None));
      return Inserted;
    }
  }

  lemma NothingRanked(log: Log, history: Slot -> seq<Attempt>)
    requires Numbered(log, history)
    ensures Numbered(log, Extend(history, [])) && forall slot :: Ranks(map[], [], slot)
  {
    assert forall slot :: Extend(history, [])(slot) == history(slot);
  }

  lemma ExtendIs(history: Slot -> seq<Attempt>, rows: seq<AttemptRow>, slot: Slot)
    ensures Extend(history, rows)(slot) == history(slot) + ForKey(rows, slot)
  {
  }

  // ---------------------------------------------------------------------------
  // The buffers
  // ---------------------------------------------------------------------------

  class BulkBuffers {
    var valuations: seq<(Slot, Valuation)>
    var attempts: seq<AttemptRow>
    var prices: seq<(PriceKey, real)>

    constructor ()
      ensures Pending() == 0
    {
      valuations, attempts, prices := [], [], [];
    }

    function Pending(): nat
      reads this
    {
      |valuations| + |attempts| + |prices|
    }

    method PushPrice(key: PriceKey, price: real)
      modifies this`prices
      ensures prices == old(prices) + [(key, price)]
    {
      prices := prices + [(key, price)];
    }

    method PushPriced(slot: Slot, v: Valuation)
      modifies this`valuations, this`attempts
      ensures valuations == old(valuations) + [(slot, v)]
      ensures attempts == old(attempts) + [(slot, Attempt(v.status, None))]
    {
      valuations := valuations + [(slot, v)];
      attempts := attempts + [(slot, Attempt(v.status, None))];
    }

    method PushFailedOutcome(slot: Slot, pricingMethod: string, source: string, amountNative: real, status: string,
                             detail: string)
      modifies this`valuations, this`attempts
      ensures valuations ==
        old(valuations) + [(slot, Valuation(pricingMethod, source, status, amountNative, None, None))]
      ensures attempts == old(attempts) + [(slot, Attempt(status, Some(detail)))]
    {
      valuations := valuations + [(slot, Valuation(pricingMethod, source, status, amountNative, None, None))];
      attempts := attempts + [(slot, Attempt(status, Some(detail)))];
    }

    /** What the valuation table will hold once everything buffered is flushed. */
    function Valuations(db: Database): map<Slot, Valuation>
      reads this, db
    {
      FirstWins(db.valuations, valuations)
    }

    function Prices(db: Database): map<PriceKey, real>
      reads this, db
    {
      FirstWins(db.prices, prices)
    }

    /** The attempts a key will have, stored or buffered. */
    ghost function Attempts(db: Database, slot: Slot): multiset<Attempt>
      reads this, db
    {
      multiset(db.history(slot) + ForKey(attempts, slot))
    }

    method MaybeFlush(db: Database)
      requires db.Valid()
      modifies this, db
      ensures db.Valid()
      ensures Valuations(db) == old(Valuations(db)) && Prices(db) == old(Prices(db))
      ensures forall slot :: Attempts(db, slot) == old(Attempts(db, slot)) && old(db.history)(slot) <= db.history(slot)
      ensures |valuations| < 500 && |attempts| < 500 && |prices| < 500
      ensures old(|valuations| < 500 && |attempts| < 500 && |prices| < 500) ==> unchanged(this) && unchanged(db)
    {
      if |valuations| >= FLUSH_THRESHOLD || |attempts| >= FLUSH_THRESHOLD || |prices| >= FLUSH_THRESHOLD {
        Flush(db);
      }
    }

    method Flush(db: Database)
      requires db.Valid()
      modifies this, db
      ensures db.Valid() && Pending() == 0
      ensures db.valuations == Valuations(db) == old(Valuations(db))
      ensures db.prices == Prices(db) == old(Prices(db))
      ensures forall slot :: multiset(db.history(slot)) == Attempts(db, slot) == old(Attempts(db, slot))
      ensures forall slot :: db.history(slot) == old(db.history)(slot) + ForKey(Chunked(old(attempts)), slot)
    {
      hide FirstWins, ForKey, Numbered, Chunked;
      NothingBuffered(db);
      NoChunks();
      forall slot ensures multiset(ForKey(Chunked(attempts), slot)) == multiset(ForKey(attempts, slot)) {
        ChunkedKeeps(attempts, slot);
      }
      if valuations != [] {
        var rows := valuations;
        valuations := [];
        FlushValuations(db, rows);
      }
      if prices != [] {
        var rows := prices;
        prices := [];
        FlushPrices(db, rows);
      }
      if attempts != [] {
        var rows := attempts;
        attempts := [];
        FlushAttempts(db, rows);
      }
      NothingBuffered(db);
    }
  }

  lemma NothingBuffered(db: Database)
    ensures FirstWins(db.valuations, []) == db.valuations && FirstWins(db.prices, []) == db.prices
    ensures forall slot :: ForKey([], slot) == [] && db.history(slot) + [] == db.history(slot)
  {
  }

  lemma NoChunks()
    ensures Chunked([]) == []
  {
  }

  method FlushValuations(db: Database, rows: seq<(Slot, Valuation)>)
    modifies db`valuations
    ensures db.valuations == FirstWins(old(db.valuations), rows)
  {
    var i := 0;
    while i < |rows|
      invariant i <= |rows|
      invariant db.valuations == FirstWins(old(db.valuations), rows[..i])
    {
      var next := if i + FLUSH_THRESHOLD < |rows| then i + FLUSH_THRESHOLD else |rows|;
      FirstWinsConcat(old(db.valuations), rows[..i], rows[i..next]);
      assert rows[..i] + rows[i..next] == rows[..next];
      db.InsertValuations(rows[i..next]);
      i := next;
    }
    assert rows[..|rows|] == rows;
  }

  method FlushPrices(db: Database, rows: seq<(PriceKey, real)>)
    modifies db`prices
    ensures db.prices == FirstWins(old(db.prices), rows)
  {
    var i := 0;
    while i < |rows|
      invariant i <= |rows|
      invariant db.prices == FirstWins(old(db.prices), rows[..i])
    {
      var next := if i + FLUSH_THRESHOLD < |rows| then i + FLUSH_THRESHOLD else |rows|;
      FirstWinsConcat(old(db.prices), rows[..i], rows[i..next]);
      assert rows[..i] + rows[i..next] == rows[..next];
      db.InsertPrices(rows[i..next]);
      i := next;
    }
    assert rows[..|rows|] == rows;
  }

  method FlushAttempts(db: Database, rows: seq<AttemptRow>)
    requires db.Valid()
    modifies db`attempts, db`history
    ensures db.Valid()
    ensures forall slot :: db.history(slot) == old(db.history)(slot) + ForKey(Chunked(rows), slot)
  {
    hide Ranked, ForKey, Numbered, Chunked;
    var i := 0;
    ghost var done: seq<AttemptRow> := [];
    NothingBuffered(db);
    assert rows[0..] == rows && [] + Chunked(rows) == Chunked(rows);
    while i < |rows|
      invariant i <= |rows|
      invariant db.Valid()
      invariant done + Chunked(rows[i..]) == Chunked(rows)
      invariant forall slot :: db.history(slot) == old(db.history)(slot) + ForKey(done, slot)
    {
      var next := if i + FLUSH_THRESHOLD < |rows| then i + FLUSH_THRESHOLD else |rows|;
      NextChunk(rows, i, next);
      ghost var chunk := Ranked(rows[i..next]);
      db.InsertAttempts(rows[i..next]);
      forall slot ensures ForKey(done + chunk, slot) == ForKey(done, slot) + ForKey(chunk, slot) {
        ForKeyConcat(done, chunk, slot);
      }
      done := done + chunk;
      i := next;
    }
    NextChunk(rows, |rows|, |rows|);
    assert done + [] == done;
  }

  lemma NextChunk(rows: seq<AttemptRow>, i: nat, next: nat)
    requires i <= |rows| && next == if i + FLUSH_THRESHOLD < |rows| then i + FLUSH_THRESHOLD else |rows|
    ensures Chunked(rows[i..]) == Ranked(rows[i..next]) + Chunked(rows[next..])
    ensures i == |rows| ==> Chunked(rows[i..]) == []
  {
    if next == |rows| {
      assert rows[i..next] == rows[i..] && rows[next..] == [];
    } else {
      assert rows[i..][..FLUSH_THRESHOLD] == rows[i..next] && rows[i..][FLUSH_THRESHOLD..] == rows[next..];
    }
  }

  /** Numbering loses none of a key's attempts, whatever the chunks. */
  lemma {:induction false} ChunkedKeeps(rows: seq<AttemptRow>, slot: Slot)
    ensures multiset(ForKey(Chunked(rows), slot)) == multiset(ForKey(rows, slot))
    decreases |rows|
  {
    hide Ranked, ForKey;
    if |rows| <= FLUSH_THRESHOLD {
      RankedKeeps(rows, slot);
    } else {
      var first, rest := rows[..FLUSH_THRESHOLD], rows[FLUSH_THRESHOLD..];
      RankedKeeps(first, slot);
      ChunkedKeeps(rest, slot);
      ForKeyConcat(Ranked(first), Chunked(rest), slot);
      ForKeyConcat(first, rest, slot);
      assert first + rest == rows;
    }
  }
}
